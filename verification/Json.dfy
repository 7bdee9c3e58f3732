/** JSON values, and the structural comparison of two reads of one. */
module Json {

  datatype Json =
    | Null
    | Bool(flag: bool)
    | Number(number: real)
    | String(text: string)
    | Array(items: seq<Json>)
    | Object(fields: map<string, Json>)

  /** `===` on values that are not objects; two reads never share an object. */
  predicate SamePrimitive(l: Json, r: Json) {
    match (l, r)
    case (Null, Null) => true
    case (Bool(a), Bool(b)) => a == b
    case (Number(a), Number(b)) => a == b
    case (String(a), String(b)) => a == b
    case _ => false
  }

  predicate IsContainer(j: Json) {
    j.Array? || j.Object?
  }

  /** The one inherited name that reads an object: `Object.prototype`, which has no keys of its own. */
  const PROTO := "__proto__"

  const EMPTY := Object(map[])

  /**
    `sameJson`: containers of the same kind have equally many keys, and each key of the left one reads
    the same on the right. A key that is missing on the right reads what every object inherits: an object
    without keys for `__proto__`, and a function or `undefined`, which no JSON value equals, for the others.
    */
  predicate SameJson(l: Json, r: Json)
    decreases l
  {
    if SamePrimitive(l, r) then true
    else if !IsContainer(l) || !IsContainer(r) then false
    else if l.Array? != r.Array? then false
    else if l.Array? then
      |l.items| == |r.items|
      && forall i :: 0 <= i < |l.items| ==> i < |r.items| && SameJson(l.items[i], r.items[i])
    else
      |l.fields| == |r.fields|
      && forall k :: k in l.fields ==>
                       if k in r.fields then SameJson(l.fields[k], r.fields[k])
                       else k == PROTO && SameJson(l.fields[k], EMPTY)
  }

  /** Some object in `j`, at any depth, has an object without keys under the key `__proto__`. */
  predicate HasEmptyProto(j: Json) {
    match j
    case Array(items) => exists i :: 0 <= i < |items| && HasEmptyProto(items[i])
    case Object(fields) =>
      (PROTO in fields && fields[PROTO] == EMPTY) || exists k :: k in fields && HasEmptyProto(fields[k])
    case _ => false
  }

  /** Equally many keys and one inclusion make the key sets equal. */
  lemma SameKeys(l: map<string, Json>, r: map<string, Json>)
    requires |l| == |r| && l.Keys <= r.Keys
    ensures l.Keys == r.Keys
  {
    assert |r.Keys - l.Keys| == |r.Keys| - |l.Keys|;
  }

  lemma OnlyEmptyReadsEmpty(l: Json)
    ensures SameJson(l, EMPTY) <==> l == EMPTY
  {
    if l.Object? && |l.fields| == 0 { assert l.fields == map[]; }
  }

  /** Equal values read the same, at every depth. */
  lemma {:induction false} SameJsonOfEqual(l: Json)
    ensures SameJson(l, l)
    decreases l
  {
    match l {
      case Array(items) => forall i | 0 <= i < |items| ensures SameJson(items[i], items[i]) { SameJsonOfEqual(items[i]); }
      case Object(fields) => forall k | k in fields ensures SameJson(fields[k], fields[k]) { SameJsonOfEqual(fields[k]); }
      case _ =>
    }
  }

  /** Values that read the same are equal, at every depth, where the left one has no empty `__proto__`. */
  lemma {:induction false} SameJsonIsEqual(l: Json, r: Json)
    requires SameJson(l, r) && !HasEmptyProto(l)
    ensures l == r
    decreases l
  {
    match l {
      case Array(items) =>
        forall i | 0 <= i < |items| ensures items[i] == r.items[i] { SameJsonIsEqual(items[i], r.items[i]); }
      case Object(fields) =>
        forall k | k in fields ensures k in r.fields && fields[k] == r.fields[k] {
          if k in r.fields { SameJsonIsEqual(fields[k], r.fields[k]); } else { OnlyEmptyReadsEmpty(fields[k]); }
        }
        SameKeys(fields, r.fields);
      case _ =>
    }
  }

  lemma {:induction false} Longer(keys: set<string>) returns (n: nat)
    ensures forall k :: k in keys ==> |k| < n
    decreases |keys|
  {
    if keys == {} {
      n := 0;
    } else {
      var k :| k in keys;
      n := Longer(keys - {k});
      n := if |k| < n then n else |k| + 1;
    }
  }

  lemma FreshKey(keys: set<string>) returns (k: string)
    ensures k !in keys
  {
    var n := Longer(keys);
    k := seq(n, i => 'x');
  }

  /** The same object with its empty `__proto__` under another name. */
  lemma Renamed(fields: map<string, Json>) returns (r: map<string, Json>)
    requires PROTO in fields && fields[PROTO] == EMPTY
    ensures r != fields && SameJson(Object(fields), Object(r))
  {
    var name := FreshKey(fields.Keys);
    var rest := fields - {PROTO};
    r := rest[name := EMPTY];
    RenamedSize(fields, name);
    forall k | k in fields
      ensures if k in r then SameJson(fields[k], r[k]) else k == PROTO && SameJson(fields[k], EMPTY)
    {
      SameJsonOfEqual(fields[k]);
    }
    assert PROTO !in r;
  }

  lemma RenamedSize(fields: map<string, Json>, name: string)
    requires PROTO in fields && name !in fields
    ensures |(fields - {PROTO})[name := EMPTY]| == |fields|
  {
    var rest := fields - {PROTO};
    assert rest.Keys == fields.Keys - {PROTO};
    assert rest[name := EMPTY].Keys == rest.Keys + {name};
  }

  /** A value with an empty `__proto__` reads the same as some other value. */
  lemma {:induction false} EmptyProtoConfuses(l: Json) returns (r: Json)
    requires HasEmptyProto(l)
    ensures r != l && SameJson(l, r)
    decreases l
  {
    match l {
      case Array(items) =>
        var i :| 0 <= i < |items| && HasEmptyProto(items[i]);
        var x := EmptyProtoConfuses(items[i]);
        r := Array(items[i := x]);
        forall j | 0 <= j < |items| ensures SameJson(items[j], r.items[j]) { SameJsonOfEqual(items[j]); }
        assert r.items[i] == x;
      case Object(fields) =>
        if PROTO in fields && fields[PROTO] == EMPTY {
          var other := Renamed(fields);
          r := Object(other);
        } else {
          var k :| k in fields && HasEmptyProto(fields[k]);
          var x := EmptyProtoConfuses(fields[k]);
          r := Object(fields[k := x]);
          FieldReplaced(fields, k, x);
        }
      case _ => r := Null;
    }
  }

  lemma FieldReplaced(fields: map<string, Json>, k: string, x: Json)
    requires k in fields && SameJson(fields[k], x)
    ensures SameJson(Object(fields), Object(fields[k := x]))
  {
    assert fields[k := x].Keys == fields.Keys;
    forall j | j in fields ensures SameJson(fields[j], fields[k := x][j]) { SameJsonOfEqual(fields[j]); }
  }

  /**
    Comparing with `l` holds exactly of `l` itself, if and only if no object in `l` has an empty object
    under `__proto__`.
    */
  lemma SameJsonIsEquality(l: Json)
    ensures (forall r :: SameJson(l, r) <==> l == r) <==> !HasEmptyProto(l)
  {
    SameJsonOfEqual(l);
    if HasEmptyProto(l) {
      var other := EmptyProtoConfuses(l);
      assert !(SameJson(l, other) <==> l == other);
    } else {
      forall r ensures SameJson(l, r) <==> l == r {
        if SameJson(l, r) { SameJsonIsEqual(l, r); }
      }
    }
  }

  /** Two different values that read the same. */
  lemma DifferentValuesCanReadTheSame()
    ensures var l, r := Object(map[PROTO := EMPTY]), Object(map["x" := Number(1.0)]);
            l != r && SameJson(l, r) && !SameJson(r, l)
  {
    var l, r := Object(map[PROTO := EMPTY]), Object(map["x" := Number(1.0)]);
    assert PROTO in l.fields && PROTO !in r.fields;
    assert "x" in r.fields && "x" !in l.fields;
    OnlyEmptyReadsEmpty(EMPTY);
  }
}
