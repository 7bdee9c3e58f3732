/** Reordering the tasks of several arms, one block after the other, so that the arms take turns. */
module ArmInterleaving {

  /** Where the `p`-th interleaved task stands in the list of blocks: arm by arm, then task by task. */
  function Source(p: nat, armCount: nat, perArm: nat): nat
    requires armCount > 0
  {
    (p % armCount) * perArm + p / armCount
  }

  /** The arm that a task of the list of blocks belongs to. */
  function ArmOf(index: nat, perArm: nat): nat
    requires perArm > 0
  {
    index / perArm
  }

  lemma DivMod(i: nat, a: nat, n: nat)
    requires a < n
    ensures (i * n + a) / n == i && (i * n + a) % n == a
  {
    var q, r := (i * n + a) / n, (i * n + a) % n;
    assert q * n + r == i * n + a;
    MulRises(q + 1, i, n);
    MulRises(i + 1, q, n);
    assert (q + 1) * n == q * n + n && (i + 1) * n == i * n + n;
  }

  lemma MulRises(x: int, y: int, n: nat)
    ensures x <= y ==> x * n <= y * n
  {
    if x <= y { MulNonNegative(y - x, n); assert (y - x) * n == y * n - x * n; }
  }

  lemma MulNonNegative(x: nat, n: nat)
    ensures x * n >= 0
  {}

  lemma SourceOf(i: nat, a: nat, armCount: nat, perArm: nat)
    requires a < armCount
    ensures Source(i * armCount + a, armCount, perArm) == a * perArm + i
  {
    DivMod(i, a, armCount);
  }

  lemma Parts(p: nat, armCount: nat, perArm: nat)
    requires p < armCount * perArm
    ensures armCount > 0 && p % armCount < armCount && p / armCount < perArm
    ensures p == (p / armCount) * armCount + p % armCount
  {
    MulRises(perArm, p / armCount, armCount);
    assert perArm * armCount == armCount * perArm;
  }

  lemma InBlock(a: nat, i: nat, armCount: nat, perArm: nat)
    requires a < armCount && i < perArm
    ensures a * perArm + i < armCount * perArm
  {
    MulRises(a + 1, armCount, perArm);
    assert (a + 1) * perArm == a * perArm + perArm;
  }

  lemma SourceBound(p: nat, armCount: nat, perArm: nat)
    requires p < armCount * perArm
    ensures armCount > 0 && Source(p, armCount, perArm) < armCount * perArm
    ensures ArmOf(Source(p, armCount, perArm), perArm) == p % armCount
    ensures Source(p, armCount, perArm) % perArm == p / armCount
  {
    Parts(p, armCount, perArm);
    InBlock(p % armCount, p / armCount, armCount, perArm);
    DivMod(p % armCount, p / armCount, perArm);
  }

  lemma SourceInjective(p: nat, q: nat, armCount: nat, perArm: nat)
    requires p < armCount * perArm && q < armCount * perArm
    requires armCount > 0 && Source(p, armCount, perArm) == Source(q, armCount, perArm)
    ensures p == q
  {
    SourceBound(p, armCount, perArm);
    SourceBound(q, armCount, perArm);
    Parts(p, armCount, perArm);
    Parts(q, armCount, perArm);
  }

  /** `r` is the interleaving of the `armCount` blocks of `perArm` tasks. */
  ghost predicate Interleaves<T>(tasks: seq<T>, armCount: nat, perArm: nat, r: seq<T>) {
    && |r| == |tasks| == armCount * perArm
    && forall p :: 0 <= p < |r| ==>
                     armCount > 0 && Source(p, armCount, perArm) < |tasks| && r[p] == tasks[Source(p, armCount, perArm)]
  }

  method Interleave<T>(tasks: seq<T>, perArm: nat) returns (interleaved: seq<T>, armCount: nat)
    requires if perArm == 0 then tasks == [] else |tasks| % perArm == 0
    ensures perArm > 0 ==> armCount == |tasks| / perArm
    ensures Interleaves(tasks, armCount, perArm, interleaved)
  {
    interleaved := [];
    armCount := if perArm == 0 then 0 else |tasks| / perArm;
    assert |tasks| == armCount * perArm;
    for i := 0 to perArm
      invariant |interleaved| == i * armCount
      invariant forall p :: 0 <= p < |interleaved| ==>
                              armCount > 0 && Source(p, armCount, perArm) < |tasks|
                              && interleaved[p] == tasks[Source(p, armCount, perArm)]
    {
      for a := 0 to armCount
        invariant |interleaved| == i * armCount + a
        invariant forall p :: 0 <= p < |interleaved| ==>
                                armCount > 0 && Source(p, armCount, perArm) < |tasks|
                                && interleaved[p] == tasks[Source(p, armCount, perArm)]
      {
        SourceOf(i, a, armCount, perArm);
        InBlock(a, i, armCount, perArm);
        interleaved := interleaved + [tasks[a * perArm + i]];
      }
      assert (i + 1) * armCount == i * armCount + armCount;
    }
    assert perArm * armCount == armCount * perArm;
  }

  // ----- a permutation -----

  ghost function Places<T>(s: seq<T>, x: T): set<int> {
    set p | 0 <= p < |s| && s[p] == x
  }

  lemma {:induction false} CountIsPlaces<T>(s: seq<T>, x: T)
    ensures multiset(s)[x] == |Places(s, x)|
    decreases |s|
  {
    if s != [] {
      var n := |s| - 1;
      CountIsPlaces(s[..n], x);
      assert s == s[..n] + [s[n]];
      if s[n] == x {
        assert Places(s, x) == Places(s[..n], x) + {n};
      } else {
        assert Places(s, x) == Places(s[..n], x);
      }
    }
  }

  /** An injection's domain is no larger than a set its values lie in. */
  lemma {:induction false} InjectionSize<A, B>(f: map<A, B>, b: set<B>)
    requires forall x :: x in f ==> f[x] in b
    requires forall x, y :: x in f && y in f && f[x] == f[y] ==> x == y
    ensures |f.Keys| <= |b|
    decreases |f.Keys|
  {
    if f.Keys != {} {
      var x :| x in f.Keys;
      var rest := f - {x};
      InjectionSize(rest, b - {f[x]});
      assert rest.Keys == f.Keys - {x};
    }
  }

  /** The interleaved task list is a permutation of the blocks. */
  lemma InterleavingIsPermutation<T>(tasks: seq<T>, armCount: nat, perArm: nat, r: seq<T>)
    requires Interleaves(tasks, armCount, perArm, r)
    ensures multiset(r) == multiset(tasks)
  {
    forall x ensures multiset(r)[x] <= multiset(tasks)[x] {
      CountIsPlaces(r, x);
      CountIsPlaces(tasks, x);
      var f := map p | p in Places(r, x) :: Source(p, armCount, perArm) as int;
      forall p, q | p in f && q in f && f[p] == f[q] ensures p == q {
        SourceInjective(p, q, armCount, perArm);
      }
      InjectionSize(f, Places(tasks, x));
      assert f.Keys == Places(r, x);
    }
    SubMultisetOfSameSize(multiset(r), multiset(tasks));
  }

  lemma SubMultisetOfSameSize<T>(a: multiset<T>, b: multiset<T>)
    requires |a| == |b| && forall x :: a[x] <= b[x]
    ensures a == b
  {
    assert a <= b;
    assert b == a + (b - a);
    assert |b - a| == 0;
  }

  // ----- the arms take turns -----

  /** Each aligned block of `armCount` tasks has one task of each arm, in the arms' order. */
  lemma EachRoundHasEveryArm(i: nat, a: nat, armCount: nat, perArm: nat)
    requires i < perArm && a < armCount
    ensures i * armCount + a < armCount * perArm
    ensures ArmOf(Source(i * armCount + a, armCount, perArm), perArm) == a
  {
    InBlock(i, a, perArm, armCount);
    assert perArm * armCount == armCount * perArm;
    SourceBound(i * armCount + a, armCount, perArm);
    DivMod(i, a, armCount);
  }

  /** Each round takes the next task of every arm. */
  lemma RoundTakesNextTasks<T>(tasks: seq<T>, armCount: nat, perArm: nat, r: seq<T>, i: nat, a: nat)
    requires Interleaves(tasks, armCount, perArm, r) && i < perArm && a < armCount
    ensures i * armCount + a < |r| && a * perArm + i < |tasks| && r[i * armCount + a] == tasks[a * perArm + i]
  {
    EachRoundHasEveryArm(i, a, armCount, perArm);
    SourceOf(i, a, armCount, perArm);
  }

  /** How many of the first `n` interleaved tasks belong to `arm`. */
  function CountOfArm(n: nat, arm: nat, armCount: nat, perArm: nat): nat
    requires armCount > 0 && perArm > 0
  {
    if n == 0 then 0
    else CountOfArm(n - 1, arm, armCount, perArm)
         + if ArmOf(Source(n - 1, armCount, perArm), perArm) == arm then 1 else 0
  }

  lemma NextDivMod(n: nat, d: nat)
    requires d > 0
    ensures if n % d == d - 1 then (n + 1) / d == n / d + 1 && (n + 1) % d == 0
            else (n + 1) / d == n / d && (n + 1) % d == n % d + 1
  {
    NextOf(n / d, n % d, d);
  }

  lemma NextOf(q: nat, r: nat, d: nat)
    requires r < d
    ensures var n := q * d + r + 1;
            if r == d - 1 then n / d == q + 1 && n % d == 0 else n / d == q && n % d == r + 1
  {
    if r == d - 1 {
      assert q * d + r + 1 == (q + 1) * d + 0;
      DivMod(q + 1, 0, d);
    } else {
      DivMod(q, r + 1, d);
    }
  }

  lemma {:induction false} CountOfArmIs(n: nat, arm: nat, armCount: nat, perArm: nat)
    requires arm < armCount && perArm > 0 && n <= armCount * perArm
    ensures CountOfArm(n, arm, armCount, perArm) == n / armCount + if arm < n % armCount then 1 else 0
    decreases n
  {
    if n == 0 {
      DivMod(0, 0, armCount);
    } else {
      CountOfArmIs(n - 1, arm, armCount, perArm);
      SourceBound(n - 1, armCount, perArm);
      NextDivMod(n - 1, armCount);
    }
  }

  /** In every prefix any two arms' counts differ by at most one. */
  lemma ArmsStayBalanced(n: nat, a: nat, b: nat, armCount: nat, perArm: nat)
    requires a < armCount && b < armCount && perArm > 0 && n <= armCount * perArm
    ensures CountOfArm(n, a, armCount, perArm) <= CountOfArm(n, b, armCount, perArm) + 1
  {
    CountOfArmIs(n, a, armCount, perArm);
    CountOfArmIs(n, b, armCount, perArm);
  }
}
