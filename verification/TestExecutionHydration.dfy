/** Reopening an execution from its stored transcript and attempts. */
module TestExecutionHydration {
  import opened Wrappers
  import opened TestExecution

  datatype Entry = Entry(
    turnId: string, role: Role, content: string, messageId: Option<string>, attemptId: string, trace: Option<string>)

  datatype AttemptState = StillRunning | HasFailed | HasCompleted

  datatype Attempt = Attempt(
    sideId: string, turnId: string, attemptId: string, fence: int, state: AttemptState, failureCode: Option<string>,
    leaseExpiresAt: Option<int>)

  datatype StoredSide = StoredSide(
    id: string, revisionId: string, conversationId: Option<string>, state: Status, retryable: bool, history: seq<Entry>)

  datatype Stored = Stored(
    id: string, generation: int, state: Status, sides: seq<StoredSide>, attempts: seq<Attempt>)

  // ----- the latest attempt of each turn -----

  predicate IsAttemptOf(a: Attempt, sideId: string, turnId: string) {
    a.sideId == sideId && a.turnId == turnId
  }

  /** `attempts[i]` has the highest fence of its side's turn, and comes first of those that have it. */
  ghost predicate IsLatestAt(attempts: seq<Attempt>, sideId: string, turnId: string, i: nat) {
    && i < |attempts| && IsAttemptOf(attempts[i], sideId, turnId)
    && forall j :: 0 <= j < |attempts| && IsAttemptOf(attempts[j], sideId, turnId) ==>
                     if j < i then attempts[j].fence < attempts[i].fence else attempts[j].fence <= attempts[i].fence
  }

  ghost predicate IsLatest(attempts: seq<Attempt>, sideId: string, turnId: string, a: Attempt) {
    exists i: nat :: IsLatestAt(attempts, sideId, turnId, i) && attempts[i] == a
  }

  ghost predicate LatestByTurn(attempts: seq<Attempt>, sideId: string, latest: map<string, Attempt>) {
    && (forall t :: t in latest ==> IsLatest(attempts, sideId, t, latest[t]))
    && (forall a :: a in attempts && a.sideId == sideId ==> a.turnId in latest)
  }

  /** One more attempt replaces its turn's latest one exactly when its fence is higher. */
  lemma ExtendLatest(attempts: seq<Attempt>, attempt: Attempt, sideId: string, latest: map<string, Attempt>)
    requires LatestByTurn(attempts, sideId, latest)
    ensures LatestByTurn(attempts + [attempt], sideId,
      if attempt.sideId == sideId && (attempt.turnId !in latest || attempt.fence > latest[attempt.turnId].fence)
      then latest[attempt.turnId := attempt] else latest)
  {
    var all, n := attempts + [attempt], |attempts|;
    var replaced := attempt.sideId == sideId
      && (attempt.turnId !in latest || attempt.fence > latest[attempt.turnId].fence);
    forall t | t in latest && !(replaced && t == attempt.turnId) ensures IsLatest(all, sideId, t, latest[t]) {
      var i: nat :| IsLatestAt(attempts, sideId, t, i) && attempts[i] == latest[t];
      assert IsLatestAt(all, sideId, t, i) && all[i] == latest[t];
    }
    if replaced {
      var t := attempt.turnId;
      if t in latest { var i: nat :| IsLatestAt(attempts, sideId, t, i) && attempts[i] == latest[t]; }
      forall j | 0 <= j < n && IsAttemptOf(all[j], sideId, t) ensures all[j].fence < attempt.fence {
        assert all[j] == attempts[j] && attempts[j] in attempts;
      }
      assert IsLatestAt(all, sideId, t, n) && all[n] == attempt;
    }
  }

  method LatestAttemptByTurn(attempts: seq<Attempt>, sideId: string) returns (latest: map<string, Attempt>)
    ensures LatestByTurn(attempts, sideId, latest)
  {
    latest := map[];
    for n := 0 to |attempts|
      invariant LatestByTurn(attempts[..n], sideId, latest)
    {
      var attempt := attempts[n];
      ExtendLatest(attempts[..n], attempt, sideId, latest);
      assert attempts[..n] + [attempt] == attempts[..n + 1];
      if attempt.sideId == sideId {
        if attempt.turnId !in latest || attempt.fence > latest[attempt.turnId].fence {
          latest := latest[attempt.turnId := attempt];
        }
      }
    }
    assert attempts[..|attempts|] == attempts;
  }

  /** The turn the side's last user message opened. */
  function CurrentTurnId(history: seq<Entry>): Option<string> {
    if history == [] then None
    else if history[|history| - 1].role == User then Some(history[|history| - 1].turnId)
    else CurrentTurnId(history[..|history| - 1])
  }

  // ----- one side's messages -----

  function ToMessage(sideId: string, e: Entry): Message {
    var id := if e.messageId.Some? then e.messageId.value
              else sideId + "-" + e.turnId + "-" + (if e.role == User then "user" else "assistant") + "-" + e.attemptId;
    Message(id, e.role, e.content, Done, e.turnId, e.attemptId,
            if e.role == Assistant then e.messageId else None,
            if e.role == Assistant then e.trace else None)
  }

  function Placeholder(sideId: string, a: Attempt): Message {
    Message(sideId + "-" + a.turnId + "-" + a.attemptId, Assistant,
            if a.state == HasFailed then "Test failed: " + a.failureCode.GetOr("unknown") else "",
            if a.state == HasFailed then Broken else Streaming,
            a.turnId, a.attemptId, None, None)
  }

  predicate IsUnfinished(a: Attempt, isCurrent: bool) {
    a.state == HasFailed || (a.state == StillRunning && isCurrent)
  }

  predicate EndsTurn(history: seq<Entry>, i: nat)
    requires i < |history|
  {
    forall j :: i < j < |history| ==> history[j].turnId != history[i].turnId
  }

  predicate Answered(history: seq<Entry>, turnId: string) {
    exists i :: 0 <= i < |history| && history[i].role == Assistant && history[i].turnId == turnId
  }

  /** The turn's stored attempt stands in for an answer. */
  predicate NeedsPlaceholder(history: seq<Entry>, latest: map<string, Attempt>, turnId: string) {
    && !Answered(history, turnId) && turnId in latest
    && IsUnfinished(latest[turnId], CurrentTurnId(history) == Some(turnId))
  }

  function EntryMessages(side: StoredSide, latest: map<string, Attempt>, i: nat): seq<Message>
    requires i < |side.history|
  {
    var e := side.history[i];
    if HasPlaceholder(side, latest, i)
    then [ToMessage(side.id, e), Placeholder(side.id, latest[e.turnId])]
    else [ToMessage(side.id, e)]
  }

  predicate HasPlaceholder(side: StoredSide, latest: map<string, Attempt>, i: nat)
    requires i < |side.history|
  {
    EndsTurn(side.history, i) && NeedsPlaceholder(side.history, latest, side.history[i].turnId)
  }

  function Blocks(side: StoredSide, latest: map<string, Attempt>): seq<seq<Message>> {
    seq(|side.history|, i requires 0 <= i < |side.history| => EntryMessages(side, latest, i))
  }

  /** The first `n` blocks, one after the other. */
  function Flatten(blocks: seq<seq<Message>>, n: nat): seq<Message>
    requires n <= |blocks|
  {
    if n == 0 then [] else Flatten(blocks, n - 1) + blocks[n - 1]
  }

  /** The messages of the first `n` entries of the history. */
  function HydrateTo(side: StoredSide, latest: map<string, Attempt>, n: nat): seq<Message>
    requires n <= |side.history|
  {
    Flatten(Blocks(side, latest), n)
  }

  function HydrateSideMessages(side: StoredSide, latest: map<string, Attempt>): seq<Message> {
    HydrateTo(side, latest, |side.history|)
  }

  // ----- picking messages out of blocks -----

  function Where(messages: seq<Message>, wanted: Message -> bool): seq<Message>
    decreases |messages|
  {
    if messages == [] then [] else
    var n := |messages| - 1;
    Where(messages[..n], wanted) + if wanted(messages[n]) then [messages[n]] else []
  }

  lemma {:induction false} WhereConcat(a: seq<Message>, b: seq<Message>, wanted: Message -> bool)
    ensures Where(a + b, wanted) == Where(a, wanted) + Where(b, wanted)
    decreases |b|
  {
    if b == [] {
      assert a + b == a;
    } else {
      var n := |b| - 1;
      assert (a + b)[..|a + b| - 1] == a + b[..n];
      WhereConcat(a, b[..n], wanted);
    }
  }

  lemma WhereOne(m: Message, wanted: Message -> bool)
    ensures Where([m], wanted) == if wanted(m) then [m] else []
  {
    assert [m][..0] == [];
  }

  lemma WhereTwo(m: Message, m': Message, wanted: Message -> bool)
    ensures Where([m, m'], wanted) == (if wanted(m) then [m] else []) + (if wanted(m') then [m'] else [])
  {
    assert [m, m'] == [m] + [m'];
    WhereConcat([m], [m'], wanted);
    WhereOne(m, wanted);
    WhereOne(m', wanted);
  }

  lemma {:induction false} WhereMember(messages: seq<Message>, wanted: Message -> bool, m: Message)
    ensures m in Where(messages, wanted) <==> m in messages && wanted(m)
    decreases |messages|
  {
    if messages != [] {
      var n := |messages| - 1;
      WhereMember(messages[..n], wanted, m);
      assert messages == messages[..n] + [messages[n]];
    }
  }

  lemma {:induction false} OneInEachBlock(
    blocks: seq<seq<Message>>, wanted: Message -> bool, kept: seq<Message>, n: nat)
    requires n <= |blocks| == |kept|
    requires forall i :: 0 <= i < n ==> Where(blocks[i], wanted) == [kept[i]]
    ensures Where(Flatten(blocks, n), wanted) == kept[..n]
  {
    if n > 0 {
      OneInEachBlock(blocks, wanted, kept, n - 1);
      WhereOfBlocks(blocks, wanted, n);
      assert kept[..n] == kept[..n - 1] + [kept[n - 1]];
    }
  }

  lemma WhereOfBlocks(blocks: seq<seq<Message>>, wanted: Message -> bool, n: nat)
    requires 0 < n <= |blocks|
    ensures Where(Flatten(blocks, n), wanted) == Where(Flatten(blocks, n - 1), wanted) + Where(blocks[n - 1], wanted)
  {
    WhereConcat(Flatten(blocks, n - 1), blocks[n - 1], wanted);
  }

  lemma Nothing(messages: seq<Message>)
    ensures messages + [] == messages == [] + messages
  {}

  lemma {:induction false} OnlyInBlock(blocks: seq<seq<Message>>, wanted: Message -> bool, n: nat, k: nat)
    requires n <= |blocks|
    requires forall i :: 0 <= i < n && i != k ==> Where(blocks[i], wanted) == []
    ensures Where(Flatten(blocks, n), wanted) == if k < n then Where(blocks[k], wanted) else []
  {
    if n > 0 {
      OnlyInBlock(blocks, wanted, n - 1, k);
      WhereOfBlocks(blocks, wanted, n);
      Nothing(Where(Flatten(blocks, n - 1), wanted));
      Nothing(Where(blocks[n - 1], wanted));
    }
  }

  lemma {:induction false} FlattenPrefix(blocks: seq<seq<Message>>, i: nat, n: nat)
    requires i <= n <= |blocks|
    ensures Flatten(blocks, i) <= Flatten(blocks, n)
    decreases n
  {
    if i < n { FlattenPrefix(blocks, i, n - 1); }
  }

  // ----- what hydration shows -----

  function IsStored(): Message -> bool {
    (m: Message) => m.state == Done
  }

  function IsPlaceholderOf(turnId: string): Message -> bool {
    (m: Message) => m.state != Done && m.turnId == turnId
  }

  function IsStreaming(): Message -> bool {
    (m: Message) => m.state == Streaming
  }

  function StoredMessages(side: StoredSide): seq<Message> {
    seq(|side.history|, i requires 0 <= i < |side.history| => ToMessage(side.id, side.history[i]))
  }

  /** An entry brings what is wanted of its own message and of its placeholder. */
  lemma WhereOfEntry(side: StoredSide, latest: map<string, Attempt>, i: nat, wanted: Message -> bool)
    requires i < |side.history|
    ensures var e := side.history[i]; var m := ToMessage(side.id, e);
            Where(EntryMessages(side, latest, i), wanted)
            == (if wanted(m) then [m] else [])
               + (if HasPlaceholder(side, latest, i) && wanted(Placeholder(side.id, latest[e.turnId]))
                  then [Placeholder(side.id, latest[e.turnId])] else [])
  {
    var e := side.history[i];
    var m := ToMessage(side.id, e);
    if HasPlaceholder(side, latest, i) {
      WhereTwo(m, Placeholder(side.id, latest[e.turnId]), wanted);
    } else {
      WhereOne(m, wanted);
    }
  }

  lemma StoredOfEntry(side: StoredSide, latest: map<string, Attempt>, i: nat)
    requires i < |side.history|
    ensures Where(EntryMessages(side, latest, i), IsStored()) == [ToMessage(side.id, side.history[i])]
  {
    WhereOfEntry(side, latest, i, IsStored());
  }

  /** Deleting the placeholders gives the stored history, in order. */
  lemma HistoryIsKept(side: StoredSide, latest: map<string, Attempt>, n: nat)
    requires n <= |side.history|
    ensures Where(HydrateTo(side, latest, n), IsStored()) == StoredMessages(side)[..n]
  {
    var blocks, stored := Blocks(side, latest), StoredMessages(side);
    forall i | 0 <= i < n ensures Where(blocks[i], IsStored()) == [stored[i]] { StoredOfEntry(side, latest, i); }
    OneInEachBlock(blocks, IsStored(), stored, n);
  }

  /** The map of latest attempts files each attempt under its own turn. */
  ghost predicate KeyedByTurn(latest: map<string, Attempt>) {
    forall t :: t in latest ==> latest[t].turnId == t
  }

  lemma LatestIsKeyedByTurn(attempts: seq<Attempt>, sideId: string, latest: map<string, Attempt>)
    requires LatestByTurn(attempts, sideId, latest)
    ensures KeyedByTurn(latest)
  {}

  lemma {:induction false} LastEntryOfTurn(history: seq<Entry>, i: nat) returns (k: nat)
    requires i < |history|
    ensures i <= k < |history| && history[k].turnId == history[i].turnId && EndsTurn(history, k)
    decreases |history| - i
  {
    if EndsTurn(history, i) {
      k := i;
    } else {
      var j :| i < j < |history| && history[j].turnId == history[i].turnId;
      k := LastEntryOfTurn(history, j);
    }
  }

  lemma PlaceholderOfEntry(side: StoredSide, latest: map<string, Attempt>, i: nat, t: string)
    requires i < |side.history| && KeyedByTurn(latest)
    ensures Where(EntryMessages(side, latest, i), IsPlaceholderOf(t))
            == if side.history[i].turnId == t && HasPlaceholder(side, latest, i) then [Placeholder(side.id, latest[t])] else []
  {
    WhereOfEntry(side, latest, i, IsPlaceholderOf(t));
  }

  lemma PlaceholderAt(side: StoredSide, latest: map<string, Attempt>, t: string, k: nat)
    requires KeyedByTurn(latest) && k <= |side.history|
    requires forall i :: 0 <= i < |side.history| && i != k ==> side.history[i].turnId != t || !EndsTurn(side.history, i)
    ensures Where(HydrateSideMessages(side, latest), IsPlaceholderOf(t))
            == if k < |side.history| then Where(EntryMessages(side, latest, k), IsPlaceholderOf(t)) else []
  {
    var blocks := Blocks(side, latest);
    forall i | 0 <= i < |blocks| && i != k ensures Where(blocks[i], IsPlaceholderOf(t)) == [] {
      PlaceholderOfEntry(side, latest, i, t);
    }
    OnlyInBlock(blocks, IsPlaceholderOf(t), |blocks|, k);
  }

  /**
    Each turn of the history has exactly the placeholder its latest attempt calls for: one when it has
    no answer and the attempt failed, or is running in the current turn, and none otherwise.
    */
  lemma PlaceholderOfTurn(side: StoredSide, latest: map<string, Attempt>, t: string)
    requires KeyedByTurn(latest)
    ensures Where(HydrateSideMessages(side, latest), IsPlaceholderOf(t))
            == if (exists e :: e in side.history && e.turnId == t) && NeedsPlaceholder(side.history, latest, t)
               then [Placeholder(side.id, latest[t])] else []
  {
    if exists e :: e in side.history && e.turnId == t {
      var i :| 0 <= i < |side.history| && side.history[i].turnId == t;
      var k := LastEntryOfTurn(side.history, i);
      PlaceholderAt(side, latest, t, k);
      PlaceholderOfEntry(side, latest, k, t);
    } else {
      PlaceholderAt(side, latest, t, |side.history|);
    }
  }

  /** The placeholder comes right after the last entry of its turn, at the place of its answer. */
  lemma PlaceholderFollowsItsTurn(side: StoredSide, latest: map<string, Attempt>, i: nat)
    requires i < |side.history| && EndsTurn(side.history, i)
    requires NeedsPlaceholder(side.history, latest, side.history[i].turnId)
    ensures var messages := HydrateSideMessages(side, latest); var p := |HydrateTo(side, latest, i)|;
            && p + 1 < |messages| && messages[p] == ToMessage(side.id, side.history[i])
            && messages[p + 1] == Placeholder(side.id, latest[side.history[i].turnId])
            && Where(messages[..p], IsStored()) == StoredMessages(side)[..i]
  {
    PairIsIn(Blocks(side, latest), i, ToMessage(side.id, side.history[i]),
             Placeholder(side.id, latest[side.history[i].turnId]));
    HistoryIsKept(side, latest, i);
  }

  lemma PairIsIn(blocks: seq<seq<Message>>, i: nat, first: Message, second: Message)
    requires i < |blocks| && blocks[i] == [first, second]
    ensures var p, all := |Flatten(blocks, i)|, Flatten(blocks, |blocks|);
            p + 1 < |all| && all[..p] == Flatten(blocks, i) && all[p] == first && all[p + 1] == second
  {
    FlattenPrefix(blocks, i + 1, |blocks|);
    assert Flatten(blocks, i + 1) == Flatten(blocks, i) + [first, second];
  }

  lemma StreamingOfEntry(side: StoredSide, latest: map<string, Attempt>, i: nat)
    requires i < |side.history| && KeyedByTurn(latest)
    ensures var t := side.history[i].turnId;
            Where(EntryMessages(side, latest, i), IsStreaming())
            == if CurrentTurnId(side.history) == Some(t) && HasPlaceholder(side, latest, i) && latest[t].state == StillRunning
               then [Placeholder(side.id, latest[t])] else []
  {
    WhereOfEntry(side, latest, i, IsStreaming());
  }

  lemma StreamingEntryIsCurrent(side: StoredSide, latest: map<string, Attempt>, i: nat)
    requires i < |side.history| && KeyedByTurn(latest)
    ensures var streaming := Where(EntryMessages(side, latest, i), IsStreaming());
            |streaming| <= 1 && forall m :: m in streaming ==> CurrentTurnId(side.history) == Some(m.turnId)
  {
    StreamingOfEntry(side, latest, i);
  }

  lemma StreamingAt(side: StoredSide, latest: map<string, Attempt>, k: nat)
    requires KeyedByTurn(latest)
    requires forall i :: 0 <= i < |side.history| && i != k ==>
                           CurrentTurnId(side.history) != Some(side.history[i].turnId) || !EndsTurn(side.history, i)
    ensures Where(HydrateSideMessages(side, latest), IsStreaming())
            == if k < |side.history| then Where(EntryMessages(side, latest, k), IsStreaming()) else []
  {
    var blocks := Blocks(side, latest);
    forall i | 0 <= i < |blocks| && i != k ensures Where(blocks[i], IsStreaming()) == [] {
      StreamingOfEntry(side, latest, i);
    }
    OnlyInBlock(blocks, IsStreaming(), |blocks|, k);
  }

  /** At most one message of a hydrated side is streaming, and it is the current turn's reply. */
  lemma AtMostOneStreaming(side: StoredSide, latest: map<string, Attempt>)
    requires KeyedByTurn(latest)
    ensures var streaming := Where(HydrateSideMessages(side, latest), IsStreaming());
            |streaming| <= 1 && forall m :: m in streaming ==> CurrentTurnId(side.history) == Some(m.turnId)
  {
    if i :| 0 <= i < |side.history| && CurrentTurnId(side.history) == Some(side.history[i].turnId) {
      var k := LastEntryOfTurn(side.history, i);
      StreamingAt(side, latest, k);
      StreamingEntryIsCurrent(side, latest, k);
    } else {
      StreamingAt(side, latest, |side.history|);
    }
  }

  /** Events of the attempt a turn's placeholder stands for continue that placeholder. */
  lemma PlaceholderTakesEvents(side: StoredSide, latest: map<string, Attempt>, t: string)
    requires KeyedByTurn(latest) && NeedsPlaceholder(side.history, latest, t)
    requires exists e :: e in side.history && e.turnId == t
    ensures ReplyOf(HydrateSideMessages(side, latest), t, latest[t].attemptId)
            == Some(Placeholder(side.id, latest[t]))
  {
    var messages, expected := HydrateSideMessages(side, latest), Placeholder(side.id, latest[t]);
    PlaceholderOfTurn(side, latest, t);
    WhereMember(messages, IsPlaceholderOf(t), expected);
    assert expected in messages && IsReply(t, latest[t].attemptId)(expected);
    var reply := ReplyOf(messages, t, latest[t].attemptId);
    if reply.Some? {
      var m := reply.value;
      WhereMember(messages, IsPlaceholderOf(t), m);
      WhereMember(messages, IsStored(), m);
      HistoryIsKept(side, latest, |side.history|);
      assert m.state != Done;
    }
  }

  // ----- the whole execution -----

  function CurrentAttempt(side: StoredSide, latest: map<string, Attempt>): Option<Attempt> {
    var current := CurrentTurnId(side.history);
    if current.Some? && current.value in latest then Some(latest[current.value]) else None
  }

  predicate IsRunningAttempt(a: Option<Attempt>) {
    a.Some? && a.value.state == StillRunning
  }

  /** `latest[i]` has the latest attempts of `sides[i]`. */
  function FirstRunning(sides: seq<StoredSide>, latest: seq<map<string, Attempt>>): (r: Option<Attempt>)
    requires |sides| == |latest|
    ensures r.None? <==> forall i :: 0 <= i < |sides| ==> !IsRunningAttempt(CurrentAttempt(sides[i], latest[i]))
    ensures r.Some? ==> exists i :: 0 <= i < |sides| && IsRunningAttempt(r) && CurrentAttempt(sides[i], latest[i]) == r
                                    && forall j :: 0 <= j < i ==> !IsRunningAttempt(CurrentAttempt(sides[j], latest[j]))
  {
    if sides == [] then None else
    var first := CurrentAttempt(sides[0], latest[0]);
    if IsRunningAttempt(first) then first else
    var r := FirstRunning(sides[1..], latest[1..]);
    assert forall i :: 0 <= i < |sides| - 1 ==> sides[1..][i] == sides[i + 1] && latest[1..][i] == latest[i + 1];
    assert forall i :: 1 <= i < |sides| ==> sides[i] == sides[1..][i - 1] && latest[i] == latest[1..][i - 1];
    r
  }

  function HydrateSide(side: StoredSide, latest: map<string, Attempt>, now: int): Side {
    var attempt := CurrentAttempt(side, latest);
    Side(side.id, side.revisionId, side.conversationId, side.state,
         if side.state == Failed && attempt.Some? && attempt.value.state == HasFailed
         then attempt.value.failureCode else None,
         side.retryable,
         IsRunningAttempt(attempt) && attempt.value.leaseExpiresAt.Some? && attempt.value.leaseExpiresAt.value <= now,
         HydrateSideMessages(side, latest))
  }

  function HydrateSides(sides: seq<StoredSide>, latest: seq<map<string, Attempt>>, now: int): (r: seq<Side>)
    requires |sides| == |latest|
    ensures |r| == |sides| && forall i :: 0 <= i < |r| ==> r[i] == HydrateSide(sides[i], latest[i], now)
  {
    seq(|sides|, i requires 0 <= i < |sides| => HydrateSide(sides[i], latest[i], now))
  }

  /** The first `n` sides, by id; a later side replaces an earlier one of its id. */
  function ById(sides: seq<Side>, n: nat): (r: map<string, Side>)
    requires n <= |sides|
    ensures forall k :: k in r ==> r[k].id == k
  {
    if n == 0 then map[] else ById(sides, n - 1)[sides[n - 1].id := sides[n - 1]]
  }

  function HydrateState(stored: Stored, latest: seq<map<string, Attempt>>, now: int): State
    requires |stored.sides| == |latest|
  {
    var running := FirstRunning(stored.sides, latest);
    State(stored.id, stored.generation, stored.state,
          if running.Some? then Some(running.value.turnId) else None,
          if running.Some? then Some(running.value.attemptId) else None,
          ById(HydrateSides(stored.sides, latest, now), |stored.sides|))
  }

  method Hydrate(stored: Stored, now: int) returns (s: State)
    ensures exists latest :: |latest| == |stored.sides| && s == HydrateState(stored, latest, now)
              && forall i :: 0 <= i < |latest| ==> LatestByTurn(stored.attempts, stored.sides[i].id, latest[i])
    ensures WellKeyed(s)
  {
    var latest: seq<map<string, Attempt>> := [];
    for i := 0 to |stored.sides|
      invariant |latest| == i
      invariant forall j :: 0 <= j < i ==> LatestByTurn(stored.attempts, stored.sides[j].id, latest[j])
    {
      var byTurn := LatestAttemptByTurn(stored.attempts, stored.sides[i].id);
      latest := latest + [byTurn];
    }
    s := HydrateState(stored, latest, now);
  }

  lemma {:induction false} FoundById(sides: seq<Side>, n: nat, i: nat)
    requires i < n <= |sides|
    requires forall p, q :: 0 <= p < q < |sides| ==> sides[p].id != sides[q].id
    ensures sides[i].id in ById(sides, n) && ById(sides, n)[sides[i].id] == sides[i]
    decreases n
  {
    if i < n - 1 { FoundById(sides, n - 1, i); }
  }

  /** Events of the active turn and attempt find an unanswered side's empty streaming reply. */
  ghost predicate Resumes(s: State, side: StoredSide)
    requires s.activeTurnId.Some? && s.activeAttemptId.Some?
  {
    && side.id in s.sides && CurrentTurnId(side.history) == s.activeTurnId
    && (!Answered(side.history, s.activeTurnId.value) ==>
          var reply := ReplyOf(s.sides[side.id].messages, s.activeTurnId.value, s.activeAttemptId.value);
          reply.Some? && reply.value.state == Streaming && reply.value.content == "")
  }

  /**
    A hydrated execution is active exactly when some side's current attempt is still running. Events of the
    active attempt then continue, on every side that runs it, the reply that hydration shows as streaming.
    */
  lemma HydratedTurnResumes(stored: Stored, latest: seq<map<string, Attempt>>, now: int)
    requires |latest| == |stored.sides|
    requires forall p, q :: 0 <= p < q < |latest| ==> stored.sides[p].id != stored.sides[q].id
    requires forall i :: 0 <= i < |latest| ==> LatestByTurn(stored.attempts, stored.sides[i].id, latest[i])
    ensures var s := HydrateState(stored, latest, now);
            && (s.activeTurnId.None? <==> s.activeAttemptId.None?)
            && (s.activeTurnId.Some? <==>
                  exists i :: 0 <= i < |latest| && IsRunningAttempt(CurrentAttempt(stored.sides[i], latest[i])))
            && (s.activeTurnId.Some? ==>
                  exists i :: 0 <= i < |latest| && IsActiveAttempt(s, CurrentAttempt(stored.sides[i], latest[i])))
            && forall i :: 0 <= i < |latest| && IsActiveAttempt(s, CurrentAttempt(stored.sides[i], latest[i])) ==>
                             Resumes(s, stored.sides[i])
  {
    var s := HydrateState(stored, latest, now);
    forall i | 0 <= i < |latest| && IsActiveAttempt(s, CurrentAttempt(stored.sides[i], latest[i]))
      ensures Resumes(s, stored.sides[i])
    {
      HydratedSideResumes(stored, latest, now, i);
    }
  }

  lemma HydratedSideResumes(stored: Stored, latest: seq<map<string, Attempt>>, now: int, i: nat)
    requires i < |latest| == |stored.sides| && LatestByTurn(stored.attempts, stored.sides[i].id, latest[i])
    requires forall p, q :: 0 <= p < q < |latest| ==> stored.sides[p].id != stored.sides[q].id
    requires IsActiveAttempt(HydrateState(stored, latest, now), CurrentAttempt(stored.sides[i], latest[i]))
    ensures Resumes(HydrateState(stored, latest, now), stored.sides[i])
  {
    LatestIsKeyedByTurn(stored.attempts, stored.sides[i].id, latest[i]);
    HydratedSide(stored, latest, now, i);
    RunningSideResumes(HydrateState(stored, latest, now), stored.sides[i], latest[i], now);
  }

  /** `a` runs under the state's active turn and attempt. */
  predicate IsActiveAttempt(s: State, a: Option<Attempt>) {
    IsRunningAttempt(a) && s.activeTurnId == Some(a.value.turnId) && s.activeAttemptId == Some(a.value.attemptId)
  }

  lemma HydratedSide(stored: Stored, latest: seq<map<string, Attempt>>, now: int, i: nat)
    requires i < |latest| == |stored.sides|
    requires forall p, q :: 0 <= p < q < |latest| ==> stored.sides[p].id != stored.sides[q].id
    ensures var s, id := HydrateState(stored, latest, now), stored.sides[i].id;
            id in s.sides && s.sides[id] == HydrateSide(stored.sides[i], latest[i], now)
  {
    FoundById(HydrateSides(stored.sides, latest, now), |latest|, i);
  }

  lemma RunningSideResumes(s: State, side: StoredSide, latest: map<string, Attempt>, now: int)
    requires KeyedByTurn(latest) && IsActiveAttempt(s, CurrentAttempt(side, latest))
    requires side.id in s.sides && s.sides[side.id] == HydrateSide(side, latest, now)
    ensures Resumes(s, side)
  {
    var t := s.activeTurnId.value;
    if !Answered(side.history, t) {
      LastUserOpensTurn(side.history);
      PlaceholderTakesEvents(side, latest, t);
    }
  }

  predicate IsLastUserEntry(history: seq<Entry>, i: nat) {
    i < |history| && history[i].role == User && forall j :: i < j < |history| ==> history[j].role != User
  }

  /** The current turn is that of the last user entry, and missing only where there is none. */
  lemma {:induction false} LastUserOpensTurn(history: seq<Entry>)
    ensures var current := CurrentTurnId(history);
            && (current.None? <==> forall e :: e in history ==> e.role != User)
            && (current.Some? ==> exists i: nat :: IsLastUserEntry(history, i) && history[i].turnId == current.value)
    decreases |history|
  {
    if history != [] {
      var n := |history| - 1;
      assert history == history[..n] + [history[n]];
      if history[n].role == User {
        assert IsLastUserEntry(history, n);
      } else {
        LastUserOpensTurn(history[..n]);
        if CurrentTurnId(history[..n]).Some? {
          var i: nat :| IsLastUserEntry(history[..n], i) && history[..n][i].turnId == CurrentTurnId(history[..n]).value;
          assert IsLastUserEntry(history, i);
        }
      }
    }
  }
}
