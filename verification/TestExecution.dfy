/**
  The state of a test execution whose sides stream their events into one reducer: new turns, retries,
  fenced events, settlement, and streams that end early.
  */
module TestExecution {
  import opened Wrappers

  /** Execution states, and `Ready` for a side that has not been sent a message. */
  datatype Status = Missing | Ready | Running | Partial | Failed | Completed

  datatype Role = User | Assistant

  datatype MessageState = Streaming | Done | Broken

  datatype Message = Message(
    id: string, role: Role, content: string, state: MessageState, turnId: string, attemptId: string,
    persistedId: Option<string>, trace: Option<string>)

  datatype Side = Side(
    id: string, revisionId: string, conversationId: Option<string>, state: Status,
    errorCode: Option<string>, retryable: bool, recoveryAvailable: bool, messages: seq<Message>)

  datatype State = State(
    executionId: string, generation: int, state: Status,
    activeTurnId: Option<string>, activeAttemptId: Option<string>, sides: map<string, Side>)

  datatype Body =
    | ExecutionPartial
    | ExecutionCompleted
    | SideStarted(sideId: string)
    | MessageDelta(sideId: string, delta: string)
    | SideCompleted(sideId: string, messageId: string, answer: Option<string>, trace: Option<string>)
    | SideFailed(sideId: string, code: string, retryable: bool)

  /** What an event must carry to be current. */
  datatype Fence = Fence(executionId: string, generation: int, turnId: string, attemptId: string)

  datatype Event = Event(fence: Fence, body: Body)

  const NOTICE := "The response stream ended before an answer was complete."

  // ----- lookups and updates of a transcript -----

  function FindLast(messages: seq<Message>, wanted: Message -> bool): (r: Option<Message>)
    ensures r.Some? ==> r.value in messages && wanted(r.value)
    ensures r.None? ==> forall m :: m in messages ==> !wanted(m)
  {
    if messages == [] then None
    else if wanted(messages[|messages| - 1]) then Some(messages[|messages| - 1])
    else FindLast(messages[..|messages| - 1], wanted)
  }

  function UpdateById(messages: seq<Message>, id: string, update: Message -> Message): (r: seq<Message>)
    ensures |r| == |messages|
    ensures forall i :: 0 <= i < |r| ==>
                          r[i] == if messages[i].id == id then update(messages[i]) else messages[i]
  {
    seq(|messages|, i requires 0 <= i < |messages| =>
      if messages[i].id == id then update(messages[i]) else messages[i])
  }

  function IsAssistant(): Message -> bool {
    (m: Message) => m.role == Assistant
  }

  function IsReply(turnId: string, attemptId: string): Message -> bool {
    (m: Message) => m.role == Assistant && m.turnId == turnId && m.attemptId == attemptId
  }

  function LastAssistant(messages: seq<Message>): Option<Message> {
    FindLast(messages, IsAssistant())
  }

  /** The reply an event of a turn's attempt is about. */
  function ReplyOf(messages: seq<Message>, turnId: string, attemptId: string): Option<Message> {
    FindLast(messages, IsReply(turnId, attemptId))
  }

  function UpdateReply(messages: seq<Message>, reply: Option<Message>, update: Message -> Message): seq<Message> {
    if reply.None? then messages else UpdateById(messages, reply.value.id, update)
  }

  // ----- aggregate state -----

  ghost predicate SomeSide(sides: map<string, Side>, status: Status) {
    exists k :: k in sides && sides[k].state == status
  }

  ghost predicate EverySide(sides: map<string, Side>, status: Status) {
    forall k :: k in sides ==> sides[k].state == status
  }

  ghost function DeriveExecutionState(sides: map<string, Side>): Status {
    if SomeSide(sides, Running) then Running else if SomeSide(sides, Failed) then Partial else Completed
  }

  // ----- the operations -----

  function UserMessageId(sideId: string, turnId: string): string {
    sideId + "-" + turnId + "-user"
  }

  function AssistantMessageId(sideId: string, turnId: string): string {
    sideId + "-" + turnId + "-assistant"
  }

  function NewMessages(sideId: string, message: string, turnId: string, attemptId: string): seq<Message> {
    [Message(UserMessageId(sideId, turnId), User, message, Done, turnId, attemptId, None, None),
     Message(AssistantMessageId(sideId, turnId), Assistant, "", Streaming, turnId, attemptId, None, None)]
  }

  function BeginTurn(s: State, message: string, turnId: string, attemptId: string): State {
    s.(activeTurnId := Some(turnId), activeAttemptId := Some(attemptId),
       sides := map k | k in s.sides ::
         s.sides[k].(state := Running, errorCode := None, retryable := false,
                     messages := s.sides[k].messages + NewMessages(k, message, turnId, attemptId)))
  }

  function RetryId(sideId: string, turnId: string, attemptId: string): string {
    sideId + "-" + turnId + "-" + attemptId
  }

  function BeginRetry(s: State, sideId: string, attemptId: string): State {
    if sideId !in s.sides then s else
    var side := s.sides[sideId];
    var last := LastAssistant(side.messages);
    var turnId := if last.Some? then last.value.turnId else attemptId;
    s.(state := Running, activeTurnId := Some(turnId), activeAttemptId := Some(attemptId),
       sides := s.sides[sideId := side.(
         state := Running, retryable := false, errorCode := None,
         messages := UpdateReply(side.messages, last, (m: Message) =>
           m.(id := RetryId(sideId, turnId, attemptId), content := "", state := Streaming, attemptId := attemptId)))])
  }

  function BreakReply(m: Message): Message {
    m.(content := if m.state == Streaming || m.content == "" then NOTICE else m.content, state := Broken)
  }

  function FailedSide(side: Side, code: string): Side {
    side.(state := Failed, errorCode := Some(code), retryable := true,
          messages := UpdateReply(side.messages, LastAssistant(side.messages), BreakReply))
  }

  function FailSide(s: State, sideId: string, code: string): State {
    if sideId !in s.sides then s
    else s.(state := Partial, sides := s.sides[sideId := FailedSide(s.sides[sideId], code)])
  }

  function FailEach(s: State, ids: seq<string>, code: string): State
    decreases |ids|
  {
    if ids == [] then s else FailEach(FailSide(s, ids[0], code), ids[1..], code)
  }

  /** Every side is stored under its own id. */
  ghost predicate WellKeyed(s: State) {
    forall k :: k in s.sides ==> s.sides[k].id == k
  }

  /** `running` lists the sides that are running, each once, in the order the sides object has them. */
  ghost predicate ListsRunning(s: State, running: seq<string>) {
    && (forall k :: k in running <==> k in s.sides && s.sides[k].state == Running)
    && (forall i, j :: 0 <= i < j < |running| ==> running[i] != running[j])
  }

  ghost function FinalizeStream(s: State, running: seq<string>, code: string): State
    requires WellKeyed(s) && ListsRunning(s, running)
  {
    if running == [] then s.(state := DeriveExecutionState(s.sides)) else FailEach(s, running, code)
  }

  predicate IsCurrent(s: State, fence: Fence) {
    && fence.executionId == s.executionId && fence.generation == s.generation
    && Some(fence.turnId) == s.activeTurnId && Some(fence.attemptId) == s.activeAttemptId
  }

  predicate IsSideEvent(body: Body) {
    !body.ExecutionPartial? && !body.ExecutionCompleted?
  }

  predicate IsTerminal(body: Body) {
    body.SideCompleted? || body.SideFailed?
  }

  /** A current event's effect on the one side it is about. */
  function SideStep(side: Side, turnId: string, attemptId: string, body: Body): Side
    requires IsSideEvent(body)
  {
    var reply := ReplyOf(side.messages, turnId, attemptId);
    match body
    case SideStarted(_) =>
      side.(state := Running, errorCode := None, retryable := false,
            messages := UpdateReply(side.messages, reply, (m: Message) => m.(state := Streaming)))
    case MessageDelta(_, delta) =>
      side.(state := Running,
            messages := UpdateReply(side.messages, reply, (m: Message) =>
              m.(content := (if reply.Some? then reply.value.content else "") + delta, state := Streaming)))
    case SideCompleted(_, messageId, answer, trace) =>
      side.(state := Completed, retryable := false,
            messages := UpdateReply(side.messages, reply, (m: Message) =>
              m.(content := answer.GetOr(m.content), state := Done, persistedId := Some(messageId), trace := trace)))
    case SideFailed(_, code, retryable) =>
      side.(state := Failed, errorCode := Some(code), retryable := retryable,
            messages := UpdateReply(side.messages, reply, (m: Message) =>
              m.(content := "Test failed: " + code, state := Broken)))
  }

  ghost function Reduce(s: State, e: Event): State {
    if !IsCurrent(s, e.fence) then s
    else if e.body.ExecutionPartial? then s.(state := Partial, activeTurnId := None, activeAttemptId := None)
    else if e.body.ExecutionCompleted? then s.(state := Completed, activeTurnId := None, activeAttemptId := None)
    else if e.body.sideId !in s.sides then s
    else
      var side := s.sides[e.body.sideId];
      var sides := s.sides[side.id := SideStep(side, e.fence.turnId, e.fence.attemptId, e.body)];
      var settled := IsTerminal(e.body) && !SomeSide(sides, Running);
      s.(state := if settled && EverySide(sides, Completed) then Completed
                  else if settled || e.body.SideFailed? then Partial else s.state,
         activeTurnId := if settled then None else s.activeTurnId,
         activeAttemptId := if settled then None else s.activeAttemptId,
         sides := sides)
  }

  // ----- confluence of interleaved streams -----

  ghost function Fold(s: State, events: seq<Event>): State
    decreases |events|
  {
    if events == [] then s else
    Reduce(Fold(s, events[..|events| - 1]), events[|events| - 1])
  }

  /** The bodies, in order, of the events that carry `fence` and are about side `k`. */
  ghost function Project(events: seq<Event>, fence: Fence, k: string): seq<Body>
    decreases |events|
  {
    if events == [] then [] else
    var e := events[|events| - 1];
    Project(events[..|events| - 1], fence, k)
    + if e.fence == fence && IsSideEvent(e.body) && e.body.sideId == k then [e.body] else []
  }

  ghost predicate OpenStream(stream: seq<Body>) {
    forall i :: 0 <= i < |stream| ==> IsSideEvent(stream[i]) && !IsTerminal(stream[i])
  }

  /** One terminal event, and it comes last. */
  ghost predicate ClosedStream(stream: seq<Body>) {
    && stream != [] && OpenStream(stream[..|stream| - 1])
    && IsTerminal(stream[|stream| - 1])
  }

  /** What one side becomes by its own stream alone. */
  ghost function FoldSide(side: Side, fence: Fence, stream: seq<Body>): Side
    requires forall i :: 0 <= i < |stream| ==> IsSideEvent(stream[i])
    decreases |stream|
  {
    if stream == [] then side else
    var n := |stream| - 1;
    SideStep(FoldSide(side, fence, stream[..n]), fence.turnId, fence.attemptId, stream[n])
  }

  lemma {:induction false} ProjectsSideEvents(events: seq<Event>, fence: Fence, k: string)
    ensures forall i :: 0 <= i < |Project(events, fence, k)| ==> IsSideEvent(Project(events, fence, k)[i])
    decreases |events|
  {
    if events != [] { ProjectsSideEvents(events[..|events| - 1], fence, k); }
  }

  ghost function SideAfter(s: State, fence: Fence, events: seq<Event>, k: string): Side
    requires k in s.sides
  {
    ProjectsSideEvents(events, fence, k);
    FoldSide(s.sides[k], fence, Project(events, fence, k))
  }

  /** The state that every complete interleaving ends in. */
  ghost function Settled(s: State, sides: map<string, Side>): State {
    s.(state := if EverySide(sides, Completed) then Completed else Partial,
       activeTurnId := None, activeAttemptId := None, sides := sides)
  }

  /** An attempt has begun: some sides run, and events carrying `fence` are current. */
  ghost predicate TurnBegun(s: State, fence: Fence) {
    WellKeyed(s) && SomeSide(s.sides, Running) && IsCurrent(s, fence)
  }

  /**
    Each running side has streamed nothing, a part, or all of a stream that ends with its terminal event;
    the other sides have streamed nothing.
    */
  ghost predicate WellStreamed(s: State, fence: Fence, events: seq<Event>) {
    forall k :: k in s.sides ==>
      if s.sides[k].state == Running then OpenStream(Project(events, fence, k)) || ClosedStream(Project(events, fence, k))
      else Project(events, fence, k) == []
  }

  ghost predicate AllClosed(s: State, fence: Fence, events: seq<Event>) {
    forall k :: k in s.sides && s.sides[k].state == Running ==> ClosedStream(Project(events, fence, k))
  }

  predicate EndsExecution(e: Event, fence: Fence) {
    e.fence == fence && !IsSideEvent(e.body)
  }

  /** Events about the whole execution come only after every running side's stream has ended. */
  ghost predicate EndsLast(s: State, fence: Fence, events: seq<Event>) {
    forall i :: 0 <= i < |events| && EndsExecution(events[i], fence) ==> AllClosed(s, fence, events[..i])
  }
}
