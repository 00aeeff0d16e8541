/** Folding one thread's lane into the state its turn driver acts on. */
module ThreadFold {
  import opened Primitives
  import opened SessionEvents
  import opened SessionLogs
  import opened SessionTree

  datatype PendingCall = PendingCall(turn: TurnId, call: CallId, name: string, arguments: string)

  datatype ThreadState = ThreadState(
    openTurn: Option<TurnId>,
    awaitingModel: bool,
    pending: seq<PendingCall>,
    decisions: map<string, Verdict>)

  datatype Work =
    | Idle
    | CallModel(turn: Option<TurnId>)
    | RunTool(pending: PendingCall)
    | AwaitApproval(pending: PendingCall)
    | RecordDenied(pending: PendingCall)

  const UNTOUCHED := ThreadState(None, false, [], map[])

  // The `pending` map of the source keeps insertion order: setting a present key keeps
  // its place, setting an absent one appends.

  function CallIndex(pending: seq<PendingCall>, call: CallId): (index: int)
    ensures -1 <= index < |pending|
    ensures index >= 0 ==> pending[index].call == call
    ensures forall k :: 0 <= k < (if index < 0 then |pending| else index) ==> pending[k].call != call
  {
    if pending == [] then -1
    else if pending[0].call == call then 0
    else
      var rest := CallIndex(pending[1..], call);
      if rest < 0 then -1 else rest + 1
  }

  function SetPending(pending: seq<PendingCall>, p: PendingCall): seq<PendingCall> {
    var i := CallIndex(pending, p.call);
    if i < 0 then pending + [p] else pending[i := p]
  }

  function DropPending(pending: seq<PendingCall>, call: CallId): seq<PendingCall> {
    var i := CallIndex(pending, call);
    if i < 0 then pending else pending[..i] + pending[i + 1..]
  }

  function Step(state: ThreadState, fact: Fact): ThreadState {
    match fact
    case MessageAppended(_, User, _) => state.(awaitingModel := true)
    case MessageAppended(_, Assistant, _) => state.(awaitingModel := false, openTurn := None)
    case TurnStarted(_, turn) => state.(openTurn := Some(turn))
    case TurnFailed(_, _, _) => state.(awaitingModel := false, openTurn := None)
    case ToolRequested(_, turn, call, name, arguments) =>
      state.(awaitingModel := false, pending := SetPending(state.pending, PendingCall(turn, call, name, arguments)))
    case ToolCompleted(_, _, call, _, _, _) =>
      state.(awaitingModel := true, pending := DropPending(state.pending, call))
    case ApprovalDecided(_, request, decision) =>
      if request in state.decisions then state else state.(decisions := state.decisions[request := decision])
    case _ => state
  }

  function FoldFacts(path: seq<Event>): ThreadState {
    if path == [] then UNTOUCHED
    else Step(FoldFacts(path[..|path| - 1]), path[|path| - 1].fact)
  }

  function StateOf(events: seq<Event>, thread: ThreadId): ThreadState {
    FoldFacts(PathOfLane(events, ThreadLane(thread)))
  }

  method FoldThread(events: seq<Event>, thread: ThreadId) returns (state: ThreadState)
    ensures state == StateOf(events, thread)
  {
    hide SetPending, DropPending, Walk, ById, LeafOf;
    var awaitingModel := false;
    var openTurn: Option<TurnId> := None;
    var pending: seq<PendingCall> := [];
    var decisions: map<string, Verdict> := map[];
    var leaf := FindLeaf(events, ThreadLane(thread));
    var path := [];
    if leaf.Some? {
      path := PathIn(ById(events), leaf.value);
    }
    for k := 0 to |path|
      invariant FoldFacts(path[..k]) == ThreadState(openTurn, awaitingModel, pending, decisions)
    {
      FoldPrefix(path, k);
      match path[k].fact {
        case MessageAppended(_, role, _) =>
          if role == User {
            awaitingModel := true;
          }
          if role == Assistant {
            awaitingModel := false;
            openTurn := None;
          }
        case TurnStarted(_, turn) =>
          openTurn := Some(turn);
        case TurnFailed(_, _, _) =>
          awaitingModel := false;
          openTurn := None;
        case ToolRequested(_, turn, call, name, arguments) =>
          awaitingModel := false;
          pending := SetPending(pending, PendingCall(turn, call, name, arguments));
        case ToolCompleted(_, _, call, _, _, _) =>
          pending := DropPending(pending, call);
          awaitingModel := true;
        case ApprovalDecided(_, request, decision) =>
          if request !in decisions {
            decisions := decisions[request := decision];
          }
        case _ =>
      }
    }
    assert path[..|path|] == path;
    state := ThreadState(openTurn, awaitingModel, pending, decisions);
  }

  function WorkOf(state: ThreadState): Work {
    if state.pending != [] then
      var pending := state.pending[0];
      if pending.call !in state.decisions then AwaitApproval(pending)
      else if state.decisions[pending.call] == Deny then RecordDenied(pending)
      else RunTool(pending)
    else if state.awaitingModel then CallModel(state.openTurn)
    else Idle
  }

  function DecisionOf(events: seq<Event>, thread: ThreadId, request: string): Option<Verdict> {
    var decisions := StateOf(events, thread).decisions;
    if request in decisions then Some(decisions[request]) else None
  }

  function PendingCallOf(events: seq<Event>, thread: ThreadId, request: string): Option<PendingCall> {
    var pending := StateOf(events, thread).pending;
    var i := CallIndex(pending, request);
    if i < 0 then None else Some(pending[i])
  }

  // ---- the fold is incremental, and lanes are isolated ----

  lemma FoldOneMore(path: seq<Event>, e: Event)
    ensures FoldFacts(path + [e]) == Step(FoldFacts(path), e.fact)
  {
  }

  lemma FoldPrefix(path: seq<Event>, k: nat)
    requires k < |path|
    ensures FoldFacts(path[..k + 1]) == Step(FoldFacts(path[..k]), path[k].fact)
  {
    assert path[..k + 1][..k] == path[..k];
  }

  /** One write moves its own thread by one step and no other thread at all. */
  lemma WriteStepsOneThread(events: seq<Event>, draft: Draft, timestamp: int, thread: ThreadId)
    requires Grown(events) && FreshId(events, draft.id)
    ensures var before := StateOf(events, thread);
      var after := StateOf(events + [Stamp(draft, events, timestamp)], thread);
      if LaneOfFact(draft.fact) == ThreadLane(thread) then after == Step(before, draft.fact)
      else after == before && WorkOf(after) == WorkOf(before)
  {
    var e := Stamp(draft, events, timestamp);
    GrownAppend(events, draft, timestamp);
    PathOfLaneIsLaneFacts(events, ThreadLane(thread));
    PathOfLaneIsLaneFacts(events + [e], ThreadLane(thread));
    assert (events + [e])[..|events|] == events;
    assert LaneFacts(events, ThreadLane(thread)) + [] == LaneFacts(events, ThreadLane(thread));
    FoldOneMore(LaneFacts(events, ThreadLane(thread)), e);
  }

  // ---- what the folded state means ----

  /** Where the request now open for `call` was first made, or -1 when none is open. */
  function OpenedAt(path: seq<Event>, call: CallId): (index: int)
    ensures -1 <= index < |path|
  {
    if path == [] then -1
    else
      var n := |path| - 1;
      var before := OpenedAt(path[..n], call);
      match path[n].fact
      case ToolCompleted(_, _, c, _, _, _) => if c == call then -1 else before
      case ToolRequested(_, _, c, _, _) => if c == call && before < 0 then n else before
      case _ => before
  }

  /** The last request made for `call`. */
  function LatestRequest(path: seq<Event>, call: CallId): Option<PendingCall> {
    if path == [] then None
    else
      match path[|path| - 1].fact
      case ToolRequested(_, turn, c, name, arguments) =>
        if c == call then Some(PendingCall(turn, call, name, arguments)) else LatestRequest(path[..|path| - 1], call)
      case _ => LatestRequest(path[..|path| - 1], call)
  }

  /** The first verdict recorded for `request`. */
  function FirstDecision(path: seq<Event>, request: string): Option<Verdict> {
    if path == [] then None
    else if path[0].fact.ApprovalDecided? && path[0].fact.request == request then Some(path[0].fact.decision)
    else FirstDecision(path[1..], request)
  }

  /**
    `pending` lists, oldest first, exactly the calls with an open request, each as `latest`
    has it; `openAt` gives the place a call's open request was made, or a negative number.
   */
  ghost predicate Lists(pending: seq<PendingCall>, openAt: CallId -> int, latest: CallId -> Option<PendingCall>) {
    AllOpen(pending, openAt, latest) && OldestFirst(pending, openAt) && CoversOpen(pending, openAt)
  }

  ghost predicate AllOpen(pending: seq<PendingCall>, openAt: CallId -> int, latest: CallId -> Option<PendingCall>) {
    forall i :: 0 <= i < |pending| ==> openAt(pending[i].call) >= 0 && latest(pending[i].call) == Some(pending[i])
  }

  ghost predicate OldestFirst(pending: seq<PendingCall>, openAt: CallId -> int) {
    forall i, j :: 0 <= i < j < |pending| ==> openAt(pending[i].call) < openAt(pending[j].call)
  }

  ghost predicate CoversOpen(pending: seq<PendingCall>, openAt: CallId -> int) {
    forall call :: openAt(call) >= 0 ==> exists i :: 0 <= i < |pending| && pending[i].call == call
  }

  ghost predicate ListsOpen(pending: seq<PendingCall>, path: seq<Event>) {
    Lists(pending, call => OpenedAt(path, call), call => LatestRequest(path, call))
  }

  lemma SetLists(before: seq<PendingCall>, p: PendingCall,
                 openAt: CallId -> int, latest: CallId -> Option<PendingCall>,
                 openAt': CallId -> int, latest': CallId -> Option<PendingCall>, now: int)
    requires Lists(before, openAt, latest) && now >= 0
    requires forall call :: openAt(call) < now
    requires forall call :: call != p.call ==> openAt'(call) == openAt(call) && latest'(call) == latest(call)
    requires latest'(p.call) == Some(p)
    requires openAt'(p.call) == if openAt(p.call) >= 0 then openAt(p.call) else now
    ensures Lists(SetPending(before, p), openAt', latest')
  {
    var i := CallIndex(before, p.call);
    if i >= 0 {
      ReplaceLists(before, i, p, openAt, latest, openAt', latest');
    } else {
      assert openAt(p.call) < 0;
      AppendLists(before, p, openAt, latest, openAt', latest', now);
    }
  }

  lemma ReplaceLists(before: seq<PendingCall>, i: nat, p: PendingCall,
                     openAt: CallId -> int, latest: CallId -> Option<PendingCall>,
                     openAt': CallId -> int, latest': CallId -> Option<PendingCall>)
    requires Lists(before, openAt, latest) && i < |before| && before[i].call == p.call
    requires forall call :: openAt'(call) == openAt(call)
    requires forall call :: call != p.call ==> latest'(call) == latest(call)
    requires latest'(p.call) == Some(p)
    ensures Lists(before[i := p], openAt', latest')
  {
    var after := before[i := p];
    forall k | 0 <= k < |after|
      ensures after[k].call == before[k].call && latest'(after[k].call) == Some(after[k])
    {
      if k < i {
        assert openAt(before[k].call) < openAt(before[i].call);
      } else if k > i {
        assert openAt(before[i].call) < openAt(before[k].call);
      }
    }
    forall c | openAt'(c) >= 0 ensures exists k :: 0 <= k < |after| && after[k].call == c {
      var k :| 0 <= k < |before| && before[k].call == c;
      assert after[k].call == c;
    }
  }

  lemma AppendLists(before: seq<PendingCall>, p: PendingCall,
                    openAt: CallId -> int, latest: CallId -> Option<PendingCall>,
                    openAt': CallId -> int, latest': CallId -> Option<PendingCall>, now: int)
    requires Lists(before, openAt, latest) && now >= 0 && openAt(p.call) < 0
    requires forall call :: openAt(call) < now
    requires forall call :: call != p.call ==> openAt'(call) == openAt(call) && latest'(call) == latest(call)
    requires latest'(p.call) == Some(p) && openAt'(p.call) == now
    ensures Lists(before + [p], openAt', latest')
  {
    var after := before + [p];
    forall k | 0 <= k < |before|
      ensures after[k] == before[k] && before[k].call != p.call
    {
      assert openAt(before[k].call) >= 0;
    }
    forall c | openAt'(c) >= 0 ensures exists k :: 0 <= k < |after| && after[k].call == c {
      if c == p.call {
        assert after[|before|].call == c;
      } else {
        var k :| 0 <= k < |before| && before[k].call == c;
        assert after[k].call == c;
      }
    }
  }

  lemma DropLists(before: seq<PendingCall>, call: CallId,
                  openAt: CallId -> int, latest: CallId -> Option<PendingCall>, openAt': CallId -> int)
    requires Lists(before, openAt, latest)
    requires forall c :: c != call ==> openAt'(c) == openAt(c)
    requires openAt'(call) < 0
    ensures Lists(DropPending(before, call), openAt', latest)
  {
    var i := CallIndex(before, call);
    if i >= 0 {
      RemoveLists(before, i, openAt, latest, openAt');
    }
  }

  lemma RemoveLists(before: seq<PendingCall>, i: nat,
                    openAt: CallId -> int, latest: CallId -> Option<PendingCall>, openAt': CallId -> int)
    requires Lists(before, openAt, latest) && i < |before|
    requires forall c :: c != before[i].call ==> openAt'(c) == openAt(c)
    requires openAt'(before[i].call) < 0
    ensures Lists(before[..i] + before[i + 1..], openAt', latest)
  {
    OthersListed(before, i, openAt, latest);
    SkipLists(before, before[..i] + before[i + 1..], i, openAt, latest, openAt');
  }

  function Skipping(i: nat, k: nat): nat {
    if k < i then k else k + 1
  }

  lemma SkipLists(before: seq<PendingCall>, after: seq<PendingCall>, i: nat,
                  openAt: CallId -> int, latest: CallId -> Option<PendingCall>, openAt': CallId -> int)
    requires Lists(before, openAt, latest)
    requires i < |before| && |after| == |before| - 1
    requires forall k :: 0 <= k < |after| ==> after[k] == before[Skipping(i, k)]
    requires forall k :: 0 <= k < |before| && k != i ==> before[k].call != before[i].call
    requires forall c :: c != before[i].call ==> openAt'(c) == openAt(c)
    requires openAt'(before[i].call) < 0
    ensures Lists(after, openAt', latest)
  {
    hide AllOpen, OldestFirst, CoversOpen;
    SkipAllOpen(before, after, i, openAt, latest, openAt');
    SkipOldestFirst(before, after, i, openAt, openAt');
    SkipCoversOpen(before, after, i, openAt, openAt');
  }

  lemma SkipAllOpen(before: seq<PendingCall>, after: seq<PendingCall>, i: nat,
                    openAt: CallId -> int, latest: CallId -> Option<PendingCall>, openAt': CallId -> int)
    requires AllOpen(before, openAt, latest)
    requires i < |before| && |after| == |before| - 1
    requires forall k :: 0 <= k < |after| ==> after[k] == before[Skipping(i, k)]
    requires forall k :: 0 <= k < |before| && k != i ==> before[k].call != before[i].call
    requires forall c :: c != before[i].call ==> openAt'(c) == openAt(c)
    ensures AllOpen(after, openAt', latest)
  {
  }

  lemma SkipOldestFirst(before: seq<PendingCall>, after: seq<PendingCall>, i: nat,
                        openAt: CallId -> int, openAt': CallId -> int)
    requires OldestFirst(before, openAt)
    requires i < |before| && |after| == |before| - 1
    requires forall k :: 0 <= k < |after| ==> after[k] == before[Skipping(i, k)]
    requires forall k :: 0 <= k < |before| && k != i ==> before[k].call != before[i].call
    requires forall c :: c != before[i].call ==> openAt'(c) == openAt(c)
    ensures OldestFirst(after, openAt')
  {
  }

  lemma SkipCoversOpen(before: seq<PendingCall>, after: seq<PendingCall>, i: nat,
                       openAt: CallId -> int, openAt': CallId -> int)
    requires CoversOpen(before, openAt)
    requires i < |before| && |after| == |before| - 1
    requires forall k :: 0 <= k < |after| ==> after[k] == before[Skipping(i, k)]
    requires forall k :: 0 <= k < |before| && k != i ==> before[k].call != before[i].call
    requires forall c :: c != before[i].call ==> openAt'(c) == openAt(c)
    requires openAt'(before[i].call) < 0
    ensures CoversOpen(after, openAt')
  {
    forall c | openAt'(c) >= 0 ensures exists k :: 0 <= k < |after| && after[k].call == c {
      var k :| 0 <= k < |before| && before[k].call == c;
      assert after[if k < i then k else k - 1] == before[k];
    }
  }

  lemma OthersListed(before: seq<PendingCall>, i: nat, openAt: CallId -> int, latest: CallId -> Option<PendingCall>)
    requires Lists(before, openAt, latest) && i < |before|
    ensures forall k :: 0 <= k < |before| && k != i ==> before[k].call != before[i].call
  {
  }

  lemma RequestOnPath(path: seq<Event>, call: CallId)
    requires path != [] && path[|path| - 1].fact.ToolRequested?
    ensures var f := path[|path| - 1].fact; var older := path[..|path| - 1];
      && OpenedAt(path, call) == (if f.call == call && OpenedAt(older, call) < 0 then |older|
                                  else OpenedAt(older, call))
      && LatestRequest(path, call)
           == if f.call == call then Some(PendingCall(f.turn, call, f.name, f.arguments))
               else LatestRequest(older, call)
  {
  }

  lemma NoRequestOnPath(path: seq<Event>, call: CallId)
    requires path != [] && !path[|path| - 1].fact.ToolRequested?
    ensures var f := path[|path| - 1].fact; var older := path[..|path| - 1];
      && OpenedAt(path, call) == (if f.ToolCompleted? && f.call == call then -1 else OpenedAt(older, call))
      && LatestRequest(path, call) == LatestRequest(older, call)
  {
  }

  /** `pending` holds each open request once, as last made, oldest first. */
  lemma {:induction false} PendingMeaning(path: seq<Event>)
    ensures ListsOpen(FoldFacts(path).pending, path)
  {
    if path != [] {
      var older, fact := path[..|path| - 1], path[|path| - 1].fact;
      PendingMeaning(older);
      var before := FoldFacts(older).pending;
      var openAt, latest := (call: CallId) => OpenedAt(older, call), (call: CallId) => LatestRequest(older, call);
      var openAt', latest' := (call: CallId) => OpenedAt(path, call), (call: CallId) => LatestRequest(path, call);
      assert Lists(before, openAt, latest);
      forall call ensures fact.ToolRequested? ==>
        && openAt'(call) == (if fact.call == call && openAt(call) < 0 then |older| else openAt(call))
        && latest'(call) == (if fact.call == call then Some(PendingCall(fact.turn, call, fact.name, fact.arguments))
                             else latest(call))
      {
        if fact.ToolRequested? { RequestOnPath(path, call); }
      }
      forall call ensures !fact.ToolRequested? ==>
        && openAt'(call) == (if fact.ToolCompleted? && fact.call == call then -1 else openAt(call))
        && latest'(call) == latest(call)
      {
        if !fact.ToolRequested? { NoRequestOnPath(path, call); }
      }
      var after := StepPending(before, fact);
      assert FoldFacts(path).pending == after;
      PendingStep(before, fact, openAt, latest, openAt', latest', |older|);
    }
  }

  function StepPending(pending: seq<PendingCall>, fact: Fact): seq<PendingCall> {
    if fact.ToolRequested? then SetPending(pending, PendingCall(fact.turn, fact.call, fact.name, fact.arguments))
    else if fact.ToolCompleted? then DropPending(pending, fact.call)
    else pending
  }

  lemma PendingStep(before: seq<PendingCall>, fact: Fact,
                    openAt: CallId -> int, latest: CallId -> Option<PendingCall>,
                    openAt': CallId -> int, latest': CallId -> Option<PendingCall>, now: int)
    requires Lists(before, openAt, latest) && now >= 0 && forall call :: openAt(call) < now
    requires fact.ToolRequested? ==> forall call ::
      && openAt'(call) == (if fact.call == call && openAt(call) < 0 then now else openAt(call))
      && latest'(call) == (if fact.call == call then Some(PendingCall(fact.turn, call, fact.name, fact.arguments))
                           else latest(call))
    requires !fact.ToolRequested? ==> forall call ::
      && openAt'(call) == (if fact.ToolCompleted? && fact.call == call then -1 else openAt(call))
      && latest'(call) == latest(call)
    ensures Lists(StepPending(before, fact), openAt', latest')
  {
    if fact.ToolRequested? {
      SetLists(before, PendingCall(fact.turn, fact.call, fact.name, fact.arguments), openAt, latest, openAt',
               latest', now);
    } else if fact.ToolCompleted? {
      DropLists(before, fact.call, openAt, latest, openAt');
    }
  }

  lemma {:induction false} FirstDecisionOneMore(path: seq<Event>, e: Event, request: string)
    ensures FirstDecision(path + [e], request)
      == if FirstDecision(path, request).Some? then FirstDecision(path, request) else FirstDecision([e], request)
  {
    if path == [] {
      assert path + [e] == [e];
    } else {
      assert (path + [e])[1..] == path[1..] + [e];
      FirstDecisionOneMore(path[1..], e, request);
    }
  }

  /** The verdict a fold reports is the first one recorded. */
  lemma {:induction false} DecisionMeaning(path: seq<Event>, request: string)
    ensures FirstDecision(path, request)
      == var decisions := FoldFacts(path).decisions; if request in decisions then Some(decisions[request]) else None
  {
    if path != [] {
      var n := |path| - 1;
      DecisionMeaning(path[..n], request);
      assert path == path[..n] + [path[n]];
      FirstDecisionOneMore(path[..n], path[n], request);
      assert [path[n]][1..] == [];
    }
  }

  lemma {:induction false} FirstDecisionStands(path: seq<Event>, more: seq<Event>, request: string)
    ensures FirstDecision(path + more, request)
      == if FirstDecision(path, request).Some? then FirstDecision(path, request) else FirstDecision(more, request)
  {
    if path == [] {
      assert path + more == more;
    } else {
      assert (path + more)[1..] == path[1..] + more;
      FirstDecisionStands(path[1..], more, request);
    }
  }

  /** The facts that settle whether the model has to be called. */
  predicate Signals(fact: Fact) {
    || (fact.MessageAppended? && !fact.role.ToolRole?)
    || fact.TurnFailed? || fact.ToolRequested? || fact.ToolCompleted?
  }

  function LastSignal(path: seq<Event>): Option<Fact> {
    if path == [] then None
    else if Signals(path[|path| - 1].fact) then Some(path[|path| - 1].fact)
    else LastSignal(path[..|path| - 1])
  }

  /** The model is awaited exactly when the latest signal is a user message or a tool's result. */
  lemma {:induction false} AwaitingMeaning(path: seq<Event>)
    ensures FoldFacts(path).awaitingModel <==>
      var signal := LastSignal(path);
      signal.Some? && (signal.value.ToolCompleted? || (signal.value.MessageAppended? && signal.value.role.User?))
  {
    if path != [] {
      AwaitingMeaning(path[..|path| - 1]);
    }
  }

  /** The facts that say which turn is open. */
  function LastTurn(path: seq<Event>): Option<TurnId> {
    if path == [] then None
    else
      match path[|path| - 1].fact
      case TurnStarted(_, turn) => Some(turn)
      case TurnFailed(_, _, _) => None
      case MessageAppended(_, Assistant, _) => None
      case _ => LastTurn(path[..|path| - 1])
  }

  lemma {:induction false} OpenTurnMeaning(path: seq<Event>)
    ensures FoldFacts(path).openTurn == LastTurn(path)
  {
    if path != [] {
      OpenTurnMeaning(path[..|path| - 1]);
    }
  }

  /** `p` is the request that has been open longest, as it was last made. */
  ghost predicate OldestOpen(path: seq<Event>, p: PendingCall) {
    && OpenedAt(path, p.call) >= 0 && LatestRequest(path, p.call) == Some(p)
    && forall call :: OpenedAt(path, call) >= 0 ==> OpenedAt(path, p.call) <= OpenedAt(path, call)
  }

  ghost predicate NothingOpen(path: seq<Event>) {
    forall call :: OpenedAt(path, call) < 0
  }

  /**
    The work of a lane, read off its facts: the request open longest comes first, and goes by
    the first verdict on it; only with none open is the model called, or nothing done.
   */
  lemma WorkMeaning(path: seq<Event>)
    ensures var state := FoldFacts(path);
      var work := WorkOf(state);
      && (work.Idle? <==> NothingOpen(path) && !state.awaitingModel)
      && (work.CallModel? <==> NothingOpen(path) && state.awaitingModel)
      && (work.CallModel? ==> work.turn == LastTurn(path))
      && (!work.Idle? && !work.CallModel? ==>
            && OldestOpen(path, work.pending)
            && work == match FirstDecision(path, work.pending.call)
                       case None => AwaitApproval(work.pending)
                       case Some(verdict) =>
                         if verdict.Deny? then RecordDenied(work.pending) else RunTool(work.pending))
  {
    hide FoldFacts, OpenedAt, LatestRequest, FirstDecision, LastTurn;
    var pending := FoldFacts(path).pending;
    PendingMeaning(path);
    OpenTurnMeaning(path);
    if pending == [] {
      forall call ensures OpenedAt(path, call) < 0 {
        PendingHasOpen(path, call);
      }
    } else {
      DecisionMeaning(path, pending[0].call);
      FirstIsOldest(path);
    }
  }

  lemma PendingHasOpen(path: seq<Event>, call: CallId)
    ensures OpenedAt(path, call) >= 0 <==> CallIndex(FoldFacts(path).pending, call) >= 0
    ensures OpenedAt(path, call) >= 0 ==>
      LatestRequest(path, call) == Some(FoldFacts(path).pending[CallIndex(FoldFacts(path).pending, call)])
  {
    hide FoldFacts, OpenedAt, LatestRequest, CallIndex;
    PendingMeaning(path);
    var pending := FoldFacts(path).pending;
    var openAt, latest := (c: CallId) => OpenedAt(path, c), (c: CallId) => LatestRequest(path, c);
    assert Lists(pending, openAt, latest);
    if openAt(call) >= 0 {
      var i :| 0 <= i < |pending| && pending[i].call == call;
    }
    var k := CallIndex(pending, call);
    if k >= 0 {
      assert openAt(pending[k].call) >= 0 && latest(pending[k].call) == Some(pending[k]);
    }
  }

  lemma FirstIsOldest(path: seq<Event>)
    requires FoldFacts(path).pending != []
    ensures OldestOpen(path, FoldFacts(path).pending[0])
  {
    hide FoldFacts, OpenedAt, LatestRequest;
    PendingMeaning(path);
    var pending := FoldFacts(path).pending;
    var openAt, latest := (c: CallId) => OpenedAt(path, c), (c: CallId) => LatestRequest(path, c);
    assert Lists(pending, openAt, latest);
    forall call | OpenedAt(path, call) >= 0 ensures OpenedAt(path, pending[0].call) <= OpenedAt(path, call) {
      assert openAt(call) >= 0;
      var i :| 0 <= i < |pending| && pending[i].call == call;
      assert i > 0 ==> openAt(pending[0].call) < openAt(pending[i].call);
    }
    assert openAt(pending[0].call) >= 0 && latest(pending[0].call) == Some(pending[0]);
  }

  /** A call is looked up as pending exactly while its request is open. */
  lemma PendingCallMeaning(events: seq<Event>, thread: ThreadId, request: string)
    ensures var path := PathOfLane(events, ThreadLane(thread));
      PendingCallOf(events, thread, request)
      == if OpenedAt(path, request) >= 0 then LatestRequest(path, request) else None
  {
    hide FoldFacts, OpenedAt, LatestRequest, PathOfLane;
    PendingHasOpen(PathOfLane(events, ThreadLane(thread)), request);
  }
}
