/**
  The turn driver as a machine: drains of many threads, callers waiting for verdicts and
  other writers all step over one log in any order.  What a drain may do is read off the
  fold; what holds of every run is proved below.
 */
module TurnDriver {
  import opened Primitives
  import opened SessionEvents
  import opened SessionLogs
  import opened SessionTree
  import opened SessionForks
  import opened ThreadFold
  import TurnHistory

  const DENIED_RESULT := "the user denied this tool call"

  /** Where one `waitForDecision` stands; `from` is the log's length when it subscribed. */
  datatype Wait =
    | FirstLook
    | Subscribe
    | SecondLook(from: nat)
    | Live(from: nat)
    | Returned(verdict: Verdict)

  /** Where one drain stands between two of its effects. */
  datatype Point =
    | Reading
    | Waiting(call: CallId, at: Wait)
    | Denying(pending: PendingCall)
    | Running(pending: PendingCall)
    | Completing(pending: PendingCall, ok: bool, result: string)
    | Turning

  datatype Waiter = Waiter(thread: ThreadId, request: string, at: Wait)

  /** What drains did beside writing: `at` is the log's length just before. */
  datatype Deed =
    | Ran(thread: ThreadId, pending: PendingCall, ok: bool, result: string, at: nat)
    | Completed(thread: ThreadId, pending: PendingCall, ok: bool, result: string, at: nat)
    | Denied(thread: ThreadId, pending: PendingCall, at: nat)

  /** `drains` is the `idle` map: a thread is in it exactly while its drain runs. */
  datatype System = System(
    log: seq<Event>,
    drains: map<ThreadId, Point>,
    waiters: map<nat, Waiter>,
    deeds: seq<Deed>)

  datatype Action =
    | Outside(draft: Draft, timestamp: int)
    | Kick(thread: ThreadId)
    | Read(thread: ThreadId)
    | WaitOn(thread: ThreadId)
    | Run(thread: ThreadId, ok: bool, result: string)
    | Complete(thread: ThreadId, id: EventId, timestamp: int)
    | Refuse(thread: ThreadId, id: EventId, timestamp: int)
    | TurnWrites(thread: ThreadId, draft: Draft, timestamp: int)
    | EndTurn(thread: ThreadId)
    | Ask(waiter: nat, thread: ThreadId, request: string)
    | StepWaiter(waiter: nat)

  /** The first matching verdict a subscriber hears among these writes. */
  function Heard(writes: seq<Event>, thread: ThreadId, request: string): Option<Verdict> {
    if writes == [] then None
    else
      var fact := writes[0].fact;
      if fact.ApprovalDecided? && fact.thread == thread && fact.request == request then Some(fact.decision)
      else Heard(writes[1..], thread, request)
  }

  predicate WaitEnabled(log: seq<Event>, thread: ThreadId, request: string, at: Wait) {
    match at
    case Live(from) => from <= |log| && Heard(log[from..], thread, request).Some?
    case Returned(_) => false
    case _ => true
  }

  function StepWait(log: seq<Event>, thread: ThreadId, request: string, at: Wait): Wait
    requires WaitEnabled(log, thread, request, at)
  {
    match at
    case FirstLook =>
      var existing := DecisionOf(log, thread, request);
      if existing.Some? then Returned(existing.value) else Subscribe
    case Subscribe => SecondLook(|log|)
    case SecondLook(from) =>
      var raced := DecisionOf(log, thread, request);
      if raced.Some? then Returned(raced.value) else Live(from)
    case Live(from) => Returned(Heard(log[from..], thread, request).value)
  }

  /** A turn completes only a call it has on record as requested and not yet completed. */
  predicate Completes(log: seq<Event>, thread: ThreadId, fact: Fact) {
    fact.ToolCompleted? ==>
      && fact.call in TurnHistory.RequestedCalls(log, thread, fact.turn)
      && fact.call !in TurnHistory.CompletedCalls(log, thread, fact.turn)
  }

  /** Other writers record anything but a tool's completion. */
  predicate Enabled(s: System, a: Action) {
    match a
    case Outside(draft, _) => FreshId(s.log, draft.id) && !draft.fact.ToolCompleted?
    case Kick(_) => true
    case Read(t) => t in s.drains && s.drains[t] == Reading
    case WaitOn(t) =>
      t in s.drains && s.drains[t].Waiting? &&
      (s.drains[t].at.Returned? || WaitEnabled(s.log, t, s.drains[t].call, s.drains[t].at))
    case Run(t, _, _) => t in s.drains && s.drains[t].Running?
    case Complete(t, id, _) => t in s.drains && s.drains[t].Completing? && FreshId(s.log, id)
    case Refuse(t, id, _) => t in s.drains && s.drains[t].Denying? && FreshId(s.log, id)
    case TurnWrites(t, draft, _) =>
      && t in s.drains && s.drains[t].Turning?
      && FreshId(s.log, draft.id) && LaneOfFact(draft.fact) == ThreadLane(t) && Completes(s.log, t, draft.fact)
    case EndTurn(t) => t in s.drains && s.drains[t].Turning?
    case Ask(w, _, _) => w !in s.waiters
    case StepWaiter(w) =>
      w in s.waiters && WaitEnabled(s.log, s.waiters[w].thread, s.waiters[w].request, s.waiters[w].at)
  }

  function Written(log: seq<Event>, draft: Draft, timestamp: int): seq<Event> {
    log + [Stamp(draft, log, timestamp)]
  }

  /** The point a drain goes to when it has read this work; none when it is done. */
  function PointOf(work: Work): Option<Point> {
    match work
    case Idle => None
    case AwaitApproval(p) => Some(Waiting(p.call, FirstLook))
    case RecordDenied(p) => Some(Denying(p))
    case RunTool(p) => Some(Running(p))
    case CallModel(_) => Some(Turning)
  }

  function CompletionOf(thread: ThreadId, p: PendingCall, ok: bool, result: string): Fact {
    ToolCompleted(thread, p.turn, p.call, p.name, ok, result)
  }

  function Do(s: System, a: Action): System
    requires Enabled(s, a)
  {
    match a
    case Outside(draft, timestamp) => s.(log := Written(s.log, draft, timestamp))
    case Kick(t) => if t in s.drains then s else s.(drains := s.drains[t := Reading])
    case Read(t) =>
      var next := PointOf(WorkOf(StateOf(s.log, t)));
      s.(drains := if next.Some? then s.drains[t := next.value] else s.drains - {t})
    case WaitOn(t) =>
      var at := s.drains[t].at;
      s.(drains := s.drains[t := if at.Returned? then Reading
                                 else Waiting(s.drains[t].call, StepWait(s.log, t, s.drains[t].call, at))])
    case Run(t, ok, result) =>
      s.(drains := s.drains[t := Completing(s.drains[t].pending, ok, result)],
         deeds := s.deeds + [Ran(t, s.drains[t].pending, ok, result, |s.log|)])
    case Complete(t, id, timestamp) =>
      var at := s.drains[t];
      s.(log := Written(s.log, Draft(id, CompletionOf(t, at.pending, at.ok, at.result)), timestamp),
         drains := s.drains[t := Reading],
         deeds := s.deeds + [Completed(t, at.pending, at.ok, at.result, |s.log|)])
    case Refuse(t, id, timestamp) =>
      var p := s.drains[t].pending;
      s.(log := Written(s.log, Draft(id, CompletionOf(t, p, false, DENIED_RESULT)), timestamp),
         drains := s.drains[t := Reading],
         deeds := s.deeds + [Denied(t, p, |s.log|)])
    case TurnWrites(t, draft, timestamp) => s.(log := Written(s.log, draft, timestamp))
    case EndTurn(t) => s.(drains := s.drains[t := Reading])
    case Ask(w, thread, request) => s.(waiters := s.waiters[w := Waiter(thread, request, FirstLook)])
    case StepWaiter(w) =>
      var waiter := s.waiters[w];
      s.(waiters := s.waiters[w := waiter.(at := StepWait(s.log, waiter.thread, waiter.request, waiter.at))])
  }

  /** A host starts on any session log, with nothing running. */
  ghost predicate Start(s: System) {
    Grown(s.log) && s.drains == map[] && s.waiters == map[] && s.deeds == []
  }

  /** Where the actions lead; none when one of them was not enabled when its turn came. */
  function After(start: System, actions: seq<Action>): Option<System> {
    if actions == [] then Some(start)
    else
      var before := After(start, actions[..|actions| - 1]);
      var last := actions[|actions| - 1];
      if before.Some? && Enabled(before.value, last) then Some(Do(before.value, last)) else None
  }

  // ---- verdicts ----

  /** The verdict on `request`: the first one on the thread's lane. */
  function VerdictOn(log: seq<Event>, thread: ThreadId, request: string): Option<Verdict> {
    FirstDecision(LaneFacts(log, ThreadLane(thread)), request)
  }

  lemma FoldSeesLane(log: seq<Event>, thread: ThreadId, request: string)
    requires Grown(log)
    ensures StateOf(log, thread) == FoldFacts(LaneFacts(log, ThreadLane(thread)))
    ensures DecisionOf(log, thread, request) == VerdictOn(log, thread, request)
  {
    PathOfLaneIsLaneFacts(log, ThreadLane(thread));
    DecisionMeaning(LaneFacts(log, ThreadLane(thread)), request);
  }

  lemma VerdictStands(log: seq<Event>, more: seq<Event>, thread: ThreadId, request: string)
    ensures VerdictOn(log + more, thread, request)
      == if VerdictOn(log, thread, request).Some? then VerdictOn(log, thread, request)
          else VerdictOn(more, thread, request)
  {
    LaneFactsAppend(log, more, ThreadLane(thread));
    FirstDecisionStands(LaneFacts(log, ThreadLane(thread)), LaneFacts(more, ThreadLane(thread)), request);
  }

  lemma {:induction false} HeardIsVerdict(writes: seq<Event>, thread: ThreadId, request: string)
    ensures Heard(writes, thread, request) == VerdictOn(writes, thread, request)
  {
    if writes != [] {
      HeardIsVerdict(writes[1..], thread, request);
      assert writes == [writes[0]] + writes[1..];
      VerdictStands([writes[0]], writes[1..], thread, request);
      VerdictOfOne(writes[0], thread, request);
    }
  }

  lemma VerdictOfOne(e: Event, thread: ThreadId, request: string)
    ensures VerdictOn([e], thread, request)
      == if e.fact.ApprovalDecided? && e.fact.thread == thread && e.fact.request == request
         then Some(e.fact.decision) else None
  {
    var lane := ThreadLane(thread);
    assert [e][..0] == [] && LaneFacts([e][..0], lane) == [];
    assert [e][1..] == [] && FirstDecision([e][1..], request) == None;
    if LaneOf(e) == lane {
      assert LaneFacts([e], lane) == [e];
    } else {
      assert LaneFacts([e], lane) == [];
    }
  }

  /** A waiter that listens has missed nothing; one that returned has the lane's verdict. */
  predicate WaitOk(log: seq<Event>, thread: ThreadId, request: string, at: Wait) {
    match at
    case SecondLook(from) => from <= |log|
    case Live(from) => from <= |log| && VerdictOn(log[..from], thread, request).None?
    case Returned(verdict) => VerdictOn(log, thread, request) == Some(verdict)
    case _ => true
  }

  lemma WaitStays(log: seq<Event>, e: Event, thread: ThreadId, request: string, at: Wait)
    requires WaitOk(log, thread, request, at)
    ensures WaitOk(log + [e], thread, request, at)
  {
    VerdictStands(log, [e], thread, request);
    if at.Live? {
      assert (log + [e])[..at.from] == log[..at.from];
    }
  }

  lemma WaitSteps(log: seq<Event>, thread: ThreadId, request: string, at: Wait)
    requires Grown(log) && WaitOk(log, thread, request, at) && WaitEnabled(log, thread, request, at)
    ensures WaitOk(log, thread, request, StepWait(log, thread, request, at))
  {
    FoldSeesLane(log, thread, request);
    match at {
      case SecondLook(from) =>
        assert log == log[..from] + log[from..];
        VerdictStands(log[..from], log[from..], thread, request);
      case Live(from) =>
        assert log == log[..from] + log[from..];
        HeardIsVerdict(log[from..], thread, request);
        VerdictStands(log[..from], log[from..], thread, request);
      case _ =>
    }
  }

  // ---- what holds of each drain, each deed and each call ----

  predicate IsPending(log: seq<Event>, thread: ThreadId, call: CallId) {
    OpenedAt(LaneFacts(log, ThreadLane(thread)), call) >= 0
  }

  predicate DrainOk(log: seq<Event>, thread: ThreadId, at: Point) {
    match at
    case Waiting(call, wait) => WaitOk(log, thread, call, wait)
    case Denying(p) => VerdictOn(log, thread, p.call) == Some(Deny) && IsPending(log, thread, p.call)
    case Running(p) => VerdictOn(log, thread, p.call) == Some(Approve) && IsPending(log, thread, p.call)
    case Completing(p, _, _) => VerdictOn(log, thread, p.call) == Some(Approve)
    case _ => true
  }

  predicate DeedOk(log: seq<Event>, deed: Deed) {
    && deed.at <= |log|
    && match deed
       case Ran(t, p, _, _, at) => VerdictOn(log[..at], t, p.call) == Some(Approve) && IsPending(log[..at], t, p.call)
       case Completed(t, p, ok, result, at) =>
         at < |log| && log[at].fact == CompletionOf(t, p, ok, result)
       case Denied(t, p, at) =>
         && at < |log| && log[at].fact == CompletionOf(t, p, false, DENIED_RESULT)
         && VerdictOn(log[..at], t, p.call) == Some(Deny) && IsPending(log[..at], t, p.call)
  }

  lemma DeedStays(log: seq<Event>, e: Event, deed: Deed)
    requires DeedOk(log, deed)
    ensures DeedOk(log + [e], deed)
  {
    assert (log + [e])[..deed.at] == log[..deed.at];
  }

  lemma LaneGrows(log: seq<Event>, e: Event, lane: Lane)
    ensures LaneFacts(log + [e], lane) == LaneFacts(log, lane) + if LaneOf(e) == lane then [e] else []
  {
  }

  /** Only its own completion closes a request. */
  lemma PendingStays(log: seq<Event>, e: Event, thread: ThreadId, call: CallId)
    requires IsPending(log, thread, call)
    requires LaneOf(e) != ThreadLane(thread) || !e.fact.ToolCompleted? || e.fact.call != call
    ensures IsPending(log + [e], thread, call)
  {
    var lane := ThreadLane(thread);
    LaneGrows(log, e, lane);
    if LaneOf(e) == lane {
      assert (LaneFacts(log, lane) + [e])[..|LaneFacts(log, lane)|] == LaneFacts(log, lane);
    } else {
      assert LaneFacts(log, lane) + [] == LaneFacts(log, lane);
    }
  }

  lemma DrainStays(log: seq<Event>, e: Event, thread: ThreadId, at: Point)
    requires DrainOk(log, thread, at)
    requires LaneOf(e) != ThreadLane(thread) || !e.fact.ToolCompleted? || at.Turning?
    ensures DrainOk(log + [e], thread, at)
  {
    match at {
      case Waiting(call, wait) => WaitStays(log, e, thread, call, wait);
      case Denying(p) =>
        VerdictStands(log, [e], thread, p.call);
        PendingStays(log, e, thread, p.call);
      case Running(p) =>
        VerdictStands(log, [e], thread, p.call);
        PendingStays(log, e, thread, p.call);
      case Completing(p, _, _) => VerdictStands(log, [e], thread, p.call);
      case _ =>
    }
  }

  /** The work a drain reads puts it at a point that is in order. */
  lemma ReadIsOk(log: seq<Event>, thread: ThreadId)
    requires Grown(log)
    ensures var next := PointOf(WorkOf(StateOf(log, thread)));
      next.Some? ==> DrainOk(log, thread, next.value) && !next.value.Completing?
  {
    var path := LaneFacts(log, ThreadLane(thread));
    var state := FoldFacts(path);
    FoldSeesLane(log, thread, "");
    PendingMeaning(path);
    if state.pending != [] {
      var p := state.pending[0];
      DecisionMeaning(path, p.call);
      assert OpenedAt(path, p.call) >= 0;
    }
  }

  // ---- each request is settled once ----

  function Requests(path: seq<Event>, call: CallId): nat {
    if path == [] then 0
    else
      Requests(path[..|path| - 1], call)
      + if path[|path| - 1].fact.ToolRequested? && path[|path| - 1].fact.call == call then 1 else 0
  }

  function Requested(log: seq<Event>, thread: ThreadId, call: CallId): nat {
    Requests(LaneFacts(log, ThreadLane(thread)), call)
  }

  function Open(log: seq<Event>, thread: ThreadId, call: CallId): nat {
    if IsPending(log, thread, call) then 1 else 0
  }

  function Runs(deeds: seq<Deed>, thread: ThreadId, call: CallId): nat {
    if deeds == [] then 0
    else
      var last := deeds[|deeds| - 1];
      Runs(deeds[..|deeds| - 1], thread, call)
      + if last.Ran? && last.thread == thread && last.pending.call == call then 1 else 0
  }

  function Completions(deeds: seq<Deed>, thread: ThreadId, call: CallId): nat {
    if deeds == [] then 0
    else
      var last := deeds[|deeds| - 1];
      Completions(deeds[..|deeds| - 1], thread, call)
      + if last.Completed? && last.thread == thread && last.pending.call == call then 1 else 0
  }

  function Denials(deeds: seq<Deed>, thread: ThreadId, call: CallId): nat {
    if deeds == [] then 0
    else
      var last := deeds[|deeds| - 1];
      Denials(deeds[..|deeds| - 1], thread, call)
      + if last.Denied? && last.thread == thread && last.pending.call == call then 1 else 0
  }

  predicate InFlight(s: System, thread: ThreadId, call: CallId) {
    thread in s.drains && s.drains[thread].Completing? && s.drains[thread].pending.call == call
  }

  /**
    Each run has its one completion, save the run in flight; and every run, every denial
    and the request still open (unless it is in flight) has a request of its own.
   */
  predicate Balanced(s: System, thread: ThreadId, call: CallId) {
    && Runs(s.deeds, thread, call)
         == Completions(s.deeds, thread, call) + (if InFlight(s, thread, call) then 1 else 0)
    && Runs(s.deeds, thread, call) + Denials(s.deeds, thread, call)
         + (if InFlight(s, thread, call) then 0 else Open(s.log, thread, call))
       <= Requested(s.log, thread, call)
  }

  ghost predicate Inv(s: System) {
    && Grown(s.log)
    && (forall t :: t in s.drains ==> DrainOk(s.log, t, s.drains[t]))
    && (forall w :: w in s.waiters ==> WaitOk(s.log, s.waiters[w].thread, s.waiters[w].request, s.waiters[w].at))
    && (forall i :: 0 <= i < |s.deeds| ==> DeedOk(s.log, s.deeds[i]))
    && (forall t, call :: Balanced(s, t, call))
  }

  // ---- every step keeps the invariant ----

  /** A write never makes a call owe more than it was asked for. */
  lemma WriteBalance(log: seq<Event>, e: Event, thread: ThreadId, call: CallId)
    ensures Requested(log, thread, call) <= Requested(log + [e], thread, call)
    ensures Open(log + [e], thread, call) + Requested(log, thread, call)
         <= Open(log, thread, call) + Requested(log + [e], thread, call)
    ensures LaneOf(e) == ThreadLane(thread) && e.fact.ToolCompleted? && e.fact.call == call ==>
              !IsPending(log + [e], thread, call)
  {
    var path := LaneFacts(log, ThreadLane(thread));
    LaneGrows(log, e, ThreadLane(thread));
    if LaneOf(e) == ThreadLane(thread) {
      PathBalance(path, e, call);
    } else {
      assert path + [] == path;
    }
  }

  lemma PathBalance(path: seq<Event>, e: Event, call: CallId)
    ensures Requests(path, call) <= Requests(path + [e], call)
    ensures (if OpenedAt(path + [e], call) >= 0 then 1 else 0) + Requests(path, call)
         <= (if OpenedAt(path, call) >= 0 then 1 else 0) + Requests(path + [e], call)
    ensures e.fact.ToolCompleted? && e.fact.call == call ==> OpenedAt(path + [e], call) < 0
  {
  }

  lemma DeedsOneMore(deeds: seq<Deed>, deed: Deed, thread: ThreadId, call: CallId)
    ensures var mine := deed.thread == thread && deed.pending.call == call;
      && Runs(deeds + [deed], thread, call) == Runs(deeds, thread, call) + (if mine && deed.Ran? then 1 else 0)
      && Completions(deeds + [deed], thread, call)
           == Completions(deeds, thread, call) + (if mine && deed.Completed? then 1 else 0)
      && Denials(deeds + [deed], thread, call) == Denials(deeds, thread, call) + (if mine && deed.Denied? then 1 else 0)
  {
  }

  lemma StepBalances(s: System, a: Action, thread: ThreadId, call: CallId)
    requires Inv(s) && Enabled(s, a)
    ensures Balanced(Do(s, a), thread, call)
  {
    hide Requests, Runs, Completions, Denials, LaneFacts, OpenedAt, WorkOf, StateOf, Stamp;
    assert Balanced(s, thread, call);
    match a {
      case Outside(draft, timestamp) => WriteBalance(s.log, Stamp(draft, s.log, timestamp), thread, call);
      case TurnWrites(t, draft, timestamp) => WriteBalance(s.log, Stamp(draft, s.log, timestamp), thread, call);
      case Read(t) => ReadIsOk(s.log, t);
      case Run(t, ok, result) =>
        assert DrainOk(s.log, t, s.drains[t]);
        DeedsOneMore(s.deeds, Ran(t, s.drains[t].pending, ok, result, |s.log|), thread, call);
      case Complete(t, id, timestamp) => CompleteBalances(s, t, id, timestamp, thread, call);
      case Refuse(t, id, timestamp) => RefuseBalances(s, t, id, timestamp, thread, call);
      case _ =>
    }
  }

  lemma CompleteBalances(s: System, t: ThreadId, id: EventId, timestamp: int, thread: ThreadId, call: CallId)
    requires Balanced(s, thread, call) && Enabled(s, Complete(t, id, timestamp))
    ensures Balanced(Do(s, Complete(t, id, timestamp)), thread, call)
  {
    var at := s.drains[t];
    var fact := CompletionOf(t, at.pending, at.ok, at.result);
    WriteBalance(s.log, Stamp(Draft(id, fact), s.log, timestamp), thread, call);
    DeedsOneMore(s.deeds, Completed(t, at.pending, at.ok, at.result, |s.log|), thread, call);
  }

  lemma RefuseBalances(s: System, t: ThreadId, id: EventId, timestamp: int, thread: ThreadId, call: CallId)
    requires Balanced(s, thread, call) && Enabled(s, Refuse(t, id, timestamp))
    requires DrainOk(s.log, t, s.drains[t])
    ensures Balanced(Do(s, Refuse(t, id, timestamp)), thread, call)
  {
    var p := s.drains[t].pending;
    var fact := CompletionOf(t, p, false, DENIED_RESULT);
    WriteBalance(s.log, Stamp(Draft(id, fact), s.log, timestamp), thread, call);
    DeedsOneMore(s.deeds, Denied(t, p, |s.log|), thread, call);
  }

  /** A write that closes no request of another thread leaves every other part in order. */
  lemma WriteKeepsRest(s: System, draft: Draft, timestamp: int)
    requires Inv(s) && FreshId(s.log, draft.id)
    ensures var log := Written(s.log, draft, timestamp);
      && Grown(log)
      && (forall t :: t in s.drains
            && (LaneOfFact(draft.fact) != ThreadLane(t) || !draft.fact.ToolCompleted? || s.drains[t].Turning?)
            ==> DrainOk(log, t, s.drains[t]))
      && (forall w :: w in s.waiters ==> WaitOk(log, s.waiters[w].thread, s.waiters[w].request, s.waiters[w].at))
      && (forall i :: 0 <= i < |s.deeds| ==> DeedOk(log, s.deeds[i]))
  {
    var e := Stamp(draft, s.log, timestamp);
    GrownAppend(s.log, draft, timestamp);
    forall t | t in s.drains
      && (LaneOfFact(draft.fact) != ThreadLane(t) || !draft.fact.ToolCompleted? || s.drains[t].Turning?)
      ensures DrainOk(s.log + [e], t, s.drains[t])
    {
      DrainStays(s.log, e, t, s.drains[t]);
    }
    forall w | w in s.waiters
      ensures WaitOk(s.log + [e], s.waiters[w].thread, s.waiters[w].request, s.waiters[w].at)
    {
      WaitStays(s.log, e, s.waiters[w].thread, s.waiters[w].request, s.waiters[w].at);
    }
    forall i | 0 <= i < |s.deeds|
      ensures DeedOk(s.log + [e], s.deeds[i])
    {
      DeedStays(s.log, e, s.deeds[i]);
    }
  }

  lemma StepKeepsInvariant(s: System, a: Action)
    requires Inv(s) && Enabled(s, a)
    ensures Inv(Do(s, a))
  {
    forall t, call ensures Balanced(Do(s, a), t, call) {
      StepBalances(s, a, t, call);
    }
    match a {
      case Outside(draft, timestamp) => WriteKeepsRest(s, draft, timestamp);
      case TurnWrites(t, draft, timestamp) => WriteKeepsRest(s, draft, timestamp);
      case Complete(t, id, timestamp) => CompleteKeepsInvariant(s, t, id, timestamp);
      case Refuse(t, id, timestamp) => RefuseKeepsInvariant(s, t, id, timestamp);
      case Read(t) => ReadIsOk(s.log, t);
      case WaitOn(t) =>
        if !s.drains[t].at.Returned? {
          WaitSteps(s.log, t, s.drains[t].call, s.drains[t].at);
        }
      case StepWaiter(w) =>
        WaitSteps(s.log, s.waiters[w].thread, s.waiters[w].request, s.waiters[w].at);
      case Run(t, ok, result) => RunKeepsInvariant(s, t, ok, result);
      case _ =>
    }
  }

  lemma RunKeepsInvariant(s: System, t: ThreadId, ok: bool, result: string)
    requires Inv(s) && Enabled(s, Run(t, ok, result))
    ensures var after := Do(s, Run(t, ok, result));
      && (forall u :: u in after.drains ==> DrainOk(after.log, u, after.drains[u]))
      && (forall i :: 0 <= i < |after.deeds| ==> DeedOk(after.log, after.deeds[i]))
  {
    assert DrainOk(s.log, t, s.drains[t]);
    assert s.log[..|s.log|] == s.log;
  }

  lemma CompleteKeepsInvariant(s: System, t: ThreadId, id: EventId, timestamp: int)
    requires Inv(s) && Enabled(s, Complete(t, id, timestamp))
    ensures var after := Do(s, Complete(t, id, timestamp));
      && Grown(after.log)
      && (forall u :: u in after.drains ==> DrainOk(after.log, u, after.drains[u]))
      && (forall w :: w in after.waiters ==>
            WaitOk(after.log, after.waiters[w].thread, after.waiters[w].request, after.waiters[w].at))
      && (forall i :: 0 <= i < |after.deeds| ==> DeedOk(after.log, after.deeds[i]))
  {
    var at := s.drains[t];
    WriteKeepsRest(s, Draft(id, CompletionOf(t, at.pending, at.ok, at.result)), timestamp);
  }

  lemma RefuseKeepsInvariant(s: System, t: ThreadId, id: EventId, timestamp: int)
    requires Inv(s) && Enabled(s, Refuse(t, id, timestamp))
    ensures var after := Do(s, Refuse(t, id, timestamp));
      && Grown(after.log)
      && (forall u :: u in after.drains ==> DrainOk(after.log, u, after.drains[u]))
      && (forall w :: w in after.waiters ==>
            WaitOk(after.log, after.waiters[w].thread, after.waiters[w].request, after.waiters[w].at))
      && (forall i :: 0 <= i < |after.deeds| ==> DeedOk(after.log, after.deeds[i]))
  {
    var p := s.drains[t].pending;
    assert DrainOk(s.log, t, s.drains[t]);
    WriteKeepsRest(s, Draft(id, CompletionOf(t, p, false, DENIED_RESULT)), timestamp);
    assert Written(s.log, Draft(id, CompletionOf(t, p, false, DENIED_RESULT)), timestamp)[..|s.log|] == s.log;
  }

  lemma StartIsBalanced(s: System, thread: ThreadId, call: CallId)
    requires Start(s)
    ensures Balanced(s, thread, call)
  {
    OpenWasRequested(LaneFacts(s.log, ThreadLane(thread)), call);
  }

  lemma {:induction false} OpenWasRequested(path: seq<Event>, call: CallId)
    ensures OpenedAt(path, call) >= 0 ==> Requests(path, call) >= 1
  {
    if path != [] {
      OpenWasRequested(path[..|path| - 1], call);
    }
  }

  lemma {:induction false} RunsKeepInvariant(start: System, actions: seq<Action>)
    requires Start(start) && After(start, actions).Some?
    ensures Inv(After(start, actions).value)
  {
    if actions == [] {
      forall t, call ensures Balanced(start, t, call) {
        StartIsBalanced(start, t, call);
      }
    } else {
      var n := |actions| - 1;
      RunsKeepInvariant(start, actions[..n]);
      StepKeepsInvariant(After(start, actions[..n]).value, actions[n]);
    }
  }

  // ---- what every run guarantees ----

  /** What a deed says of the log it was done on and of every later one. */
  predicate Lawful(s: System, d: Deed) {
    && d.at <= |s.log|
    && var earlier := s.log[..d.at];
       match d
       case Ran(t, p, _, _, at) =>
         && VerdictOn(earlier, t, p.call) == VerdictOn(s.log, t, p.call) == Some(Approve)
         && IsPending(earlier, t, p.call)
       case Denied(t, p, at) =>
         && VerdictOn(earlier, t, p.call) == VerdictOn(s.log, t, p.call) == Some(Deny)
         && at < |s.log| && s.log[at].fact == CompletionOf(t, p, false, DENIED_RESULT)
         && Runs(s.deeds, t, p.call) == 0
       case Completed(t, p, ok, result, at) =>
         && at < |s.log| && s.log[at].fact == CompletionOf(t, p, ok, result)
         && !IsPending(s.log[..at + 1], t, p.call)
  }

  /** Each request is run or denied at most once, and each run but the one in flight has its one completion. */
  predicate SettledOnce(s: System, thread: ThreadId, call: CallId) {
    && Runs(s.deeds, thread, call)
         == Completions(s.deeds, thread, call) + (if InFlight(s, thread, call) then 1 else 0)
    && Runs(s.deeds, thread, call) + Denials(s.deeds, thread, call) <= Requested(s.log, thread, call)
  }

  /**
    Approval safety.  However sends, decides and drains interleave: a tool a drain ran was
    approved first, before it ran and for good; a call it denied was denied first, never
    ran, and got its not-ok completion; and a call is run or denied at most once per
    request, each run but the one in flight having recorded its own completion.
   */
  lemma ApprovalSafety(start: System, actions: seq<Action>)
    requires Start(start) && After(start, actions).Some?
    ensures var s := After(start, actions).value;
      && (forall i :: 0 <= i < |s.deeds| ==> Lawful(s, s.deeds[i]))
      && (forall t, call :: SettledOnce(s, t, call))
  {
    var s := After(start, actions).value;
    RunsKeepInvariant(start, actions);
    forall i | 0 <= i < |s.deeds| ensures Lawful(s, s.deeds[i]) {
      DeedIsLawful(s, s.deeds[i]);
    }
    forall t, call ensures SettledOnce(s, t, call) {
      assert Balanced(s, t, call);
    }
  }

  lemma DeedIsLawful(s: System, d: Deed)
    requires DeedOk(s.log, d) && forall i :: 0 <= i < |s.deeds| ==> DeedOk(s.log, s.deeds[i])
    ensures Lawful(s, d)
  {
    DeedVerdictStands(s.log, d);
    if d.Denied? {
      DeniedNeverRan(s.log, s.deeds, d.thread, d.pending.call);
    }
    if d.Completed? {
      assert s.log[..d.at + 1] == s.log[..d.at] + [s.log[d.at]];
      WriteBalance(s.log[..d.at], s.log[d.at], d.thread, d.pending.call);
    }
  }

  lemma DeedVerdictStands(log: seq<Event>, d: Deed)
    requires DeedOk(log, d)
    ensures d.Ran? ==> VerdictOn(log, d.thread, d.pending.call) == Some(Approve)
    ensures d.Denied? ==> VerdictOn(log, d.thread, d.pending.call) == Some(Deny)
  {
    assert log == log[..d.at] + log[d.at..];
    VerdictStands(log[..d.at], log[d.at..], d.thread, d.pending.call);
  }

  lemma {:induction false} DeniedNeverRan(log: seq<Event>, deeds: seq<Deed>, thread: ThreadId, call: CallId)
    requires forall i :: 0 <= i < |deeds| ==> DeedOk(log, deeds[i])
    requires VerdictOn(log, thread, call) == Some(Deny)
    ensures Runs(deeds, thread, call) == 0
  {
    if deeds != [] {
      var n := |deeds| - 1;
      DeniedNeverRan(log, deeds[..n], thread, call);
      assert DeedOk(log, deeds[n]);
      DeedVerdictStands(log, deeds[n]);
    }
  }

  // ---- what a completion carries ----

  /** The thread's last deed so far is this run. */
  predicate RanLast(deeds: seq<Deed>, j: nat, thread: ThreadId, p: PendingCall, ok: bool, result: string) {
    && j < |deeds| && deeds[j] == Ran(thread, p, ok, result, deeds[j].at)
    && forall k :: j < k < |deeds| ==> deeds[k].thread != thread
  }

  /** The completion at `i` records what the run at `j` came to, the thread's last deed before it. */
  predicate Records(deeds: seq<Deed>, j: nat, i: nat) {
    && i < |deeds| && deeds[i].Completed?
    && RanLast(deeds[..i], j, deeds[i].thread, deeds[i].pending, deeds[i].ok, deeds[i].result)
  }

  ghost predicate Carried(s: System) {
    && (forall i :: 0 <= i < |s.deeds| && s.deeds[i].Completed? ==> exists j :: Records(s.deeds, j, i))
    && (forall t :: t in s.drains && s.drains[t].Completing? ==>
          exists j :: RanLast(s.deeds, j, t, s.drains[t].pending, s.drains[t].ok, s.drains[t].result))
  }

  lemma OldRecordsStay(deeds: seq<Deed>, deed: Deed, j: nat, i: nat)
    requires Records(deeds, j, i)
    ensures Records(deeds + [deed], j, i)
  {
    assert (deeds + [deed])[..i] == deeds[..i];
  }

  lemma StepCarries(s: System, a: Action)
    requires Carried(s) && Enabled(s, a)
    ensures Carried(Do(s, a))
  {
    hide Written, StepWait, WorkOf, StateOf, Completes, Stamp;
    var after := Do(s, a);
    if after.deeds != s.deeds {
      var deed := after.deeds[|s.deeds|];
      assert after.deeds == s.deeds + [deed];
      forall i | 0 <= i < |after.deeds| && after.deeds[i].Completed? ensures exists j :: Records(after.deeds, j, i) {
        if i < |s.deeds| {
          var j :| Records(s.deeds, j, i);
          OldRecordsStay(s.deeds, deed, j, i);
        } else {
          var j :| RanLast(s.deeds, j, deed.thread, deed.pending, deed.ok, deed.result);
          assert after.deeds[..i] == s.deeds;
          assert Records(after.deeds, j, i);
        }
      }
      forall t | t in after.drains && after.drains[t].Completing?
        ensures exists j :: RanLast(after.deeds, j, t, after.drains[t].pending, after.drains[t].ok,
                                    after.drains[t].result)
      {
        if t == deed.thread {
          assert RanLast(after.deeds, |s.deeds|, t, after.drains[t].pending, after.drains[t].ok,
                         after.drains[t].result);
        } else {
          var j :| RanLast(s.deeds, j, t, s.drains[t].pending, s.drains[t].ok, s.drains[t].result);
          assert RanLast(after.deeds, j, t, after.drains[t].pending, after.drains[t].ok, after.drains[t].result);
        }
      }
    } else {
      forall t | t in after.drains && after.drains[t].Completing?
        ensures t in s.drains && s.drains[t] == after.drains[t]
      {
      }
    }
  }

  /**
    Every completion a drain records carries what its own run came to: before it, and with no
    other deed of the thread between, the drain ran that very call with that outcome.
   */
  lemma {:induction false} CompletionsCarryRuns(start: System, actions: seq<Action>)
    requires Start(start) && After(start, actions).Some?
    ensures Carried(After(start, actions).value)
  {
    hide Enabled, Do, Carried;
    if actions == [] {
      NothingCarried(start);
    } else {
      var n := |actions| - 1;
      CompletionsCarryRuns(start, actions[..n]);
      StepCarries(After(start, actions[..n]).value, actions[n]);
    }
  }

  lemma NothingCarried(s: System)
    requires Start(s)
    ensures Carried(s)
  {
  }

  // ---- what a drain does next ----

  /** The model is awaited: the latest signal on the lane is a user message or a tool's result. */
  predicate Awaited(path: seq<Event>) {
    var signal := LastSignal(path);
    signal.Some? && (signal.value.ToolCompleted? || (signal.value.MessageAppended? && signal.value.role.User?))
  }

  /** What a drain does about the request open longest goes by the first verdict on it. */
  function Answering(p: PendingCall, verdict: Option<Verdict>): Point {
    match verdict
    case None => Waiting(p.call, FirstLook)
    case Some(Deny) => Denying(p)
    case Some(Approve) => Running(p)
  }

  /**
    What a read of this log leaves of the thread's drain, by the facts of the lane alone: it is
    gone with nothing open and nothing awaited, in a turn with nothing open and the model
    awaited, and otherwise answering the request open longest.
   */
  ghost predicate DoesNext(log: seq<Event>, t: ThreadId, drains: map<ThreadId, Point>) {
    var path := LaneFacts(log, ThreadLane(t));
    && (NothingOpen(path) && !Awaited(path) ==> t !in drains)
    && (NothingOpen(path) && Awaited(path) ==> t in drains && drains[t] == Turning)
    && (!NothingOpen(path) ==> exists p :: OldestOpen(path, p))
    && (forall p :: OldestOpen(path, p) ==>
          t in drains && drains[t] == Answering(p, FirstDecision(path, p.call)))
  }

  /** One read does just that, and nothing else moves. */
  lemma ReadMeaning(s: System, t: ThreadId)
    requires Grown(s.log) && Enabled(s, Read(t))
    ensures var after := Do(s, Read(t));
      && after == s.(drains := after.drains) && after.drains - {t} == s.drains - {t}
      && DoesNext(s.log, t, after.drains)
  {
    hide FoldFacts, OpenedAt, LatestRequest, FirstDecision, LastSignal, LaneFacts, Grown;
    var path := LaneFacts(s.log, ThreadLane(t));
    FoldSeesLane(s.log, t, "");
    WorkMeaning(path);
    AwaitingMeaning(path);
    var work := WorkOf(FoldFacts(path));
    forall p | OldestOpen(path, p) ensures !NothingOpen(path) && work.pending == p {
      OldestIsOne(path, p, work);
    }
  }

  lemma OldestIsOne(path: seq<Event>, p: PendingCall, work: Work)
    requires OldestOpen(path, p)
    requires work.Idle? || work.CallModel? ==> NothingOpen(path)
    requires !work.Idle? && !work.CallModel? ==> OldestOpen(path, work.pending)
    ensures !work.Idle? && !work.CallModel? && work.pending == p
  {
    hide OpenedAt, LatestRequest;
    if !work.Idle? && !work.CallModel? {
      OpenedOnce(path, p.call, work.pending.call);
    }
  }

  /** Two requests are not opened by one fact. */
  lemma {:induction false} OpenedOnce(path: seq<Event>, a: CallId, b: CallId)
    requires OpenedAt(path, a) == OpenedAt(path, b) >= 0
    ensures a == b
  {
    var n := |path| - 1;
    if OpenedAt(path, a) < n {
      OpenedOnce(path[..n], a, b);
    }
  }

  /** A drain that got its verdict acts on it next: the tool is run, or its denial recorded. */
  lemma VerdictIsActedOn(s: System, t: ThreadId, p: PendingCall, verdict: Verdict)
    requires Inv(s) && t in s.drains && s.drains[t] == Waiting(p.call, Returned(verdict))
    requires OldestOpen(LaneFacts(s.log, ThreadLane(t)), p)
    ensures Enabled(s, WaitOn(t)) && Enabled(Do(s, WaitOn(t)), Read(t))
    ensures var after := Do(Do(s, WaitOn(t)), Read(t));
      t in after.drains && after.drains[t] == (if verdict.Deny? then Denying(p) else Running(p))
  {
    hide OldestOpen, LaneFacts, Balanced, DeedOk;
    assert DrainOk(s.log, t, s.drains[t]);
    ReadMeaning(Do(s, WaitOn(t)), t);
  }

  /**
    A drain that reads an approved request as the one open longest, runs it and completes it has
    added the one completion that carries the outcome, closed the request, and reads again.
   */
  lemma ApprovedIsSettled(s: System, t: ThreadId, p: PendingCall, ok: bool, result: string, id: EventId, timestamp: int)
    requires Grown(s.log) && Enabled(s, Read(t)) && FreshId(s.log, id)
    requires OldestOpen(LaneFacts(s.log, ThreadLane(t)), p)
    requires FirstDecision(LaneFacts(s.log, ThreadLane(t)), p.call) == Some(Approve)
    ensures var read := Do(s, Read(t));
      && Enabled(read, Run(t, ok, result)) && Enabled(Do(read, Run(t, ok, result)), Complete(t, id, timestamp))
      && var after := Do(Do(read, Run(t, ok, result)), Complete(t, id, timestamp));
         Settled(s, after, t, p, ok, result, id, timestamp)
  {
    hide OldestOpen, FirstDecision, LaneFacts, Grown, WorkOf, StateOf;
    ReadMeaning(s, t);
    ClosedNow(s.log, t, p, ok, result, id, timestamp);
  }

  /** A denied one, read and refused, has got its not-ok completion instead, with no run. */
  lemma DeniedIsSettled(s: System, t: ThreadId, p: PendingCall, id: EventId, timestamp: int)
    requires Grown(s.log) && Enabled(s, Read(t)) && FreshId(s.log, id)
    requires OldestOpen(LaneFacts(s.log, ThreadLane(t)), p)
    requires FirstDecision(LaneFacts(s.log, ThreadLane(t)), p.call) == Some(Deny)
    ensures var read := Do(s, Read(t));
      && Enabled(read, Refuse(t, id, timestamp))
      && var after := Do(read, Refuse(t, id, timestamp));
         Settled(s, after, t, p, false, "the user denied this tool call", id, timestamp)
  {
    hide OldestOpen, FirstDecision, LaneFacts, Grown, WorkOf, StateOf;
    ReadMeaning(s, t);
    ClosedNow(s.log, t, p, false, DENIED_RESULT, id, timestamp);
  }

  /** The log has gained the call's completion and nothing else, the call is closed, and the drain reads again. */
  predicate Settled(s: System, after: System, t: ThreadId, p: PendingCall, ok: bool, result: string,
                    id: EventId, timestamp: int)
  {
    && |after.log| == |s.log| + 1 && s.log <= after.log
    && after.log[|s.log|].id == id && after.log[|s.log|].timestamp == timestamp
    && after.log[|s.log|].fact == ToolCompleted(t, p.turn, p.call, p.name, ok, result)
    && !IsPending(after.log, t, p.call)
    && t in after.drains && after.drains[t] == Reading && after.drains - {t} == s.drains - {t}
    && after.waiters == s.waiters
  }

  lemma ClosedNow(log: seq<Event>, t: ThreadId, p: PendingCall, ok: bool, result: string, id: EventId, timestamp: int)
    ensures !IsPending(Written(log, Draft(id, CompletionOf(t, p, ok, result)), timestamp), t, p.call)
  {
    WriteBalance(log, Stamp(Draft(id, CompletionOf(t, p, ok, result)), log, timestamp), t, p.call);
  }

  /** Others may write any fact but a completion at any time, and it goes to the log and nowhere else. */
  lemma OthersMayWrite(s: System, draft: Draft, timestamp: int)
    requires FreshId(s.log, draft.id) && !draft.fact.ToolCompleted?
    ensures Enabled(s, Outside(draft, timestamp))
    ensures var after := Do(s, Outside(draft, timestamp));
      && after == s.(log := after.log) && |after.log| == |s.log| + 1 && s.log <= after.log
      && after.log[|s.log|].id == draft.id && after.log[|s.log|].fact == draft.fact
  {
  }

  /** A thread that is kicked goes by its lane next, unless it is being driven already; so does one whose turn ended. */
  lemma KickedGoesByLane(s: System, t: ThreadId)
    requires Grown(s.log)
    ensures t in s.drains ==> Do(s, Kick(t)) == s
    ensures t !in s.drains ==>
      && Enabled(Do(s, Kick(t)), Read(t))
      && DoesNext(s.log, t, Do(Do(s, Kick(t)), Read(t)).drains)
    ensures t in s.drains && s.drains[t].Turning? ==>
      && Enabled(Do(s, EndTurn(t)), Read(t))
      && DoesNext(s.log, t, Do(Do(s, EndTurn(t)), Read(t)).drains)
  {
    hide DoesNext, Grown, StateOf, WorkOf;
    if t !in s.drains {
      ReadMeaning(Do(s, Kick(t)), t);
    } else if s.drains[t].Turning? {
      ReadMeaning(Do(s, EndTurn(t)), t);
    }
  }

  /**
    A message sent to a thread at rest with no request open, then noted in its inbox, is on its
    lane, and the drain kicked for it is in a turn after its first read.
   */
  lemma SentMessageIsTaken(s: System, t: ThreadId, id: EventId, noteId: EventId, body: string, queue: InboxQueue,
                           timestamp: int)
    requires Grown(s.log) && FreshId(s.log, id) && FreshId(s.log, noteId) && id != noteId && t !in s.drains
    requires NothingOpen(LaneFacts(s.log, ThreadLane(t)))
    ensures var send := Outside(Draft(id, MessageAppended(t, User, body)), timestamp);
      var note := Outside(Draft(noteId, InboxSpliced(t, queue, body)), timestamp);
      && Enabled(s, send) && Enabled(Do(s, send), note)
      && var sent := Do(Do(s, send), note);
         && sent == s.(log := sent.log) && |sent.log| == |s.log| + 2 && s.log <= sent.log
         && sent.log[|s.log|].fact == MessageAppended(t, User, body)
         && Enabled(Do(sent, Kick(t)), Read(t))
         && var read := Do(Do(sent, Kick(t)), Read(t));
            t in read.drains && read.drains[t] == Turning
  {
    hide OpenedAt, StateOf, WorkOf, Grown, NothingOpen, Awaited, LaneFacts;
    var message, note := Draft(id, MessageAppended(t, User, body)), Draft(noteId, InboxSpliced(t, queue, body));
    var middle := Written(s.log, message, timestamp);
    var log := Written(middle, note, timestamp);
    OthersMayWrite(s, message, timestamp);
    OthersMayWrite(s.(log := middle), note, timestamp);
    GrownAppend(s.log, message, timestamp);
    GrownAppend(middle, note, timestamp);
    KickedGoesByLane(s.(log := log), t);
    LaneGrows(s.log, middle[|s.log|], ThreadLane(t));
    LaneGrows(middle, log[|middle|], ThreadLane(t));
    SentIsAwaited(LaneFacts(s.log, ThreadLane(t)), middle[|s.log|], log[|middle|]);
  }

  lemma SentIsAwaited(path: seq<Event>, message: Event, note: Event)
    requires NothingOpen(path) && message.fact.MessageAppended? && message.fact.role == User && note.fact.InboxSpliced?
    ensures NothingOpen(path + [message] + [note]) && Awaited(path + [message] + [note])
  {
    var sent := path + [message];
    assert sent[..|path|] == path && (sent + [note])[..|sent|] == sent;
    forall call ensures OpenedAt(sent + [note], call) == OpenedAt(path, call) {
    }
  }

  /** Someone has this verdict: a caller that waited, or the thread's own drain. */
  predicate Got(s: System, thread: ThreadId, request: string, verdict: Verdict) {
    || (exists w :: w in s.waiters && s.waiters[w] == Waiter(thread, request, Returned(verdict)))
    || (thread in s.drains && s.drains[thread] == Waiting(request, Returned(verdict)))
  }

  /**
    Decision agreement.  Whoever has a verdict, a caller or the drain, whether from the first
    look, the second or the live stream, has the lane's first one; so does every fold, then
    and after any later writes.
   */
  lemma DecisionAgreement(start: System, actions: seq<Action>, thread: ThreadId, request: string,
                          verdict: Verdict, other: Verdict, more: seq<Event>)
    requires Start(start) && After(start, actions).Some?
    requires var s := After(start, actions).value;
      Got(s, thread, request, verdict) && Got(s, thread, request, other) && Grown(s.log + more)
    ensures var s := After(start, actions).value;
      && other == verdict
      && DecisionOf(s.log, thread, request) == Some(verdict)
      && DecisionOf(s.log + more, thread, request) == Some(verdict)
  {
    var s := After(start, actions).value;
    RunsKeepInvariant(start, actions);
    GotIsVerdict(s, thread, request, verdict);
    GotIsVerdict(s, thread, request, other);
    FoldSeesLane(s.log, thread, request);
    FoldSeesLane(s.log + more, thread, request);
    VerdictStands(s.log, more, thread, request);
  }

  lemma GotIsVerdict(s: System, thread: ThreadId, request: string, verdict: Verdict)
    requires Inv(s) && Got(s, thread, request, verdict)
    ensures VerdictOn(s.log, thread, request) == Some(verdict)
  {
    hide Balanced, DeedOk, VerdictOn;
    if w :| w in s.waiters && s.waiters[w] == Waiter(thread, request, Returned(verdict)) {
      assert WaitOk(s.log, thread, request, s.waiters[w].at);
    } else {
      assert DrainOk(s.log, thread, s.drains[thread]);
    }
  }

  /** A caller that asks when there is a verdict on its request has it after one look. */
  lemma LateCallerGetsVerdict(s: System, w: nat, thread: ThreadId, request: string, verdict: Verdict)
    requires Grown(s.log) && w !in s.waiters && VerdictOn(s.log, thread, request) == Some(verdict)
    ensures Enabled(s, Ask(w, thread, request)) && Enabled(Do(s, Ask(w, thread, request)), StepWaiter(w))
    ensures var after := Do(Do(s, Ask(w, thread, request)), StepWaiter(w));
      after == s.(waiters := s.waiters[w := Waiter(thread, request, Returned(verdict))])
  {
    hide VerdictOn, Grown;
    FoldSeesLane(s.log, thread, request);
  }

  /** One that asks before then listens, and hears the first verdict written, whatever else is written first. */
  lemma EarlyCallerHearsVerdict(s: System, w: nat, thread: ThreadId, request: string, more: seq<Event>,
                                verdict: Verdict)
    requires Grown(s.log) && w in s.waiters && s.waiters[w] == Waiter(thread, request, FirstLook)
    requires VerdictOn(s.log, thread, request).None? && VerdictOn(more, thread, request) == Some(verdict)
    ensures Enabled(s, StepWaiter(w)) && Enabled(Do(s, StepWaiter(w)), StepWaiter(w))
    ensures var subscribed := Do(Do(s, StepWaiter(w)), StepWaiter(w));
      && Enabled(subscribed, StepWaiter(w))
      && var listening := Do(subscribed, StepWaiter(w));
         && !Enabled(listening, StepWaiter(w))
         && var later := listening.(log := s.log + more);
            && Enabled(later, StepWaiter(w))
            && Do(later, StepWaiter(w)).waiters[w] == Waiter(thread, request, Returned(verdict))
  {
    hide VerdictOn, Grown, Heard;
    FoldSeesLane(s.log, thread, request);
    HeardIsVerdict(more, thread, request);
    assert s.log[|s.log|..] == [] && (s.log + more)[|s.log|..] == more;
    NothingHeard(thread, request);
  }

  lemma NothingHeard(thread: ThreadId, request: string)
    ensures Heard([], thread, request).None?
  {
  }

  /** No wake-up is lost: once a verdict is recorded every waiter can go on, and a listener gets that verdict. */
  lemma ListenersMissNothing(start: System, actions: seq<Action>, w: nat)
    requires Start(start) && After(start, actions).Some?
    requires var s := After(start, actions).value;
      && w in s.waiters && !s.waiters[w].at.Returned?
      && VerdictOn(s.log, s.waiters[w].thread, s.waiters[w].request).Some?
    ensures var s := After(start, actions).value;
      && Enabled(s, StepWaiter(w))
      && (s.waiters[w].at.Live? ==>
            Do(s, StepWaiter(w)).waiters[w].at
            == Returned(VerdictOn(s.log, s.waiters[w].thread, s.waiters[w].request).value))
  {
    hide VerdictOn, Heard, DecisionOf, Balanced, DeedOk, DrainOk;
    var s := After(start, actions).value;
    RunsKeepInvariant(start, actions);
    var waiter := s.waiters[w];
    assert WaitOk(s.log, waiter.thread, waiter.request, waiter.at);
    if waiter.at.Live? {
      ListenerHears(s.log, waiter.at.from, waiter.thread, waiter.request);
    }
  }

  lemma ListenerHears(log: seq<Event>, from: nat, thread: ThreadId, request: string)
    requires from <= |log| && VerdictOn(log[..from], thread, request).None?
    ensures Heard(log[from..], thread, request) == VerdictOn(log, thread, request)
  {
    hide Heard, VerdictOn;
    assert log == log[..from] + log[from..];
    VerdictStands(log[..from], log[from..], thread, request);
    HeardIsVerdict(log[from..], thread, request);
  }
}
