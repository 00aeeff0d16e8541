/**
  Completions in the log itself.  However a host is run, and run again, each request of a
  turn's call is completed at most once, whether by the drain or by the turn; and the
  recorder of a turn takes only steps the driver may take.
 */
module TurnSettlement {
  import opened Primitives
  import opened SessionEvents
  import opened SessionLogs
  import opened SessionForks
  import opened ThreadFold
  import opened TurnDriver
  import TurnHistory

  // ---- requests and completions of one turn's call ----

  predicate Asks(fact: Fact, turn: TurnId, call: CallId) {
    fact.ToolRequested? && fact.turn == turn && fact.call == call
  }

  predicate Answers(fact: Fact, turn: TurnId, call: CallId) {
    fact.ToolCompleted? && fact.turn == turn && fact.call == call
  }

  function Asked(path: seq<Event>, turn: TurnId, call: CallId): nat {
    if path == [] then 0
    else Asked(path[..|path| - 1], turn, call) + if Asks(path[|path| - 1].fact, turn, call) then 1 else 0
  }

  function Answered(path: seq<Event>, turn: TurnId, call: CallId): nat {
    if path == [] then 0
    else Answered(path[..|path| - 1], turn, call) + if Answers(path[|path| - 1].fact, turn, call) then 1 else 0
  }

  predicate OpenFor(path: seq<Event>, turn: TurnId, call: CallId) {
    OpenedAt(path, call) >= 0 && LatestRequest(path, call).Some? && LatestRequest(path, call).value.turn == turn
  }

  /** No more completions than requests, and one fewer while the turn's request is the one open. */
  predicate Owed(path: seq<Event>, turn: TurnId, call: CallId) {
    && Answered(path, turn, call) <= Asked(path, turn, call)
    && (OpenFor(path, turn, call) ==> Answered(path, turn, call) < Asked(path, turn, call))
  }

  lemma OwedStep(path: seq<Event>, e: Event, turn: TurnId, call: CallId)
    requires Owed(path, turn, call)
    requires Answers(e.fact, turn, call) ==> Answered(path, turn, call) < Asked(path, turn, call)
    ensures Owed(path + [e], turn, call)
  {
    assert (path + [e])[..|path|] == path;
  }

  function OnLane(log: seq<Event>, thread: ThreadId): seq<Event> {
    LaneFacts(log, ThreadLane(thread))
  }

  /** The checks the recorder makes against the whole log, read off the thread's lane. */
  lemma {:induction false} CallsOnLane(log: seq<Event>, thread: ThreadId, turn: TurnId, call: CallId)
    ensures call in TurnHistory.RequestedCalls(log, thread, turn) <==> Asked(OnLane(log, thread), turn, call) >= 1
    ensures call in TurnHistory.CompletedCalls(log, thread, turn) <==> Answered(OnLane(log, thread), turn, call) >= 1
  {
    hide OnLane, Asked, Answered;
    if log == [] {
      NoCalls(thread, turn, call);
    } else {
      CallsOnLane(log[..|log| - 1], thread, turn, call);
      assert log == log[..|log| - 1] + [log[|log| - 1]];
      CountsOneMore(log[..|log| - 1], log[|log| - 1], thread, turn, call);
    }
  }

  lemma NoCalls(thread: ThreadId, turn: TurnId, call: CallId)
    ensures Asked(OnLane([], thread), turn, call) == 0 == Answered(OnLane([], thread), turn, call)
  {
  }

  lemma CountsOneMore(log: seq<Event>, e: Event, thread: ThreadId, turn: TurnId, call: CallId)
    ensures var mine := LaneOf(e) == ThreadLane(thread);
      && Asked(OnLane(log + [e], thread), turn, call)
           == Asked(OnLane(log, thread), turn, call) + (if mine && Asks(e.fact, turn, call) then 1 else 0)
      && Answered(OnLane(log + [e], thread), turn, call)
           == Answered(OnLane(log, thread), turn, call) + (if mine && Answers(e.fact, turn, call) then 1 else 0)
  {
    var path := OnLane(log, thread);
    LaneGrows(log, e, ThreadLane(thread));
    if LaneOf(e) == ThreadLane(thread) {
      assert (path + [e])[..|path|] == path;
    } else {
      assert path + [] == path;
    }
  }

  // ---- what every run keeps ----

  ghost predicate AllOwed(log: seq<Event>) {
    forall thread, turn, call :: Owed(OnLane(log, thread), turn, call)
  }

  /** A drain about to complete a call still owes that completion. */
  predicate DrainOwes(log: seq<Event>, thread: ThreadId, at: Point) {
    (at.Denying? || at.Running? || at.Completing?) ==>
      Answered(OnLane(log, thread), at.pending.turn, at.pending.call)
        < Asked(OnLane(log, thread), at.pending.turn, at.pending.call)
  }

  ghost predicate Settling(s: System) {
    && AllOwed(s.log)
    && forall t :: t in s.drains ==> DrainOwes(s.log, t, s.drains[t])
  }

  lemma WriteOwes(log: seq<Event>, e: Event, thread: ThreadId, turn: TurnId, call: CallId)
    requires Owed(OnLane(log, thread), turn, call)
    requires LaneOf(e) == ThreadLane(thread) && Answers(e.fact, turn, call) ==>
      Answered(OnLane(log, thread), turn, call) < Asked(OnLane(log, thread), turn, call)
    ensures Owed(OnLane(log + [e], thread), turn, call)
  {
    LaneGrows(log, e, ThreadLane(thread));
    if LaneOf(e) == ThreadLane(thread) {
      OwedStep(OnLane(log, thread), e, turn, call);
    } else {
      assert OnLane(log, thread) + [] == OnLane(log, thread);
    }
  }

  lemma DrainStillOwes(log: seq<Event>, e: Event, thread: ThreadId, at: Point)
    requires DrainOwes(log, thread, at)
    requires LaneOf(e) != ThreadLane(thread) || !e.fact.ToolCompleted?
    ensures DrainOwes(log + [e], thread, at)
  {
    if at.Denying? || at.Running? || at.Completing? {
      CountsOneMore(log, e, thread, at.pending.turn, at.pending.call);
    }
  }

  /** A fact that completes only what its lane still owes keeps every count in order. */
  lemma WriteKeepsOwed(log: seq<Event>, e: Event)
    requires AllOwed(log)
    requires e.fact.ToolCompleted? ==>
      Answered(OnLane(log, e.fact.thread), e.fact.turn, e.fact.call)
        < Asked(OnLane(log, e.fact.thread), e.fact.turn, e.fact.call)
    ensures AllOwed(log + [e])
  {
    hide Owed, OnLane;
    forall thread, turn, call ensures Owed(OnLane(log + [e], thread), turn, call) {
      WriteOwes(log, e, thread, turn, call);
    }
  }

  lemma WriteKeepsDrains(s: System, e: Event, but: ThreadId)
    requires Settling(s) && (e.fact.ToolCompleted? ==> e.fact.thread == but)
    ensures forall t :: t in s.drains && (t != but || !e.fact.ToolCompleted?) ==> DrainOwes(s.log + [e], t, s.drains[t])
  {
    hide DrainOwes, Owed;
    forall t | t in s.drains && (t != but || !e.fact.ToolCompleted?) ensures DrainOwes(s.log + [e], t, s.drains[t]) {
      DrainStillOwes(s.log, e, t, s.drains[t]);
    }
  }

  /** The work a drain reads is owed. */
  lemma ReadOwes(log: seq<Event>, thread: ThreadId)
    requires Grown(log) && AllOwed(log)
    ensures var next := PointOf(WorkOf(StateOf(log, thread)));
      next.Some? ==> DrainOwes(log, thread, next.value)
  {
    var path := OnLane(log, thread);
    var state := FoldFacts(path);
    FoldSeesLane(log, thread, "");
    PendingMeaning(path);
    if state.pending != [] {
      var p := state.pending[0];
      assert Owed(path, p.turn, p.call);
      assert LatestRequest(path, p.call) == Some(p);
    }
  }

  lemma StepKeepsSettling(s: System, a: Action)
    requires Inv(s) && Settling(s) && Enabled(s, a)
    ensures Settling(Do(s, a))
  {
    hide Owed, DrainOk, DeedOk, WaitOk, Balanced, AllOwed;
    match a {
      case Outside(draft, timestamp) => PlainStep(s, draft, timestamp);
      case TurnWrites(t, draft, timestamp) => TurnStep(s, t, draft, timestamp);
      case Complete(t, id, timestamp) =>
        var at := s.drains[t];
        CompletingStep(s, t, CompletionOf(t, at.pending, at.ok, at.result), id, timestamp);
      case Refuse(t, id, timestamp) =>
        var p := s.drains[t].pending;
        CompletingStep(s, t, CompletionOf(t, p, false, DENIED_RESULT), id, timestamp);
      case Read(t) => ReadOwes(s.log, t);
      case _ =>
    }
  }

  lemma PlainStep(s: System, draft: Draft, timestamp: int)
    requires Settling(s) && !draft.fact.ToolCompleted?
    ensures Settling(s.(log := Written(s.log, draft, timestamp)))
  {
    hide AllOwed, DrainOwes;
    WriteKeepsOwed(s.log, Stamp(draft, s.log, timestamp));
    WriteKeepsDrains(s, Stamp(draft, s.log, timestamp), "");
  }

  lemma TurnStep(s: System, t: ThreadId, draft: Draft, timestamp: int)
    requires Settling(s) && Enabled(s, TurnWrites(t, draft, timestamp))
    ensures Settling(s.(log := Written(s.log, draft, timestamp)))
  {
    hide AllOwed;
    var e := Stamp(draft, s.log, timestamp);
    if e.fact.ToolCompleted? {
      CallsOnLane(s.log, t, e.fact.turn, e.fact.call);
    }
    WriteKeepsOwed(s.log, e);
    WriteKeepsDrains(s, e, t);
  }

  lemma CompletingStep(s: System, t: ThreadId, fact: Fact, id: EventId, timestamp: int)
    requires Settling(s) && t in s.drains && (s.drains[t].Denying? || s.drains[t].Completing?)
    requires fact.ToolCompleted? && fact.thread == t
    requires fact.turn == s.drains[t].pending.turn && fact.call == s.drains[t].pending.call
    ensures Settling(s.(log := Written(s.log, Draft(id, fact), timestamp), drains := s.drains[t := Reading]))
  {
    hide AllOwed;
    var e := Stamp(Draft(id, fact), s.log, timestamp);
    assert DrainOwes(s.log, t, s.drains[t]);
    WriteKeepsOwed(s.log, e);
    WriteKeepsDrains(s, e, t);
  }

  lemma {:induction false} RunsKeepSettling(start: System, actions: seq<Action>)
    requires Start(start) && AllOwed(start.log) && After(start, actions).Some?
    ensures Settling(After(start, actions).value)
  {
    hide AllOwed, DrainOwes, Inv, Enabled, Do;
    if actions != [] {
      var n := |actions| - 1;
      RunsKeepSettling(start, actions[..n]);
      RunsKeepInvariant(start, actions[..n]);
      StepKeepsSettling(After(start, actions[..n]).value, actions[n]);
    }
  }

  /**
    Whatever drains, turns and other writers do, a log whose completions were all asked for
    leads to such a log, from which the next host may start; and in it a turn's call has no
    more completions than requests.
   */
  lemma CompletedAtMostOnce(start: System, actions: seq<Action>)
    requires Start(start) && AllOwed(start.log) && After(start, actions).Some?
    ensures var log := After(start, actions).value.log;
      && AllOwed(log)
      && forall thread, turn, call ::
           Answered(OnLane(log, thread), turn, call) <= Asked(OnLane(log, thread), turn, call)
  {
    hide OnLane, Answered, Asked, OpenFor;
    RunsKeepSettling(start, actions);
    var log := After(start, actions).value.log;
    forall thread, turn, call
      ensures Answered(OnLane(log, thread), turn, call) <= Asked(OnLane(log, thread), turn, call)
    {
      assert Owed(OnLane(log, thread), turn, call);
    }
  }

  /** A session starts that way. */
  lemma EmptyLogOwesNothing()
    ensures AllOwed([])
  {
  }

  // ---- the recorder of a turn takes the driver's steps ----

  /** Each completion among these facts is of a call asked for by then and not answered. */
  predicate Owing(turn: TurnId, facts: seq<Fact>, asked: set<CallId>, answered: set<CallId>) {
    facts == [] ||
    match facts[0]
    case ToolRequested(_, t, call, _, _) => t == turn && Owing(turn, facts[1..], asked + {call}, answered)
    case ToolCompleted(_, t, call, _, _, _) =>
      t == turn && call in asked && call !in answered && Owing(turn, facts[1..], asked, answered + {call})
    case _ => Owing(turn, facts[1..], asked, answered)
  }

  /** No requests or completions among these. */
  predicate Callless(facts: seq<Fact>) {
    forall k :: 0 <= k < |facts| ==> !facts[k].ToolRequested? && !facts[k].ToolCompleted?
  }

  lemma {:induction false} OwingAfterOthers(turn: TurnId, others: seq<Fact>, rest: seq<Fact>, asked: set<CallId>,
                                            answered: set<CallId>)
    requires Callless(others) && Owing(turn, rest, asked, answered)
    ensures Owing(turn, others + rest, asked, answered)
  {
    if others == [] {
      assert others + rest == rest;
    } else {
      assert (others + rest)[1..] == others[1..] + rest;
      OwingAfterOthers(turn, others[1..], rest, asked, answered);
    }
  }

  lemma {:induction false} OwingBeforeOthers(turn: TurnId, facts: seq<Fact>, others: seq<Fact>, asked: set<CallId>,
                                             answered: set<CallId>)
    requires Callless(others) && Owing(turn, facts, asked, answered)
    ensures Owing(turn, facts + others, asked, answered)
    decreases |facts|
  {
    if facts == [] {
      assert facts + others == others + [];
      OwingAfterOthers(turn, others, [], asked, answered);
    } else {
      assert (facts + others)[1..] == facts[1..] + others;
      match facts[0] {
        case ToolRequested(_, _, call, _, _) => OwingBeforeOthers(turn, facts[1..], others, asked + {call}, answered);
        case ToolCompleted(_, _, call, _, _, _) =>
          OwingBeforeOthers(turn, facts[1..], others, asked, answered + {call});
        case _ => OwingBeforeOthers(turn, facts[1..], others, asked, answered);
      }
    }
  }

  /** What a call adds: a request unless made before, then its completion unless given before. */
  lemma OwingCall(frame: TurnHistory.TurnFrame, item: TurnHistory.HistoryItem, rest: seq<Fact>,
                  asked: set<CallId>, answered: set<CallId>)
    requires item.FunctionCall?
    requires Owing(frame.turn, rest, asked + {item.call},
                   if item.call in frame.outputs then answered + {item.call} else answered)
    ensures Owing(frame.turn,
                  (if item.call in asked then [] else [TurnHistory.Asked(frame, item)])
                  + ((if item.call !in frame.outputs || item.call in answered then []
                      else [TurnHistory.Answered(frame, item)])
                     + rest),
                  asked, answered)
  {
    var call := item.call;
    var answer := if call !in frame.outputs || call in answered then [] else [TurnHistory.Answered(frame, item)];
    var request := if call in asked then [] else [TurnHistory.Asked(frame, item)];
    if answer == [] {
      assert answer + rest == rest;
      assert call in frame.outputs ==> answered + {call} == answered;
    } else {
      assert (answer + rest)[1..] == rest;
    }
    assert Owing(frame.turn, answer + rest, asked + {call}, answered);
    if request == [] {
      assert request + (answer + rest) == answer + rest && asked + {call} == asked;
    } else {
      assert (request + (answer + rest))[1..] == answer + rest;
    }
  }

  lemma {:induction false} TurnFactsOwe(frame: TurnHistory.TurnFrame, rest: seq<TurnHistory.HistoryItem>,
                                        text: string, promptWritten: bool, asked: set<CallId>, answered: set<CallId>)
    ensures Owing(frame.turn, TurnHistory.TurnFacts(frame, rest, text, promptWritten, asked, answered), asked, answered)
    decreases |rest|
  {
    hide Owing;
    var said := TurnHistory.Said(frame.thread, text);
    if rest == [] {
      NothingOwes(frame.turn, asked, answered);
      OwingBeforeOthers(frame.turn, [], said, asked, answered);
      assert [] + said == said;
    } else if rest[0].UserMessage? {
      var t := rest[0].text;
      var written := promptWritten || Some(t) == frame.prompt;
      TurnFactsOwe(frame, rest[1..], "", written, asked, answered);
      TurnHistory.UserFacts(frame, rest, text, promptWritten, asked, answered);
      OwingAfterOthers(frame.turn,
        said + if (!promptWritten && Some(t) == frame.prompt) || t == "" then []
            else [MessageAppended(frame.thread, User, t)],
        TurnHistory.TurnFacts(frame, rest[1..], "", written, asked, answered), asked, answered);
    } else if rest[0].FunctionCall? {
      var call := rest[0].call;
      var answered' := if call in frame.outputs then answered + {call} else answered;
      var more := TurnHistory.TurnFacts(frame, rest[1..], "", promptWritten, asked + {call}, answered');
      TurnFactsOwe(frame, rest[1..], "", promptWritten, asked + {call}, answered');
      TurnHistory.CallFacts(frame, rest, text, promptWritten, asked, answered);
      var request := if call in asked then [] else [TurnHistory.Asked(frame, rest[0])];
      var answer := if call !in frame.outputs || call in answered then [] else [TurnHistory.Answered(frame, rest[0])];
      OwingCall(frame, rest[0], more, asked, answered);
      OwingAfterOthers(frame.turn, said, request + (answer + more), asked, answered);
      FourParts(said, request, answer, more);
    } else {
      TurnFactsOwe(frame, rest[1..], if rest[0].AssistantMessage? then text + rest[0].text else text, promptWritten,
                   asked, answered);
    }
  }

  lemma NothingOwes(turn: TurnId, asked: set<CallId>, answered: set<CallId>)
    ensures Owing(turn, [], asked, answered)
  {
  }

  lemma FourParts(a: seq<Fact>, b: seq<Fact>, c: seq<Fact>, d: seq<Fact>)
    ensures a + b + c + d == a + (b + (c + d))
  {
  }

  /** What others write between changes nothing about what is owed. */
  lemma {:induction false} OwingWoven(turn: TurnId, mine: seq<Fact>, all: seq<Fact>, asked: set<CallId>,
                                      answered: set<CallId>)
    requires TurnHistory.Woven(mine, all) && Owing(turn, mine, asked, answered)
    ensures Owing(turn, all, asked, answered)
    decreases |all|
  {
    if all != [] {
      if TurnHistory.IsSilent(all[0]) && TurnHistory.Woven(mine, all[1..]) {
        OwingWoven(turn, mine, all[1..], asked, answered);
      } else {
        var (asked', answered') := TurnHistory.CallsWith((asked, answered), all[0], turn);
        OwingWoven(turn, mine[1..], all[1..], asked', answered');
      }
    }
  }

  /** The log at `k` in the course of an extension, and what is still owed there. */
  lemma {:induction false} OwingAt(before: seq<Event>, after: seq<Event>, t: ThreadId, turn: TurnId,
                                   facts: seq<Fact>, k: nat)
    returns (rest: seq<Fact>)
    requires Grown(after) && TurnHistory.Extended(before, after, t, facts) && |before| <= k <= |after|
    requires var (asked, answered) := TurnHistory.Calls(before, t, turn); Owing(turn, facts, asked, answered)
    ensures rest == TurnHistory.FactsOf(LaneFacts(after[k..], ThreadLane(t)))
    ensures var (asked, answered) := TurnHistory.Calls(after[..k], t, turn); Owing(turn, rest, asked, answered)
    decreases k
  {
    hide Owing, TurnHistory.Calls, Grown, LaneFacts, TurnHistory.FactsOf;
    if k == |before| {
      assert after[..k] == before;
      rest := facts;
    } else {
      var earlier := OwingAt(before, after, t, turn, facts, k - 1);
      var e := after[k - 1];
      assert after[k - 1..] == [e] + after[k..];
      FactsOfFirst(e, after[k..], t);
      assert after[..k][..k - 1] == after[..k - 1];
      TurnHistory.CallsOneMore(after[..k - 1], after[..k], t, turn);
      rest := TurnHistory.FactsOf(LaneFacts(after[k..], ThreadLane(t)));
      if LaneOf(e) == ThreadLane(t) {
        var (asked, answered) := TurnHistory.Calls(after[..k - 1], t, turn);
        OwingStep(turn, earlier, asked, answered);
        assert earlier[1..] == rest;
      } else {
        assert [] + rest == rest;
      }
    }
  }

  lemma FactsOfFirst(e: Event, rest: seq<Event>, t: ThreadId)
    ensures TurnHistory.FactsOf(LaneFacts([e] + rest, ThreadLane(t)))
         == (if LaneOf(e) == ThreadLane(t) then [e.fact] else []) + TurnHistory.FactsOf(LaneFacts(rest, ThreadLane(t)))
  {
    var lane := ThreadLane(t);
    LaneFactsAppend([e], rest, lane);
    TurnHistory.FactsOfAppend(LaneFacts([e], lane), LaneFacts(rest, lane));
    assert [e][..0] == [];
    assert LaneFacts([e], lane) == if LaneOf(e) == lane then [e] else [];
    assert TurnHistory.FactsOf([e]) == [e.fact];
  }

  /** The first of the facts is one the turn may write, and leaves the rest owing. */
  lemma OwingStep(turn: TurnId, facts: seq<Fact>, asked: set<CallId>, answered: set<CallId>)
    requires facts != [] && Owing(turn, facts, asked, answered)
    ensures var (asked', answered') := TurnHistory.CallsWith((asked, answered), facts[0], turn);
      Owing(turn, facts[1..], asked', answered')
    ensures facts[0].ToolCompleted? ==> facts[0].turn == turn && facts[0].call in asked && facts[0].call !in answered
  {
  }

  /**
    Recording a turn is taking the driver's own steps: whatever others have done to the log in
    between, each fact that `PersistTurn` adds to the thread's lane is one the turning drain may
    write in any system with the log as it stood then, and writing it leads to the log with it.
   */
  lemma RecordingIsDriven(before: seq<Event>, after: seq<Event>, frame: TurnHistory.TurnFrame,
                          items: seq<TurnHistory.HistoryItem>, usage: Option<TurnHistory.Usage>,
                          all: seq<Fact>, k: nat, s: System)
    requires Grown(after) && TurnHistory.Extended(before, after, frame.thread, all)
    requires TurnHistory.Woven(TurnHistory.StillToRecord(frame, items, "", frame.prompt.None?, before)
                               + TurnHistory.UsageFacts(frame, usage), all)
    requires |before| <= k < |after| && LaneOf(after[k]) == ThreadLane(frame.thread)
    requires s.log == after[..k] && frame.thread in s.drains && s.drains[frame.thread].Turning?
    ensures var step := TurnWrites(frame.thread, Draft(after[k].id, after[k].fact), after[k].timestamp);
      Enabled(s, step) && Do(s, step) == s.(log := after[..k + 1])
  {
    hide Owing, TurnHistory.Extended, TurnHistory.TurnFacts, TurnHistory.Woven, TurnHistory.Calls, LaneFacts,
      TurnHistory.FactsOf, TurnHistory.UsageFacts;
    var (asked, answered) := TurnHistory.CallsIn(before, frame);
    var facts := TurnHistory.TurnFacts(frame, items, "", frame.prompt.None?, asked, answered);
    TurnFactsOwe(frame, items, "", frame.prompt.None?, asked, answered);
    UsageIsQuiet(frame, usage);
    OwingBeforeOthers(frame.turn, facts, TurnHistory.UsageFacts(frame, usage), asked, answered);
    OwingWoven(frame.turn, facts + TurnHistory.UsageFacts(frame, usage), all, asked, answered);
    var rest := OwingAt(before, after, frame.thread, frame.turn, all, k);
    assert after[k..] == [after[k]] + after[k + 1..];
    FactsOfFirst(after[k], after[k + 1..], frame.thread);
    var (asked', answered') := TurnHistory.Calls(after[..k], frame.thread, frame.turn);
    OwingStep(frame.turn, rest, asked', answered');
    MayWriteNext(s, frame.thread, frame.turn, after, k);
  }

  lemma UsageIsQuiet(frame: TurnHistory.TurnFrame, usage: Option<TurnHistory.Usage>)
    ensures Callless(TurnHistory.UsageFacts(frame, usage))
  {
  }

  lemma MayWriteNext(s: System, t: ThreadId, turn: TurnId, after: seq<Event>, k: nat)
    requires Grown(after) && k < |after| && s.log == after[..k] && LaneOf(after[k]) == ThreadLane(t)
    requires t in s.drains && s.drains[t].Turning?
    requires var (asked, answered) := TurnHistory.Calls(after[..k], t, turn); var fact := after[k].fact;
      fact.ToolCompleted? ==> fact.turn == turn && fact.call in asked && fact.call !in answered
    ensures var step := TurnWrites(t, Draft(after[k].id, after[k].fact), after[k].timestamp);
      Enabled(s, step) && Do(s, step) == s.(log := after[..k + 1])
  {
    assert StampedAt(after, k);
    assert after[..k] + [after[k]] == after[..k + 1];
  }
}
