/** What a thread has used so far: the totals that recorded turns add up to. */
module ThreadUsage {
  import opened Primitives
  import opened SessionEvents
  import opened SessionLogs
  import opened SessionTree
  import opened SessionMemory
  import opened SessionForks
  import TurnHistory

  /** `cost` is none until some turn reports one. */
  datatype Totals = Totals(inputTokens: int, outputTokens: int, cost: Option<real>)

  const NOTHING := Totals(0, 0, None)

  function Plus(a: Totals, b: Totals): Totals {
    Totals(a.inputTokens + b.inputTokens, a.outputTokens + b.outputTokens,
           if a.cost.None? then b.cost else if b.cost.None? then a.cost else Some(a.cost.value + b.cost.value))
  }

  lemma PlusNothing(a: Totals)
    ensures Plus(a, NOTHING) == a == Plus(NOTHING, a)
  {
  }

  lemma PlusAdds(a: Totals, b: Totals)
    ensures var sum := Plus(a, b);
      && sum.inputTokens == a.inputTokens + b.inputTokens && sum.outputTokens == a.outputTokens + b.outputTokens
      && (sum.cost.None? <==> a.cost.None? && b.cost.None?)
      && (sum.cost.Some? ==>
            sum.cost.value == (if a.cost.Some? then a.cost.value else 0.0)
                              + (if b.cost.Some? then b.cost.value else 0.0))
  {
  }

  lemma PlusTwice(a: Totals, b: Totals, c: Totals)
    ensures Plus(Plus(a, b), c) == Plus(a, Plus(b, c))
  {
  }

  function UsedIn(fact: Fact): Totals {
    if fact.TurnUsage? then Totals(fact.inputTokens, fact.outputTokens, fact.cost) else NOTHING
  }

  function Used(path: seq<Event>): Totals {
    if path == [] then NOTHING else Plus(Used(path[..|path| - 1]), UsedIn(path[|path| - 1].fact))
  }

  function UsageOf(events: seq<Event>, thread: ThreadId): Totals {
    Used(PathOfLane(events, ThreadLane(thread)))
  }

  method FoldThreadUsage(events: seq<Event>, thread: ThreadId) returns (totals: Totals)
    ensures totals == UsageOf(events, thread)
  {
    hide Walk, ById, LeafOf, Used, Plus, UsedIn;
    NothingUsed();
    var inputTokens, outputTokens := 0, 0;
    var cost: Option<real> := None;
    var leaf := FindLeaf(events, ThreadLane(thread));
    var path := [];
    if leaf.Some? {
      path := PathIn(ById(events), leaf.value);
    }
    for k := 0 to |path|
      invariant Used(path[..k]) == Totals(inputTokens, outputTokens, cost)
    {
      UsedOneMore(path, k, inputTokens, outputTokens, cost);
      if path[k].fact.TurnUsage? {
        inputTokens := inputTokens + path[k].fact.inputTokens;
        outputTokens := outputTokens + path[k].fact.outputTokens;
        if path[k].fact.cost.Some? {
          cost := Some((if cost.Some? then cost.value else 0.0) + path[k].fact.cost.value);
        }
      }
    }
    assert path[..|path|] == path;
    totals := Totals(inputTokens, outputTokens, cost);
  }

  lemma NothingUsed()
    ensures Used([]) == Totals(0, 0, None)
  {
  }

  lemma UsedOneMore(path: seq<Event>, k: nat, inputTokens: int, outputTokens: int, cost: Option<real>)
    requires k < |path| && Used(path[..k]) == Totals(inputTokens, outputTokens, cost)
    ensures var fact := path[k].fact;
      Used(path[..k + 1])
      == if !fact.TurnUsage? then Totals(inputTokens, outputTokens, cost)
         else Totals(inputTokens + fact.inputTokens, outputTokens + fact.outputTokens,
                     if fact.cost.None? then cost else Some((if cost.Some? then cost.value else 0.0) + fact.cost.value))
  {
    hide Used;
    UsedLast(path[..k + 1]);
    assert path[..k + 1][..k] == path[..k];
  }

  lemma UsedLast(path: seq<Event>)
    requires path != []
    ensures Used(path) == Plus(Used(path[..|path| - 1]), UsedIn(path[|path| - 1].fact))
  {
    hide Plus, UsedIn;
  }

  /** What a harness reported of a turn; counts it left out are none. */
  function Reported(usage: Option<TurnHistory.Usage>): Totals {
    if usage.None? then NOTHING
    else
      Totals(if usage.value.inputTokens.Some? then usage.value.inputTokens.value else 0,
             if usage.value.outputTokens.Some? then usage.value.outputTokens.value else 0,
             usage.value.cost)
  }

  function UsedBy(facts: seq<Fact>): Totals {
    if facts == [] then NOTHING else Plus(UsedIn(facts[0]), UsedBy(facts[1..]))
  }

  lemma {:induction false} UsedAppend(a: seq<Fact>, b: seq<Fact>)
    ensures UsedBy(a + b) == Plus(UsedBy(a), UsedBy(b))
  {
    hide Plus, UsedIn;
    if a == [] {
      assert a + b == b;
      PlusNothing(UsedBy(b));
    } else {
      assert (a + b)[1..] == a[1..] + b;
      UsedAppend(a[1..], b);
      PlusTwice(UsedIn(a[0]), UsedBy(a[1..]), UsedBy(b));
    }
  }

  lemma UsedByOne(fact: Fact)
    ensures UsedBy([fact]) == UsedIn(fact)
  {
    hide Plus, UsedIn;
    PlusNothing(UsedIn(fact));
  }

  lemma {:induction false} UsedIsUsedBy(path: seq<Event>)
    ensures Used(path) == UsedBy(TurnHistory.FactsOf(path))
  {
    hide Plus, UsedIn;
    if path != [] {
      var n := |path| - 1;
      UsedIsUsedBy(path[..n]);
      UsedAppend(TurnHistory.FactsOf(path[..n]), [path[n].fact]);
      UsedByOne(path[n].fact);
    }
  }

  lemma {:induction false} UsedByWoven(mine: seq<Fact>, all: seq<Fact>)
    requires TurnHistory.Woven(mine, all)
    ensures UsedBy(all) == UsedBy(mine)
    decreases |all|
  {
    hide Plus;
    if all != [] {
      PlusNothing(UsedBy(all[1..]));
      if mine != [] && mine[0] == all[0] && TurnHistory.Woven(mine[1..], all[1..]) {
        UsedByWoven(mine[1..], all[1..]);
      } else {
        UsedByWoven(mine, all[1..]);
      }
    }
  }

  /** No fact but a turn's usage uses anything, and a turn's own facts hold none. */
  lemma {:induction false} OthersUseNothing(facts: seq<Fact>)
    requires forall fact :: fact in facts ==> !fact.TurnUsage?
    ensures UsedBy(facts) == NOTHING
  {
    hide Plus;
    if facts != [] {
      assert facts[0] in facts && forall fact :: fact in facts[1..] ==> fact in facts;
      OthersUseNothing(facts[1..]);
      PlusNothing(NOTHING);
    }
  }

  lemma {:induction false} TurnFactsAreOthers(frame: TurnHistory.TurnFrame, rest: seq<TurnHistory.HistoryItem>,
      text: string, promptWritten: bool, asked: set<CallId>, answered: set<CallId>)
    ensures forall fact :: fact in TurnHistory.TurnFacts(frame, rest, text, promptWritten, asked, answered) ==>
      !fact.TurnUsage?
    decreases |rest|
  {
    if rest != [] {
      match rest[0] {
        case UserMessage(t) =>
          TurnFactsAreOthers(frame, rest[1..], "", promptWritten || Some(t) == frame.prompt, asked, answered);
          TurnHistory.UserFacts(frame, rest, text, promptWritten, asked, answered);
        case FunctionCall(call, _, _) =>
          TurnFactsAreOthers(frame, rest[1..], "", promptWritten, asked + {call},
                             if call in frame.outputs then answered + {call} else answered);
          TurnHistory.CallFacts(frame, rest, text, promptWritten, asked, answered);
        case AssistantMessage(t) => TurnFactsAreOthers(frame, rest[1..], text + t, promptWritten, asked, answered);
        case _ => TurnFactsAreOthers(frame, rest[1..], text, promptWritten, asked, answered);
      }
    }
  }

  lemma UsageFactsAreReported(frame: TurnHistory.TurnFrame, usage: Option<TurnHistory.Usage>)
    ensures UsedBy(TurnHistory.UsageFacts(frame, usage)) == Reported(usage)
  {
  }

  /**
    Recording a turn adds exactly what the harness reported of it to the thread's totals,
    whatever others wrote meanwhile.
   */
  lemma RecordingAddsUsage(before: seq<Event>, after: seq<Event>, frame: TurnHistory.TurnFrame,
                           items: seq<TurnHistory.HistoryItem>, usage: Option<TurnHistory.Usage>, all: seq<Fact>)
    requires Grown(before) && Grown(after) && TurnHistory.Extended(before, after, frame.thread, all)
    requires TurnHistory.Woven(TurnHistory.StillToRecord(frame, items, "", frame.prompt.None?, before)
                               + TurnHistory.UsageFacts(frame, usage), all)
    ensures var (was, reported, now) := (UsageOf(before, frame.thread), Reported(usage), UsageOf(after, frame.thread));
      && now.inputTokens == was.inputTokens + reported.inputTokens
      && now.outputTokens == was.outputTokens + reported.outputTokens
      && (now.cost.None? <==> was.cost.None? && reported.cost.None?)
      && (now.cost.Some? ==>
            now.cost.value == (if was.cost.Some? then was.cost.value else 0.0)
                              + (if reported.cost.Some? then reported.cost.value else 0.0))
  {
    hide TurnHistory.Woven, TurnHistory.TurnFacts, TurnHistory.UsageFacts, TurnHistory.CallsIn, UsedBy, Used,
      TurnHistory.FactsOf, LaneFacts, Reported, Plus;
    var lane := ThreadLane(frame.thread);
    var (asked, answered) := TurnHistory.CallsIn(before, frame);
    var facts := TurnHistory.TurnFacts(frame, items, "", frame.prompt.None?, asked, answered);
    PathOfLaneIsLaneFacts(before, lane);
    PathOfLaneIsLaneFacts(after, lane);
    assert after == before + after[|before|..];
    LaneFactsAppend(before, after[|before|..], lane);
    UsedIsUsedBy(LaneFacts(before, lane));
    UsedIsUsedBy(LaneFacts(after, lane));
    TurnHistory.FactsOfAppend(LaneFacts(before, lane), LaneFacts(after[|before|..], lane));
    UsedAppend(TurnHistory.FactsOf(LaneFacts(before, lane)), all);
    UsedByWoven(facts + TurnHistory.UsageFacts(frame, usage), all);
    UsedAppend(facts, TurnHistory.UsageFacts(frame, usage));
    TurnFactsAreOthers(frame, items, "", frame.prompt.None?, asked, answered);
    OthersUseNothing(facts);
    UsageFactsAreReported(frame, usage);
    PlusNothing(Reported(usage));
    PlusAdds(UsageOf(before, frame.thread), Reported(usage));
  }
}
