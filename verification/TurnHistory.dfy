/** Recording a harness turn as facts, and reading it back as model history. */
module TurnHistory {
  import opened Primitives
  import opened SessionEvents
  import opened SessionLogs
  import opened SessionTree
  import opened SessionMemory
  import opened SessionForks
  import opened SessionLineage
  import opened SessionCuts
  import opened SessionRuntime

  datatype HistoryItem =
    | UserMessage(text: string)
    | AssistantMessage(text: string)
    | Reasoning(text: string)
    | FunctionCall(call: CallId, name: string, arguments: string)
    | ToolResult(call: CallId, output: string)

  // ---- projecting facts into history ----

  /** What one visible fact says to the model. */
  function ItemsOf(fact: Fact): seq<HistoryItem> {
    match fact
    case MessageAppended(_, User, body) => [UserMessage(body)]
    case MessageAppended(_, Assistant, body) => [AssistantMessage(body)]
    case ToolRequested(_, _, call, name, arguments) => [FunctionCall(call, name, arguments)]
    case ToolCompleted(_, _, call, _, _, result) => [ToolResult(call, result)]
    case ThreadCompacted(_, summary, _, _) => [UserMessage(summary)]
    case ThreadBranched(_, _, Some(summary)) => [UserMessage(summary)]
    case _ => []
  }

  function Project(path: seq<Event>): seq<HistoryItem> {
    if path == [] then [] else Project(path[..|path| - 1]) + ItemsOf(path[|path| - 1].fact)
  }

  function HistoryOf(events: seq<Event>, thread: ThreadId): seq<HistoryItem> {
    Project(MemoryOf(events, thread))
  }

  method CollectHistory(events: seq<Event>, thread: ThreadId) returns (history: seq<HistoryItem>)
    ensures history == HistoryOf(events, thread)
  {
    var path := CollectMemory(events, thread);
    history := [];
    for k := 0 to |path|
      invariant history == Project(path[..k])
    {
      ProjectPrefix(path, k);
      history := PushItems(history, path[k].fact);
    }
    assert path[..|path|] == path;
  }

  method PushItems(history: seq<HistoryItem>, fact: Fact) returns (pushed: seq<HistoryItem>)
    ensures pushed == history + ItemsOf(fact)
  {
    pushed := history;
    match fact {
      case MessageAppended(_, role, body) =>
        if role == User {
          pushed := history + [UserMessage(body)];
        }
        if role == Assistant {
          pushed := history + [AssistantMessage(body)];
        }
      case ToolRequested(_, _, call, name, arguments) =>
        pushed := history + [FunctionCall(call, name, arguments)];
      case ToolCompleted(_, _, call, _, _, result) =>
        pushed := history + [ToolResult(call, result)];
      case ThreadCompacted(_, summary, _, _) =>
        pushed := history + [UserMessage(summary)];
      case ThreadBranched(_, _, carried) =>
        if carried.Some? {
          pushed := history + [UserMessage(carried.value)];
        }
      case _ =>
    }
  }

  lemma ProjectPrefix(path: seq<Event>, k: nat)
    requires k < |path|
    ensures Project(path[..k + 1]) == Project(path[..k]) + ItemsOf(path[k].fact)
  {
    assert path[..k + 1][..k] == path[..k];
  }

  // ---- what a history tells, fact by fact ----

  /** This item is what this fact tells the model. */
  predicate Tells(fact: Fact, item: HistoryItem) {
    match item
    case UserMessage(text) =>
      || (fact.MessageAppended? && fact.role == User && fact.body == text)
      || (fact.ThreadCompacted? && fact.summary == text)
      || (fact.ThreadBranched? && fact.carried == Some(text))
    case AssistantMessage(text) => fact.MessageAppended? && fact.role == Assistant && fact.body == text
    case Reasoning(_) => false
    case FunctionCall(call, name, arguments) =>
      fact.ToolRequested? && fact.call == call && fact.name == name && fact.arguments == arguments
    case ToolResult(call, output) => fact.ToolCompleted? && fact.call == call && fact.result == output
  }

  ghost predicate TellsNothing(fact: Fact) {
    forall item :: !Tells(fact, item)
  }

  /** `at` says which fact of the path tells each item: each in its turn, and no other fact tells anything. */
  ghost predicate Told(path: seq<Event>, history: seq<HistoryItem>, at: seq<nat>) {
    && |at| == |history|
    && (forall i :: 0 <= i < |at| ==> at[i] < |path| && Tells(path[at[i]].fact, history[i]))
    && (forall i, j :: 0 <= i < j < |at| ==> at[i] < at[j])
    && (forall k: nat :: k < |path| && k !in at ==> TellsNothing(path[k].fact))
  }

  lemma TellsItsItems(fact: Fact)
    ensures |ItemsOf(fact)| <= 1
    ensures ItemsOf(fact) != [] ==> Tells(fact, ItemsOf(fact)[0])
    ensures ItemsOf(fact) == [] ==> TellsNothing(fact)
  {
  }

  lemma {:induction false} ProjectIsTold(path: seq<Event>) returns (at: seq<nat>)
    ensures Told(path, Project(path), at)
  {
    at := [];
    if path != [] {
      var n := |path| - 1;
      var before := ProjectIsTold(path[..n]);
      TellsItsItems(path[n].fact);
      at := if ItemsOf(path[n].fact) == [] then before else before + [n];
      ToldOneMore(path, before, at);
    }
  }

  lemma ToldOneMore(path: seq<Event>, before: seq<nat>, at: seq<nat>)
    requires path != [] && Told(path[..|path| - 1], Project(path[..|path| - 1]), before)
    requires var items := ItemsOf(path[|path| - 1].fact);
      if items == [] then at == before && TellsNothing(path[|path| - 1].fact)
      else at == before + [|path| - 1] && |items| == 1 && Tells(path[|path| - 1].fact, items[0])
    ensures Told(path, Project(path), at)
  {
    hide Tells, TellsNothing, ItemsOf, Project;
    var n := |path| - 1;
    var history, last := Project(path[..n]), ItemsOf(path[n].fact);
    ProjectLast(path);
    assert forall k :: 0 <= k < n ==> path[..n][k] == path[k];
    if last == [] {
      assert history + last == history;
    } else {
      assert (before + [n])[|before|] == n;
    }
    forall k: nat | k < |path| && k !in at ensures TellsNothing(path[k].fact) {
    }
  }

  lemma ProjectLast(path: seq<Event>)
    requires path != []
    ensures Project(path) == Project(path[..|path| - 1]) + ItemsOf(path[|path| - 1].fact)
  {
  }

  /**
    The model's history is told by the thread's memory, fact by fact and in order: a summary that
    a compaction or a fork left stands in it as a user message in that fact's place.
   */
  lemma HistoryMeaning(events: seq<Event>, thread: ThreadId) returns (at: seq<nat>)
    ensures Told(MemoryOf(events, thread), HistoryOf(events, thread), at)
  {
    at := ProjectIsTold(MemoryOf(events, thread));
  }

  /** Once a thread has compacted its history begins with the summary. */
  lemma HistoryStartsWithSummary(events: seq<Event>, thread: ThreadId)
    requires MemoryOf(events, thread) != [] && MemoryOf(events, thread)[0].fact.ThreadCompacted?
    ensures HistoryOf(events, thread) != []
    ensures HistoryOf(events, thread)[0] == UserMessage(MemoryOf(events, thread)[0].fact.summary)
  {
    hide MemoryOf, HistoryOf, Tells, TellsNothing;
    var path, history := MemoryOf(events, thread), HistoryOf(events, thread);
    var at := HistoryMeaning(events, thread);
    SummaryIsTold(path[0].fact);
    FirstTellsFirst(path, history, at);
    SummaryTellsOnly(path[0].fact, history[0]);
  }

  lemma FirstTellsFirst(path: seq<Event>, history: seq<HistoryItem>, at: seq<nat>)
    requires Told(path, history, at) && path != [] && !TellsNothing(path[0].fact)
    ensures history != [] && Tells(path[0].fact, history[0])
  {
    hide Tells, TellsNothing;
    assert 0 in at;
    var i :| 0 <= i < |at| && at[i] == 0;
    assert forall j :: 0 < j < |at| ==> at[0] < at[j];
  }

  lemma SummaryIsTold(fact: Fact)
    requires fact.ThreadCompacted?
    ensures !TellsNothing(fact)
  {
    assert Tells(fact, UserMessage(fact.summary));
  }

  lemma SummaryTellsOnly(fact: Fact, item: HistoryItem)
    requires fact.ThreadCompacted? && Tells(fact, item)
    ensures item == UserMessage(fact.summary)
  {
  }

  /** So it does right after a compaction was recorded, with the summary the harness gave. */
  lemma CompactedHistory(events: seq<Event>, n: nat, thread: ThreadId, compaction: Compaction)
    requires events != [] && RecordedAt(events, n, |events| - 1, thread, compaction)
    requires CompactionCut(events[..n], thread).Some?
        && NoBranch(LaneFacts(events[n..|events| - 1], ThreadLane(thread)))
    ensures HistoryOf(events, thread) != [] && HistoryOf(events, thread)[0] == UserMessage(compaction.summary)
  {
    hide HistoryOf, CompactionCut, NoBranch, LaneFacts, MemoryOf;
    assert events[..|events|] == events;
    HistoryStartsWithSummary(events, thread);
  }

  /**
    A thread just forked from one whose last cut cleared the older ones has its source's history
    and then, if the fork carried one, the summary of the way left behind.
   */
  lemma ForkedHistory(events: seq<Event>, n: nat, source: ThreadId, target: ThreadId)
    requires Lived(events) && JustForked(events, n, ThreadLane(source), ThreadLane(target))
    requires LaneFacts(events[..n], ThreadLane(target)) == [] && events[n].fact.ThreadConfigured?
    requires LastCutClears(RawMemory(events[..n], ThreadLane(source)))
    ensures var carried := events[n + 1].fact.carried;
      HistoryOf(events, target)
      == HistoryOf(events[..n], source) + if carried.Some? then [UserMessage(carried.value)] else []
  {
    hide LastCutClears, RawMemory, MemoryOf, LaneFacts, Lived, Project, ItemsOf;
    LaneJustForked(events, n, ThreadLane(source), ThreadLane(target));
    ForkSeesSource(events, n, source, target, n + 1);
    TwoMoreProjected(MemoryOf(events[..n], source), events[n], events[n + 1]);
  }

  lemma LaneJustForked(events: seq<Event>, n: nat, source: Lane, target: Lane)
    requires JustForked(events, n, source, target) && LaneFacts(events[..n], target) == []
    requires events[n].fact.ThreadConfigured?
    ensures LaneFacts(events, target) == [events[n], events[n + 1]] && NoCompaction(LaneFacts(events, target))
  {
    hide LaneFacts;
    assert events == events[..n] + [events[n]] + [events[n + 1]];
    LaneFactsAppend(events[..n] + [events[n]], [events[n + 1]], target);
    LaneFactsAppend(events[..n], [events[n]], target);
    LaneOfOne(events[n]);
    LaneOfOne(events[n + 1]);
  }

  lemma TwoMoreProjected(path: seq<Event>, configured: Event, branched: Event)
    requires configured.fact.ThreadConfigured? && branched.fact.ThreadBranched?
    ensures Project(path + [configured, branched])
         == Project(path) + if branched.fact.carried.Some? then [UserMessage(branched.fact.carried.value)] else []
  {
    hide Project;
    assert path + [configured, branched] == (path + [configured]) + [branched];
    ProjectOneMore(path + [configured], branched);
    ProjectOneMore(path, configured);
    assert Project(path) + [] == Project(path);
  }

  // ---- one write ----

  predicate Plain(fact: Fact, thread: ThreadId) {
    LaneOfFact(fact) == ThreadLane(thread) && !fact.ThreadBranched? && !fact.ThreadCompacted?
  }

  /** A plain fact of the thread adds itself, and nothing else, to the thread's memory. */
  lemma PlainWriteExtendsMemory(events: seq<Event>, draft: Draft, timestamp: int, thread: ThreadId)
    requires ForkedFromKnown(events) && Unused(events, draft.id) && Plain(draft.fact, thread)
    ensures MemoryOf(events + [Stamp(draft, events, timestamp)], thread)
         == MemoryOf(events, thread) + [Stamp(draft, events, timestamp)]
  {
    hide LaneFacts, Inheritance, CompactedView, MemoryOf;
    var lane := ThreadLane(thread);
    var e := Stamp(draft, events, timestamp);
    var after := events + [e];
    WriteKeepsForks(events, draft, timestamp);
    MemoryOfIsMemory(events, thread);
    MemoryOfIsMemory(after, thread);
    assert after[..|events|] == events && after[|events|..] == [e];
    LaneOfOne(e);
    RawMemoryGrows(after, |events|, lane);
    forall cut | cut in RawMemory(events, lane) && cut.fact.ThreadCompacted?
      ensures e.id != cut.id && e.id != cut.fact.firstKept
    {
      MemoryOnLineage(events, lane, cut);
    }
    ViewExtends(RawMemory(events, lane), [e]);
  }

  function FactsOf(events: seq<Event>): seq<Fact> {
    if events == [] then [] else FactsOf(events[..|events| - 1]) + [events[|events| - 1].fact]
  }

  function ProjectFacts(facts: seq<Fact>): seq<HistoryItem> {
    if facts == [] then [] else ItemsOf(facts[0]) + ProjectFacts(facts[1..])
  }

  lemma {:induction false} ProjectFactsAppend(a: seq<Fact>, b: seq<Fact>)
    ensures ProjectFacts(a + b) == ProjectFacts(a) + ProjectFacts(b)
  {
    if a == [] {
      assert a + b == b;
    } else {
      assert (a + b)[1..] == a[1..] + b;
      ProjectFactsAppend(a[1..], b);
    }
  }

  lemma ProjectOne(fact: Fact)
    ensures ProjectFacts([fact]) == ItemsOf(fact)
  {
  }

  /**
    The thread's lane grew by these facts, none a branch or a compaction and each under an id
    unused till then; other lanes grew as they liked.
   */
  ghost predicate Extended(before: seq<Event>, after: seq<Event>, thread: ThreadId, facts: seq<Fact>) {
    && before <= after && FactsOf(LaneFacts(after[|before|..], ThreadLane(thread))) == facts
    && forall k :: |before| <= k < |after| ==> PlainlyWritten(after, k, thread)
  }

  predicate PlainlyWritten(events: seq<Event>, k: nat, thread: ThreadId)
    requires k < |events|
  {
    LaneOf(events[k]) == ThreadLane(thread) ==> Plain(events[k].fact, thread) && Unused(events[..k], events[k].id)
  }

  lemma {:induction false} FactsOfAppend(a: seq<Event>, b: seq<Event>)
    ensures FactsOf(a + b) == FactsOf(a) + FactsOf(b)
  {
    if b == [] {
      assert a + b == a;
    } else {
      var n := |b| - 1;
      assert (a + b)[..|a| + n] == a + b[..n];
      FactsOfAppend(a, b[..n]);
    }
  }

  lemma ExtendedTwice(a: seq<Event>, b: seq<Event>, c: seq<Event>, thread: ThreadId,
                      first: seq<Fact>, second: seq<Fact>)
    requires Extended(a, b, thread, first) && Extended(b, c, thread, second)
    ensures Extended(a, c, thread, first + second)
  {
    var lane := ThreadLane(thread);
    assert c[|a|..] == b[|a|..] + c[|b|..];
    LaneFactsAppend(b[|a|..], c[|b|..], lane);
    FactsOfAppend(LaneFacts(b[|a|..], lane), LaneFacts(c[|b|..], lane));
    forall k | |a| <= k < |c| ensures PlainlyWritten(c, k, thread) {
      if k < |b| {
        assert PlainlyWritten(b, k, thread);
        assert c[..k] == b[..k];
      }
    }
  }

  lemma ExtendedPrefix(before: seq<Event>, after: seq<Event>, thread: ThreadId, facts: seq<Fact>)
    requires Extended(before, after, thread, facts) && |before| < |after|
    ensures var n := |after| - 1;
      Extended(before, after[..n], thread, FactsOf(LaneFacts(after[..n][|before|..], ThreadLane(thread))))
  {
    var middle := after[..|after| - 1];
    forall k | |before| <= k < |middle| ensures PlainlyWritten(middle, k, thread) {
      assert PlainlyWritten(after, k, thread);
      assert middle[..k] == after[..k];
    }
  }

  /** Plain facts extend the thread's history by exactly what they say; other lanes by nothing. */
  lemma {:induction false} HistoryExtends(before: seq<Event>, after: seq<Event>, thread: ThreadId, facts: seq<Fact>)
    requires ForkedFromKnown(after) && Extended(before, after, thread, facts)
    ensures HistoryOf(after, thread) == HistoryOf(before, thread) + ProjectFacts(facts)
    decreases |after|
  {
    hide HistoryOf, LaneFacts, FactsOf, ProjectFacts, ForkedFromKnown;
    if |after| == |before| {
      NothingExtends(before, after, thread, facts);
    } else {
      var n := |after| - 1;
      var middle := after[..n];
      var earlier := FactsOf(LaneFacts(middle[|before|..], ThreadLane(thread)));
      ExtendedPrefix(before, after, thread, facts);
      ForkedPrefix(after, n);
      HistoryExtends(before, middle, thread, earlier);
      LastExtends(before, after, thread);
      if LaneOf(after[n]) == ThreadLane(thread) {
        HistoryAfterOne(middle, after, thread);
        ProjectFactsAppend(earlier, [after[n].fact]);
        ProjectOne(after[n].fact);
        Regroup(HistoryOf(before, thread), ProjectFacts(earlier), ItemsOf(after[n].fact));
      } else {
        assert earlier + [] == earlier;
        HistoryUnmoved(middle, after, thread);
      }
    }
  }

  lemma NothingExtends(before: seq<Event>, after: seq<Event>, thread: ThreadId, facts: seq<Fact>)
    requires Extended(before, after, thread, facts) && |after| == |before|
    ensures after == before && HistoryOf(before, thread) + ProjectFacts(facts) == HistoryOf(before, thread)
  {
    assert after[|before|..] == [] && facts == [];
    assert HistoryOf(before, thread) + [] == HistoryOf(before, thread);
  }

  lemma LastExtends(before: seq<Event>, after: seq<Event>, thread: ThreadId)
    requires before < after
    ensures var lane := ThreadLane(thread); var n := |after| - 1;
      FactsOf(LaneFacts(after[|before|..], lane))
      == FactsOf(LaneFacts(after[..n][|before|..], lane)) + if LaneOf(after[n]) == lane then [after[n].fact] else []
  {
    var n := |after| - 1;
    assert after[|before|..][..n - |before|] == after[..n][|before|..];
    var earlier := LaneFacts(after[..n][|before|..], ThreadLane(thread));
    assert (earlier + [after[n]])[..|earlier|] == earlier && earlier + [] == earlier;
  }

  lemma HistoryAfterOne(middle: seq<Event>, after: seq<Event>, thread: ThreadId)
    requires ForkedFromKnown(after) && after != [] && middle == after[..|after| - 1]
    requires LaneOf(after[|after| - 1]) == ThreadLane(thread) && PlainlyWritten(after, |after| - 1, thread)
    ensures HistoryOf(after, thread) == HistoryOf(middle, thread) + ItemsOf(after[|after| - 1].fact)
  {
    hide MemoryOf, ForkedFromKnown, Project, LeafOf;
    var e := after[|after| - 1];
    LastIsStamped(after);
    ForkedPrefix(after, |after| - 1);
    PlainWriteExtendsMemory(middle, Draft(e.id, e.fact), e.timestamp, thread);
    assert middle + [e] == after;
    ProjectOneMore(MemoryOf(middle, thread), e);
  }

  lemma LastIsStamped(events: seq<Event>)
    requires ForkedFromKnown(events) && events != []
    ensures StampedAt(events, |events| - 1)
  {
  }

  /** What other lanes write, branches and compactions among it, leaves the thread's history as it is. */
  lemma HistoryUnmoved(middle: seq<Event>, after: seq<Event>, thread: ThreadId)
    requires ForkedFromKnown(after) && after != [] && middle == after[..|after| - 1]
    requires LaneOf(after[|after| - 1]) != ThreadLane(thread)
    ensures HistoryOf(after, thread) == HistoryOf(middle, thread)
  {
    hide LaneFacts, RawMemory, MemoryOf;
    var lane, n := ThreadLane(thread), |after| - 1;
    ForkedPrefix(after, n);
    MemoryOfIsMemory(after, thread);
    MemoryOfIsMemory(middle, thread);
    assert after[n..] == [after[n]];
    NothingOfLane(after[n..], lane);
    RawMemoryGrows(after, n, lane);
    assert RawMemory(middle, lane) + [] == RawMemory(middle, lane);
  }

  lemma ProjectOneMore(path: seq<Event>, e: Event)
    ensures Project(path + [e]) == Project(path) + ItemsOf(e.fact)
  {
  }

  // ---- what others write meanwhile ----

  /** Neither a request nor a completion of a tool, nor a turn's usage. */
  predicate IsSilent(fact: Fact) {
    !fact.ToolRequested? && !fact.ToolCompleted? && !fact.TurnUsage?
  }

  predicate Silent(facts: seq<Fact>) {
    forall k :: 0 <= k < |facts| ==> IsSilent(facts[k])
  }

  /** Others write what they like on other lanes; on the thread's own no tool or usage fact, branch or compaction. */
  predicate WrittenByOthers(events: seq<Event>, k: nat, thread: ThreadId)
    requires k < |events|
  {
    PlainlyWritten(events, k, thread) && (LaneOf(events[k]) == ThreadLane(thread) ==> IsSilent(events[k].fact))
  }

  predicate MayFollow(events: seq<Event>, more: seq<Event>, thread: ThreadId) {
    && ForkedFromKnown(events + more) && (Lived(events) ==> Lived(events + more))
    && forall k :: |events| <= k < |events| + |more| ==> WrittenByOthers(events + more, k, thread)
  }

  /** These facts in this order, and between them silent ones. */
  ghost predicate Woven(mine: seq<Fact>, all: seq<Fact>) {
    if all == [] then mine == []
    else
      || (mine != [] && mine[0] == all[0] && Woven(mine[1..], all[1..]))
      || (IsSilent(all[0]) && Woven(mine, all[1..]))
  }

  /** These items in this order, and between them messages. */
  ghost predicate ItemsWoven(mine: seq<HistoryItem>, all: seq<HistoryItem>) {
    if all == [] then mine == []
    else
      || (mine != [] && mine[0] == all[0] && ItemsWoven(mine[1..], all[1..]))
      || ((all[0].UserMessage? || all[0].AssistantMessage?) && ItemsWoven(mine, all[1..]))
  }

  lemma {:induction false} WovenAppend(a: seq<Fact>, x: seq<Fact>, b: seq<Fact>, y: seq<Fact>)
    requires Woven(a, x) && Woven(b, y)
    ensures Woven(a + b, x + y)
    decreases |x|
  {
    if x == [] {
      assert a + b == b && x + y == y;
    } else {
      assert (x + y)[1..] == x[1..] + y;
      if a != [] && a[0] == x[0] && Woven(a[1..], x[1..]) {
        assert (a + b)[1..] == a[1..] + b;
        WovenAppend(a[1..], x[1..], b, y);
      } else {
        WovenAppend(a, x[1..], b, y);
      }
    }
  }

  lemma {:induction false} SilentIsWoven(facts: seq<Fact>)
    requires Silent(facts)
    ensures Woven([], facts)
  {
    if facts != [] {
      SilentIsWoven(facts[1..]);
    }
  }

  lemma WovenLast(others: seq<Fact>, fact: Fact)
    requires Silent(others)
    ensures Woven([fact], others + [fact])
  {
    SilentIsWoven(others);
    assert Woven([fact][1..], [fact][1..]);
    WovenAppend([], others, [fact], [fact]);
    assert [] + [fact] == [fact];
  }

  /** What is woven of facts is woven of what they say. */
  lemma {:induction false} WovenItems(mine: seq<Fact>, all: seq<Fact>)
    requires Woven(mine, all)
    ensures ItemsWoven(ProjectFacts(mine), ProjectFacts(all))
    decreases |all|
  {
    if all != [] {
      if mine != [] && mine[0] == all[0] && Woven(mine[1..], all[1..]) {
        WovenItems(mine[1..], all[1..]);
        SaysOne(all[0], ProjectFacts(mine[1..]), ProjectFacts(all[1..]));
      } else {
        WovenItems(mine, all[1..]);
        SaysMessage(all[0], ProjectFacts(mine), ProjectFacts(all[1..]));
      }
    }
  }

  lemma SaysOne(fact: Fact, mine: seq<HistoryItem>, all: seq<HistoryItem>)
    requires ItemsWoven(mine, all)
    ensures ItemsWoven(ItemsOf(fact) + mine, ItemsOf(fact) + all)
  {
    var items := ItemsOf(fact);
    if items == [] {
      assert items + mine == mine && items + all == all;
    } else {
      assert (items + mine)[1..] == mine && (items + all)[1..] == all;
    }
  }

  lemma SaysMessage(fact: Fact, mine: seq<HistoryItem>, all: seq<HistoryItem>)
    requires IsSilent(fact) && ItemsWoven(mine, all)
    ensures ItemsWoven(mine, ItemsOf(fact) + all)
  {
    var items := ItemsOf(fact);
    if items == [] {
      assert items + all == all;
    } else {
      assert (items + all)[1..] == all;
    }
  }

  /** The calls of a turn that the log has requested, and those it has completed. */
  function Calls(events: seq<Event>, thread: ThreadId, turn: TurnId): (set<CallId>, set<CallId>) {
    (RequestedCalls(events, thread, turn), CompletedCalls(events, thread, turn))
  }

  /** The same with one more fact of the thread. */
  function CallsWith(calls: (set<CallId>, set<CallId>), fact: Fact, turn: TurnId): (set<CallId>, set<CallId>) {
    (if fact.ToolRequested? && fact.turn == turn then calls.0 + {fact.call} else calls.0,
     if fact.ToolCompleted? && fact.turn == turn then calls.1 + {fact.call} else calls.1)
  }

  lemma CallsOneMore(before: seq<Event>, after: seq<Event>, thread: ThreadId, turn: TurnId)
    requires before <= after && |after| == |before| + 1
    ensures var e := after[|before|];
      Calls(after, thread, turn) ==
        if LaneOf(e) == ThreadLane(thread) then CallsWith(Calls(before, thread, turn), e.fact, turn)
        else Calls(before, thread, turn)
  {
    assert after[..|before|] == before;
    var (asked, answered) := Calls(before, thread, turn);
    assert asked + {} == asked && answered + {} == answered;
  }

  /** Others neither request nor complete a call of the thread. */
  lemma {:induction false} OthersMakeNoCalls(before: seq<Event>, after: seq<Event>, thread: ThreadId, turn: TurnId)
    requires before <= after && forall k :: |before| <= k < |after| ==> WrittenByOthers(after, k, thread)
    ensures Calls(after, thread, turn) == Calls(before, thread, turn)
    decreases |after|
  {
    hide Calls;
    if |after| == |before| {
      assert after == before;
    } else {
      var n := |after| - 1;
      forall k | |before| <= k < n ensures WrittenByOthers(after[..n], k, thread) {
        assert WrittenByOthers(after, k, thread);
        assert after[..n][..k] == after[..k];
      }
      OthersMakeNoCalls(before, after[..n], thread, turn);
      CallsOneMore(after[..n], after, thread, turn);
      assert WrittenByOthers(after, n, thread);
    }
  }

  lemma {:induction false} OthersAreSilent(more: seq<Event>, thread: ThreadId)
    requires forall k :: 0 <= k < |more| && LaneOf(more[k]) == ThreadLane(thread) ==> IsSilent(more[k].fact)
    ensures Silent(FactsOf(LaneFacts(more, ThreadLane(thread))))
  {
    if more != [] {
      var n := |more| - 1;
      OthersAreSilent(more[..n], thread);
      var earlier := LaneFacts(more[..n], ThreadLane(thread));
      assert (earlier + [more[n]])[..|earlier|] == earlier && earlier + [] == earlier;
    }
  }

  /** Other writers have their turn: any number of facts, of any lanes. */
  method Others(log: SessionLog, thread: ThreadId, ghost turn: TurnId) returns (ghost said: seq<Fact>)
    requires log.Valid() && ForkedFromKnown(log.entries)
    modifies log
    ensures log.Valid() && ForkedFromKnown(log.entries)
    ensures Lived(old(log.entries)) ==> Lived(log.entries)
    ensures Extended(old(log.entries), log.entries, thread, said) && Silent(said)
    ensures Calls(log.entries, thread, turn) == Calls(old(log.entries), thread, turn)
  {
    hide Calls, Lived, ReachesBack;
    var more: seq<Event> := *;
    if !MayFollow(log.entries, more, thread) {
      more := [];
    }
    ghost var before := log.entries;
    assert before + [] == before;
    log.entries := log.entries + more;
    assert log.entries[|before|..] == more;
    forall k | |before| <= k < |log.entries|
      ensures WrittenByOthers(log.entries, k, thread) && PlainlyWritten(log.entries, k, thread)
    {
    }
    forall k | 0 <= k < |more| && LaneOf(more[k]) == ThreadLane(thread) ensures IsSilent(more[k].fact) {
      assert WrittenByOthers(log.entries, |before| + k, thread);
    }
    said := FactsOf(LaneFacts(more, ThreadLane(thread)));
    OthersAreSilent(more, thread);
    OthersMakeNoCalls(before, log.entries, thread, turn);
  }

  /** Mint an id and write one fact of the thread, after whatever others write first. */
  method Record(log: SessionLog, thread: ThreadId, fact: Fact, ghost turn: TurnId) returns (ghost all: seq<Fact>)
    requires log.Valid() && ForkedFromKnown(log.entries) && Plain(fact, thread)
    modifies log
    ensures log.Valid() && ForkedFromKnown(log.entries)
    ensures Lived(old(log.entries)) ==> Lived(log.entries)
    ensures Extended(old(log.entries), log.entries, thread, all) && Woven([fact], all)
    ensures Calls(log.entries, thread, turn) == CallsWith(Calls(old(log.entries), thread, turn), fact, turn)
  {
    hide Calls, Lived, ForkedFromKnown, Woven, CallsWith;
    ghost var start := log.entries;
    ghost var said := Others(log, thread, turn);
    var id := NewId(log.entries);
    var timestamp: int := *;
    var draft := Draft(id, fact);
    ghost var before := log.entries;
    WriteKeepsForks(before, draft, timestamp);
    if Lived(before) {
      PlainWriteKeepsSession(before, draft, timestamp);
    }
    log.Write(draft, timestamp);
    ExtendedByOne(before, log.entries, thread);
    ExtendedTwice(start, before, log.entries, thread, said, [fact]);
    CallsOneMore(before, log.entries, thread, turn);
    WovenLast(said, fact);
    all := said + [fact];
  }

  lemma ExtendedByOne(before: seq<Event>, after: seq<Event>, thread: ThreadId)
    requires before <= after && |after| == |before| + 1
    requires Plain(after[|before|].fact, thread) && Unused(before, after[|before|].id)
    ensures Extended(before, after, thread, [after[|before|].fact])
  {
    var e := after[|before|];
    assert after[..|before|] == before && after[|before|..] == [e];
    LaneOfOne(e);
    assert [e][..0] == [] && FactsOf([e][..0]) == [];
  }

  // ---- recording a turn ----

  datatype Usage = Usage(inputTokens: Option<int>, outputTokens: Option<int>, cost: Option<real>)
  datatype Report = Report(ok: bool, result: string)

  /** What a turn is recorded against; `outputs` are the results among its own items. */
  datatype TurnFrame = TurnFrame(
    thread: ThreadId,
    turn: TurnId,
    outputs: map<CallId, string>,
    reports: map<CallId, Report>,
    prompt: Option<string>)

  function ToolResultsOf(items: seq<HistoryItem>): map<CallId, string> {
    if items == [] then map[]
    else
      var last := items[|items| - 1];
      var before := ToolResultsOf(items[..|items| - 1]);
      if last.ToolResult? then before[last.call := last.output] else before
  }

  method CollectToolResults(items: seq<HistoryItem>) returns (outputs: map<CallId, string>)
    ensures outputs == ToolResultsOf(items)
  {
    outputs := map[];
    for k := 0 to |items|
      invariant outputs == ToolResultsOf(items[..k])
    {
      assert items[..k + 1][..k] == items[..k];
      if items[k].ToolResult? {
        outputs := outputs[items[k].call := items[k].output];
      }
    }
    assert items[..|items|] == items;
  }

  /** The item at `k` gives the call an output, and no later one does. */
  ghost predicate OutputsLast(items: seq<HistoryItem>, call: CallId, k: nat)
    requires k < |items|
  {
    Outputs(items[k], call) && forall j :: k < j < |items| ==> !Outputs(items[j], call)
  }

  /** The last output given for a call is the one that counts. */
  lemma {:induction false} ToolResultsMeaning(items: seq<HistoryItem>, call: CallId)
    ensures call in ToolResultsOf(items) <==> exists k :: 0 <= k < |items| && Outputs(items[k], call)
    ensures call in ToolResultsOf(items) ==>
      exists k :: 0 <= k < |items| && OutputsLast(items, call, k) && items[k].output == ToolResultsOf(items)[call]
  {
    if items != [] {
      var n, front := |items| - 1, items[..|items| - 1];
      ToolResultsMeaning(front, call);
      assert forall k :: 0 <= k < n ==> items[k] == front[k];
      if Outputs(items[n], call) {
        assert OutputsLast(items, call, n);
      } else if call in ToolResultsOf(front) {
        var k :| 0 <= k < n && OutputsLast(front, call, k) && front[k].output == ToolResultsOf(front)[call];
        assert OutputsLast(items, call, k);
      }
    }
  }

  predicate Outputs(item: HistoryItem, call: CallId) {
    item.ToolResult? && item.call == call
  }

  function RequestedCalls(events: seq<Event>, thread: ThreadId, turn: TurnId): set<CallId> {
    if events == [] then {}
    else
      var fact := events[|events| - 1].fact;
      RequestedCalls(events[..|events| - 1], thread, turn)
      + if fact.ToolRequested? && fact.thread == thread && fact.turn == turn then {fact.call} else {}
  }

  function CompletedCalls(events: seq<Event>, thread: ThreadId, turn: TurnId): set<CallId> {
    if events == [] then {}
    else
      var fact := events[|events| - 1].fact;
      CompletedCalls(events[..|events| - 1], thread, turn)
      + if fact.ToolCompleted? && fact.thread == thread && fact.turn == turn then {fact.call} else {}
  }

  function Said(thread: ThreadId, text: string): seq<Fact> {
    if text == "" then [] else [MessageAppended(thread, Assistant, text)]
  }

  function Asked(frame: TurnFrame, item: HistoryItem): Fact
    requires item.FunctionCall?
  {
    ToolRequested(frame.thread, frame.turn, item.call, item.name, item.arguments)
  }

  function Answered(frame: TurnFrame, item: HistoryItem): Fact
    requires item.FunctionCall? && item.call in frame.outputs
  {
    ToolCompleted(frame.thread, frame.turn, item.call, item.name,
                  if item.call in frame.reports then frame.reports[item.call].ok else true,
                  frame.outputs[item.call])
  }

  /** What a user message in the middle of a turn comes to, once what was said before it is flushed. */
  function UserTurnFacts(frame: TurnFrame, message: string, text: string, promptWritten: bool): seq<Fact> {
    Said(frame.thread, text)
    + if (!promptWritten && Some(message) == frame.prompt) || message == "" then []
      else [MessageAppended(frame.thread, User, message)]
  }

  /** What a call comes to when the turn has made these calls before. */
  function CallTurnFacts(frame: TurnFrame, item: HistoryItem, text: string, calls: (set<CallId>, set<CallId>))
    : seq<Fact>
    requires item.FunctionCall?
  {
    Said(frame.thread, text)
    + (if item.call in calls.0 then [] else [Asked(frame, item)])
    + (if item.call !in frame.outputs || item.call in calls.1 then [] else [Answered(frame, item)])
  }

  function CallsAfter(frame: TurnFrame, call: CallId, calls: (set<CallId>, set<CallId>)): (set<CallId>, set<CallId>) {
    (calls.0 + {call}, if call in frame.outputs then calls.1 + {call} else calls.1)
  }

  /** The facts still to be recorded, from what the recorder holds between two items. */
  function TurnFacts(frame: TurnFrame, rest: seq<HistoryItem>, text: string, promptWritten: bool,
                     requested: set<CallId>, completed: set<CallId>): seq<Fact>
  {
    if rest == [] then Said(frame.thread, text)
    else
      var item := rest[0];
      match item
      case UserMessage(t) =>
        Said(frame.thread, text) +
        if !promptWritten && Some(t) == frame.prompt then
          TurnFacts(frame, rest[1..], "", true, requested, completed)
        else
          (if t == "" then [] else [MessageAppended(frame.thread, User, t)])
          + TurnFacts(frame, rest[1..], "", promptWritten, requested, completed)
      case FunctionCall(call, _, _) =>
        Said(frame.thread, text)
        + (if call in requested then [] else [Asked(frame, item)])
        + (if call !in frame.outputs || call in completed then [] else [Answered(frame, item)])
        + TurnFacts(frame, rest[1..], "", promptWritten, requested + {call},
                    if call in frame.outputs then completed + {call} else completed)
      case AssistantMessage(t) =>
        TurnFacts(frame, rest[1..], text + t, promptWritten, requested, completed)
      case _ =>
        TurnFacts(frame, rest[1..], text, promptWritten, requested, completed)
  }

  // ---- the canonical form of a turn, position by position ----

  /** The assistant text since the last user message or call before `i`. */
  function SpokenBefore(items: seq<HistoryItem>, i: nat): string
    requires i <= |items|
  {
    if i == 0 then ""
    else
      match items[i - 1]
      case UserMessage(_) => ""
      case FunctionCall(_, _, _) => ""
      case AssistantMessage(t) => SpokenBefore(items, i - 1) + t
      case _ => SpokenBefore(items, i - 1)
  }

  predicate EchoedBefore(items: seq<HistoryItem>, prompt: Option<string>, i: nat)
    requires i <= |items|
  {
    exists j :: 0 <= j < i && items[j].UserMessage? && Some(items[j].text) == prompt
  }

  predicate CalledBefore(items: seq<HistoryItem>, call: CallId, i: nat)
    requires i <= |items|
  {
    exists j :: 0 <= j < i && items[j].FunctionCall? && items[j].call == call
  }

  function Speech(text: string): seq<HistoryItem> {
    if text == "" then [] else [AssistantMessage(text)]
  }

  /**
    What the item at `i` adds to history: a user message, unless it is empty or the first
    echo of the prompt; a call, unless it was made before; beside the call its output, unless
    it was given before.  What the assistant said so far comes first.
   */
  function CanonicalAt(frame: TurnFrame, items: seq<HistoryItem>, requested: set<CallId>, completed: set<CallId>,
                       i: nat): seq<HistoryItem>
    requires i < |items|
  {
    match items[i]
    case UserMessage(t) =>
      Speech(SpokenBefore(items, i))
      + if t == "" || (Some(t) == frame.prompt && !EchoedBefore(items, frame.prompt, i)) then [] else [items[i]]
    case FunctionCall(call, _, _) =>
      Speech(SpokenBefore(items, i))
      + (if call in requested || CalledBefore(items, call, i) then [] else [items[i]])
      + (if call !in frame.outputs || call in completed || CalledBefore(items, call, i) then []
         else [ToolResult(call, frame.outputs[call])])
    case _ => []
  }

  function CanonicalFrom(frame: TurnFrame, items: seq<HistoryItem>, requested: set<CallId>, completed: set<CallId>,
                         i: nat): seq<HistoryItem>
    requires i <= |items|
    decreases |items| - i
  {
    if i == |items| then Speech(SpokenBefore(items, i))
    else CanonicalAt(frame, items, requested, completed, i) + CanonicalFrom(frame, items, requested, completed, i + 1)
  }

  /** The recorder's memory after the first `i` items, in terms of those items. */
  ghost predicate RecorderAt(frame: TurnFrame, items: seq<HistoryItem>, requested: set<CallId>, completed: set<CallId>,
                             i: nat, text: string, promptWritten: bool, asked: set<CallId>, answered: set<CallId>)
    requires i <= |items|
  {
    && text == SpokenBefore(items, i)
    && (promptWritten <==> frame.prompt.None? || EchoedBefore(items, frame.prompt, i))
    && (forall c :: c in asked <==> c in requested || CalledBefore(items, c, i))
    && (forall c :: c in frame.outputs ==> (c in answered <==> c in completed || CalledBefore(items, c, i)))
  }

  lemma SaidIsSpeech(thread: ThreadId, text: string)
    ensures ProjectFacts(Said(thread, text)) == Speech(text)
  {
  }

  lemma RecorderAfterUser(frame: TurnFrame, items: seq<HistoryItem>, requested: set<CallId>, completed: set<CallId>,
                          i: nat, text: string, promptWritten: bool, asked: set<CallId>, answered: set<CallId>)
    requires i < |items| && items[i].UserMessage?
    requires RecorderAt(frame, items, requested, completed, i, text, promptWritten, asked, answered)
    ensures RecorderAt(frame, items, requested, completed, i + 1, "",
                       promptWritten || Some(items[i].text) == frame.prompt, asked, answered)
  {
  }

  lemma RecorderAfterCall(frame: TurnFrame, items: seq<HistoryItem>, requested: set<CallId>, completed: set<CallId>,
                          i: nat, text: string, promptWritten: bool, asked: set<CallId>, answered: set<CallId>)
    requires i < |items| && items[i].FunctionCall?
    requires RecorderAt(frame, items, requested, completed, i, text, promptWritten, asked, answered)
    ensures var call := items[i].call;
      RecorderAt(frame, items, requested, completed, i + 1, "", promptWritten, asked + {call},
                 if call in frame.outputs then answered + {call} else answered)
  {
  }

  lemma RecorderAfterOther(frame: TurnFrame, items: seq<HistoryItem>, requested: set<CallId>, completed: set<CallId>,
                           i: nat, text: string, promptWritten: bool, asked: set<CallId>, answered: set<CallId>)
    requires i < |items| && !items[i].UserMessage? && !items[i].FunctionCall?
    requires RecorderAt(frame, items, requested, completed, i, text, promptWritten, asked, answered)
    ensures RecorderAt(frame, items, requested, completed, i + 1,
                       if items[i].AssistantMessage? then text + items[i].text else text,
                       promptWritten, asked, answered)
  {
  }

  /** The facts the recorder writes read back as the canonical form of what it was given. */
  lemma {:induction false} TurnFactsAreCanonical(frame: TurnFrame, items: seq<HistoryItem>,
      requested: set<CallId>, completed: set<CallId>,
      i: nat, text: string, promptWritten: bool, asked: set<CallId>, answered: set<CallId>)
    requires i <= |items|
    requires RecorderAt(frame, items, requested, completed, i, text, promptWritten, asked, answered)
    ensures ProjectFacts(TurnFacts(frame, items[i..], text, promptWritten, asked, answered))
         == CanonicalFrom(frame, items, requested, completed, i)
    decreases |items| - i
  {
    SaidIsSpeech(frame.thread, text);
    if i < |items| {
      assert items[i..][1..] == items[i + 1..];
      match items[i] {
        case UserMessage(t) =>
          RecorderAfterUser(frame, items, requested, completed, i, text, promptWritten, asked, answered);
          TurnFactsAreCanonical(frame, items, requested, completed, i + 1, "",
                                promptWritten || Some(t) == frame.prompt, asked, answered);
          UserIsCanonical(frame, items, requested, completed, i, text, promptWritten, asked, answered);
        case FunctionCall(call, _, _) =>
          RecorderAfterCall(frame, items, requested, completed, i, text, promptWritten, asked, answered);
          TurnFactsAreCanonical(frame, items, requested, completed, i + 1, "", promptWritten, asked + {call},
                                if call in frame.outputs then answered + {call} else answered);
          CallIsCanonical(frame, items, requested, completed, i, text, promptWritten, asked, answered);
        case AssistantMessage(t) =>
          RecorderAfterOther(frame, items, requested, completed, i, text, promptWritten, asked, answered);
          TurnFactsAreCanonical(frame, items, requested, completed, i + 1, text + t, promptWritten, asked, answered);
        case _ =>
          RecorderAfterOther(frame, items, requested, completed, i, text, promptWritten, asked, answered);
          TurnFactsAreCanonical(frame, items, requested, completed, i + 1, text, promptWritten, asked, answered);
      }
    }
  }

  lemma UserFacts(frame: TurnFrame, rest: seq<HistoryItem>, text: string, promptWritten: bool,
                  asked: set<CallId>, answered: set<CallId>)
    requires rest != [] && rest[0].UserMessage?
    ensures var t := rest[0].text;
      var echo := !promptWritten && Some(t) == frame.prompt;
      TurnFacts(frame, rest, text, promptWritten, asked, answered)
      == Said(frame.thread, text) + (if echo || t == "" then [] else [MessageAppended(frame.thread, User, t)])
         + TurnFacts(frame, rest[1..], "", promptWritten || Some(t) == frame.prompt, asked, answered)
  {
  }

  lemma CallFacts(frame: TurnFrame, rest: seq<HistoryItem>, text: string, promptWritten: bool,
                  asked: set<CallId>, answered: set<CallId>)
    requires rest != [] && rest[0].FunctionCall?
    ensures var call := rest[0].call;
      TurnFacts(frame, rest, text, promptWritten, asked, answered)
      == Said(frame.thread, text)
         + (if call in asked then [] else [Asked(frame, rest[0])])
         + (if call !in frame.outputs || call in answered then [] else [Answered(frame, rest[0])])
         + TurnFacts(frame, rest[1..], "", promptWritten, asked + {call},
                     if call in frame.outputs then answered + {call} else answered)
  {
  }

  lemma UserIsCanonical(frame: TurnFrame, items: seq<HistoryItem>, requested: set<CallId>, completed: set<CallId>,
                        i: nat, text: string, promptWritten: bool, asked: set<CallId>, answered: set<CallId>)
    requires i < |items| && items[i].UserMessage? && text == SpokenBefore(items, i)
    requires promptWritten <==> frame.prompt.None? || EchoedBefore(items, frame.prompt, i)
    requires ProjectFacts(TurnFacts(frame, items[i + 1..], "", promptWritten || Some(items[i].text) == frame.prompt,
                                    asked, answered))
          == CanonicalFrom(frame, items, requested, completed, i + 1)
    ensures ProjectFacts(TurnFacts(frame, items[i..], text, promptWritten, asked, answered))
         == CanonicalAt(frame, items, requested, completed, i)
             + CanonicalFrom(frame, items, requested, completed, i + 1)
  {
    var t := items[i].text;
    var echo := !promptWritten && Some(t) == frame.prompt;
    var user := if echo || t == "" then [] else [MessageAppended(frame.thread, User, t)];
    var rest := TurnFacts(frame, items[i + 1..], "", promptWritten || Some(t) == frame.prompt, asked, answered);
    assert items[i..][1..] == items[i + 1..] && items[i..][0] == items[i];
    UserFacts(frame, items[i..], text, promptWritten, asked, answered);
    SaidIsSpeech(frame.thread, text);
    ProjectOne(MessageAppended(frame.thread, User, t));
    ProjectFactsAppend(Said(frame.thread, text), user);
    ProjectFactsAppend(Said(frame.thread, text) + user, rest);
    assert ProjectFacts(Said(frame.thread, text) + user) == CanonicalAt(frame, items, requested, completed, i);
  }

  lemma CallIsCanonical(frame: TurnFrame, items: seq<HistoryItem>, requested: set<CallId>, completed: set<CallId>,
                        i: nat, text: string, promptWritten: bool, asked: set<CallId>, answered: set<CallId>)
    requires i < |items| && items[i].FunctionCall? && text == SpokenBefore(items, i)
    requires var c := items[i].call;
      && (c in asked <==> c in requested || CalledBefore(items, c, i))
      && (c in frame.outputs ==> (c in answered <==> c in completed || CalledBefore(items, c, i)))
    requires var call := items[i].call;
      ProjectFacts(TurnFacts(frame, items[i + 1..], "", promptWritten, asked + {call},
                             if call in frame.outputs then answered + {call} else answered))
      == CanonicalFrom(frame, items, requested, completed, i + 1)
    ensures ProjectFacts(TurnFacts(frame, items[i..], text, promptWritten, asked, answered))
         == CanonicalAt(frame, items, requested, completed, i)
             + CanonicalFrom(frame, items, requested, completed, i + 1)
  {
    var item := items[i];
    var call := item.call;
    var spoken := Said(frame.thread, text);
    var request := if call in asked then [] else [Asked(frame, item)];
    var answer := if call !in frame.outputs || call in answered then [] else [Answered(frame, item)];
    var rest := TurnFacts(frame, items[i + 1..], "", promptWritten, asked + {call},
                          if call in frame.outputs then answered + {call} else answered);
    assert items[i..][1..] == items[i + 1..] && items[i..][0] == items[i];
    CallFacts(frame, items[i..], text, promptWritten, asked, answered);
    SaidIsSpeech(frame.thread, text);
    RequestAndAnswer(frame, item, request, answer);
    ProjectFactsAppend(spoken, request);
    ProjectFactsAppend(spoken + request, answer);
    ProjectFactsAppend(spoken + request + answer, rest);
  }

  lemma RequestAndAnswer(frame: TurnFrame, item: HistoryItem, request: seq<Fact>, answer: seq<Fact>)
    requires item.FunctionCall?
    requires request == [] || request == [Asked(frame, item)]
    requires answer == [] || (item.call in frame.outputs && answer == [Answered(frame, item)])
    ensures ProjectFacts(request) == if request == [] then [] else [item]
    ensures ProjectFacts(answer) == if answer == [] then [] else [ToolResult(item.call, frame.outputs[item.call])]
  {
  }

  // ---- what the recorded calls carry ----

  /** A request repeats a call of the turn; a completion carries its output, and how the harness said it went. */
  ghost predicate FromItems(frame: TurnFrame, items: seq<HistoryItem>, fact: Fact) {
    && (fact.ToolRequested? ==> FunctionCall(fact.call, fact.name, fact.arguments) in items)
    && (fact.ToolCompleted? ==>
          && (exists arguments :: FunctionCall(fact.call, fact.name, arguments) in items)
          && fact.call in frame.outputs && fact.result == frame.outputs[fact.call]
          && (fact.call in frame.reports ==> fact.ok == frame.reports[fact.call].ok)
          && (fact.call !in frame.reports ==> fact.ok))
    && (fact.ToolRequested? || fact.ToolCompleted? ==> fact.thread == frame.thread && fact.turn == frame.turn)
  }

  lemma {:induction false} TurnFactsFromItems(frame: TurnFrame, rest: seq<HistoryItem>, text: string,
      promptWritten: bool, asked: set<CallId>, answered: set<CallId>, items: seq<HistoryItem>)
    requires forall item :: item in rest ==> item in items
    ensures forall fact :: fact in TurnFacts(frame, rest, text, promptWritten, asked, answered) ==>
      FromItems(frame, items, fact)
    decreases |rest|
  {
    if rest != [] {
      var item := rest[0];
      assert forall other :: other in rest[1..] ==> other in rest;
      match item {
        case UserMessage(t) =>
          UserFacts(frame, rest, text, promptWritten, asked, answered);
          TurnFactsFromItems(frame, rest[1..], "", promptWritten || Some(t) == frame.prompt, asked, answered, items);
        case FunctionCall(call, name, arguments) =>
          CallFacts(frame, rest, text, promptWritten, asked, answered);
          TurnFactsFromItems(frame, rest[1..], "", promptWritten, asked + {call},
                             if call in frame.outputs then answered + {call} else answered, items);
          assert FunctionCall(call, name, arguments) in items;
        case AssistantMessage(t) =>
          TurnFactsFromItems(frame, rest[1..], text + t, promptWritten, asked, answered, items);
        case _ => TurnFactsFromItems(frame, rest[1..], text, promptWritten, asked, answered, items);
      }
    }
  }

  lemma {:induction false} WovenIsMineOrSilent(mine: seq<Fact>, all: seq<Fact>)
    requires Woven(mine, all)
    ensures forall fact :: fact in all ==> fact in mine || IsSilent(fact)
    decreases |all|
  {
    if all != [] {
      assert forall fact :: fact in all ==> fact == all[0] || fact in all[1..];
      if mine != [] && mine[0] == all[0] && Woven(mine[1..], all[1..]) {
        WovenIsMineOrSilent(mine[1..], all[1..]);
        assert forall fact :: fact in mine[1..] ==> fact in mine;
      } else {
        WovenIsMineOrSilent(mine, all[1..]);
      }
    }
  }

  /** So every tool fact the thread's lane gains while a turn is recorded is what the turn's items and reports say. */
  lemma RecordedFromItems(frame: TurnFrame, items: seq<HistoryItem>, usage: Option<Usage>, before: seq<Event>,
                          all: seq<Fact>, fact: Fact)
    requires Woven(StillToRecord(frame, items, "", frame.prompt.None?, before) + UsageFacts(frame, usage), all)
    requires fact in all && (fact.ToolRequested? || fact.ToolCompleted?)
    ensures FromItems(frame, items, fact)
  {
    hide FromItems, Woven, TurnFacts, CallsIn;
    var (asked, answered) := CallsIn(before, frame);
    TurnFactsFromItems(frame, items, "", frame.prompt.None?, asked, answered, items);
    WovenIsMineOrSilent(StillToRecord(frame, items, "", frame.prompt.None?, before) + UsageFacts(frame, usage), all);
  }

  // ---- the recorder ----

  /** Record what the assistant has said so far, if anything. */
  method Flush(log: SessionLog, frame: TurnFrame, text: string) returns (ghost all: seq<Fact>)
    requires log.Valid() && ForkedFromKnown(log.entries)
    modifies log
    ensures log.Valid() && ForkedFromKnown(log.entries)
    ensures Lived(old(log.entries)) ==> Lived(log.entries)
    ensures Extended(old(log.entries), log.entries, frame.thread, all) && Woven(Said(frame.thread, text), all)
    ensures CallsIn(log.entries, frame) == CallsIn(old(log.entries), frame)
  {
    hide Calls, Lived, ForkedFromKnown;
    if text == "" {
      all := [];
      return;
    }
    all := Record(log, frame.thread, MessageAppended(frame.thread, Assistant, text), frame.turn);
  }

  /** The calls this turn has requested, and those it has completed. */
  function CallsIn(events: seq<Event>, frame: TurnFrame): (set<CallId>, set<CallId>) {
    Calls(events, frame.thread, frame.turn)
  }

  method RecordUser(log: SessionLog, frame: TurnFrame, item: HistoryItem, text: string, promptWritten: bool)
    returns (written: bool, ghost all: seq<Fact>)
    requires log.Valid() && ForkedFromKnown(log.entries) && item.UserMessage?
    modifies log
    ensures log.Valid() && ForkedFromKnown(log.entries)
    ensures Lived(old(log.entries)) ==> Lived(log.entries)
    ensures written == (promptWritten || Some(item.text) == frame.prompt)
    ensures Extended(old(log.entries), log.entries, frame.thread, all)
    ensures Woven(UserTurnFacts(frame, item.text, text, promptWritten), all)
    ensures CallsIn(log.entries, frame) == CallsIn(old(log.entries), frame)
  {
    hide Calls, Lived, ForkedFromKnown, Woven, Extended;
    all := Flush(log, frame, text);
    ghost var spoken := Said(frame.thread, text);
    assert spoken + [] == spoken;
    if !promptWritten && Some(item.text) == frame.prompt {
      return true, all;
    }
    written := promptWritten;
    if item.text != "" {
      ghost var flushed := log.entries;
      ghost var message := MessageAppended(frame.thread, User, item.text);
      ghost var more := Record(log, frame.thread, MessageAppended(frame.thread, User, item.text), frame.turn);
      ExtendedTwice(old(log.entries), flushed, log.entries, frame.thread, all, more);
      WovenAppend(spoken, all, [message], more);
      all := all + more;
    }
  }

  method RecordCall(log: SessionLog, frame: TurnFrame, item: HistoryItem, text: string) returns (ghost all: seq<Fact>)
    requires log.Valid() && ForkedFromKnown(log.entries) && item.FunctionCall?
    modifies log
    ensures log.Valid() && ForkedFromKnown(log.entries)
    ensures Lived(old(log.entries)) ==> Lived(log.entries)
    ensures Extended(old(log.entries), log.entries, frame.thread, all)
    ensures Woven(CallTurnFacts(frame, item, text, CallsIn(old(log.entries), frame)), all)
    ensures CallsIn(log.entries, frame) == CallsAfter(frame, item.call, CallsIn(old(log.entries), frame))
  {
    hide Calls, Lived, ForkedFromKnown, Woven, Extended;
    ghost var before := log.entries;
    ghost var (asked, answered) := CallsIn(before, frame);
    all := Flush(log, frame, text);
    ghost var facts := Said(frame.thread, text);
    assert facts + [] == facts;
    CallsAre(log.entries, frame);
    if item.call !in RequestedCalls(log.entries, frame.thread, frame.turn) {
      ghost var flushed := log.entries;
      ghost var more := Record(log, frame.thread, Asked(frame, item), frame.turn);
      ExtendedTwice(before, flushed, log.entries, frame.thread, all, more);
      WovenAppend(facts, all, [Asked(frame, item)], more);
      facts, all := facts + [Asked(frame, item)], all + more;
    } else {
      assert asked + {item.call} == asked;
    }
    assert facts + [] == facts;
    CallsAre(log.entries, frame);
    if item.call !in frame.outputs {
      return;
    }
    if item.call in CompletedCalls(log.entries, frame.thread, frame.turn) {
      assert answered + {item.call} == answered;
      return;
    }
    ghost var requested := log.entries;
    ghost var more := Record(log, frame.thread, Answered(frame, item), frame.turn);
    ExtendedTwice(before, requested, log.entries, frame.thread, all, more);
    WovenAppend(facts, all, [Answered(frame, item)], more);
    all := all + more;
  }

  lemma CallsAre(events: seq<Event>, frame: TurnFrame)
    ensures CallsIn(events, frame)
         == (RequestedCalls(events, frame.thread, frame.turn), CompletedCalls(events, frame.thread, frame.turn))
  {
  }

  function UsageFacts(frame: TurnFrame, usage: Option<Usage>): seq<Fact> {
    if usage.None? || (usage.value.inputTokens.None? && usage.value.outputTokens.None? && usage.value.cost.None?)
    then []
    else
      var u := usage.value;
      [TurnUsage(frame.thread, frame.turn,
                 if u.inputTokens.Some? then u.inputTokens.value else 0,
                 if u.outputTokens.Some? then u.outputTokens.value else 0,
                 u.cost)]
  }

  /** What is left to record of a turn whose items from `rest` on are still to come. */
  function StillToRecord(frame: TurnFrame, rest: seq<HistoryItem>, text: string, promptWritten: bool,
                         events: seq<Event>): seq<Fact>
  {
    var (asked, answered) := CallsIn(events, frame);
    TurnFacts(frame, rest, text, promptWritten, asked, answered)
  }

  /** One turn of the recorder's loop: write what this item calls for, or keep it in mind. */
  method RecordItem(log: SessionLog, frame: TurnFrame, item: HistoryItem, text: string, promptWritten: bool,
                    ghost rest: seq<HistoryItem>)
    returns (said: string, written: bool, ghost facts: seq<Fact>, ghost all: seq<Fact>)
    requires log.Valid() && ForkedFromKnown(log.entries) && rest != [] && rest[0] == item
    modifies log
    ensures log.Valid() && ForkedFromKnown(log.entries)
    ensures Lived(old(log.entries)) ==> Lived(log.entries)
    ensures Extended(old(log.entries), log.entries, frame.thread, all) && Woven(facts, all)
    ensures facts + StillToRecord(frame, rest[1..], said, written, log.entries)
         == StillToRecord(frame, rest, text, promptWritten, old(log.entries))
  {
    hide CallsIn, Lived, ForkedFromKnown, Woven;
    ghost var (asked, answered) := CallsIn(log.entries, frame);
    if item.UserMessage? {
      UserFacts(frame, rest, text, promptWritten, asked, answered);
      facts := UserTurnFacts(frame, item.text, text, promptWritten);
      written, all := RecordUser(log, frame, item, text, promptWritten);
      said := "";
    } else if item.FunctionCall? {
      CallFacts(frame, rest, text, promptWritten, asked, answered);
      facts := CallTurnFacts(frame, item, text, (asked, answered));
      all := RecordCall(log, frame, item, text);
      said, written := "", promptWritten;
    } else {
      facts, all := [], [];
      NothingIsWoven();
      said := if item.AssistantMessage? then text + item.text else text;
      written := promptWritten;
    }
  }

  lemma NothingIsWoven()
    ensures Woven([], [])
  {
  }

  /**
    Record a finished harness turn, while others may write between any two of its own writes.
    The history read back afterwards is the history before it and what the thread's lane gained,
    in which the canonical form of the turn's items stands in order, with nothing but messages
    of others between, whatever was already requested or completed while the turn ran.
   */
  method PersistTurn(log: SessionLog, thread: ThreadId, turn: TurnId, items: seq<HistoryItem>,
                     reports: map<CallId, Report>, prompt: Option<string>, usage: Option<Usage>)
    returns (ghost all: seq<Fact>)
    requires log.Valid() && ForkedFromKnown(log.entries)
    modifies log
    ensures log.Valid() && ForkedFromKnown(log.entries)
    ensures Lived(old(log.entries)) ==> Lived(log.entries)
    ensures var frame := TurnFrame(thread, turn, ToolResultsOf(items), reports, prompt);
      var mine := StillToRecord(frame, items, "", prompt.None?, old(log.entries)) + UsageFacts(frame, usage);
      Extended(old(log.entries), log.entries, thread, all) && Woven(mine, all)
    ensures var frame := TurnFrame(thread, turn, ToolResultsOf(items), reports, prompt);
      var mine := StillToRecord(frame, items, "", prompt.None?, old(log.entries)) + UsageFacts(frame, usage);
      var (asked, answered) := CallsIn(old(log.entries), frame);
      var canonical := CanonicalFrom(frame, items, asked, answered, 0);
      && HistoryOf(log.entries, thread) == HistoryOf(old(log.entries), thread) + ProjectFacts(all)
      && ItemsWoven(canonical, ProjectFacts(all))
      && (all == mine ==> ProjectFacts(all) == canonical)
  {
    hide Lived, ForkedFromKnown, Woven, ItemsWoven, Extended, CanonicalFrom, TurnFacts, CallsIn, ProjectFacts,
        HistoryOf;
    var text := "";
    var promptWritten := prompt.None?;
    var outputs := CollectToolResults(items);
    var frame := TurnFrame(thread, turn, outputs, reports, prompt);
    ghost var before := log.entries;
    ghost var facts: seq<Fact> := [];
    all := [];
    NothingIsWoven();
    ExtendedByNothing(before, thread);
    assert items[0..] == items;
    for k := 0 to |items|
      invariant log.Valid() && ForkedFromKnown(log.entries) && (Lived(before) ==> Lived(log.entries))
      invariant Extended(before, log.entries, thread, all) && Woven(facts, all)
      invariant facts + StillToRecord(frame, items[k..], text, promptWritten, log.entries)
             == StillToRecord(frame, items, "", prompt.None?, before)
    {
      assert items[k..][0] == items[k] && items[k..][1..] == items[k + 1..];
      ghost var here, mine, more := log.entries, [], [];
      text, promptWritten, mine, more := RecordItem(log, frame, items[k], text, promptWritten, items[k..]);
      ExtendedTwice(before, here, log.entries, thread, all, more);
      WovenAppend(facts, all, mine, more);
      Regroup(facts, mine, StillToRecord(frame, items[k + 1..], text, promptWritten, log.entries));
      facts, all := facts + mine, all + more;
    }
    ghost var looped := log.entries;
    NothingLeft(frame, items, text, promptWritten, looped);
    ghost var more := Flush(log, frame, text);
    ExtendedTwice(before, looped, log.entries, thread, all, more);
    WovenAppend(facts, all, Said(thread, text), more);
    facts, all := facts + Said(thread, text), all + more;
    ghost var flushed := log.entries;
    more := RecordUsage(log, frame, usage);
    ExtendedTwice(before, flushed, log.entries, thread, all, more);
    WovenAppend(facts, all, UsageFacts(frame, usage), more);
    all := all + more;
    TurnReadsBack(before, log.entries, frame, items, usage, all);
  }

  lemma ExtendedByNothing(events: seq<Event>, thread: ThreadId)
    ensures Extended(events, events, thread, [])
  {
  }

  lemma NothingLeft(frame: TurnFrame, items: seq<HistoryItem>, text: string, promptWritten: bool, events: seq<Event>)
    ensures StillToRecord(frame, items[|items|..], text, promptWritten, events) == Said(frame.thread, text)
  {
  }

  /** What the facts of a recorded turn say: the turn's canonical form; usage says nothing. */
  lemma TurnReadsBack(before: seq<Event>, after: seq<Event>, frame: TurnFrame, items: seq<HistoryItem>,
                      usage: Option<Usage>, all: seq<Fact>)
    requires ForkedFromKnown(after) && Extended(before, after, frame.thread, all)
    requires Woven(StillToRecord(frame, items, "", frame.prompt.None?, before) + UsageFacts(frame, usage), all)
    ensures var (asked, answered) := CallsIn(before, frame);
      var canonical := CanonicalFrom(frame, items, asked, answered, 0);
      && HistoryOf(after, frame.thread) == HistoryOf(before, frame.thread) + ProjectFacts(all)
      && ProjectFacts(StillToRecord(frame, items, "", frame.prompt.None?, before) + UsageFacts(frame, usage))
           == canonical
      && ItemsWoven(canonical, ProjectFacts(all))
  {
    hide TurnFacts, UsageFacts, ProjectFacts, HistoryOf, CanonicalFrom, Extended, Woven, CallsIn;
    var (asked, answered) := CallsIn(before, frame);
    var facts := TurnFacts(frame, items, "", frame.prompt.None?, asked, answered);
    HistoryExtends(before, after, frame.thread, all);
    WovenItems(facts + UsageFacts(frame, usage), all);
    ProjectFactsAppend(facts, UsageFacts(frame, usage));
    UsageIsSilent(frame, usage);
    assert ProjectFacts(facts) + [] == ProjectFacts(facts);
    assert items[0..] == items;
    TurnFactsAreCanonical(frame, items, asked, answered, 0, "", frame.prompt.None?, asked, answered);
  }

  lemma UsageIsSilent(frame: TurnFrame, usage: Option<Usage>)
    ensures ProjectFacts(UsageFacts(frame, usage)) == []
  {
  }

  method RecordUsage(log: SessionLog, frame: TurnFrame, usage: Option<Usage>) returns (ghost all: seq<Fact>)
    requires log.Valid() && ForkedFromKnown(log.entries)
    modifies log
    ensures log.Valid() && ForkedFromKnown(log.entries)
    ensures Lived(old(log.entries)) ==> Lived(log.entries)
    ensures Extended(old(log.entries), log.entries, frame.thread, all) && Woven(UsageFacts(frame, usage), all)
  {
    hide Lived, ForkedFromKnown, Woven, Extended;
    all := [];
    NothingIsWoven();
    ExtendedByNothing(log.entries, frame.thread);
    if usage.None? {
      return;
    }
    var inputTokens := if usage.value.inputTokens.Some? then usage.value.inputTokens.value else 0;
    var outputTokens := if usage.value.outputTokens.Some? then usage.value.outputTokens.value else 0;
    if usage.value.inputTokens.None? && usage.value.outputTokens.None? && usage.value.cost.None? {
      return;
    }
    var fact := TurnUsage(frame.thread, frame.turn, inputTokens, outputTokens, usage.value.cost);
    all := Record(log, frame.thread, fact, frame.turn);
  }
}
