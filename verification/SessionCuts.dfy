/** How compactions compose along a chain of forks, and what one compaction replaces. */
module SessionCuts {
  import opened Primitives
  import opened SessionEvents
  import opened SessionLogs
  import opened SessionTree
  import opened SessionMemory
  import opened SessionForks
  import opened SessionLineage

  // ---- nested cuts compose ----

  /** Index of a lane's first branch, or -1. */
  function BranchOf(events: seq<Event>, lane: Lane): (b: int)
    ensures -1 <= b < |events|
    ensures b >= 0 ==> events[b].fact.ThreadBranched? && LaneOf(events[b]) == lane
    ensures forall k :: 0 <= k < (if b < 0 then |events| else b) && LaneOf(events[k]) == lane ==>
              !events[k].fact.ThreadBranched?
  {
    if events == [] then -1
    else
      var n := |events| - 1;
      var b := BranchOf(events[..n], lane);
      if b >= 0 then b
      else if events[n].fact.ThreadBranched? && LaneOf(events[n]) == lane then n
      else -1
  }

  /** Everything a thread ever continued, nothing compacted away. */
  function Lineage(events: seq<Event>, lane: Lane): seq<Event>
    decreases |events|
  {
    var b := BranchOf(events, lane);
    var i := if b < 0 then -1 else EntryOf(events, events[b].fact.fromId);
    (if 0 <= i && i + 1 < |events| then Lineage(events[..i + 1], LaneOf(events[i])) else [])
    + LaneFacts(events, lane)
  }

  /** Each compaction keeps an entry older than itself and newer than every compaction before it. */
  predicate CutsForward(path: seq<Event>) {
    forall k :: 0 <= k < |path| && path[k].fact.ThreadCompacted? ==> CutForward(path, k)
  }

  predicate CutForward(path: seq<Event>, k: nat)
    requires k < |path| && path[k].fact.ThreadCompacted?
  {
    var kept := FirstIndexOf(path, path[k].fact.firstKept);
    kept < k && forall j :: 0 <= j < k && path[j].fact.ThreadCompacted? ==> j < kept
  }

  ghost predicate IdsDetermine(path: seq<Event>) {
    forall e, f :: e in path && f in path && e.id == f.id ==> e == f
  }

  lemma CutsForwardPrefix(a: seq<Event>, b: seq<Event>)
    requires CutsForward(a + b)
    ensures CutsForward(a)
  {
    forall k | 0 <= k < |a| && a[k].fact.ThreadCompacted?
      ensures CutForward(a, k)
    {
      assert (a + b)[k] == a[k] && CutForward(a + b, k);
      forall j | 0 <= j < |a| ensures (a + b)[j] == a[j] {}
      var kept := FirstIndexOf(a + b, a[k].fact.firstKept);
      if kept >= 0 {
        FirstIndexIs(a, a[k].fact.firstKept, kept);
      } else {
        assert FirstIndexOf(a, a[k].fact.firstKept) < 0;
      }
    }
  }

  /** Compacting the older part first changes nothing. */
  lemma ViewsCompose(a: seq<Event>, b: seq<Event>)
    requires CutsForward(a + b) && IdsDetermine(a + b)
    ensures CompactedView(CompactedView(a) + b) == CompactedView(a + b)
  {
    if LastCompaction(a) >= 0 {
      if NoCompaction(b) {
        ViewsComposePlain(a, b);
      } else {
        ViewsComposeCut(a, b);
      }
    }
  }

  lemma ViewsComposePlain(a: seq<Event>, b: seq<Event>)
    requires CutsForward(a + b) && IdsDetermine(a + b)
    requires LastCompaction(a) >= 0 && NoCompaction(b)
    ensures CompactedView(CompactedView(a) + b) == CompactedView(a + b)
  {
    hide LastCompaction, FirstIndexOf, Without, TailFrom, CompactedView;
    var last := LastCompaction(a);
    var cut := a[last];
    CutsForwardPrefix(a, b);
    assert CutForward(a, last);
    assert (a + b)[last] == cut && CutForward(a + b, last);
    assert forall k :: 0 <= k < |a| ==> (a + b)[k] == a[k];
    forall e | e in b
      ensures e.id != cut.id && (FirstIndexOf(a, cut.fact.firstKept) < 0 ==> e.id != cut.fact.firstKept)
    {
      assert cut in a + b && e in a + b;
      var k :| 0 <= k < |b| && b[k] == e;
      assert (a + b)[|a| + k] == e;
    }
    ViewExtends(a, b);
    ViewIsStable(a, b);
  }

  lemma ViewsComposeCut(a: seq<Event>, b: seq<Event>)
    requires CutsForward(a + b) && IdsDetermine(a + b)
    requires LastCompaction(a) >= 0 && !NoCompaction(b)
    ensures CompactedView(CompactedView(a) + b) == CompactedView(a + b)
  {
    hide CutsForward, IdsDetermine, CompactedView, TailFrom;
    LastOf(b);
    var cut := b[LastCompaction(b)];
    NewerCutClears(a, b);
    SameTail(a, b, cut.fact.firstKept);
    ViewCutInBack(a, b);
    ViewCutInBack(CompactedView(a), b);
  }

  lemma LastOf(path: seq<Event>)
    requires !NoCompaction(path)
    ensures LastCompaction(path) >= 0
  {
  }

  lemma NewerCutClears(a: seq<Event>, b: seq<Event>)
    requires CutsForward(a + b) && LastCompaction(a) >= 0 && LastCompaction(b) >= 0
    ensures FirstIndexOf(a + b, b[LastCompaction(b)].fact.firstKept) > LastCompaction(a)
  {
    var q := LastCompaction(b);
    assert (a + b)[|a| + q] == b[q] && CutForward(a + b, |a| + q);
    assert (a + b)[LastCompaction(a)] == a[LastCompaction(a)];
  }

  lemma ViewCutInBack(a: seq<Event>, b: seq<Event>)
    requires LastCompaction(b) >= 0
    ensures var cut := b[LastCompaction(b)];
      CompactedView(a + b) == [cut] + Without(TailFrom(a + b, cut.fact.firstKept), cut.id)
  {
    hide LastCompaction, FirstIndexOf, Without, TailFrom;
    LastInBack(a, b);
    assert (a + b)[|a| + LastCompaction(b)] == b[LastCompaction(b)];
  }

  lemma LastInBack(a: seq<Event>, b: seq<Event>)
    requires LastCompaction(b) >= 0
    ensures LastCompaction(a + b) == |a| + LastCompaction(b)
  {
    LastCompactionIs(a + b, |a| + LastCompaction(b));
  }

  lemma SameTail(a: seq<Event>, b: seq<Event>, kept: EventId)
    requires CutsForward(a + b) && IdsDetermine(a + b)
    requires LastCompaction(a) >= 0 && FirstIndexOf(a + b, kept) > LastCompaction(a)
    ensures TailFrom(CompactedView(a) + b, kept) == TailFrom(a + b, kept)
  {
    var i := FirstIndexOf(a + b, kept);
    if i < |a| {
      IdsDetermineFront(a, b);
      CutsForwardPrefix(a, b);
      assert CutForward(a, LastCompaction(a));
      SameTailInFront(a, b, kept, i);
    } else {
      SameTailInBack(a, b, kept, i - |a|);
    }
  }

  lemma SameTailInFront(a: seq<Event>, b: seq<Event>, kept: EventId, i: nat)
    requires IdsDetermine(a) && 0 <= LastCompaction(a) < i < |a| && CutForward(a, LastCompaction(a))
    requires FirstIndexOf(a + b, kept) == i
    ensures TailFrom(CompactedView(a) + b, kept) == TailFrom(a + b, kept)
  {
    hide Without, WithoutCompactions, FirstIndexOf, LastCompaction;
    var front := KeptSurvives(a, i);
    var back := a[i..] + b;
    Regroup(a[..i], a[i..], b);
    Regroup(front, a[i..], b);
    assert a[..i] + a[i..] == a;
    assert back[0] == (a + b)[i];
    OlderThanKept(a, b, kept, i);
    TailAt(front, back, kept);
    TailAt(a[..i], back, kept);
  }

  lemma OlderThanKept(a: seq<Event>, b: seq<Event>, kept: EventId, i: nat)
    requires i <= |a| && FirstIndexOf(a + b, kept) == i
    ensures forall e :: e in a[..i] ==> e.id != kept
  {
    forall e | e in a[..i] ensures e.id != kept {
      var k :| 0 <= k < i && a[..i][k] == e;
      assert (a + b)[k] == e;
    }
  }

  lemma SameTailInBack(a: seq<Event>, b: seq<Event>, kept: EventId, j: nat)
    requires j < |b| && FirstIndexOf(a + b, kept) == |a| + j
    ensures TailFrom(CompactedView(a) + b, kept) == TailFrom(a + b, kept)
  {
    hide Without, WithoutCompactions, FirstIndexOf, LastCompaction;
    var front, back := a + b[..j], b[j..];
    assert a + b == front + back;
    assert CompactedView(a) + b == (CompactedView(a) + b[..j]) + back;
    assert back[0] == (a + b)[|a| + j];
    forall e | e in front ensures e.id != kept {
      var k :| 0 <= k < |front| && front[k] == e;
      assert (a + b)[k] == e;
    }
    forall e | e in CompactedView(a) + b[..j] ensures e.id != kept {
      if e in CompactedView(a) {
        InView(a, e);
      }
      assert e in front;
    }
    TailAt(front, back, kept);
    TailAt(CompactedView(a) + b[..j], back, kept);
  }

  lemma IdsDetermineFront(a: seq<Event>, b: seq<Event>)
    requires IdsDetermine(a + b)
    ensures IdsDetermine(a)
  {
  }

  /** Everything newer than a path's last compaction is in its view, behind older facts only. */
  lemma KeptSurvives(a: seq<Event>, i: nat) returns (front: seq<Event>)
    requires IdsDetermine(a) && 0 <= LastCompaction(a) < i <= |a|
    requires CutForward(a, LastCompaction(a))
    ensures CompactedView(a) == front + a[i..]
    ensures forall e :: e in front ==> e in a[..i]
  {
    var last := LastCompaction(a);
    var cut := a[last];
    var s := FirstIndexOf(a, cut.fact.firstKept);
    var from := if s < 0 then 0 else s;
    var middle := a[from..i];
    TailSplits(a, cut.fact.firstKept, i);
    WithoutAppend(middle, a[i..], cut.id);
    CutNotNewer(a, last, i);
    WithoutAbsent(a[i..], cut.id);
    front := [cut] + Without(middle, cut.id);
    Regroup([cut], Without(middle, cut.id), a[i..]);
    FrontIsOlder(a, from, i, last);
  }

  lemma FrontIsOlder(a: seq<Event>, from: nat, i: nat, last: nat)
    requires from <= i <= |a| && last < i
    ensures forall e :: e in [a[last]] + Without(a[from..i], a[last].id) ==> e in a[..i]
  {
    forall e | e in [a[last]] + Without(a[from..i], a[last].id) ensures e in a[..i] {
      if e == a[last] {
        assert a[..i][last] == e;
      } else {
        InWithout(a[from..i], a[last].id, e);
        InSlice(a, from, i, e);
      }
    }
  }

  lemma InSlice(a: seq<Event>, from: nat, i: nat, e: Event)
    requires from <= i <= |a| && e in a[from..i]
    ensures e in a[..i]
  {
  }

  lemma TailSplits(a: seq<Event>, kept: EventId, i: nat)
    requires FirstIndexOf(a, kept) <= i <= |a|
    ensures var s := FirstIndexOf(a, kept); TailFrom(a, kept) == a[if s < 0 then 0 else s..i] + a[i..]
  {
  }

  lemma CutNotNewer(a: seq<Event>, last: nat, i: nat)
    requires IdsDetermine(a) && last < i <= |a| && last == LastCompaction(a)
    ensures forall e :: e in a[i..] ==> e.id != a[last].id
  {
  }

  lemma {:induction false} LineageInLog(events: seq<Event>, lane: Lane)
    ensures forall e :: e in Lineage(events, lane) ==> e in events
    decreases |events|
  {
    var b := BranchOf(events, lane);
    InLaneFacts(events, lane);
    if b >= 0 {
      var i := EntryOf(events, events[b].fact.fromId);
      if 0 <= i && i + 1 < |events| {
        LineageInLog(events[..i + 1], LaneOf(events[i]));
        assert forall e :: e in events[..i + 1] ==> e in events;
      }
    }
  }

  /**
    Compacting at every level of a chain of forks, as the program does, gives the view
    that one compaction of the whole lineage gives.
   */
  lemma {:induction false} MemoryIsLineageView(events: seq<Event>, lane: Lane)
    requires Lived(events) && CutsForward(Lineage(events, lane))
    ensures Memory(events, lane) == CompactedView(Lineage(events, lane))
    decreases |events|
  {
    hide LaneFacts, CompactedView, CutsForward, IdsDetermine;
    var b := BranchOf(events, lane);
    if b >= 0 {
      var i := BehindBranch(events, lane, b);
      var older := Lineage(events[..i + 1], LaneOf(events[i]));
      CutsForwardPrefix(older, LaneFacts(events, lane));
      LivedPrefix(events, i + 1);
      MemoryIsLineageView(events[..i + 1], LaneOf(events[i]));
      LineageIdsDetermine(events, lane);
      ViewsCompose(older, LaneFacts(events, lane));
    } else {
      var none := SoleBranch(events, lane);
    }
  }

  /** One level of a chain of forks: what lies behind a lane's branch. */
  lemma BehindBranch(events: seq<Event>, lane: Lane, b: nat) returns (i: nat)
    requires Lived(events) && BranchOf(events, lane) == b
    ensures i + 1 < |events|
    ensures Lineage(events, lane) == Lineage(events[..i + 1], LaneOf(events[i])) + LaneFacts(events, lane)
    ensures Memory(events, lane) == CompactedView(Memory(events[..i + 1], LaneOf(events[i])) + LaneFacts(events, lane))
  {
    hide LaneFacts, CompactedView, Inheritance, MemoryBehind, Lived, BranchOf, EntryOf;
    InheritsFromSoleBranch(events, lane, b);
    i := EntryBehind(events, b);
    LineageBehind(events, lane, b, i);
  }

  lemma LineageBehind(events: seq<Event>, lane: Lane, b: nat, i: nat)
    requires BranchOf(events, lane) == b && i == EntryOf(events, events[b].fact.fromId) && i + 1 < |events|
    ensures Lineage(events, lane) == Lineage(events[..i + 1], LaneOf(events[i])) + LaneFacts(events, lane)
  {
  }

  /** A branch's entry, and the memory behind it. */
  lemma EntryBehind(events: seq<Event>, b: nat) returns (i: nat)
    requires Lived(events) && b < |events| && events[b].fact.ThreadBranched?
    ensures i + 1 < |events| && i == EntryOf(events, events[b].fact.fromId)
    ensures MemoryBehind(events, events[b].fact.fromId) == Memory(events[..i + 1], LaneOf(events[i]))
  {
    hide Memory, OpensFreshLane, KeepsWhatItSaw, MintedFresh;
    assert events[..|events|] == events;
    var b';
    b', i := BranchBehind(events, |events|, events[b]);
    var at := BranchEntry(events, b);
    GrownIdsSame(events, i, at);
  }

  lemma LineageIdsDetermine(events: seq<Event>, lane: Lane)
    requires Grown(events)
    ensures IdsDetermine(Lineage(events, lane))
  {
    LineageInLog(events, lane);
    forall e, f | e in Lineage(events, lane) && f in Lineage(events, lane) && e.id == f.id ensures e == f {
      SameIdSameEvent(events, e, f);
    }
  }

  // ---- what a compaction replaces ----

  predicate IsUserMessage(e: Event) {
    e.fact.MessageAppended? && e.fact.role.User?
  }

  /** Index of the last user message, or -1. */
  function LastUserMessage(view: seq<Event>): (index: int)
    ensures -1 <= index < |view|
    ensures index >= 0 ==> IsUserMessage(view[index])
    ensures forall k :: index < k < |view| ==> !IsUserMessage(view[k])
  {
    if view == [] then -1
    else if IsUserMessage(view[|view| - 1]) then |view| - 1
    else LastUserMessage(view[..|view| - 1])
  }

  /** Where a compaction of this view cuts; -1 when there is nothing to keep. */
  function CutIndex(view: seq<Event>): (index: int)
    ensures -1 <= index < |view|
  {
    if LastUserMessage(view) >= 0 then LastUserMessage(view) else |view| - 1
  }

  function CompactionCut(events: seq<Event>, thread: ThreadId): Option<EventId> {
    var view := MemoryOf(events, thread);
    if CutIndex(view) < 0 then None else Some(view[CutIndex(view)].id)
  }

  /** The last user message of this view is at `u`. */
  predicate LatestRequest(view: seq<Event>, u: nat) {
    && u < |view| && view[u].fact.MessageAppended? && view[u].fact.role == User
    && forall k :: u < k < |view| ==> !(view[k].fact.MessageAppended? && view[k].fact.role == User)
  }

  /** So it is, or there is none and `u` is the last entry. */
  ghost predicate CutsAt(view: seq<Event>, u: nat) {
    || LatestRequest(view, u)
    || (u + 1 == |view| && forall k: nat :: 0 <= k < |view| ==> !LatestRequest(view, k))
  }

  /** Compacting keeps the latest request the thread remembers, or without one its last entry. */
  lemma CutKeepsRequest(events: seq<Event>, thread: ThreadId)
    ensures MemoryOf(events, thread) == [] ==> CompactionCut(events, thread).None?
    ensures MemoryOf(events, thread) != [] ==> exists u: nat :: CutsAt(MemoryOf(events, thread), u)
    ensures forall u: nat :: CutsAt(MemoryOf(events, thread), u) ==>
      CompactionCut(events, thread) == Some(MemoryOf(events, thread)[u].id)
  {
    hide MemoryOf;
    var view := MemoryOf(events, thread);
    if view != [] {
      CutIndexCuts(view);
    }
    forall u: nat | CutsAt(view, u) ensures u == CutIndex(view) {
      CutIndexCuts(view);
    }
  }

  lemma CutIndexCuts(view: seq<Event>)
    requires view != []
    ensures CutIndex(view) >= 0 && CutsAt(view, CutIndex(view))
  {
    hide LastUserMessage;
    var u := LastUserMessage(view);
    assert u >= 0 ==> LatestRequest(view, u);
    assert u < 0 ==> forall k :: 0 <= k < |view| ==> !IsUserMessage(view[k]) && !LatestRequest(view, k);
  }

  method FindCompactionCut(events: seq<Event>, thread: ThreadId) returns (cut: Option<EventId>)
    ensures cut == CompactionCut(events, thread)
  {
    hide MemoryOf, LastUserMessage;
    var path := CollectMemory(events, thread);
    var index := |path| - 1;
    while index >= 0
      invariant -1 <= index < |path|
      invariant forall k :: index < k < |path| ==> !IsUserMessage(path[k])
    {
      if IsUserMessage(path[index]) {
        return Some(path[index].id);
      }
      index := index - 1;
    }
    cut := if path == [] then None else Some(path[|path| - 1].id);
  }

  function WithoutCompactions(facts: seq<Event>): seq<Event> {
    if facts == [] then []
    else
      var last := facts[|facts| - 1];
      WithoutCompactions(facts[..|facts| - 1]) + if last.fact.ThreadCompacted? then [] else [last]
  }

  lemma {:induction false} WithoutCompactionsAppend(a: seq<Event>, b: seq<Event>)
    ensures WithoutCompactions(a + b) == WithoutCompactions(a) + WithoutCompactions(b)
  {
    if b == [] {
      assert a + b == a;
    } else {
      var n := |b| - 1;
      assert (a + b)[..|a| + n] == a + b[..n];
      WithoutCompactionsAppend(a, b[..n]);
    }
  }

  lemma {:induction false} DroppingACut(facts: seq<Event>, id: EventId)
    requires forall e :: e in facts && e.id == id ==> e.fact.ThreadCompacted?
    ensures WithoutCompactions(Without(facts, id)) == WithoutCompactions(facts)
  {
    if facts != [] {
      var n := |facts| - 1;
      DroppingACut(facts[..n], id);
      assert facts[n] in facts;
      WithoutCompactionsAppend(Without(facts[..n], id), if facts[n].id == id then [] else [facts[n]]);
    }
  }

  lemma {:induction false} WithoutTail(facts: seq<Event>, id: EventId, u: nat) returns (x: nat)
    requires u < |Without(facts, id)|
    ensures x < |facts| && facts[x] == Without(facts, id)[u]
    ensures Without(facts, id)[u..] == Without(facts[x..], id)
  {
    var n := |facts| - 1;
    var front := Without(facts[..n], id);
    if u < |front| {
      x := WithoutTail(facts[..n], id, u);
      assert facts[x..] == facts[..n][x..] + [facts[n]];
      WithoutAppend(facts[..n][x..], [facts[n]], id);
      assert [facts[n]][..0] == [];
      assert Without([facts[n]], id) == if facts[n].id == id then [] else [facts[n]];
    } else {
      x := n;
      assert facts[n..] == [facts[n]];
      assert [facts[n]][..0] == [];
      assert Without([facts[n]], id) == [facts[n]];
    }
  }

  /** The part of a view from an entry on is the path from that entry on, less the view's own cut. */
  lemma ViewFromEntry(path: seq<Event>, u: nat) returns (x: nat)
    requires Distinct(path) && u < |CompactedView(path)|
    requires u == 0 ==> LastCompaction(path) < 0 || |CompactedView(path)| == 1
    ensures x < |path| && path[x] == CompactedView(path)[u]
    ensures WithoutCompactions(path[x..]) == WithoutCompactions(CompactedView(path)[u..])
  {
    var last := LastCompaction(path);
    if last < 0 {
      x := u;
    } else if u > 0 {
      x := ViewBehindCut(path, last, u);
    } else {
      x := last;
      ViewOfCutAlone(path, last);
    }
  }

  lemma ViewBehindCut(path: seq<Event>, last: nat, u: nat) returns (x: nat)
    requires Distinct(path) && last == LastCompaction(path) && 0 < u < |CompactedView(path)|
    ensures x < |path| && path[x] == CompactedView(path)[u]
    ensures WithoutCompactions(path[x..]) == WithoutCompactions(CompactedView(path)[u..])
  {
    hide Without, WithoutCompactions, FirstIndexOf, LastCompaction, CompactedView, Distinct;
    var cut := path[last];
    var from := ViewBehind(path, last);
    var rest := Without(path[from..], cut.id);
    var y := WithoutTail(path[from..], cut.id, u - 1);
    x := from + y;
    assert ([cut] + rest)[u..] == rest[u - 1..];
    assert path[x..] == path[from..][y..];
    OnlyCutHasItsId(path, last, x);
    DroppingACut(path[x..], cut.id);
  }

  lemma ViewBehind(path: seq<Event>, last: nat) returns (from: nat)
    requires last == LastCompaction(path)
    ensures from <= |path| && CompactedView(path) == [path[last]] + Without(path[from..], path[last].id)
  {
    hide Without, FirstIndexOf, LastCompaction;
    var s := FirstIndexOf(path, path[last].fact.firstKept);
    from := if s < 0 then 0 else s;
    assert path[0..] == path;
  }

  lemma OnlyCutHasItsId(path: seq<Event>, last: nat, x: nat)
    requires Distinct(path) && last < |path| && x <= |path| && path[last].fact.ThreadCompacted?
    ensures forall e :: e in path[x..] && e.id == path[last].id ==> e.fact.ThreadCompacted?
  {
  }

  lemma ViewOfCutAlone(path: seq<Event>, last: nat)
    requires Distinct(path) && last == LastCompaction(path) && |CompactedView(path)| == 1
    ensures CompactedView(path) == [path[last]]
    ensures WithoutCompactions(path[last..]) == WithoutCompactions(CompactedView(path)[0..])
  {
    hide Without, WithoutCompactions, FirstIndexOf, LastCompaction;
    var cut := path[last];
    var tail := TailFrom(path, cut.fact.firstKept);
    assert Without(tail, cut.id) == [];
    assert tail[|tail| - 1] == path[|path| - 1];
    InWithout(tail, cut.id, path[|path| - 1]);
    assert last == |path| - 1;
    assert path[last..] == [cut];
    assert CompactedView(path)[0..] == [cut];
  }

  /**
    What a compaction comes to: it heads the memory, and, compactions apart, behind it stand
    exactly the facts that were visible from the latest request on, then those recorded since.
   */
  ghost predicate CompactedSince(seen: seq<Event>, since: seq<Event>, written: Event, sees: seq<Event>) {
    && sees != [] && sees[0] == written
    && exists u: nat :: CutsAt(seen, u) && KeptFrom(seen, u, since, sees)
  }

  predicate KeptFrom(seen: seq<Event>, u: nat, since: seq<Event>, sees: seq<Event>) {
    && u < |seen|
    && WithoutCompactions(sees) == WithoutCompactions(seen[u..]) + WithoutCompactions(since)
  }

  /**
    So the latest request stays visible, the first after any compactions, and no older fact does
    that is no compaction itself and was not recorded since.
   */
  lemma RequestStaysVisible(seen: seq<Event>, since: seq<Event>, written: Event, sees: seq<Event>, u: nat)
    requires CompactedSince(seen, since, written, sees) && Distinct(seen)
    requires LatestRequest(seen, u)
    ensures seen[u] in sees && WithoutCompactions(sees) != [] && WithoutCompactions(sees)[0] == seen[u]
    ensures forall j :: 0 <= j < u && !seen[j].fact.ThreadCompacted? && seen[j] !in since ==> seen[j] !in sees
  {
    hide WithoutCompactions, Distinct, LatestRequest;
    var v: nat :| CutsAt(seen, v) && KeptFrom(seen, v, since, sees);
    OneLatestRequest(seen, u, v);
    FirstStays(seen, u);
    InWithoutCompactions(sees);
    InWithoutCompactions(seen[u..]);
    InWithoutCompactions(since);
    assert WithoutCompactions(sees)[0] in WithoutCompactions(sees);
    forall j | 0 <= j < u ensures seen[j] !in seen[u..] {
      NotLaterToo(seen, u, j);
    }
  }

  lemma OneLatestRequest(view: seq<Event>, u: nat, v: nat)
    requires LatestRequest(view, u) && CutsAt(view, v)
    ensures u == v
  {
  }

  lemma FirstStays(seen: seq<Event>, u: nat)
    requires LatestRequest(seen, u)
    ensures WithoutCompactions(seen[u..]) != [] && WithoutCompactions(seen[u..])[0] == seen[u]
  {
    assert seen[u..] == [seen[u]] + seen[u + 1..];
    WithoutCompactionsAppend([seen[u]], seen[u + 1..]);
    assert [seen[u]][..0] == [] && WithoutCompactions([seen[u]]) == [seen[u]];
  }

  lemma NotLaterToo(seen: seq<Event>, u: nat, j: nat)
    requires Distinct(seen) && j < u <= |seen|
    ensures seen[j] !in seen[u..]
  {
    assert forall k :: 0 <= k < |seen[u..]| ==> seen[u..][k] == seen[u + k];
  }

  lemma {:induction false} InWithoutCompactions(facts: seq<Event>)
    ensures forall e :: e in WithoutCompactions(facts) <==> e in facts && !e.fact.ThreadCompacted?
  {
    if facts != [] {
      var n := |facts| - 1;
      InWithoutCompactions(facts[..n]);
      assert facts == facts[..n] + [facts[n]];
    }
  }

  /** The compaction law for a compaction written at the cut of the log as it stood at `n`. */
  lemma CompactionReplaces(events: seq<Event>, n: nat, thread: ThreadId)
    requires Lived(events) && n < |events|
    requires var written := events[|events| - 1];
      && written.fact.ThreadCompacted? && LaneOf(written) == ThreadLane(thread)
      && CompactionCut(events[..n], thread) == Some(written.fact.firstKept)
    requires NoBranch(LaneFacts(events[n..|events| - 1], ThreadLane(thread)))
    ensures CompactedSince(MemoryOf(events[..n], thread), LaneFacts(events[n..|events| - 1], ThreadLane(thread)),
                           events[|events| - 1], MemoryOf(events, thread))
  {
    hide LaneFacts, CutIndex, RawMemory, Grown, CompactedSince, CompactedView;
    var lane := ThreadLane(thread);
    var path := RawMemory(events[..n], lane);
    var since := LaneFacts(events[n..|events| - 1], lane);
    ForkedPrefix(events, n);
    MemoryOfIsMemory(events[..n], thread);
    MemoryOfIsMemory(events, thread);
    RawAfterCompaction(events, n, lane);
    LivedPrefix(events, n);
    MemoryReachesOnce(events[..n], lane);
    WrittenIdIsNew(events, n, lane);
    PathCutReplaces(path, since, events[|events| - 1]);
  }

  /** The law for the compaction at `k` of a log, read off the log as it stood then. */
  ghost predicate LawAt(events: seq<Event>, n: nat, k: nat, thread: ThreadId)
    requires n <= k < |events|
  {
    var since := LaneFacts(events[n..k], ThreadLane(thread));
    CompactionCut(events[..n], thread).Some? && NoBranch(since) ==>
      CompactedSince(MemoryOf(events[..n], thread), since, events[k], MemoryOf(events[..k + 1], thread))
  }

  lemma LawHolds(events: seq<Event>, n: nat, k: nat, thread: ThreadId)
    requires Lived(events) && n <= k < |events| && events[k].fact.ThreadCompacted? && events[k].fact.thread == thread
    requires CompactionCut(events[..n], thread).Some?
        ==> CompactionCut(events[..n], thread).value == events[k].fact.firstKept
    ensures LawAt(events, n, k, thread)
  {
    hide Lived, CompactionCut, MemoryOf, LaneFacts, NoBranch, CompactedSince;
    var upTo := events[..k + 1];
    LivedPrefix(events, k + 1);
    assert upTo[..n] == events[..n] && upTo[n..k] == events[n..k] && upTo[k] == events[k];
    if CompactionCut(events[..n], thread).Some? && NoBranch(LaneFacts(events[n..k], ThreadLane(thread))) {
      CompactionReplaces(upTo, n, thread);
    }
  }

  lemma LawStays(events: seq<Event>, more: seq<Event>, n: nat, k: nat, thread: ThreadId)
    requires n <= k < |events| && LawAt(events, n, k, thread)
    ensures LawAt(events + more, n, k, thread)
  {
    var all := events + more;
    assert all[..n] == events[..n] && all[n..k] == events[n..k] && all[..k + 1] == events[..k + 1];
  }

  lemma WrittenIdIsNew(events: seq<Event>, n: nat, lane: Lane)
    requires ForkedFromKnown(events) && n < |events|
    ensures forall e :: e in RawMemory(events[..n], lane) + LaneFacts(events[n..|events| - 1], lane) ==>
              e.id != events[|events| - 1].id
  {
    hide RawMemory, LaneFacts, Grown;
    var end := |events| - 1;
    ForkedPrefix(events, n);
    forall e | e in RawMemory(events[..n], lane) ensures e.id != events[end].id {
      MemoryOnLineage(events[..n], lane, e);
      LastIdIsNew(events, 0, n, e);
    }
    InLaneFacts(events[n..end], lane);
    forall e | e in LaneFacts(events[n..end], lane) ensures e.id != events[end].id {
      LastIdIsNew(events, n, end, e);
    }
  }

  lemma LastIdIsNew(events: seq<Event>, from: nat, n: nat, e: Event)
    requires Grown(events) && from <= n < |events| && e in events[from..n]
    ensures e.id != events[|events| - 1].id
  {
    var k :| 0 <= k < n - from && events[from..n][k] == e;
    GrownIdsDiffer(events, from + k, |events| - 1);
  }

  /** The compaction law on one path. */
  lemma PathCutReplaces(path: seq<Event>, since: seq<Event>, written: Event)
    requires Distinct(path) && CutIndex(CompactedView(path)) >= 0
    requires written.fact.ThreadCompacted?
    requires written.fact.firstKept == CompactedView(path)[CutIndex(CompactedView(path))].id
    requires forall e :: e in path + since ==> e.id != written.id
    ensures CompactedSince(CompactedView(path), since, written, CompactedView(path + since + [written]))
  {
    hide Without, WithoutCompactions, FirstIndexOf, LastCompaction, TailFrom, CompactedView, Distinct, CutIndex, CutsAt;
    var u := CutIndex(CompactedView(path));
    CutIndexCuts(CompactedView(path));
    CompactionIsNoCut(path);
    var x := ViewFromEntry(path, u);
    TailAtKept(path, x, since, written);
    LastCompactionIs(path + since + [written], |path| + |since|);
    ViewIsCut(path + since + [written], |path| + |since|);
    InTail(path, x);
    NewViewFacts(path[x..], since, written);
  }

  /** A view's own compaction is kept only when nothing else is visible. */
  lemma CompactionIsNoCut(path: seq<Event>)
    ensures CutIndex(CompactedView(path)) == 0 ==> LastCompaction(path) < 0 || |CompactedView(path)| == 1
  {
  }

  lemma TailAtKept(path: seq<Event>, x: nat, since: seq<Event>, written: Event)
    requires Distinct(path) && x < |path| && written.fact.ThreadCompacted? && written.fact.firstKept == path[x].id
    ensures TailFrom(path + since + [written], written.fact.firstKept) == path[x..] + since + [written]
  {
    hide FirstIndexOf, TailFrom;
    var behind := since + [written];
    Regroup(path, since, [written]);
    Regroup(path[x..], since, [written]);
    Regroup(path[..x], path[x..], behind);
    assert path[..x] + path[x..] == path;
    assert forall e :: e in path[..x] ==> e.id != path[x].id;
    assert (path[x..] + behind)[0] == path[x];
    TailAt(path[..x], path[x..] + behind, path[x].id);
  }

  lemma ViewIsCut(path: seq<Event>, last: nat)
    requires last == LastCompaction(path)
    ensures CompactedView(path) == [path[last]] + Without(TailFrom(path, path[last].fact.firstKept), path[last].id)
  {
  }

  lemma InTail(path: seq<Event>, x: nat)
    requires x <= |path|
    ensures forall e :: e in path[x..] ==> e in path
  {
  }

  lemma RawAfterCompaction(events: seq<Event>, n: nat, lane: Lane)
    requires ForkedFromKnown(events) && n < |events|
    requires var written := events[|events| - 1]; written.fact.ThreadCompacted? && LaneOf(written) == lane
    requires NoBranch(LaneFacts(events[n..|events| - 1], lane))
    ensures RawMemory(events, lane)
         == RawMemory(events[..n], lane) + LaneFacts(events[n..|events| - 1], lane) + [events[|events| - 1]]
  {
    var end := |events| - 1;
    assert events[n..][..end - n] == events[n..end];
    assert LaneFacts(events[n..], lane) == LaneFacts(events[n..end], lane) + [events[end]];
    RawMemoryGrows(events, n, lane);
  }

  lemma NewViewFacts(kept: seq<Event>, since: seq<Event>, written: Event)
    requires written.fact.ThreadCompacted?
    requires forall e :: e in kept + since && e.id == written.id ==> e.fact.ThreadCompacted?
    ensures WithoutCompactions([written] + Without(kept + since + [written], written.id))
         == WithoutCompactions(kept) + WithoutCompactions(since)
  {
    var rest := Without(kept + since + [written], written.id);
    WithoutCompactionsAppend([written], rest);
    assert [written][..0] == [];
    assert WithoutCompactions([written]) == [];
    assert forall e :: e in kept + since + [written] ==> e in kept + since || e == written;
    DroppingACut(kept + since + [written], written.id);
    WithoutCompactionsAppend(kept + since, [written]);
    WithoutCompactionsAppend(kept, since);
  }
}
