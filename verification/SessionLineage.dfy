/**
  Sessions as the runtime writes them: every fork opens a lane nobody continues yet, and
  every compaction keeps an entry of its own thread's memory.  On these logs a fork sees
  its source, nested cuts compose, and a compaction replaces what it summarises.
 */
module SessionLineage {
  import opened Primitives
  import opened SessionEvents
  import opened SessionLogs
  import opened SessionTree
  import opened SessionMemory
  import opened SessionForks

  /** The lane that the branch at `k` continues. */
  function BranchLane(events: seq<Event>, k: nat): Option<Lane>
    requires k < |events|
  {
    if !events[k].fact.ThreadBranched? then None
    else
      var i := EntryOf(events[..k], events[k].fact.fromId);
      if i < 0 then None else Some(LaneOf(events[i]))
  }

  /** A branch is its lane's first, and neither it nor an earlier one continues that lane. */
  predicate OpensFreshLane(events: seq<Event>, k: nat)
    requires k < |events|
  {
    events[k].fact.ThreadBranched? ==>
      && (forall j :: 0 <= j < k && LaneOf(events[j]) == LaneOf(events[k]) ==> !events[j].fact.ThreadBranched?)
      && (forall j :: 0 <= j <= k ==> BranchLane(events, j) != Some(LaneOf(events[k])))
  }

  /** A compaction keeps an entry of its thread's memory, or an id no entry carries. */
  predicate KeepsWhatItSaw(events: seq<Event>, k: nat)
    requires k < |events|
  {
    events[k].fact.ThreadCompacted? ==>
      || FirstIndexOf(RawMemory(events[..k], LaneOf(events[k])), events[k].fact.firstKept) >= 0
      || FreshId(events[..k], events[k].fact.firstKept)
  }

  /** A new id is not one an earlier compaction already named. */
  predicate MintedFresh(events: seq<Event>, k: nat)
    requires k < |events|
  {
    forall j :: 0 <= j < k && events[j].fact.ThreadCompacted? ==> events[j].fact.firstKept != events[k].id
  }

  predicate Lived(events: seq<Event>) {
    && ForkedFromKnown(events)
    && forall k :: 0 <= k < |events| ==>
         OpensFreshLane(events, k) && KeepsWhatItSaw(events, k) && MintedFresh(events, k)
  }

  lemma BranchLanePrefix(events: seq<Event>, n: nat, k: nat)
    requires k < n <= |events|
    ensures BranchLane(events[..n], k) == BranchLane(events, k)
  {
  }

  lemma LivedPrefix(events: seq<Event>, n: nat)
    requires Lived(events) && n <= |events|
    ensures Lived(events[..n])
  {
    ForkedPrefix(events, n);
    forall k | 0 <= k < n
      ensures OpensFreshLane(events[..n], k) && KeepsWhatItSaw(events[..n], k) && MintedFresh(events[..n], k)
    {
      assert OpensFreshLane(events, k) && KeepsWhatItSaw(events, k) && MintedFresh(events, k);
      assert events[..n][..k] == events[..k];
      forall j | 0 <= j <= k ensures BranchLane(events[..n], j) == BranchLane(events, j) {
        BranchLanePrefix(events, n, j);
      }
    }
  }

  // ---- which lanes a memory reaches ----

  ghost predicate Continued(events: seq<Event>, lane: Lane) {
    exists b :: 0 <= b < |events| && BranchLane(events, b) == Some(lane)
  }

  ghost predicate OnLineage(events: seq<Event>, lane: Lane, e: Event) {
    e in events && (LaneOf(e) == lane || Continued(events, LaneOf(e)))
  }

  lemma LineageGrows(events: seq<Event>, n: nat, lane: Lane, e: Event)
    requires n <= |events| && OnLineage(events[..n], lane, e)
    ensures OnLineage(events, lane, e)
  {
    if LaneOf(e) != lane {
      var b :| 0 <= b < n && BranchLane(events[..n], b) == Some(LaneOf(e));
      BranchLanePrefix(events, n, b);
    }
  }

  lemma InView(path: seq<Event>, e: Event)
    requires e in CompactedView(path)
    ensures e in path
  {
    var last := LastCompaction(path);
    if last >= 0 && e != path[last] {
      var tail := TailFrom(path, path[last].fact.firstKept);
      assert e in CompactedView(path)[1..];
      InWithout(tail, path[last].id, e);
    }
  }

  /** Memory only holds facts of the lane itself and of lanes some branch continues. */
  lemma {:induction false} MemoryOnLineage(events: seq<Event>, lane: Lane, e: Event)
    requires ForkedFromKnown(events) && e in RawMemory(events, lane)
    ensures OnLineage(events, lane, e)
    decreases |events|, |events| + 1
  {
    InLaneFacts(events, lane);
    if e !in LaneFacts(events, lane) {
      InheritanceOnLineage(events, lane, LaneFacts(events, lane), e);
    }
  }

  lemma {:induction false} InheritanceOnLineage(events: seq<Event>, lane: Lane, chain: seq<Event>, e: Event)
    requires ForkedFromKnown(events) && |chain| <= |events|
    requires forall f :: f in chain ==> f in events
    requires e in Inheritance(events, chain)
    ensures OnLineage(events, lane, e)
    decreases |events|, |chain|
  {
    var last := chain[|chain| - 1];
    if e in Inheritance(events, chain[..|chain| - 1]) {
      InheritanceOnLineage(events, lane, chain[..|chain| - 1], e);
    } else {
      assert events[..|events|] == events;
      var b, i := BranchBehind(events, |events|, last);
      InView(RawMemory(events[..i + 1], LaneOf(events[i])), e);
      ForkedPrefix(events, i + 1);
      MemoryOnLineage(events[..i + 1], LaneOf(events[i]), e);
      var at := BranchEntry(events, b);
      GrownIdsSame(events, i, at);
      assert BranchLane(events, b) == Some(LaneOf(events[i]));
      LineageGrows(events, i + 1, LaneOf(events[i]), e);
    }
  }

  lemma GrownIdsSame(events: seq<Event>, i: nat, j: nat)
    requires Grown(events) && i < |events| && j < |events| && events[i].id == events[j].id
    ensures i == j
  {
    if i < j {
      GrownIdsDiffer(events, i, j);
    } else if j < i {
      GrownIdsDiffer(events, j, i);
    }
  }

  lemma SameIdSameEvent(events: seq<Event>, e: Event, f: Event)
    requires Grown(events) && e in events && f in events && e.id == f.id
    ensures e == f
  {
    var i :| 0 <= i < |events| && events[i] == e;
    var j :| 0 <= j < |events| && events[j] == f;
    GrownIdsSame(events, i, j);
  }

  // ---- a lane continues at most one other ----

  /** Index of a lane's branch, or -1. */
  lemma SoleBranch(events: seq<Event>, lane: Lane) returns (b: int)
    requires Lived(events)
    ensures -1 <= b < |events|
    ensures b < 0 ==> RawMemory(events, lane) == LaneFacts(events, lane)
    ensures b >= 0 ==>
      && events[b].fact.ThreadBranched? && LaneOf(events[b]) == lane
      && RawMemory(events, lane) == MemoryBehind(events, events[b].fact.fromId) + LaneFacts(events, lane)
  {
    if k :| 0 <= k < |events| && events[k].fact.ThreadBranched? && LaneOf(events[k]) == lane {
      b := k;
      InheritsFromSoleBranch(events, lane, b);
    } else {
      b := -1;
      var facts := LaneFacts(events, lane);
      InLaneFacts(events, lane);
      assert [] + facts == facts;
      InheritanceSkips(events, [], facts);
    }
  }

  lemma InheritsFromSoleBranch(events: seq<Event>, lane: Lane, b: nat)
    requires Lived(events) && b < |events|
    requires events[b].fact.ThreadBranched? && LaneOf(events[b]) == lane
    ensures Inheritance(events, LaneFacts(events, lane)) == MemoryBehind(events, events[b].fact.fromId)
  {
    hide LaneFacts;
    var before, after := LaneFacts(events[..b], lane), LaneFacts(events[b + 1..], lane);
    SplitsAtBranch(events, lane, b);
    InLaneFacts(events[..b], lane);
    InLaneFacts(events[b + 1..], lane);
    assert OpensFreshLane(events, b);
    forall e | e in before ensures !e.fact.ThreadBranched? {
      var j :| 0 <= j < b && events[..b][j] == e;
      assert events[j] == e;
    }
    forall e | e in after ensures !e.fact.ThreadBranched? {
      var j :| 0 <= j < |events[b + 1..]| && events[b + 1..][j] == e;
      assert events[b + 1 + j] == e;
      assert OpensFreshLane(events, b + 1 + j);
    }
    InheritanceSkips(events, before + [events[b]], after);
    assert (before + [events[b]])[..|before|] == before;
    assert [] + before == before;
    InheritanceSkips(events, [], before);
  }

  lemma SplitsAtBranch(events: seq<Event>, lane: Lane, b: nat)
    requires b < |events| && LaneOf(events[b]) == lane
    ensures LaneFacts(events, lane) == LaneFacts(events[..b], lane) + [events[b]] + LaneFacts(events[b + 1..], lane)
  {
    assert events == events[..b + 1] + events[b + 1..];
    LaneFactsAppend(events[..b + 1], events[b + 1..], lane);
    LaneFactsOfEntry(events, b);
  }

  // ---- a memory reaches each fact once ----

  lemma {:induction false} DistinctAppend(a: seq<Event>, b: seq<Event>)
    requires Distinct(a) && Distinct(b)
    requires forall e, f :: e in a && f in b ==> e.id != f.id
    ensures Distinct(a + b)
  {
  }

  lemma {:induction false} DistinctWithout(path: seq<Event>, id: EventId)
    requires Distinct(path)
    ensures Distinct(Without(path, id))
  {
    if path != [] {
      var n := |path| - 1;
      DistinctWithout(path[..n], id);
      forall e | e in Without(path[..n], id) ensures e.id != path[n].id {
        InWithout(path[..n], id, e);
      }
      if path[n].id != id {
        DistinctAppend(Without(path[..n], id), [path[n]]);
      }
    }
  }

  lemma DistinctView(path: seq<Event>)
    requires Distinct(path)
    ensures Distinct(CompactedView(path))
  {
    var last := LastCompaction(path);
    if last >= 0 {
      var tail := TailFrom(path, path[last].fact.firstKept);
      DistinctWithout(tail, path[last].id);
      forall f | f in Without(tail, path[last].id) ensures f.id != path[last].id {
        InWithout(tail, path[last].id, f);
      }
      DistinctAppend([path[last]], Without(tail, path[last].id));
    }
  }

  lemma {:induction false} LaneFactsDistinct(events: seq<Event>, lane: Lane)
    requires Grown(events)
    ensures Distinct(LaneFacts(events, lane))
  {
    if events != [] {
      var n := |events| - 1;
      GrownPrefix(events, n);
      LaneFactsDistinct(events[..n], lane);
      InLaneFacts(events[..n], lane);
      if LaneOf(events[n]) == lane {
        assert StampedAt(events, n);
        DistinctAppend(LaneFacts(events[..n], lane), [events[n]]);
      }
    }
  }

  /** No fact is inherited twice, however long the chain of forks. */
  lemma {:induction false} MemoryReachesOnce(events: seq<Event>, lane: Lane)
    requires Lived(events)
    ensures Distinct(RawMemory(events, lane)) && Distinct(Memory(events, lane))
    decreases |events|
  {
    var b := SoleBranch(events, lane);
    LaneFactsDistinct(events, lane);
    if b >= 0 {
      assert events[..|events|] == events;
      var b', i := BranchBehind(events, |events|, events[b]);
      LivedPrefix(events, i + 1);
      MemoryReachesOnce(events[..i + 1], LaneOf(events[i]));
      InLaneFacts(events, lane);
      forall e, f | e in Memory(events[..i + 1], LaneOf(events[i])) && f in LaneFacts(events, lane)
        ensures e.id != f.id
      {
        SourceLacksFork(events, b, e);
        if e.id == f.id {
          SameIdSameEvent(events, e, f);
        }
      }
      DistinctAppend(Memory(events[..i + 1], LaneOf(events[i])), LaneFacts(events, lane));
    }
    DistinctView(RawMemory(events, lane));
  }

  /** What a fork inherits holds no fact of the fork's own lane. */
  lemma SourceLacksFork(events: seq<Event>, b: nat, e: Event)
    requires Lived(events) && b < |events| && events[b].fact.ThreadBranched?
    requires e in MemoryBehind(events, events[b].fact.fromId)
    ensures e in events && LaneOf(e) != LaneOf(events[b])
  {
    var i := BranchEntry(events, b);
    InView(RawMemory(events[..i + 1], LaneOf(events[i])), e);
    ForkedPrefix(events, i + 1);
    RawMemoryMissesFreshLane(events, i + 1, LaneOf(events[i]), b, e);
  }

  lemma RawMemoryMissesFreshLane(events: seq<Event>, n: nat, source: Lane, b: nat, e: Event)
    requires Lived(events) && n <= b < |events| && events[b].fact.ThreadBranched?
    requires BranchLane(events, b) == Some(source)
    requires e in RawMemory(events[..n], source)
    ensures e in events && LaneOf(e) != LaneOf(events[b])
  {
    ForkedPrefix(events, n);
    MemoryOnLineage(events[..n], source, e);
    LineageMissesFreshLane(events, n, source, b, e);
  }

  lemma LineageMissesFreshLane(events: seq<Event>, n: nat, source: Lane, b: nat, e: Event)
    requires Lived(events) && n <= b < |events| && events[b].fact.ThreadBranched?
    requires BranchLane(events, b) == Some(source)
    requires OnLineage(events[..n], source, e)
    ensures LaneOf(e) != LaneOf(events[b])
  {
    assert OpensFreshLane(events, b);
    if LaneOf(e) != source {
      var c :| 0 <= c < n && BranchLane(events[..n], c) == Some(LaneOf(e));
      BranchLanePrefix(events, n, c);
    }
  }

  lemma LineageComposes(events: seq<Event>, k: nat, source: Lane, cut: Event, e: Event)
    requires k <= |events| && OnLineage(events, source, cut) && OnLineage(events[..k], LaneOf(cut), e)
    ensures OnLineage(events, source, e)
  {
    LineageGrows(events, k, LaneOf(cut), e);
  }

  // ---- forks see their source ----

  ghost predicate ForkOf(events: seq<Event>, n: nat, source: Lane, target: Lane, b: nat) {
    && n <= b < |events|
    && LaneOf(events[b]) == target && events[b].fact.ThreadBranched?
    && LeafOf(events[..n], source) == Some(events[b].fact.fromId)
  }

  /**
    The fork recorded at `b` was opened from the log as it stood at `n`.  However the log
    has grown since, the fork sees the source's memory at that moment and its own facts.
   */
  lemma ForkInheritsSource(events: seq<Event>, n: nat, source: Lane, target: Lane, b: nat)
    requires Lived(events) && ForkOf(events, n, source, target, b)
    ensures RawMemory(events, target) == Memory(events[..n], source) + LaneFacts(events, target)
    ensures BranchLane(events, b) == Some(source)
  {
    InheritsFromSoleBranch(events, target, b);
    ForkReachesLeaf(events, n, source, target, b);
  }

  lemma ForkReachesLeaf(events: seq<Event>, n: nat, source: Lane, target: Lane, b: nat)
    requires ForkedFromKnown(events) && ForkOf(events, n, source, target, b)
    ensures MemoryBehind(events, events[b].fact.fromId) == Memory(events[..n], source)
    ensures BranchLane(events, b) == Some(source)
  {
    hide LaneFacts, RawMemory, Memory, Inheritance;
    var leaf := MemoryAtLeaf(events, n, source);
    var i := BranchEntry(events, b);
    GrownIdsSame(events, i, leaf);
    assert events[..|events|] == events;
    var b', i' := BranchBehind(events, |events|, events[b]);
    GrownIdsSame(events, i', leaf);
    assert events[..b][i] == events[i];
  }

  /** A lane's memory is settled by its leaf: what other lanes wrote since does not matter. */
  lemma MemoryAtLeaf(events: seq<Event>, n: nat, lane: Lane) returns (leaf: nat)
    requires ForkedFromKnown(events) && n <= |events| && LeafOf(events[..n], lane).Some?
    ensures leaf < n && LaneOf(events[leaf]) == lane && LeafOf(events[..n], lane) == Some(events[leaf].id)
    ensures Memory(events[..n], lane) == Memory(events[..leaf + 1], lane)
  {
    leaf := LeafIsNearest(events[..n], lane);
    ForkedPrefix(events, n);
    var since := events[..n][leaf + 1..];
    assert forall j :: 0 <= j < |since| ==> since[j] == events[..n][leaf + 1 + j];
    NothingOfLane(since, lane);
    RawMemoryGrows(events[..n], leaf + 1, lane);
    assert events[..n][..leaf + 1] == events[..leaf + 1];
    assert RawMemory(events[..n], lane) == RawMemory(events[..leaf + 1], lane);
  }

  lemma {:induction false} NothingOfLane(events: seq<Event>, lane: Lane)
    requires forall j :: 0 <= j < |events| ==> LaneOf(events[j]) != lane
    ensures LaneFacts(events, lane) == []
  {
    if events != [] {
      NothingOfLane(events[..|events| - 1], lane);
    }
  }

  /** A fork's own facts are neither the source's last cut nor the entry that cut keeps. */
  lemma ForkWritesAfter(events: seq<Event>, n: nat, source: Lane, target: Lane, b: nat)
    requires Lived(events) && ForkOf(events, n, source, target, b)
    requires NoCompaction(LaneFacts(events, target))
    ensures WrittenAfter(RawMemory(events[..n], source), LaneFacts(events, target))
  {
    var path := RawMemory(events[..n], source);
    var last := LastCompaction(path);
    if last >= 0 {
      var cut := path[last];
      ForkInheritsSource(events, n, source, target, b);
      ForkedPrefix(events, n);
      MemoryOnLineage(events[..n], source, cut);
      var k :| 0 <= k < n && events[..n][k] == cut;
      InLaneFacts(events, target);
      forall e | e in LaneFacts(events, target)
        ensures e.id != cut.id && e.id != cut.fact.firstKept
      {
        if e.id == cut.id {
          SameIdSameEvent(events, e, cut);
        }
        if e.id == cut.fact.firstKept {
          CutKeepsLineage(events, n, source, b, k, e);
        }
      }
    }
  }

  lemma CutKeepsLineage(events: seq<Event>, n: nat, source: Lane, b: nat, k: nat, e: Event)
    requires Lived(events) && k < n <= b < |events| && events[b].fact.ThreadBranched?
    requires BranchLane(events, b) == Some(source)
    requires events[k].fact.ThreadCompacted? && OnLineage(events[..n], source, events[k])
    requires e in events && e.id == events[k].fact.firstKept && LaneOf(e) == LaneOf(events[b])
    ensures e == events[k]
  {
    var j :| 0 <= j < |events| && events[j] == e;
    assert KeepsWhatItSaw(events, k);
    if FreshId(events[..k], e.id) {
      assert forall m :: 0 <= m < k ==> events[..k][m] == events[m];
      assert j >= k;
      assert MintedFresh(events, j);
    } else {
      var memory := RawMemory(events[..k], LaneOf(events[k]));
      var f := memory[FirstIndexOf(memory, e.id)];
      ForkedPrefix(events, k);
      MemoryOnLineage(events[..k], LaneOf(events[k]), f);
      SameIdSameEvent(events, e, f);
      assert events[..n][..k] == events[..k];
      LineageComposes(events[..n], k, source, events[k], e);
      LineageMissesFreshLane(events, n, source, b, e);
    }
  }

  /**
    Fork fidelity, exactly: a fork that has not compacted sees the source's visible memory
    followed by its own lane if and only if the source's last cut cleared its memory.
   */
  lemma ForkSeesSource(events: seq<Event>, n: nat, source: ThreadId, target: ThreadId, b: nat)
    requires Lived(events) && ForkOf(events, n, ThreadLane(source), ThreadLane(target), b)
    requires NoCompaction(LaneFacts(events, ThreadLane(target)))
    ensures MemoryOf(events, target) == MemoryOf(events[..n], source) + LaneFacts(events, ThreadLane(target))
       <==> LastCutClears(RawMemory(events[..n], ThreadLane(source)))
  {
    var path := RawMemory(events[..n], ThreadLane(source));
    var own := LaneFacts(events, ThreadLane(target));
    ForkInheritsSource(events, n, ThreadLane(source), ThreadLane(target), b);
    ForkedPrefix(events, n);
    MemoryOfIsMemory(events, target);
    MemoryOfIsMemory(events[..n], source);
    ForkWritesAfter(events, n, ThreadLane(source), ThreadLane(target), b);
    ViewIsStable(path, own);
  }
}
