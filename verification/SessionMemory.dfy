/**
  What a thread's model reads: its own lane, the lanes it continues through
  `ThreadBranched`, and the cut that the latest compaction makes in them.
 */
module SessionMemory {
  import opened Primitives
  import opened SessionEvents
  import opened SessionLogs
  import opened SessionTree

  // ---- the compacted view ----

  /** Index of the last compaction, or -1. */
  function LastCompaction(path: seq<Event>): (index: int)
    ensures -1 <= index < |path|
    ensures index >= 0 ==> path[index].fact.ThreadCompacted?
    ensures forall k :: index < k < |path| ==> !path[k].fact.ThreadCompacted?
  {
    if path == [] then -1
    else if path[|path| - 1].fact.ThreadCompacted? then |path| - 1
    else LastCompaction(path[..|path| - 1])
  }

  /** Index of the first entry with this id, or -1. */
  function FirstIndexOf(path: seq<Event>, id: EventId): (index: int)
    ensures -1 <= index < |path|
    ensures index >= 0 ==> path[index].id == id
    ensures forall k :: 0 <= k < (if index < 0 then |path| else index) ==> path[k].id != id
  {
    if path == [] then -1
    else if path[0].id == id then 0
    else
      var rest := FirstIndexOf(path[1..], id);
      if rest < 0 then -1 else rest + 1
  }

  function Without(path: seq<Event>, id: EventId): seq<Event> {
    if path == [] then []
    else Without(path[..|path| - 1], id) + if path[|path| - 1].id == id then [] else [path[|path| - 1]]
  }

  function TailFrom(path: seq<Event>, kept: EventId): seq<Event> {
    var index := FirstIndexOf(path, kept);
    if index < 0 then path else path[index..]
  }

  function CompactedView(path: seq<Event>): seq<Event> {
    var last := LastCompaction(path);
    if last < 0 then path
    else [path[last]] + Without(TailFrom(path, path[last].fact.firstKept), path[last].id)
  }

  method ViewCompacted(path: seq<Event>) returns (view: seq<Event>)
    ensures view == CompactedView(path)
  {
    var index := |path| - 1;
    while index >= 0 && !path[index].fact.ThreadCompacted?
      invariant -1 <= index < |path|
      invariant forall k :: index < k < |path| ==> !path[k].fact.ThreadCompacted?
    {
      index := index - 1;
    }
    assert index == LastCompaction(path);
    if index < 0 {
      return path;
    }
    var compacted := path[index];
    var kept := FirstIndexOf(path, compacted.fact.firstKept);
    var tail := if kept == -1 then path else path[kept..];
    view := [compacted] + Without(tail, compacted.id);
  }

  // ---- what a view shows, entry by entry ----

  /** `at` picks, in order, exactly the entries of the path from `from` on that do not have this id. */
  ghost predicate Picks(path: seq<Event>, from: nat, id: EventId, shown: seq<Event>, at: seq<nat>) {
    && |at| == |shown|
    && (forall i :: 0 <= i < |at| ==> from <= at[i] < |path| && shown[i] == path[at[i]] && path[at[i]].id != id)
    && (forall i, j :: 0 <= i < j < |at| ==> at[i] < at[j])
    && (forall k: nat :: from <= k < |path| && path[k].id != id ==> k in at)
  }

  lemma {:induction false} WithoutPicks(path: seq<Event>, from: nat, id: EventId) returns (at: seq<nat>)
    requires from <= |path|
    ensures Picks(path, from, id, Without(path[from..], id), at)
    decreases |path| - from
  {
    hide Picks, Without;
    at := [];
    if from < |path| {
      var n := |path| - 1;
      var before := WithoutPicks(path[..n], from, id);
      WithoutLast(path, from, id);
      PicksOneMore(path, from, id, Without(path[..n][from..], id), before);
      at := if path[n].id == id then before else before + [n];
    } else {
      NothingPicked(path, id);
    }
  }

  lemma NothingPicked(path: seq<Event>, id: EventId)
    ensures Picks(path, |path|, id, Without(path[|path|..], id), [])
  {
  }

  lemma WithoutLast(path: seq<Event>, from: nat, id: EventId)
    requires from < |path|
    ensures var n := |path| - 1;
      Without(path[from..], id) == Without(path[..n][from..], id) + if path[n].id == id then [] else [path[n]]
  {
    assert path[from..][..|path| - 1 - from] == path[..|path| - 1][from..];
  }

  lemma PicksOneMore(path: seq<Event>, from: nat, id: EventId, shown: seq<Event>, at: seq<nat>)
    requires from < |path| && Picks(path[..|path| - 1], from, id, shown, at)
    ensures path[|path| - 1].id == id ==> Picks(path, from, id, shown + [], at)
    ensures path[|path| - 1].id != id ==> Picks(path, from, id, shown + [path[|path| - 1]], at + [|path| - 1])
  {
    var n := |path| - 1;
    assert forall k: nat :: k < n ==> path[..n][k] == path[k];
    assert shown + [] == shown;
    assert (at + [n])[|at|] == n && forall k :: k in at ==> k in at + [n];
  }

  /**
    A view with a compaction shows the last one first, and then, in order, everything from the
    entry it keeps on but itself; all of the path when no entry has the id it keeps.
   */
  lemma ViewMeaning(path: seq<Event>, last: nat, from: nat) returns (at: seq<nat>)
    requires last < |path| && path[last].fact.ThreadCompacted?
    requires forall k :: last < k < |path| ==> !path[k].fact.ThreadCompacted?
    requires from < |path|
    requires (path[from].id == path[last].fact.firstKept && forall k :: 0 <= k < from ==> path[k].id != path[from].id)
          || (from == 0 && forall k :: 0 <= k < |path| ==> path[k].id != path[last].fact.firstKept)
    ensures CompactedView(path) != [] && CompactedView(path)[0] == path[last]
    ensures Picks(path, from, path[last].id, CompactedView(path)[1..], at)
  {
    assert LastCompaction(path) == last;
    assert TailFrom(path, path[last].fact.firstKept) == path[from..];
    at := WithoutPicks(path, from, path[last].id);
  }

  // ---- memory as the program computes it ----

  /**
    The facts behind `fromId`: what the lanes it branched from left visible, then
    the path to it.  `seen` stops a cycle of branches.
   */
  function AncestorsOf(byId: map<EventId, Event>, fromId: EventId, seen: set<EventId>): seq<Event>
    decreases |byId.Keys - seen|, 1
  {
    if fromId in seen then []
    else
      var chain := Walk(byId, Some(fromId), {});
      SeenShrinks(byId, fromId, seen);
      CompactedView(InheritedBy(byId, chain, seen + {fromId}) + chain)
  }

  function InheritedBy(byId: map<EventId, Event>, chain: seq<Event>, seen: set<EventId>): seq<Event>
    decreases |byId.Keys - seen|, 2 * |chain|
  {
    if chain == [] then []
    else
      var last := chain[|chain| - 1];
      InheritedBy(byId, chain[..|chain| - 1], seen)
      + if last.fact.ThreadBranched? then AncestorsOf(byId, last.fact.fromId, seen) else []
  }

  lemma SeenShrinks(byId: map<EventId, Event>, fromId: EventId, seen: set<EventId>)
    requires fromId !in seen
    ensures fromId in byId ==> |byId.Keys - (seen + {fromId})| < |byId.Keys - seen|
    ensures fromId !in byId ==>
      |byId.Keys - (seen + {fromId})| == |byId.Keys - seen| && Walk(byId, Some(fromId), {}) == []
  {
    if fromId in byId {
      SeenGrows(byId.Keys, seen, fromId);
    } else {
      assert byId.Keys - (seen + {fromId}) == byId.Keys - seen;
    }
  }

  method CollectAncestors(byId: map<EventId, Event>, fromId: EventId, seen: set<EventId>)
    returns (visible: seq<Event>)
    ensures visible == AncestorsOf(byId, fromId, seen)
    decreases |byId.Keys - seen|
  {
    if fromId in seen {
      return [];
    }
    SeenShrinks(byId, fromId, seen);
    var next := seen + {fromId};
    var chain := PathIn(byId, fromId);
    var inherited := [];
    for k := 0 to |chain|
      invariant inherited == InheritedBy(byId, chain[..k], next)
    {
      assert chain[..k + 1][..k] == chain[..k];
      if chain[k].fact.ThreadBranched? {
        var more := CollectAncestors(byId, chain[k].fact.fromId, next);
        inherited := inherited + more;
      }
    }
    assert chain[..|chain|] == chain;
    visible := ViewCompacted(inherited + chain);
  }

  function MemoryOf(events: seq<Event>, thread: ThreadId): seq<Event> {
    var path := PathOfLane(events, ThreadLane(thread));
    CompactedView(InheritedBy(ById(events), path, {}) + path)
  }

  method CollectMemory(events: seq<Event>, thread: ThreadId) returns (visible: seq<Event>)
    ensures visible == MemoryOf(events, thread)
  {
    var byId := ById(events);
    var leaf := FindLeaf(events, ThreadLane(thread));
    var path := [];
    if leaf.Some? {
      path := PathIn(byId, leaf.value);
    }
    var inherited := [];
    for k := 0 to |path|
      invariant inherited == InheritedBy(byId, path[..k], {})
    {
      assert path[..k + 1][..k] == path[..k];
      if path[k].fact.ThreadBranched? {
        var more := CollectAncestors(byId, path[k].fact.fromId, {});
        inherited := inherited + more;
      }
    }
    assert path[..|path|] == path;
    visible := ViewCompacted(inherited + path);
  }

  // ---- memory as the log means it ----

  /** Index of the entry with this id, or -1. */
  function EntryOf(events: seq<Event>, id: EventId): (index: int)
    ensures -1 <= index < |events|
    ensures index >= 0 ==> events[index].id == id
  {
    FirstIndexOf(events, id)
  }

  /** Each branch reaches an entry older than itself. */
  predicate ForkedFromKnown(events: seq<Event>) {
    && Grown(events)
    && forall k :: 0 <= k < |events| ==> ReachesBack(events, k)
  }

  predicate ReachesBack(events: seq<Event>, k: nat)
    requires k < |events|
  {
    events[k].fact.ThreadBranched? ==> EntryOf(events[..k], events[k].fact.fromId) >= 0
  }

  /**
    The memory of a lane without parent links, id maps or `seen` sets: the lane's own
    facts behind, for each branch, the memory of the log as it stood when the entry
    branched from was its last.
   */
  function Memory(events: seq<Event>, lane: Lane): seq<Event>
    decreases |events|, |events| + 1
  {
    CompactedView(RawMemory(events, lane))
  }

  function RawMemory(events: seq<Event>, lane: Lane): seq<Event>
    decreases |events|, |events| + 1, 0
  {
    Inheritance(events, LaneFacts(events, lane)) + LaneFacts(events, lane)
  }

  function Inheritance(events: seq<Event>, chain: seq<Event>): seq<Event>
    requires |chain| <= |events|
    decreases |events|, |chain|
  {
    if chain == [] then []
    else
      var last := chain[|chain| - 1];
      Inheritance(events, chain[..|chain| - 1])
      + if last.fact.ThreadBranched? then MemoryBehind(events, last.fact.fromId) else []
  }

  function MemoryBehind(events: seq<Event>, fromId: EventId): seq<Event>
    decreases |events|, 0
  {
    var j := EntryOf(events, fromId);
    if 0 <= j && j + 1 < |events| then Memory(events[..j + 1], LaneOf(events[j])) else []
  }
}
