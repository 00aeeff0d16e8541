/** The memory a session promises: forks that see their source, and cuts that compose. */
module SessionForks {
  import opened Primitives
  import opened SessionEvents
  import opened SessionLogs
  import opened SessionTree
  import opened SessionMemory

  // ---- the linked memory refines its meaning ----

  lemma FirstIndexInPrefix(path: seq<Event>, n: nat, id: EventId)
    requires n <= |path|
    requires FirstIndexOf(path[..n], id) >= 0
    ensures FirstIndexOf(path, id) == FirstIndexOf(path[..n], id)
  {
  }

  lemma LaneFactsOfEntry(events: seq<Event>, j: nat)
    requires j < |events|
    ensures LaneFacts(events[..j + 1], LaneOf(events[j])) == LaneFacts(events[..j], LaneOf(events[j])) + [events[j]]
  {
    assert events[..j + 1][..j] == events[..j];
  }

  /** On such a log neither the `seen` sets nor the unknown-id exits change the result. */
  lemma {:induction false} AncestorsAreMemory(events: seq<Event>, j: nat, seen: set<EventId>)
    requires ForkedFromKnown(events) && j < |events|
    requires forall i :: 0 <= i <= j ==> events[i].id !in seen
    ensures AncestorsOf(ById(events), events[j].id, seen) == Memory(events[..j + 1], LaneOf(events[j]))
    decreases j, |events| + 1
  {
    WalkFromEntry(events, j, {});
    LaneFactsOfEntry(events, j);
    var chain := LaneFacts(events[..j + 1], LaneOf(events[j]));
    InLaneFacts(events[..j + 1], LaneOf(events[j]));
    forall i | 0 <= i < j
      ensures events[i].id !in seen + {events[j].id}
    {
      GrownIdsDiffer(events, i, j);
    }
    SeenShrinks(ById(events), events[j].id, seen);
    InheritedIsInheritance(events, j + 1, chain, seen + {events[j].id});
  }

  lemma {:induction false} InheritedIsInheritance(events: seq<Event>, n: nat, chain: seq<Event>, seen: set<EventId>)
    requires ForkedFromKnown(events) && 0 < n <= |events|
    requires |chain| <= n && forall e :: e in chain ==> e in events[..n]
    requires forall i :: 0 <= i < n - 1 ==> events[i].id !in seen
    ensures InheritedBy(ById(events), chain, seen) == Inheritance(events[..n], chain)
    decreases n - 1, |chain|
  {
    if chain != [] {
      var last := chain[|chain| - 1];
      InheritedIsInheritance(events, n, chain[..|chain| - 1], seen);
      if last.fact.ThreadBranched? {
        var b, i := BranchBehind(events, n, last);
        AncestorsAreMemory(events, i, seen);
      }
    }
  }

  /** A branch recorded below `n` stands for the memory of the log up to the entry it reaches. */
  lemma BranchBehind(events: seq<Event>, n: nat, branch: Event) returns (b: nat, i: nat)
    requires ForkedFromKnown(events) && n <= |events|
    requires branch in events[..n] && branch.fact.ThreadBranched?
    ensures i < b < n && events[b] == branch && events[i].id == branch.fact.fromId
    ensures MemoryBehind(events[..n], branch.fact.fromId) == Memory(events[..i + 1], LaneOf(events[i]))
    ensures MemoryBehind(events, branch.fact.fromId) == Memory(events[..i + 1], LaneOf(events[i]))
  {
    b :| 0 <= b < n && events[..n][b] == branch;
    i := BranchEntry(events, b);
    assert events[..n][..b] == events[..b];
    FirstIndexInPrefix(events[..n], b, branch.fact.fromId);
    assert events[..n][..i + 1] == events[..i + 1];
  }

  /** The entry a branch at `b` reaches back to. */
  lemma BranchEntry(events: seq<Event>, b: nat) returns (i: nat)
    requires ForkedFromKnown(events) && b < |events| && events[b].fact.ThreadBranched?
    ensures i < b && events[i].id == events[b].fact.fromId
    ensures i == EntryOf(events[..b], events[b].fact.fromId) == EntryOf(events, events[b].fact.fromId)
  {
    assert ReachesBack(events, b);
    i := EntryOf(events[..b], events[b].fact.fromId);
    FirstIndexInPrefix(events, b, events[b].fact.fromId);
    assert events[..b][i] == events[i];
  }

  lemma MemoryOfIsMemory(events: seq<Event>, thread: ThreadId)
    requires ForkedFromKnown(events)
    ensures MemoryOf(events, thread) == Memory(events, ThreadLane(thread))
  {
    var lane := ThreadLane(thread);
    PathOfLaneIsLaneFacts(events, lane);
    if events == [] {
      assert InheritedBy(ById(events), [], {}) == [];
      assert RawMemory(events, lane) == [];
    } else {
      assert events[..|events|] == events;
      InLaneFacts(events, lane);
      InheritedIsInheritance(events, |events|, LaneFacts(events, lane), {});
    }
  }

  // ---- memory along a growing log ----

  lemma {:induction false} LaneFactsAppend(events: seq<Event>, more: seq<Event>, lane: Lane)
    ensures LaneFacts(events + more, lane) == LaneFacts(events, lane) + LaneFacts(more, lane)
  {
    if more == [] {
      assert events + more == events;
    } else {
      var n := |more| - 1;
      assert (events + more)[..|events| + n] == events + more[..n];
      LaneFactsAppend(events, more[..n], lane);
    }
  }

  lemma ForkedPrefix(events: seq<Event>, n: nat)
    requires ForkedFromKnown(events) && n <= |events|
    ensures ForkedFromKnown(events[..n])
  {
    GrownPrefix(events, n);
    forall k | 0 <= k < n
      ensures ReachesBack(events[..n], k)
    {
      assert ReachesBack(events, k);
      assert events[..n][..k] == events[..k];
    }
  }

  /** What a chain of older facts inherits does not depend on what was written since. */
  lemma {:induction false} InheritanceIsSettled(events: seq<Event>, n: nat, chain: seq<Event>)
    requires ForkedFromKnown(events) && n <= |events|
    requires |chain| <= n && forall e :: e in chain ==> e in events[..n]
    ensures Inheritance(events, chain) == Inheritance(events[..n], chain)
  {
    if chain != [] {
      var last := chain[|chain| - 1];
      InheritanceIsSettled(events, n, chain[..|chain| - 1]);
      if last.fact.ThreadBranched? {
        var b, i := BranchBehind(events, n, last);
      }
    }
  }

  ghost predicate NoBranch(facts: seq<Event>) {
    forall e :: e in facts ==> !e.fact.ThreadBranched?
  }

  ghost predicate NoCompaction(facts: seq<Event>) {
    forall e :: e in facts ==> !e.fact.ThreadCompacted?
  }

  lemma {:induction false} InheritanceSkips(events: seq<Event>, chain: seq<Event>, more: seq<Event>)
    requires |chain| + |more| <= |events| && NoBranch(more)
    ensures Inheritance(events, chain + more) == Inheritance(events, chain)
  {
    if more == [] {
      assert chain + more == chain;
    } else {
      var n := |more| - 1;
      assert (chain + more)[..|chain| + n] == chain + more[..n];
      assert more[n] in more;
      InheritanceSkips(events, chain, more[..n]);
    }
  }

  /** Facts that neither branch nor compact only add themselves to a lane's raw memory. */
  lemma RawMemoryGrows(events: seq<Event>, n: nat, lane: Lane)
    requires ForkedFromKnown(events) && n <= |events|
    requires NoBranch(LaneFacts(events[n..], lane))
    ensures RawMemory(events, lane) == RawMemory(events[..n], lane) + LaneFacts(events[n..], lane)
  {
    assert events == events[..n] + events[n..];
    LaneFactsAppend(events[..n], events[n..], lane);
    var older, newer := LaneFacts(events[..n], lane), LaneFacts(events[n..], lane);
    InLaneFacts(events[..n], lane);
    InheritanceSkips(events, older, newer);
    InheritanceIsSettled(events, n, older);
  }

  // ---- the algebra of cuts ----

  lemma {:induction false} InWithout(path: seq<Event>, id: EventId, e: Event)
    ensures e in Without(path, id) <==> e in path && e.id != id
  {
    if path != [] {
      InWithout(path[..|path| - 1], id, e);
      assert path == path[..|path| - 1] + [path[|path| - 1]];
    }
  }

  lemma {:induction false} WithoutAppend(a: seq<Event>, b: seq<Event>, id: EventId)
    ensures Without(a + b, id) == Without(a, id) + Without(b, id)
  {
    if b == [] {
      assert a + b == a;
    } else {
      var n := |b| - 1;
      assert (a + b)[..|a| + n] == a + b[..n];
      WithoutAppend(a, b[..n], id);
    }
  }

  lemma {:induction false} WithoutAbsent(a: seq<Event>, id: EventId)
    requires forall e :: e in a ==> e.id != id
    ensures Without(a, id) == a
  {
    if a != [] {
      WithoutAbsent(a[..|a| - 1], id);
      assert a[|a| - 1] in a;
    }
  }

  lemma FirstIndexIs(path: seq<Event>, id: EventId, index: nat)
    requires index < |path| && path[index].id == id
    requires forall k :: 0 <= k < index ==> path[k].id != id
    ensures FirstIndexOf(path, id) == index
  {
  }

  lemma LastCompactionIs(path: seq<Event>, index: nat)
    requires index < |path| && path[index].fact.ThreadCompacted?
    requires forall k :: index < k < |path| ==> !path[k].fact.ThreadCompacted?
    ensures LastCompaction(path) == index
  {
  }

  /** Facts written after a path's last compaction can neither be it nor be what it kept. */
  ghost predicate WrittenAfter(path: seq<Event>, more: seq<Event>) {
    && NoCompaction(more)
    && (LastCompaction(path) >= 0 ==>
          var cut := path[LastCompaction(path)];
          forall e :: e in more ==>
            e.id != cut.id && (FirstIndexOf(path, cut.fact.firstKept) < 0 ==> e.id != cut.fact.firstKept))
  }

  /** The view of a longer path is the view of the shorter one, extended. */
  lemma ViewExtends(path: seq<Event>, more: seq<Event>)
    requires WrittenAfter(path, more)
    ensures CompactedView(path + more) == CompactedView(path) + more
  {
    hide Without, FirstIndexOf, LastCompaction, TailFrom;
    var last := LastCompaction(path);
    LastCutStays(path, more);
    if last >= 0 {
      var cut := path[last];
      TailExtends(path, more, cut.fact.firstKept);
      WithoutAppend(TailFrom(path, cut.fact.firstKept), more, cut.id);
      WithoutAbsent(more, cut.id);
    }
  }

  lemma LastCutStays(path: seq<Event>, more: seq<Event>)
    requires NoCompaction(more)
    ensures LastCompaction(path + more) == LastCompaction(path)
  {
    hide LastCompaction;
    var whole := path + more;
    var last := LastCompaction(path);
    forall k | last < k < |whole| ensures !whole[k].fact.ThreadCompacted? {
      if k >= |path| { assert whole[k] in more; }
    }
    if last >= 0 {
      LastCompactionIs(whole, last);
    }
  }

  lemma TailAt(front: seq<Event>, back: seq<Event>, kept: EventId)
    requires forall e :: e in front ==> e.id != kept
    requires back != [] && back[0].id == kept
    ensures TailFrom(front + back, kept) == back
  {
    hide FirstIndexOf;
    var whole := front + back;
    assert forall k :: 0 <= k < |front| ==> whole[k] in front;
    FirstIndexIs(whole, kept, |front|);
    assert whole[|front|..] == back;
  }

  lemma TailExtends(path: seq<Event>, more: seq<Event>, kept: EventId)
    requires FirstIndexOf(path, kept) < 0 ==> forall e :: e in more ==> e.id != kept
    ensures TailFrom(path + more, kept) == TailFrom(path, kept) + more
  {
    hide FirstIndexOf;
    var i := FirstIndexOf(path, kept);
    if i >= 0 {
      var front, back := path[..i], path[i..];
      assert path == front + back;
      assert (back + more)[0] == path[i];
      Regroup(front, back, more);
      TailAt(front, back + more, kept);
    } else {
      NowhereInBoth(path, more, kept);
    }
  }

  lemma NowhereInBoth(path: seq<Event>, more: seq<Event>, id: EventId)
    requires FirstIndexOf(path, id) < 0 && forall e :: e in more ==> e.id != id
    ensures FirstIndexOf(path + more, id) < 0
  {
  }

  /** The last compaction keeps an entry newer than every other compaction on the path. */
  predicate LastCutClears(path: seq<Event>) {
    var last := LastCompaction(path);
    last < 0 ||
    forall k :: 0 <= k < |path| && path[k].fact.ThreadCompacted? && path[k].id != path[last].id ==>
      k < FirstIndexOf(path, path[last].fact.firstKept)
  }

  lemma ClearedViewHasOneCut(path: seq<Event>)
    requires LastCompaction(path) >= 0
    ensures LastCutClears(path) <==> NoCompaction(CompactedView(path)[1..])
  {
    hide LastCompaction, FirstIndexOf, Without;
    var last := LastCompaction(path);
    var cut := path[last];
    var i := FirstIndexOf(path, cut.fact.firstKept);
    var tail := TailFrom(path, cut.fact.firstKept);
    var rest := Without(tail, cut.id);
    assert CompactedView(path)[1..] == rest;
    if LastCutClears(path) {
      forall e | e in rest ensures !e.fact.ThreadCompacted? {
        InWithout(tail, cut.id, e);
        var k :| 0 <= k < |tail| && tail[k] == e;
        var at := if i < 0 then k else i + k;
        assert path[at] == e;
      }
    } else {
      var k :| 0 <= k < |path| && path[k].fact.ThreadCompacted? && path[k].id != cut.id && i <= k;
      if i >= 0 { assert tail[k - i] == path[k]; }
      assert path[k] in tail;
      InWithout(tail, cut.id, path[k]);
    }
  }

  /** A compacted view with later facts behind it is its own view exactly when its cut cleared the path. */
  lemma ViewIsStable(path: seq<Event>, more: seq<Event>)
    requires WrittenAfter(path, more)
    ensures CompactedView(CompactedView(path) + more) == CompactedView(path) + more <==> LastCutClears(path)
  {
    var view := CompactedView(path);
    var last := LastCompaction(path);
    if last < 0 {
      ViewExtends(path, more);
    } else {
      ClearedViewHasOneCut(path);
      if LastCutClears(path) {
        ClearedViewIsStable(path, more);
      } else {
        var m := LastCompaction(view + more);
        var e :| e in view[1..] && e.fact.ThreadCompacted?;
        var k :| 0 <= k < |view[1..]| && view[1..][k] == e;
        assert (view + more)[k + 1] == e;
        assert m >= k + 1;
        assert forall j :: |view| <= j < |view + more| ==> (view + more)[j] in more;
        assert view[m] == view[1..][m - 1];
        assert CompactedView(view + more)[0] == view[m];
        InWithout(TailFrom(path, path[last].fact.firstKept), path[last].id, view[m]);
        assert (view + more)[0] == view[0];
      }
    }
  }

  lemma ClearedViewIsStable(path: seq<Event>, more: seq<Event>)
    requires WrittenAfter(path, more) && LastCompaction(path) >= 0
    requires NoCompaction(CompactedView(path)[1..])
    ensures CompactedView(CompactedView(path) + more) == CompactedView(path) + more
  {
    hide Without, FirstIndexOf, LastCompaction;
    var cut := path[LastCompaction(path)];
    var kept := cut.fact.firstKept;
    var rest := Without(TailFrom(path, kept), cut.id) + more;
    forall e | e in rest ensures e.id != cut.id && !e.fact.ThreadCompacted? {
      InWithout(TailFrom(path, kept), cut.id, e);
      assert CompactedView(path)[1..] == Without(TailFrom(path, kept), cut.id);
    }
    assert CompactedView(path) + more == [cut] + rest;
    if kept != cut.id {
      KeptStaysFirst(path, cut, more);
    }
    ViewOfCutAndRest(cut, rest);
  }

  /** The entry a cut keeps is the first behind it, or nowhere behind it. */
  lemma KeptStaysFirst(path: seq<Event>, cut: Event, more: seq<Event>)
    requires cut.fact.ThreadCompacted? && cut.fact.firstKept != cut.id
    requires FirstIndexOf(path, cut.fact.firstKept) < 0 ==> forall e :: e in more ==> e.id != cut.fact.firstKept
    ensures var rest := Without(TailFrom(path, cut.fact.firstKept), cut.id) + more;
      || (rest != [] && rest[0].id == cut.fact.firstKept)
      || forall e :: e in rest ==> e.id != cut.fact.firstKept
  {
    var kept := cut.fact.firstKept;
    var i := FirstIndexOf(path, kept);
    if i >= 0 {
      assert path[i..] == [path[i]] + path[i + 1..];
      WithoutAppend([path[i]], path[i + 1..], cut.id);
      WithoutAbsent([path[i]], cut.id);
    } else {
      forall e | e in Without(path, cut.id) + more ensures e.id != kept {
        InWithout(path, cut.id, e);
      }
    }
  }

  lemma ViewOfCutAndRest(cut: Event, rest: seq<Event>)
    requires cut.fact.ThreadCompacted?
    requires forall e :: e in rest ==> e.id != cut.id && !e.fact.ThreadCompacted?
    requires || cut.fact.firstKept == cut.id
             || (rest != [] && rest[0].id == cut.fact.firstKept)
             || forall e :: e in rest ==> e.id != cut.fact.firstKept
    ensures CompactedView([cut] + rest) == [cut] + rest
  {
    var whole := [cut] + rest;
    var kept := cut.fact.firstKept;
    HeadIsLastCompaction(cut, rest);
    WithoutHead(cut, rest);
    WithoutAbsent(rest, cut.id);
    if kept == cut.id {
      FirstIndexIs(whole, kept, 0);
    } else if rest != [] && rest[0].id == kept {
      FirstIndexIs(whole, kept, 1);
      assert whole[1..] == rest;
    } else {
      HeadDiffers(cut, rest, kept);
    }
  }

  lemma HeadIsLastCompaction(cut: Event, rest: seq<Event>)
    requires cut.fact.ThreadCompacted? && NoCompaction(rest)
    ensures LastCompaction([cut] + rest) == 0
  {
    var whole := [cut] + rest;
    forall k | 0 < k < |whole| ensures !whole[k].fact.ThreadCompacted? {
      assert whole[k] == rest[k - 1];
    }
    LastCompactionIs(whole, 0);
  }

  lemma WithoutHead(cut: Event, rest: seq<Event>)
    requires forall e :: e in rest ==> e.id != cut.id
    ensures Without([cut] + rest, cut.id) == rest
  {
    WithoutAppend([cut], rest, cut.id);
    WithoutAbsent(rest, cut.id);
    assert [cut][..0] == [];
    assert Without([cut], cut.id) == [];
  }

  lemma HeadDiffers(cut: Event, rest: seq<Event>, kept: EventId)
    requires cut.id != kept && forall e :: e in rest ==> e.id != kept
    ensures FirstIndexOf([cut] + rest, kept) < 0
  {
  }
}
