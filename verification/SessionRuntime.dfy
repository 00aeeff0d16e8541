/** The runtime's own writers of branches and compactions, and the sessions they keep. */
module SessionRuntime {
  import opened Primitives
  import opened SessionEvents
  import opened SessionLogs
  import opened SessionTree
  import opened SessionMemory
  import opened SessionForks
  import opened SessionLineage
  import opened SessionCuts

  /** No entry carries this id and no compaction names it. */
  predicate Unused(events: seq<Event>, id: EventId) {
    forall k :: 0 <= k < |events| ==>
      events[k].id != id && (events[k].fact.ThreadCompacted? ==> events[k].fact.firstKept != id)
  }

  /** A new id; nothing but its novelty is promised. */
  method NewId(events: seq<Event>) returns (id: EventId)
    ensures Unused(events, id)
  {
    var longest: nat := 0;
    for k := 0 to |events|
      invariant forall j :: 0 <= j < k ==>
        |events[j].id| <= longest && (events[j].fact.ThreadCompacted? ==> |events[j].fact.firstKept| <= longest)
    {
      var event := events[k];
      longest := if |event.id| > longest then |event.id| else longest;
      if event.fact.ThreadCompacted? && |event.fact.firstKept| > longest {
        longest := |event.fact.firstKept|;
      }
    }
    id := seq(longest + 1, _ => 'x');
  }

  /** One more entry keeps a session a session when it is in order itself. */
  lemma LivedAppend(events: seq<Event>, e: Event)
    requires Lived(events) && Grown(events + [e]) && Unused(events, e.id)
    requires var after := events + [e]; var n := |events|;
      ReachesBack(after, n) && OpensFreshLane(after, n) && KeepsWhatItSaw(after, n)
    ensures Lived(events + [e])
  {
    var after := events + [e];
    forall k | 0 <= k < |after|
      ensures ReachesBack(after, k) && OpensFreshLane(after, k) && KeepsWhatItSaw(after, k) && MintedFresh(after, k)
    {
      if k < |events| {
        assert ReachesBack(events, k) && OpensFreshLane(events, k) && KeepsWhatItSaw(events, k)
            && MintedFresh(events, k);
        assert after[..|events|] == events;
        assert after[..k] == events[..k];
        forall j | 0 <= j <= k ensures BranchLane(after, j) == BranchLane(events, j) {
          BranchLanePrefix(after, |events|, j);
        }
      }
    }
  }

  lemma PlainWriteKeepsSession(events: seq<Event>, draft: Draft, timestamp: int)
    requires Lived(events) && Unused(events, draft.id)
    requires !draft.fact.ThreadBranched? && !draft.fact.ThreadCompacted?
    ensures Lived(events + [Stamp(draft, events, timestamp)])
  {
    GrownAppend(events, draft, timestamp);
    LivedAppend(events, Stamp(draft, events, timestamp));
  }

  /** A thread no branch belongs to or continues. */
  ghost predicate NeverForked(events: seq<Event>, lane: Lane) {
    && !Continued(events, lane)
    && forall k :: 0 <= k < |events| && LaneOf(events[k]) == lane ==> !events[k].fact.ThreadBranched?
  }

  lemma BranchWriteKeepsSession(events: seq<Event>, draft: Draft, timestamp: int, leaf: nat)
    requires Lived(events) && Unused(events, draft.id) && draft.fact.ThreadBranched?
    requires leaf < |events| && draft.fact.fromId == events[leaf].id
    requires NeverForked(events, LaneOfFact(draft.fact)) && LaneOf(events[leaf]) != LaneOfFact(draft.fact)
    ensures Lived(events + [Stamp(draft, events, timestamp)])
    ensures BranchLane(events + [Stamp(draft, events, timestamp)], |events|) == Some(LaneOf(events[leaf]))
  {
    GrownAppend(events, draft, timestamp);
    var after := events + [Stamp(draft, events, timestamp)];
    var n := |events|;
    assert after[..n] == events;
    var at := EntryOf(events, draft.fact.fromId);
    assert at >= 0;
    GrownIdsSame(events, at, leaf);
    forall j | 0 <= j < n ensures BranchLane(after, j) != Some(LaneOfFact(draft.fact)) {
      BranchLanePrefix(after, n, j);
    }
    LivedAppend(events, after[n]);
  }

  lemma WriteKeepsForks(events: seq<Event>, draft: Draft, timestamp: int)
    requires ForkedFromKnown(events) && FreshId(events, draft.id)
    requires draft.fact.ThreadBranched? ==> EntryOf(events, draft.fact.fromId) >= 0
    ensures ForkedFromKnown(events + [Stamp(draft, events, timestamp)])
  {
    var after := events + [Stamp(draft, events, timestamp)];
    GrownAppend(events, draft, timestamp);
    assert after[..|events|] == events;
    forall k | 0 <= k < |after| ensures ReachesBack(after, k) {
      if k < |events| {
        assert ReachesBack(events, k);
        assert after[..k] == events[..k];
      }
    }
  }

  /** The last two entries configure the target and branch it from the source's leaf as of `n`. */
  ghost predicate JustForked(events: seq<Event>, n: nat, source: Lane, target: Lane) {
    && |events| == n + 2 && ForkOf(events, n, source, target, n + 1)
    && LaneOf(events[n]) == target && !events[n].fact.ThreadBranched?
  }

  /** A fork adds the source's memory behind whatever the target had inherited before. */
  lemma ForkInheritsAfter(events: seq<Event>, n: nat, source: Lane, target: Lane)
    requires ForkedFromKnown(events) && JustForked(events, n, source, target)
    ensures RawMemory(events, target)
         == Inheritance(events[..n], LaneFacts(events[..n], target)) + Memory(events[..n], source)
             + LaneFacts(events, target)
  {
    hide Memory, MemoryBehind;
    var own, configured, branched := LaneFacts(events[..n], target), events[n], events[n + 1];
    assert events == (events[..n] + [configured]) + [branched];
    LaneFactsAppend(events[..n] + [configured], [branched], target);
    LaneFactsAppend(events[..n], [configured], target);
    LaneOfOne(configured);
    LaneOfOne(branched);
    InLaneFacts(events[..n], target);
    InheritanceIsSettled(events, n, own);
    InheritanceSkips(events, own, [configured]);
    assert ((own + [configured]) + [branched])[..|own| + 1] == own + [configured];
    ForkReachesLeaf(events, n, source, target, n + 1);
  }

  /** What a fork from the leaf as of `n` makes of the session, by what the session was before. */
  ghost predicate Forked(events: seq<Event>, n: nat, source: ThreadId, target: ThreadId)
    requires n <= |events|
  {
    var (from, onto) := (ThreadLane(source), ThreadLane(target));
    var before := events[..n];
    && (ForkedFromKnown(before) ==>
          && ForkedFromKnown(events)
          && RawMemory(events, onto)
               == Inheritance(before, LaneFacts(before, onto)) + Memory(before, from) + LaneFacts(events, onto))
    && (Lived(before) && source != target && NeverForked(before, onto) ==>
          && Lived(events)
          && RawMemory(events, onto) == Memory(before, from) + LaneFacts(events, onto))
  }

  /**
    Fork: configure the target, then branch it from the source's leaf if there is one.
    The target then reads the source's memory as it stood, behind anything it inherited
    before, and its own facts; a target nobody forked before keeps the session lived.
   */
  method Fork(log: SessionLog, source: ThreadId, target: ThreadId,
              harness: Option<string>, model: Option<string>, reasoning: Option<string>, carried: Option<string>,
              timestamp: int)
    requires log.Valid()
    modifies log
    ensures log.Valid()
    ensures old(log.entries) < log.entries
    ensures log.entries[|old(log.entries)|].fact == ThreadConfigured(target, harness, model, reasoning)
    ensures LeafOf(old(log.entries), ThreadLane(source)).None? ==>
      && |log.entries| == |old(log.entries)| + 1
      && (ForkedFromKnown(old(log.entries)) ==> ForkedFromKnown(log.entries))
      && (Lived(old(log.entries)) ==> Lived(log.entries))
    ensures LeafOf(old(log.entries), ThreadLane(source)).Some? ==>
      && |log.entries| == |old(log.entries)| + 2
      && log.entries[|old(log.entries)| + 1].fact
           == ThreadBranched(target, LeafOf(old(log.entries), ThreadLane(source)).value, carried)
      && JustForked(log.entries, |old(log.entries)|, ThreadLane(source), ThreadLane(target))
      && Forked(log.entries, |old(log.entries)|, source, target)
  {
    hide Lived, ForkedFromKnown, NeverForked;
    var events := log.entries;
    var fromId := FindLeaf(events, ThreadLane(source));
    var configuredId := NewId(log.entries);
    var configured := Draft(configuredId, ThreadConfigured(target, harness, model, reasoning));
    log.Write(configured, timestamp);
    assert log.entries[..|events|] == events;
    ConfiguringKeeps(events, configured, timestamp);
    if fromId.Some? {
      ghost var leaf := LeafIsNearest(events, ThreadLane(source));
      ghost var middle := log.entries;
      var branchedId := NewId(log.entries);
      var branched := Draft(branchedId, ThreadBranched(target, fromId.value, carried));
      log.Write(branched, timestamp);
      assert log.entries[..|events|] == events;
      BranchingForks(events, middle, log.entries, configured, branched, timestamp, leaf, source, target);
    }
  }

  lemma ConfiguringKeeps(events: seq<Event>, configured: Draft, timestamp: int)
    requires Grown(events) && Unused(events, configured.id) && configured.fact.ThreadConfigured?
    ensures var after := events + [Stamp(configured, events, timestamp)];
      && (ForkedFromKnown(events) ==> ForkedFromKnown(after))
      && (Lived(events) ==> Lived(after))
  {
    if ForkedFromKnown(events) {
      WriteKeepsForks(events, configured, timestamp);
    }
    if Lived(events) {
      PlainWriteKeepsSession(events, configured, timestamp);
    }
  }

  /** Two writes of a fork whose source's last entry is at `leaf`. */
  ghost predicate ForkWrites(events: seq<Event>, middle: seq<Event>, after: seq<Event>,
                             configured: Draft, branched: Draft, timestamp: int, leaf: nat,
                             source: ThreadId, target: ThreadId)
  {
    && Grown(events) && Unused(events, configured.id) && Unused(middle, branched.id)
    && middle == events + [Stamp(configured, events, timestamp)]
    && after == middle + [Stamp(branched, middle, timestamp)]
    && configured.fact.ThreadConfigured? && LaneOfFact(configured.fact) == ThreadLane(target)
    && branched.fact.ThreadBranched? && LaneOfFact(branched.fact) == ThreadLane(target)
    && leaf < |events| && LaneOf(events[leaf]) == ThreadLane(source) && events[leaf].id == branched.fact.fromId
    && LeafOf(events, ThreadLane(source)) == Some(branched.fact.fromId)
  }

  lemma BranchingForks(events: seq<Event>, middle: seq<Event>, after: seq<Event>, configured: Draft, branched: Draft,
                       timestamp: int, leaf: nat, source: ThreadId, target: ThreadId)
    requires ForkWrites(events, middle, after, configured, branched, timestamp, leaf, source, target)
    ensures JustForked(after, |events|, ThreadLane(source), ThreadLane(target))
    ensures Forked(after, |events|, source, target)
  {
    hide Lived, ForkedFromKnown, NeverForked, RawMemory, Memory, LaneFacts, Inheritance, Unused, Grown, LeafOf;
    assert after[..|events|] == events;
    if ForkedFromKnown(events) {
      BranchingKeepsForks(events, middle, after, configured, branched, timestamp, leaf, source, target);
      ForkInheritsAfter(after, |events|, ThreadLane(source), ThreadLane(target));
    }
    if Lived(events) && source != target && NeverForked(events, ThreadLane(target)) {
      BranchingKeepsSession(events, middle, after, configured, branched, timestamp, leaf, source, target);
      ForkInheritsSource(after, |events|, ThreadLane(source), ThreadLane(target), |events| + 1);
    }
  }

  lemma BranchingKeepsForks(events: seq<Event>, middle: seq<Event>, after: seq<Event>,
                            configured: Draft, branched: Draft, timestamp: int, leaf: nat,
                            source: ThreadId, target: ThreadId)
    requires ForkWrites(events, middle, after, configured, branched, timestamp, leaf, source, target)
    requires ForkedFromKnown(events)
    ensures ForkedFromKnown(after)
  {
    hide LeafOf, Stamp, ForkedFromKnown;
    ConfiguringKeeps(events, configured, timestamp);
    assert middle[leaf] == events[leaf];
    WriteKeepsForks(middle, branched, timestamp);
  }

  lemma BranchingKeepsSession(events: seq<Event>, middle: seq<Event>, after: seq<Event>,
                              configured: Draft, branched: Draft, timestamp: int, leaf: nat,
                              source: ThreadId, target: ThreadId)
    requires ForkWrites(events, middle, after, configured, branched, timestamp, leaf, source, target)
    requires Lived(events) && source != target && NeverForked(events, ThreadLane(target))
    ensures Lived(after)
  {
    hide Lived, NeverForked, LeafOf;
    ConfiguringKeeps(events, configured, timestamp);
    assert middle[..|events|] == events && middle[leaf] == events[leaf];
    StillNeverForked(events, middle, ThreadLane(target));
    BranchWriteKeepsSession(middle, branched, timestamp, leaf);
  }

  lemma StillNeverForked(events: seq<Event>, after: seq<Event>, lane: Lane)
    requires NeverForked(events, lane)
    requires |after| == |events| + 1 && after[..|events|] == events && !after[|events|].fact.ThreadBranched?
    ensures NeverForked(after, lane)
  {
    forall b | 0 <= b < |after| ensures BranchLane(after, b) != Some(lane) {
      if b < |events| {
        BranchLanePrefix(after, |events|, b);
      }
    }
    forall k | 0 <= k < |after| && LaneOf(after[k]) == lane ensures !after[k].fact.ThreadBranched? {
      assert k < |events| ==> after[k] == events[k];
    }
  }

  // ---- compaction ----

  lemma {:induction false} InheritanceKeeps(events: seq<Event>, chain: seq<Event>, more: seq<Event>, e: Event)
    requires |chain| + |more| <= |events| && e in Inheritance(events, chain)
    ensures e in Inheritance(events, chain + more)
  {
    if more == [] {
      assert chain + more == chain;
    } else {
      var n := |more| - 1;
      assert (chain + more)[..|chain| + n] == chain + more[..n];
      InheritanceKeeps(events, chain, more[..n], e);
    }
  }

  /** A thread's raw memory never loses a fact. */
  lemma RawMemoryKeeps(events: seq<Event>, n: nat, lane: Lane, e: Event)
    requires ForkedFromKnown(events) && n <= |events| && e in RawMemory(events[..n], lane)
    ensures e in RawMemory(events, lane)
  {
    assert events == events[..n] + events[n..];
    LaneFactsAppend(events[..n], events[n..], lane);
    if e !in LaneFacts(events[..n], lane) {
      InLaneFacts(events[..n], lane);
      InheritanceIsSettled(events, n, LaneFacts(events[..n], lane));
      InheritanceKeeps(events, LaneFacts(events[..n], lane), LaneFacts(events[n..], lane), e);
    }
  }

  lemma CutIsRemembered(events: seq<Event>, n: nat, thread: ThreadId)
    requires ForkedFromKnown(events) && n <= |events| && CompactionCut(events[..n], thread).Some?
    ensures FirstIndexOf(RawMemory(events, ThreadLane(thread)), CompactionCut(events[..n], thread).value) >= 0
  {
    var lane := ThreadLane(thread);
    ForkedPrefix(events, n);
    MemoryOfIsMemory(events[..n], thread);
    var kept := MemoryOf(events[..n], thread)[CutIndex(MemoryOf(events[..n], thread))];
    InView(RawMemory(events[..n], lane), kept);
    RawMemoryKeeps(events, n, lane, kept);
    var k :| 0 <= k < |RawMemory(events, lane)| && RawMemory(events, lane)[k] == kept;
  }

  lemma CompactionWriteKeepsSession(events: seq<Event>, n: nat, draft: Draft, timestamp: int)
    requires Lived(events) && n <= |events| && Unused(events, draft.id) && draft.fact.ThreadCompacted?
    requires CompactionCut(events[..n], draft.fact.thread) == Some(draft.fact.firstKept)
          || Unused(events, draft.fact.firstKept)
    ensures Lived(events + [Stamp(draft, events, timestamp)])
  {
    GrownAppend(events, draft, timestamp);
    var after := events + [Stamp(draft, events, timestamp)];
    assert after[..|events|] == events;
    if CompactionCut(events[..n], draft.fact.thread) == Some(draft.fact.firstKept) {
      CutIsRemembered(events, n, draft.fact.thread);
    }
    LivedAppend(events, after[|events|]);
  }

  datatype Compaction = Compaction(summary: string, tokensBefore: int)

  /** The fact one reported compaction becomes: it keeps the cut, or an unused id when there is none. */
  predicate Records(fact: Fact, thread: ThreadId, cut: Option<EventId>, compaction: Compaction) {
    && fact.ThreadCompacted? && fact.thread == thread
    && fact.summary == compaction.summary && fact.tokensBefore == compaction.tokensBefore
    && (cut.Some? ==> fact.firstKept == cut.value)
  }

  /** The entry at `k` records this compaction of the log as it stood at `n`, and the law holds of it. */
  ghost predicate RecordedAt(events: seq<Event>, n: nat, k: nat, thread: ThreadId, compaction: Compaction) {
    && n <= k < |events|
    && Records(events[k].fact, thread, CompactionCut(events[..n], thread), compaction)
    && LawAt(events, n, k, thread)
  }

  method WriteCompaction(log: SessionLog, thread: ThreadId, events: seq<Event>, compaction: Compaction, timestamp: int)
    requires log.Valid() && Lived(log.entries) && events <= log.entries
    modifies log
    ensures log.Valid() && Lived(log.entries)
    ensures |log.entries| == |old(log.entries)| + 1 && old(log.entries) <= log.entries
    ensures RecordedAt(log.entries, |events|, |old(log.entries)|, thread, compaction)
  {
    hide Lived, CompactionCut, LawAt;
    var cut := FindCompactionCut(events, thread);
    var kept;
    if cut.Some? { kept := cut.value; } else { kept := NewId(log.entries); }
    var id := NewId(log.entries);
    var draft := Draft(id, ThreadCompacted(thread, compaction.summary, kept, compaction.tokensBefore));
    assert log.entries[..|events|] == events;
    CompactionWriteKeepsSession(log.entries, |events|, draft, timestamp);
    log.Write(draft, timestamp);
    assert log.entries[..|events|] == events;
    LawHolds(log.entries, |events|, |log.entries| - 1, thread);
  }

  lemma RecordedStays(events: seq<Event>, later: seq<Event>, n: nat, k: nat, thread: ThreadId, compaction: Compaction)
    requires RecordedAt(events, n, k, thread, compaction) && events <= later
    ensures RecordedAt(later, n, k, thread, compaction)
  {
    hide LawAt, CompactionCut;
    assert later == events + later[|events|..] && later[..n] == events[..n];
    LawStays(events, later[|events|..], n, k, thread);
  }

  /**
    Record the compactions one harness turn reported.  `events` is the log as the turn
    began, so every one of them keeps the same entry; the compaction law holds of each.
   */
  method RecordCompactions(log: SessionLog, thread: ThreadId, events: seq<Event>,
                           compactions: seq<Compaction>, timestamp: int)
    requires log.Valid() && Lived(log.entries) && events <= log.entries
    modifies log
    ensures log.Valid() && Lived(log.entries)
    ensures |log.entries| == |old(log.entries)| + |compactions| && old(log.entries) <= log.entries
    ensures forall k :: 0 <= k < |compactions| ==>
      RecordedAt(log.entries, |events|, |old(log.entries)| + k, thread, compactions[k])
  {
    hide Lived, RecordedAt;
    ghost var start := |log.entries|;
    for k := 0 to |compactions|
      invariant log.Valid() && Lived(log.entries) && events <= log.entries
      invariant |log.entries| == start + k && old(log.entries) <= log.entries
      invariant forall j :: 0 <= j < k ==> RecordedAt(log.entries, |events|, start + j, thread, compactions[j])
    {
      ghost var here := log.entries;
      WriteCompaction(log, thread, events, compactions[k], timestamp);
      forall j | 0 <= j < k ensures RecordedAt(log.entries, |events|, start + j, thread, compactions[j]) {
        RecordedStays(here, log.entries, |events|, start + j, thread, compactions[j]);
      }
    }
  }

  /** The latest request seen before is still visible, behind compactions only, and no older fact but compactions is. */
  ghost predicate RequestKept(seen: seq<Event>, sees: seq<Event>) {
    forall u: nat :: LatestRequest(seen, u) ==> KeptAt(seen, u, sees)
  }

  predicate KeptAt(seen: seq<Event>, u: nat, sees: seq<Event>) {
    && u < |seen| && seen[u] in sees
    && WithoutCompactions(sees) != [] && WithoutCompactions(sees)[0] == seen[u]
    && forall j :: 0 <= j < u && !seen[j].fact.ThreadCompacted? ==> seen[j] !in sees
  }

  lemma CompactedKeepsRequest(before: seq<Event>, n: nat, thread: ThreadId, written: Event, sees: seq<Event>)
    requires Lived(before) && n <= |before|
    requires CompactedSince(MemoryOf(before[..n], thread), LaneFacts(before[n..], ThreadLane(thread)), written, sees)
    ensures RequestKept(MemoryOf(before[..n], thread), sees)
  {
    hide Lived, MemoryOf, LaneFacts, CompactedSince, Distinct, LatestRequest, WithoutCompactions;
    var seen, since := MemoryOf(before[..n], thread), LaneFacts(before[n..], ThreadLane(thread));
    SeenOnceBefore(before, n, thread);
    forall u: nat | LatestRequest(seen, u) ensures KeptAt(seen, u, sees) {
      LatestIsThere(seen, u);
      RequestStaysVisible(seen, since, written, sees, u);
    }
  }

  lemma LatestIsThere(view: seq<Event>, u: nat)
    requires LatestRequest(view, u)
    ensures u < |view|
  {
  }

  /** What a thread remembered it has once, and none of it was recorded since. */
  lemma SeenOnceBefore(before: seq<Event>, n: nat, thread: ThreadId)
    requires Lived(before) && n <= |before|
    ensures var seen := MemoryOf(before[..n], thread);
      Distinct(seen) && forall e :: e in seen ==> e !in LaneFacts(before[n..], ThreadLane(thread))
  {
    hide LaneFacts, MemoryOf, RawMemory, CompactedView;
    var lane := ThreadLane(thread);
    LivedPrefix(before, n);
    MemoryReachesOnce(before[..n], lane);
    MemoryOfIsMemory(before[..n], thread);
    InLaneFacts(before[n..], lane);
    forall e | e in MemoryOf(before[..n], thread) ensures e !in before[n..] {
      InView(RawMemory(before[..n], lane), e);
      MemoryOnLineage(before[..n], lane, e);
      NotTwice(before, n, e);
    }
  }

  lemma NotTwice(events: seq<Event>, n: nat, e: Event)
    requires Grown(events) && n <= |events| && e in events[..n]
    ensures e !in events[n..]
  {
    hide StampedAt;
    var i :| 0 <= i < n && events[..n][i] == e;
    forall j | 0 <= j < |events[n..]| ensures events[n..][j] != e {
      GrownIdsDiffer(events, i, n + j);
    }
  }

  /**
    Compact: record what the harness made of the log it was handed, `events`.  When the thread
    has not branched since, its new memory is the compaction and, other compactions apart, the
    facts that were visible from the cut on and what it recorded meanwhile.
   */
  method Compact(log: SessionLog, thread: ThreadId, events: seq<Event>, compaction: Compaction, timestamp: int)
    requires log.Valid() && Lived(log.entries) && events <= log.entries
    modifies log
    ensures log.Valid() && Lived(log.entries)
    ensures |log.entries| == |old(log.entries)| + 1 && old(log.entries) <= log.entries
    ensures RecordedAt(log.entries, |events|, |old(log.entries)|, thread, compaction)
    ensures var since := LaneFacts(old(log.entries)[|events|..], ThreadLane(thread));
      CompactionCut(events, thread).Some? && NoBranch(since) ==>
        && CompactedSince(MemoryOf(events, thread), since, log.entries[|old(log.entries)|],
                          MemoryOf(log.entries, thread))
        && RequestKept(MemoryOf(events, thread), MemoryOf(log.entries, thread))
  {
    hide Lived, CompactionCut, MemoryOf, LaneFacts, NoBranch, CompactedSince, RequestKept;
    ghost var before := log.entries;
    WriteCompaction(log, thread, events, compaction, timestamp);
    ghost var k := |before|;
    assert log.entries[..|events|] == events && log.entries[|events|..k] == before[|events|..];
    assert log.entries[..k + 1] == log.entries && before[..|events|] == events;
    if CompactionCut(events, thread).Some? && NoBranch(LaneFacts(before[|events|..], ThreadLane(thread))) {
      CompactedKeepsRequest(before, |events|, thread, log.entries[k], MemoryOf(log.entries, thread));
    }
  }

  // ---- where fidelity stops ----

  /** When an older cut is no older than what the source's last cut keeps, a fork does not see what the source saw. */
  lemma DoubleCutHidesSource(events: seq<Event>, n: nat, source: ThreadId, target: ThreadId, b: nat, i: nat)
    requires Lived(events) && ForkOf(events, n, ThreadLane(source), ThreadLane(target), b)
    requires NoCompaction(LaneFacts(events, ThreadLane(target)))
    requires var path := RawMemory(events[..n], ThreadLane(source)); var j := LastCompaction(path);
      i < j && path[i].fact.ThreadCompacted? && FirstIndexOf(path, path[j].fact.firstKept) <= i
    ensures MemoryOf(events, target) != MemoryOf(events[..n], source) + LaneFacts(events, ThreadLane(target))
  {
    LivedPrefix(events, n);
    MemoryReachesOnce(events[..n], ThreadLane(source));
    ForkSeesSource(events, n, source, target, b);
  }

  /**
    So it is after a turn that reported two compactions: recorded one after the other at the cut
    of the log as the turn began, they hide the source from every fork until it compacts again.
   */
  lemma TwoReportsHideSource(events: seq<Event>, n: nat, a: nat, first: Compaction, second: Compaction,
                             m: nat, source: ThreadId, target: ThreadId, b: nat)
    requires Lived(events) && ForkOf(events, m, ThreadLane(source), ThreadLane(target), b)
    requires NoCompaction(LaneFacts(events, ThreadLane(target)))
    requires RecordedAt(events, n, a, source, first) && RecordedAt(events, n, a + 1, source, second) && a + 2 <= m
    requires CompactionCut(events[..n], source).Some?
    requires NoBranch(LaneFacts(events[n..m], ThreadLane(source)))
        && NoCompaction(LaneFacts(events[a + 2..m], ThreadLane(source)))
    ensures MemoryOf(events, target) != MemoryOf(events[..m], source) + LaneFacts(events, ThreadLane(target))
  {
    hide Lived, LaneFacts, RawMemory, FirstIndexOf, LastCompaction, LawAt, CompactionCut, NoBranch;
    var lane := ThreadLane(source);
    var older, since := RawMemory(events[..n], lane), LaneFacts(events[n..a], lane);
    var later := LaneFacts(events[a + 2..m], lane);
    MemoryWithTwoCuts(events, n, a, m, lane);
    LivedPrefix(events, n);
    assert events[..n][..n] == events[..n];
    CutIsRemembered(events[..n], n, source);
    TwoCutsOnPath(older, since, events[a], events[a + 1], later);
    DoubleCutHidesSource(events, m, source, target, b, |older| + |since|);
  }

  lemma MemoryWithTwoCuts(events: seq<Event>, n: nat, a: nat, m: nat, lane: Lane)
    requires Lived(events) && n <= a && a + 2 <= m <= |events|
    requires LaneOf(events[a]) == lane && LaneOf(events[a + 1]) == lane && NoBranch(LaneFacts(events[n..m], lane))
    ensures RawMemory(events[..m], lane)
         == RawMemory(events[..n], lane) + LaneFacts(events[n..a], lane) + [events[a]] + [events[a + 1]]
            + LaneFacts(events[a + 2..m], lane)
  {
    hide Lived, LaneFacts, RawMemory, NoBranch;
    LivedPrefix(events, m);
    assert events[..m][..n] == events[..n] && events[..m][n..] == events[n..m];
    LivedIsForked(events[..m]);
    RawMemoryGrows(events[..m], n, lane);
    var front, back := events[n..a], events[a + 2..m];
    assert events[n..m] == ((front + [events[a]]) + [events[a + 1]]) + back;
    LaneFactsAppend((front + [events[a]]) + [events[a + 1]], back, lane);
    LaneFactsAppend(front + [events[a]], [events[a + 1]], lane);
    LaneFactsAppend(front, [events[a]], lane);
    LaneOfOne(events[a]);
    LaneOfOne(events[a + 1]);
    FiveParts(RawMemory(events[..n], lane), LaneFacts(front, lane), [events[a]], [events[a + 1]],
              LaneFacts(back, lane));
  }

  lemma FiveParts(a: seq<Event>, b: seq<Event>, c: seq<Event>, d: seq<Event>, e: seq<Event>)
    ensures a + (((b + c) + d) + e) == a + b + c + d + e
  {
  }

  lemma LivedIsForked(events: seq<Event>)
    requires Lived(events)
    ensures ForkedFromKnown(events)
  {
  }

  /** Two cuts in a row that keep an older entry: the first is no older than what the last keeps. */
  lemma TwoCutsOnPath(older: seq<Event>, since: seq<Event>, first: Event, second: Event, later: seq<Event>)
    requires first.fact.ThreadCompacted? && second.fact.ThreadCompacted? && NoCompaction(later)
    requires FirstIndexOf(older, second.fact.firstKept) >= 0
    ensures var path := older + since + [first] + [second] + later; var i := |older| + |since|;
      && LastCompaction(path) == i + 1 && path[i] == first && path[i + 1] == second
      && FirstIndexOf(path, second.fact.firstKept) <= i
  {
    hide FirstIndexOf, LastCompaction;
    var front := older + since + [first];
    Regroup(front, [second], later);
    HeadIsLastCompaction(second, later);
    LastInBack(front, [second] + later);
    FiveParts(older, since, [first], [second], later);
    FirstInFront(older, ((since + [first]) + [second]) + later, second.fact.firstKept);
    CutPlaces(front, second, later, first);
  }

  lemma CutPlaces(front: seq<Event>, second: Event, later: seq<Event>, first: Event)
    requires front != [] && front[|front| - 1] == first
    ensures (front + [second] + later)[|front| - 1] == first && (front + [second] + later)[|front|] == second
  {
  }

  lemma FirstInFront(a: seq<Event>, b: seq<Event>, id: EventId)
    requires FirstIndexOf(a, id) >= 0
    ensures FirstIndexOf(a + b, id) == FirstIndexOf(a, id)
  {
    hide FirstIndexOf;
    FirstIndexIs(a + b, id, FirstIndexOf(a, id));
  }

  /** The shortest such session: a request, the two compactions one turn reported, and a fork. */
  ghost predicate DoubleCut(asked: Event, first: Event, second: Event, forked: Event) {
    && asked.parentId == None && asked.seqNo == 0 && IsUserMessage(asked)
    && first.parentId == Some(asked.id) && first.seqNo == 1 && first.fact.ThreadCompacted?
    && second.parentId == Some(first.id) && second.seqNo == 2 && second.fact.ThreadCompacted?
    && forked.parentId == None && forked.seqNo == 3 && forked.fact.ThreadBranched?
    && first.fact.firstKept == second.fact.firstKept == asked.id && forked.fact.fromId == second.id
    && LaneOf(asked) == LaneOf(first) == LaneOf(second) != LaneOf(forked)
    && asked.id != first.id && asked.id != second.id && asked.id != forked.id
    && first.id != second.id && first.id != forked.id && second.id != forked.id
  }

  /** In it the fork has lost the newer of its source's two summaries. */
  lemma DoubleCutLosesSummary(asked: Event, first: Event, second: Event, forked: Event)
    requires DoubleCut(asked, first, second, forked)
    ensures var log := [asked, first, second, forked];
      && Lived(log) && ForkOf(log, 3, LaneOf(asked), LaneOf(forked), 3)
      && MemoryOf(log[..3], asked.fact.thread) == [second, asked, first]
      && MemoryOf(log, forked.fact.thread) == [first, asked, forked]
  {
    var three := [asked, first, second];
    DoubleCutSession(asked, first, second, forked);
    DoubleCutFork(asked, first, second, forked);
    assert three + [forked] == [asked, first, second, forked];
    assert (three + [forked])[..3] == three;
    DoubleCutSource(asked, first, second, forked);
    DoubleCutMemory(asked, first, second, forked);
    MemoryOfIsMemory(three, asked.fact.thread);
    MemoryOfIsMemory(three + [forked], forked.fact.thread);
  }

  lemma DoubleCutSource(asked: Event, first: Event, second: Event, forked: Event)
    requires DoubleCut(asked, first, second, forked) && Lived([asked, first, second])
    ensures Memory([asked, first, second], LaneOf(asked)) == [second, asked, first]
  {
    UnforkedMemory([asked, first, second], LaneOf(asked));
    DoubleCutLane(asked, first, second, forked);
    DoubleCutViews(asked, first, second, forked);
  }

  lemma UnforkedMemory(events: seq<Event>, lane: Lane)
    requires Lived(events) && NoBranch(events)
    ensures Memory(events, lane) == CompactedView(LaneFacts(events, lane))
  {
    assert forall k :: 0 <= k < |events| ==> events[k] in events;
    var b := SoleBranch(events, lane);
  }

  lemma DoubleCutMemory(asked: Event, first: Event, second: Event, forked: Event)
    requires DoubleCut(asked, first, second, forked) && Lived([asked, first, second])
    requires var log := [asked, first, second] + [forked];
      Lived(log) && ForkOf(log, 3, LaneOf(asked), LaneOf(forked), 3)
    ensures Memory([asked, first, second] + [forked], LaneOf(forked)) == [first, asked, forked]
  {
    var log := [asked, first, second] + [forked];
    ForkInheritsSource(log, 3, LaneOf(asked), LaneOf(forked), 3);
    assert log[..3] == [asked, first, second];
    DoubleCutSource(asked, first, second, forked);
    DoubleCutLane(asked, first, second, forked);
    DoubleCutViews(asked, first, second, forked);
  }

  lemma DoubleCutViews(asked: Event, first: Event, second: Event, forked: Event)
    requires DoubleCut(asked, first, second, forked)
    ensures CompactedView([asked, first, second]) == [second, asked, first]
    ensures CompactedView([second, asked, first] + [forked]) == [first, asked, forked]
  {
    hide Without, FirstIndexOf, LastCompaction, CompactedView;
    ViewOfKept([], asked, [first], second, []);
    assert [] + [asked] + [first] + [second] + [] == [asked, first, second];
    assert [second] + ([asked] + [first] + []) == [second, asked, first];
    ViewOfKept([second], asked, [], first, [forked]);
    assert [second] + [asked] + [] + [first] + [forked] == [second, asked, first] + [forked];
    assert [first] + ([asked] + [] + [forked]) == [first, asked, forked];
  }

  lemma DoubleCutLane(asked: Event, first: Event, second: Event, forked: Event)
    requires DoubleCut(asked, first, second, forked)
    ensures LaneFacts([asked, first, second], LaneOf(asked)) == [asked, first, second]
    ensures LaneFacts([asked, first, second] + [forked], LaneOf(forked)) == [forked]
  {
    var three := [asked, first, second];
    assert three[..2] == [asked, first];
    assert [asked, first][..1] == [asked];
    assert [asked][..0] == [];
    assert LaneFacts([asked], LaneOf(asked)) == [asked];
    assert LaneFacts([asked, first], LaneOf(asked)) == [asked, first];
    assert (three + [forked])[..3] == three;
    NothingOfLane(three, LaneOf(forked));
  }

  lemma DoubleCutSession(asked: Event, first: Event, second: Event, forked: Event)
    requires DoubleCut(asked, first, second, forked)
    ensures Lived([asked, first, second])
  {
    hide Lived, CompactionCut, LeafOf;
    var one, two := [asked], [asked, first];
    OnlyRequestLived(asked);
    AloneInMemory(asked);
    LeafIsLast([], asked);
    assert [] + one == one && one[..1] == one;
    CutFollows(one, 1, first);
    assert one + [first] == two && two[..1] == one;
    LeafIsLast(one, first);
    CutFollows(two, 1, second);
    assert two + [second] == [asked, first, second];
  }

  lemma OnlyRequestLived(asked: Event)
    requires asked.parentId == None && asked.seqNo == 0 && IsUserMessage(asked)
    ensures Lived([asked])
  {
  }

  lemma LeafIsLast(events: seq<Event>, e: Event)
    ensures LeafOf(events + [e], LaneOf(e)) == Some(e.id)
  {
  }

  lemma CutFollows(events: seq<Event>, n: nat, cut: Event)
    requires Lived(events) && n <= |events| && Unused(events, cut.id) && cut.fact.ThreadCompacted?
    requires CompactionCut(events[..n], cut.fact.thread) == Some(cut.fact.firstKept)
    requires cut.parentId == LeafOf(events, LaneOf(cut)) && cut.seqNo == |events|
    ensures Lived(events + [cut])
  {
    hide Lived, CompactionCut, LeafOf;
    assert Stamp(Draft(cut.id, cut.fact), events, cut.timestamp) == cut;
    CompactionWriteKeepsSession(events, n, Draft(cut.id, cut.fact), cut.timestamp);
  }

  lemma AloneInMemory(asked: Event)
    requires Lived([asked]) && IsUserMessage(asked)
    ensures CompactionCut([asked], asked.fact.thread) == Some(asked.id)
  {
    UnforkedMemory([asked], LaneOf(asked));
    LaneOfOne(asked);
    MemoryOfIsMemory([asked], asked.fact.thread);
    PlainPathIsItsView([asked]);
    OnlyRequestIsCut([asked], asked.fact.thread, asked);
  }

  lemma LaneOfOne(e: Event)
    ensures LaneFacts([e], LaneOf(e)) == [e]
  {
  }

  lemma OnlyRequestIsCut(events: seq<Event>, thread: ThreadId, e: Event)
    requires MemoryOf(events, thread) == [e] && IsUserMessage(e)
    ensures CompactionCut(events, thread) == Some(e.id)
  {
  }

  lemma PlainPathIsItsView(path: seq<Event>)
    requires NoCompaction(path)
    ensures CompactedView(path) == path
  {
  }

  lemma DoubleCutFork(asked: Event, first: Event, second: Event, forked: Event)
    requires DoubleCut(asked, first, second, forked)
    requires Lived([asked, first, second])
    ensures var log := [asked, first, second] + [forked];
      Lived(log) && ForkOf(log, 3, LaneOf(asked), LaneOf(forked), 3)
  {
    var three := [asked, first, second];
    var leaf := LeafIsNearest(three, LaneOf(forked));
    BranchWriteKeepsSession(three, Draft(forked.id, forked.fact), forked.timestamp, 2);
    assert (three + [forked])[..3] == three;
  }

  /** The view of a path whose last cut keeps the entry `kept`. */
  lemma ViewOfKept(older: seq<Event>, kept: Event, middle: seq<Event>, cut: Event, newer: seq<Event>)
    requires cut.fact.ThreadCompacted? && NoCompaction(newer) && cut.fact.firstKept == kept.id
    requires forall e :: e in older ==> e.id != kept.id
    requires forall e :: e in [kept] + middle + newer ==> e.id != cut.id
    ensures CompactedView(older + [kept] + middle + [cut] + newer) == [cut] + ([kept] + middle + newer)
  {
    hide Without, FirstIndexOf, LastCompaction;
    var front, back := [kept] + middle, [cut] + newer;
    Regroup(older, [kept], middle);
    Regroup(older + front, [cut], newer);
    Regroup(older, front, back);
    assert (front + back)[0] == kept;
    TailAt(older, front + back, kept.id);
    HeadIsLastCompaction(cut, newer);
    LastInBack(older + front, back);
    assert ((older + front) + back)[|older + front|] == cut;
    KeptPiece(front, cut, newer);
  }

  /** Taking the cut out of the part it keeps. */
  lemma KeptPiece(front: seq<Event>, cut: Event, newer: seq<Event>)
    requires forall e :: e in front + newer ==> e.id != cut.id
    ensures Without(front + ([cut] + newer), cut.id) == front + newer
  {
    hide Without;
    WithoutAppend(front, [cut] + newer, cut.id);
    assert forall e :: e in front ==> e in front + newer;
    WithoutAbsent(front, cut.id);
    assert forall e :: e in newer ==> e in front + newer;
    WithoutHead(cut, newer);
  }
}
