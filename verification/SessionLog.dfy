/** The append-only log and the stamp that links each fact to its lane's last one. */
module SessionLogs {
  import opened Primitives
  import opened SessionEvents

  /** The last event of the lane, searched from the end of the log. */
  function LeafOf(events: seq<Event>, lane: Lane): Option<EventId> {
    if events == [] then None
    else if LaneOf(events[|events| - 1]) == lane then Some(events[|events| - 1].id)
    else LeafOf(events[..|events| - 1], lane)
  }

  method FindLeaf(events: seq<Event>, lane: Lane) returns (leaf: Option<EventId>)
    ensures leaf == LeafOf(events, lane)
  {
    var index := |events|;
    assert events[..index] == events;
    while index > 0
      invariant 0 <= index <= |events|
      invariant LeafOf(events, lane) == LeafOf(events[..index], lane)
    {
      assert events[..index][..index - 1] == events[..index - 1];
      if LaneOf(events[index - 1]) == lane {
        return Some(events[index - 1].id);
      }
      index := index - 1;
    }
    leaf := None;
  }

  /** The facts of one lane, in log order: the simple meaning of a lane. */
  function LaneFacts(events: seq<Event>, lane: Lane): (facts: seq<Event>)
    ensures |facts| <= |events|
  {
    if events == [] then []
    else
      var last := events[|events| - 1];
      LaneFacts(events[..|events| - 1], lane) + if LaneOf(last) == lane then [last] else []
  }

  lemma {:induction false} InLaneFacts(events: seq<Event>, lane: Lane)
    ensures forall e :: e in LaneFacts(events, lane) <==> e in events && LaneOf(e) == lane
  {
    if events != [] {
      InLaneFacts(events[..|events| - 1], lane);
      assert events == events[..|events| - 1] + [events[|events| - 1]];
    }
  }

  predicate FreshId(events: seq<Event>, id: EventId) {
    forall k :: 0 <= k < |events| ==> events[k].id != id
  }

  function Stamp(draft: Draft, events: seq<Event>, timestamp: int): Event {
    Event(draft.id, LeafOf(events, LaneOfFact(draft.fact)), |events|, timestamp, draft.fact)
  }

  predicate StampedAt(events: seq<Event>, k: nat)
    requires k < |events|
  {
    && events[k] == Stamp(Draft(events[k].id, events[k].fact), events[..k], events[k].timestamp)
    && FreshId(events[..k], events[k].id)
  }

  /** A log every entry of which was written by `Write` under a fresh id. */
  predicate Grown(events: seq<Event>) {
    forall k :: 0 <= k < |events| ==> StampedAt(events, k)
  }

  lemma GrownPrefix(events: seq<Event>, n: nat)
    requires Grown(events) && n <= |events|
    ensures Grown(events[..n])
  {
    forall k | 0 <= k < n
      ensures StampedAt(events[..n], k)
    {
      assert StampedAt(events, k);
      assert events[..n][..k] == events[..k];
    }
  }

  lemma GrownAppend(events: seq<Event>, draft: Draft, timestamp: int)
    requires Grown(events) && FreshId(events, draft.id)
    ensures Grown(events + [Stamp(draft, events, timestamp)])
  {
    var after := events + [Stamp(draft, events, timestamp)];
    forall k | 0 <= k < |after|
      ensures StampedAt(after, k)
    {
      if k < |events| {
        assert StampedAt(events, k);
        assert after[..k] == events[..k];
      } else {
        assert after[..k] == events;
      }
    }
  }

  lemma GrownIdsDiffer(events: seq<Event>, j: nat, k: nat)
    requires Grown(events) && j < k < |events|
    ensures events[j].id != events[k].id
  {
    assert StampedAt(events, k);
    assert events[..k][j].id == events[j].id;
  }

  /** The log is the only state; every view of it is a function of `entries`. */
  class SessionLog {
    var entries: seq<Event>

    ghost predicate Valid()
      reads this
    {
      Grown(entries)
    }

    constructor ()
      ensures Valid() && entries == []
    {
      entries := [];
    }

    method Write(draft: Draft, timestamp: int)
      requires Valid() && FreshId(entries, draft.id)
      modifies this
      ensures Valid()
      ensures entries == old(entries) + [Stamp(draft, old(entries), timestamp)]
    {
      var leaf := FindLeaf(entries, LaneOfFact(draft.fact));
      var stamped := Event(draft.id, leaf, |entries|, timestamp, draft.fact);
      GrownAppend(entries, draft, timestamp);
      entries := entries + [stamped];
    }
  }
}
