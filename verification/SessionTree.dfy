/** Walking parent links back from a leaf, and why that walk is the lane's own facts. */
module SessionTree {
  import opened Primitives
  import opened SessionEvents
  import opened SessionLogs

  /** Later entries win, as when a `Map` is built from pairs. */
  function ById(events: seq<Event>): map<EventId, Event> {
    if events == [] then map[]
    else ById(events[..|events| - 1])[events[|events| - 1].id := events[|events| - 1]]
  }

  /**
    The path that ends at `current`, root first.  The walk stops at a null parent,
    at an id it has already seen, and at an id the log does not know.
   */
  function Walk(byId: map<EventId, Event>, current: Option<EventId>, seen: set<EventId>): seq<Event>
    decreases |byId.Keys - seen|
  {
    if current.None? || current.value in seen || current.value !in byId then []
    else
      SeenGrows(byId.Keys, seen, current.value);
      Walk(byId, byId[current.value].parentId, seen + {current.value}) + [byId[current.value]]
  }

  lemma SeenGrows(known: set<EventId>, seen: set<EventId>, id: EventId)
    requires id in known && id !in seen
    ensures |known - (seen + {id})| < |known - seen|
  {
    assert known - seen == (known - (seen + {id})) + {id};
  }

  function Reversed<T>(s: seq<T>): seq<T> {
    if s == [] then [] else Reversed(s[1..]) + [s[0]]
  }

  lemma ReversedSnoc<T>(s: seq<T>, x: T)
    ensures Reversed(s + [x]) == [x] + Reversed(s)
  {
    if s == [] {
    } else {
      assert (s + [x])[1..] == s[1..] + [x];
      ReversedSnoc(s[1..], x);
    }
  }

  lemma WalkStep(byId: map<EventId, Event>, id: EventId, seen: set<EventId>)
    requires id in byId && id !in seen
    ensures Walk(byId, Some(id), seen) == Walk(byId, byId[id].parentId, seen + {id}) + [byId[id]]
  {
  }

  lemma Regroup<T>(a: seq<T>, b: seq<T>, c: seq<T>)
    ensures (a + b) + c == a + (b + c)
  {
  }

  method PathIn(byId: map<EventId, Event>, leafId: EventId) returns (path: seq<Event>)
    ensures path == Walk(byId, Some(leafId), {})
  {
    path := [];
    var seen: set<EventId> := {};
    var current := Some(leafId);
    while current.Some?
      invariant Walk(byId, Some(leafId), {}) == Walk(byId, current, seen) + Reversed(path)
      decreases |byId.Keys - seen|
    {
      if current.value in seen {
        break;
      }
      var id := current.value;
      if id !in byId {
        break;
      }
      SeenGrows(byId.Keys, seen, id);
      WalkStep(byId, id, seen);
      Regroup(Walk(byId, byId[id].parentId, seen + {id}), [byId[id]], Reversed(path));
      seen := seen + {id};
      ReversedSnoc(path, byId[id]);
      path := path + [byId[id]];
      current := byId[id].parentId;
    }
    path := ReverseInOrder(path);
  }

  method ReverseInOrder(s: seq<Event>) returns (r: seq<Event>)
    ensures r == Reversed(s)
  {
    r := [];
    for k := 0 to |s|
      invariant r == Reversed(s[..k])
    {
      ReversedSnoc(s[..k], s[k]);
      assert s[..k + 1] == s[..k] + [s[k]];
      r := [s[k]] + r;
    }
    assert s[..|s|] == s;
  }

  function PathFromLeaf(events: seq<Event>, leafId: EventId): seq<Event> {
    Walk(ById(events), Some(leafId), {})
  }

  function PathOfLane(events: seq<Event>, lane: Lane): seq<Event> {
    var leaf := LeafOf(events, lane);
    if leaf.None? then [] else PathFromLeaf(events, leaf.value)
  }

  // ---- walks on any log ----

  lemma ByIdKeepsIds(events: seq<Event>)
    ensures forall id :: id in ById(events) ==> ById(events)[id].id == id && ById(events)[id] in events
  {
  }

  /** Of entries with one id the last is the one found. */
  lemma {:induction false} LaterEntryWins(events: seq<Event>, k: nat)
    requires k < |events| && forall j :: k < j < |events| ==> events[j].id != events[k].id
    ensures events[k].id in ById(events) && ById(events)[events[k].id] == events[k]
  {
    var n := |events| - 1;
    if k < n {
      assert forall j :: 0 <= j < n ==> events[..n][j] == events[j];
      LaterEntryWins(events[..n], k);
    }
  }

  ghost predicate Keyed(byId: map<EventId, Event>) {
    forall id :: id in byId ==> byId[id].id == id
  }

  ghost predicate Linked(path: seq<Event>) {
    forall k :: 0 < k < |path| ==> path[k].parentId == Some(path[k - 1].id)
  }

  ghost predicate Distinct(path: seq<Event>) {
    forall j, k :: 0 <= j < k < |path| ==> path[j].id != path[k].id
  }

  /** Why a walk that reached `path` could not go on. */
  ghost predicate StopsAt(byId: map<EventId, Event>, parent: Option<EventId>, seen: set<EventId>, path: seq<Event>) {
    || parent.None?
    || parent.value in seen
    || parent.value !in byId
    || exists k :: 0 <= k < |path| && path[k].id == parent.value
  }

  /**
    On any log at all the walk is the longest chain of parent links from its leaf
    that neither repeats an event nor leaves the known ones.
   */
  lemma {:induction false} WalkIsTheChain(byId: map<EventId, Event>, current: Option<EventId>, seen: set<EventId>)
    requires Keyed(byId)
    ensures var path := Walk(byId, current, seen);
      && Linked(path) && Distinct(path)
      && (forall e :: e in path ==> e.id in byId && byId[e.id] == e && e.id !in seen)
      && (path == [] <==> StopsAt(byId, current, seen, []))
      && (path != [] ==>
            && current.Some? && path[|path| - 1].id == current.value
            && StopsAt(byId, path[0].parentId, seen, path))
    decreases |byId.Keys - seen|
  {
    if current.None? || current.value in seen || current.value !in byId {
    } else {
      var event := byId[current.value];
      SeenGrows(byId.Keys, seen, current.value);
      var rest := Walk(byId, event.parentId, seen + {current.value});
      WalkIsTheChain(byId, event.parentId, seen + {current.value});
      ChainGrows(byId, rest, event, seen);
    }
  }

  /** A chain to an event's parent, with the event, is a chain to the event. */
  lemma ChainGrows(byId: map<EventId, Event>, rest: seq<Event>, event: Event, seen: set<EventId>)
    requires event.id in byId && byId[event.id] == event && event.id !in seen
    requires Linked(rest) && Distinct(rest)
    requires forall e :: e in rest ==> e.id in byId && byId[e.id] == e && e.id !in seen + {event.id}
    requires rest == [] <==> StopsAt(byId, event.parentId, seen + {event.id}, [])
    requires rest != [] ==>
      && event.parentId.Some? && rest[|rest| - 1].id == event.parentId.value
      && StopsAt(byId, rest[0].parentId, seen + {event.id}, rest)
    ensures var path := rest + [event];
      && Linked(path) && Distinct(path)
      && (forall e :: e in path ==> e.id in byId && byId[e.id] == e && e.id !in seen)
      && StopsAt(byId, path[0].parentId, seen, path)
  {
    var path := rest + [event];
    assert path[|rest|] == event;
    assert forall k :: 0 <= k < |rest| ==> path[k] == rest[k];
  }

  /** So it is for any log and any leaf, whatever its ids and parents are. */
  lemma PathIsTheChain(events: seq<Event>, leafId: EventId)
    ensures var byId, path := ById(events), PathFromLeaf(events, leafId);
      && Linked(path) && Distinct(path) && (forall e :: e in path ==> e in events)
      && (path == [] <==> leafId !in byId)
      && (path != [] ==>
            && path[|path| - 1].id == leafId
            && StopsAt(byId, path[0].parentId, {}, path))
  {
    ByIdKeepsIds(events);
    WalkIsTheChain(ById(events), Some(leafId), {});
  }

  // ---- walks on a grown log ----

  lemma {:induction false} ByIdFinds(events: seq<Event>, k: nat)
    requires Grown(events) && k < |events|
    ensures events[k].id in ById(events) && ById(events)[events[k].id] == events[k]
  {
    var n := |events| - 1;
    if k < n {
      GrownPrefix(events, n);
      ByIdFinds(events[..n], k);
      GrownIdsDiffer(events, k, n);
    }
  }

  /** A lane's leaf is the last of its facts. */
  lemma {:induction false} LeafEndsTheLane(events: seq<Event>, lane: Lane) returns (leaf: int)
    ensures leaf < 0 ==> LeafOf(events, lane) == None && LaneFacts(events, lane) == []
    ensures leaf >= 0 ==>
      && leaf < |events|
      && LaneOf(events[leaf]) == lane
      && LeafOf(events, lane) == Some(events[leaf].id)
      && LaneFacts(events, lane) == LaneFacts(events[..leaf], lane) + [events[leaf]]
  {
    if events == [] {
      leaf := -1;
    } else {
      var n := |events| - 1;
      if LaneOf(events[n]) == lane {
        leaf := n;
      } else {
        leaf := LeafEndsTheLane(events[..n], lane);
        if leaf >= 0 {
          assert events[..n][..leaf] == events[..leaf];
        }
      }
    }
  }

  lemma {:induction false} WalkFromEntry(events: seq<Event>, k: nat, seen: set<EventId>)
    requires Grown(events) && k < |events|
    requires forall j :: 0 <= j <= k ==> events[j].id !in seen
    ensures Walk(ById(events), Some(events[k].id), seen)
         == LaneFacts(events[..k], LaneOf(events[k])) + [events[k]]
    decreases k
  {
    ByIdFinds(events, k);
    assert StampedAt(events, k);
    var lane := LaneOf(events[k]);
    var next := seen + {events[k].id};
    var leaf := LeafEndsTheLane(events[..k], lane);
    if leaf >= 0 {
      forall j | 0 <= j <= leaf
        ensures events[j].id !in next
      {
        GrownIdsDiffer(events, j, k);
      }
      WalkFromEntry(events, leaf, next);
      assert events[..k][..leaf] == events[..leaf];
    }
  }

  /** The linked walk refines the filter. */
  lemma PathOfLaneIsLaneFacts(events: seq<Event>, lane: Lane)
    requires Grown(events)
    ensures PathOfLane(events, lane) == LaneFacts(events, lane)
  {
    var leaf := LeafEndsTheLane(events, lane);
    if leaf >= 0 {
      WalkFromEntry(events, leaf, {});
    }
  }

  /** Every parent link leads to an older entry of the same lane, with nothing of the lane in between. */
  lemma ParentsAreOlder(events: seq<Event>, k: nat)
    requires Grown(events) && k < |events|
    ensures events[k].seqNo == k
    ensures match events[k].parentId
      case None => forall j :: 0 <= j < k ==> LaneOf(events[j]) != LaneOf(events[k])
      case Some(id) =>
        exists j ::
          && 0 <= j < k && events[j].id == id && events[j].seqNo < events[k].seqNo
          && LaneOf(events[j]) == LaneOf(events[k])
          && forall i :: j < i < k ==> LaneOf(events[i]) != LaneOf(events[k])
  {
    assert StampedAt(events, k);
    var j := LeafIsNearest(events[..k], LaneOf(events[k]));
    if j >= 0 {
      assert events[..k][j] == events[j];
      assert StampedAt(events, j);
    }
  }

  lemma {:induction false} LeafIsNearest(events: seq<Event>, lane: Lane) returns (leaf: int)
    ensures -1 <= leaf < |events|
    ensures LeafOf(events, lane) == if leaf < 0 then None else Some(events[leaf].id)
    ensures leaf >= 0 ==> LaneOf(events[leaf]) == lane
    ensures forall i :: leaf < i < |events| ==> LaneOf(events[i]) != lane
  {
    if events == [] {
      leaf := -1;
    } else if LaneOf(events[|events| - 1]) == lane {
      leaf := |events| - 1;
    } else {
      leaf := LeafIsNearest(events[..|events| - 1], lane);
    }
  }
}
