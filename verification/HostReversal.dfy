/** The recursion of a deactivation: when it ends, and what it leaves. */
module HostReversal {
  import opened Primitives
  import opened SessionEvents
  import opened HostGraph
  import opened HostLeaning
  import opened HostCascade

  /** Close a plugin's live scope and record it; nothing when it has gone already. */
  function ReverseOne(g: Graph, id: PluginId): Graph {
    var i := ActiveIndex(g.active, id);
    if i < 0 then g
    else
      var closed := Closing(g, id, g.active[i].marker, g.active[i].tokens);
      closed.(facts := Journal(closed.facts, PluginDeactivated(id, HostScope)))
  }

  /** The cascade above `id`, as far as `fuel` nested calls take it; none when they run out. */
  function CascadeRun(g: Graph, id: PluginId, fuel: nat): Option<Graph>
    decreases fuel, 0
  {
    if fuel == 0 then None
    else if (id in g.byId && g.byId[id].scope == ThreadScope) || !IsActive(g, id) then Some(g)
    else
      var middle := CascadeEach(g, Dependents(g, id, |g.active|), fuel - 1);
      if middle.None? then None else Some(ReverseOne(middle.value, id))
  }

  function CascadeEach(g: Graph, ids: seq<PluginId>, fuel: nat): Option<Graph>
    decreases fuel, |ids| + 1
  {
    if ids == [] then Some(g)
    else
      var before := CascadeEach(g, ids[..|ids| - 1], fuel);
      if before.None? then None else CascadeRun(before.value, ids[|ids| - 1], fuel)
  }

  lemma EachOneMore(g: Graph, ids: seq<PluginId>, k: nat, fuel: nat)
    requires k < |ids| && CascadeEach(g, ids[..k + 1], fuel).Some?
    ensures CascadeEach(g, ids[..k], fuel).Some?
    ensures CascadeEach(g, ids[..k + 1], fuel) == CascadeRun(CascadeEach(g, ids[..k], fuel).value, ids[k], fuel)
  {
    hide CascadeRun;
    assert ids[..k + 1][..k] == ids[..k];
  }

  lemma {:induction false} EachPrefixes(g: Graph, ids: seq<PluginId>, fuel: nat)
    requires CascadeEach(g, ids, fuel).Some?
    ensures CascadeEach(g, ids[..0], fuel) == Some(g)
    ensures forall k :: 0 <= k <= |ids| ==> CascadeEach(g, ids[..k], fuel).Some?
  {
    hide CascadeRun;
    assert ids[..|ids|] == ids;
    if ids != [] {
      var n := |ids| - 1;
      EachPrefixes(g, ids[..n], fuel);
      assert forall k :: 0 <= k <= n ==> ids[..n][..k] == ids[..k];
    }
  }

  // ---- more calls change nothing ----

  lemma {:induction false} RunMoreFuel(g: Graph, id: PluginId, fuel: nat, more: nat)
    requires fuel <= more && CascadeRun(g, id, fuel).Some?
    ensures CascadeRun(g, id, more) == CascadeRun(g, id, fuel)
    decreases fuel, 0
  {
    hide ReverseOne, Dependents, ActiveIndex;
    if !((id in g.byId && g.byId[id].scope == ThreadScope) || !IsActive(g, id)) {
      EachMoreFuel(g, Dependents(g, id, |g.active|), fuel - 1, more - 1);
    }
  }

  lemma {:induction false} EachMoreFuel(g: Graph, ids: seq<PluginId>, fuel: nat, more: nat)
    requires fuel <= more && CascadeEach(g, ids, fuel).Some?
    ensures CascadeEach(g, ids, more) == CascadeEach(g, ids, fuel)
    decreases fuel, |ids| + 1
  {
    hide CascadeRun;
    if ids != [] {
      EachMoreFuel(g, ids[..|ids| - 1], fuel, more);
      RunMoreFuel(CascadeEach(g, ids[..|ids| - 1], fuel).value, ids[|ids| - 1], fuel, more);
    }
  }

  // ---- a circle is never left ----

  /** Each of these active host plugins is needed by another of them. */
  ghost predicate Trap(g: Graph, s: set<PluginId>) {
    forall x :: x in s ==> Trapped(g, s, x)
  }

  ghost predicate Trapped(g: Graph, s: set<PluginId>, x: PluginId) {
    && IsActive(g, x) && !(x in g.byId && g.byId[x].scope == ThreadScope)
    && exists d :: d in s && d != x && Needs(g, d, x)
  }

  lemma {:induction false} InDependents(g: Graph, id: PluginId, n: nat, d: PluginId)
    requires n <= |g.active| && Needs(g, d, id) && d != id && ActiveIndex(g.active, d) < n
    ensures d in Dependents(g, id, n)
  {
    hide ActiveIndex, Dependents;
    if ActiveIndex(g.active, d) < n - 1 {
      InDependents(g, id, n - 1, d);
      DependentsGrow(g, id, n);
    } else {
      LastIsDependent(g, id, n, d);
    }
  }

  lemma DependentsGrow(g: Graph, id: PluginId, n: nat)
    requires 0 < n <= |g.active|
    ensures forall d :: d in Dependents(g, id, n - 1) ==> d in Dependents(g, id, n)
  {
  }

  lemma LastIsDependent(g: Graph, id: PluginId, n: nat, d: PluginId)
    requires 0 < n <= |g.active| && Needs(g, d, id) && d != id && ActiveIndex(g.active, d) == n - 1
    ensures d in Dependents(g, id, n)
  {
    hide ActiveIndex;
  }

  lemma RemovedIndex(active: seq<Activation>, i: nat, x: PluginId)
    requires i < |active| && active[i].plugin.id != x
    ensures var rest := active[..i] + active[i + 1..];
      && (ActiveIndex(rest, x) >= 0 <==> ActiveIndex(active, x) >= 0)
      && (ActiveIndex(rest, x) >= 0 ==> rest[ActiveIndex(rest, x)] == active[ActiveIndex(active, x)])
  {
    hide ActiveIndex;
    var rest := active[..i] + active[i + 1..];
    assert forall k :: 0 <= k < i ==> rest[k] == active[k];
    assert forall k :: i <= k < |rest| ==> rest[k] == active[k + 1];
    var k := ActiveIndex(active, x);
    if k >= 0 {
      assert rest[if k < i then k else k - 1] == active[k];
    }
  }

  lemma ReverseOneLeaves(g: Graph, id: PluginId, x: PluginId, y: PluginId)
    requires x != id && y != id
    ensures var after := ReverseOne(g, id);
      && (IsActive(after, x) <==> IsActive(g, x)) && (Needs(after, x, y) <==> Needs(g, x, y))
      && after.byId == g.byId
  {
    hide ActiveIndex, StoreWithout, Journal;
    var i := ActiveIndex(g.active, id);
    if i >= 0 {
      RemovedIndex(g.active, i, x);
    }
  }

  lemma TrapStays(g: Graph, id: PluginId, s: set<PluginId>)
    requires Trap(g, s) && id !in s
    ensures Trap(ReverseOne(g, id), s)
  {
    hide ReverseOne, Needs, ActiveIndex;
    forall x | x in s ensures Trapped(ReverseOne(g, id), s, x) {
      assert Trapped(g, s, x);
      var d :| d in s && d != x && Needs(g, d, x);
      ReverseOneLeaves(g, id, x, x);
      ReverseOneLeaves(g, id, d, x);
    }
  }

  /** A cascade that ends began outside every circle, and leaves each of them as it was. */
  lemma {:induction false} TrapHolds(g: Graph, id: PluginId, fuel: nat, s: set<PluginId>)
    requires Trap(g, s) && CascadeRun(g, id, fuel).Some?
    ensures id !in s && Trap(CascadeRun(g, id, fuel).value, s)
    decreases fuel, 0
  {
    hide ReverseOne, Needs, Dependents, ActiveIndex, Trap;
    var thread := id in g.byId && g.byId[id].scope == ThreadScope;
    if thread || !IsActive(g, id) {
      NotTrapped(g, id, s);
    } else {
      var ids := Dependents(g, id, |g.active|);
      TrapHoldsEach(g, ids, fuel - 1, s);
      if id in s {
        var d := TrappedBy(g, id, s);
      }
      TrapStays(CascadeEach(g, ids, fuel - 1).value, id, s);
    }
  }

  lemma NotTrapped(g: Graph, id: PluginId, s: set<PluginId>)
    requires Trap(g, s) && ((id in g.byId && g.byId[id].scope == ThreadScope) || !IsActive(g, id))
    ensures id !in s
  {
    hide Needs, ActiveIndex;
    assert id in s ==> Trapped(g, s, id);
  }

  lemma TrappedBy(g: Graph, id: PluginId, s: set<PluginId>) returns (d: PluginId)
    requires Trap(g, s) && id in s
    ensures d in s && d in Dependents(g, id, |g.active|)
  {
    hide Dependents, Needs, ActiveIndex;
    assert Trapped(g, s, id);
    d :| d in s && d != id && Needs(g, d, id);
    NeedsIsDependent(g, id, d);
  }

  lemma NeedsIsDependent(g: Graph, id: PluginId, d: PluginId)
    requires Needs(g, d, id) && d != id
    ensures d in Dependents(g, id, |g.active|)
  {
    InDependents(g, id, |g.active|, d);
  }

  lemma {:induction false} TrapHoldsEach(g: Graph, ids: seq<PluginId>, fuel: nat, s: set<PluginId>)
    requires Trap(g, s) && CascadeEach(g, ids, fuel).Some?
    ensures (forall k :: 0 <= k < |ids| ==> ids[k] !in s) && Trap(CascadeEach(g, ids, fuel).value, s)
    decreases fuel, |ids| + 1
  {
    hide CascadeRun, Trap;
    if ids != [] {
      var n := |ids| - 1;
      TrapHoldsEach(g, ids[..n], fuel, s);
      assert forall k :: 0 <= k < n ==> ids[..n][k] == ids[k];
      TrapHolds(CascadeEach(g, ids[..n], fuel).value, ids[n], fuel, s);
    }
  }

  /** A circle above a plugin is part of a trap that holds the plugin too. */
  lemma TangledIsTrapped(g: Graph, id: PluginId) returns (s: set<PluginId>)
    requires Known(g) && !Untangled(g, id)
    ensures Trap(g, s) && id in s
  {
    hide LeansOn, Known;
    var x, y :| x != y && LeansOn(g, x, id) && LeansOn(g, x, y) && LeansOn(g, y, x);
    s := set z | z in ActiveIds(g) && LeansOn(g, z, id) && LeansOn(g, x, z);
    LeansActive(g, x, id);
    LeansSelf(g, id);
    InActiveIds(g, id);
    forall z | z in s ensures Trapped(g, s, z) {
      InActiveIds(g, z);
      var d := OnTheWay(g, x, y, z);
      LeansChain(g, d, z, id);
      LeansActive(g, d, id);
      InActiveIds(g, d);
      KnownIsHost(g, z);
    }
  }

  lemma OnTheWay(g: Graph, x: PluginId, y: PluginId, z: PluginId) returns (d: PluginId)
    requires x != y && LeansOn(g, x, y) && LeansOn(g, y, x) && LeansOn(g, x, z)
    ensures d != z && Needs(g, d, z) && LeansOn(g, d, z) && LeansOn(g, x, d)
  {
    hide LeansOn;
    if z == x {
      d := LeansThroughDependent(g, y, x);
      LeansChain(g, x, y, d);
    } else {
      d := LeansThroughDependent(g, x, z);
    }
  }

  // ---- a cascade only takes away ----

  lemma KnownIsHost(g: Graph, id: PluginId)
    requires Known(g) && IsActive(g, id)
    ensures id in g.byId && g.byId[id].scope == HostScope
  {
    assert g.active[ActiveIndex(g.active, id)].plugin.id == id;
  }

  lemma ReverseOneTakes(g: Graph, id: PluginId)
    requires DistinctIds(g.active) && Known(g)
    ensures !IsActive(ReverseOne(g, id), id)
    ensures DistinctIds(ReverseOne(g, id).active) && Known(ReverseOne(g, id))
    ensures forall a :: a in ReverseOne(g, id).active ==> a in g.active
  {
    var i := ActiveIndex(g.active, id);
    if i >= 0 {
      var rest := g.active[..i] + g.active[i + 1..];
      assert forall k :: 0 <= k < i ==> rest[k] == g.active[k];
      assert forall k :: i <= k < |rest| ==> rest[k] == g.active[k + 1];
    }
  }

  /** What is left of `g` when some of it was taken away. */
  ghost predicate Within(h: Graph, g: Graph) {
    DistinctIds(h.active) && Known(h) && NeedsFewer(h, g)
  }

  lemma ReverseOneStaysWithin(g: Graph, id: PluginId)
    requires DistinctIds(g.active) && Known(g)
    ensures Within(ReverseOne(g, id), g)
  {
    hide ActiveIndex, StoreWithout, Journal, DistinctIds, Known;
    ReverseOneTakes(g, id);
    var i := ActiveIndex(g.active, id);
    if i >= 0 {
      forall x ensures x != id && IsActive(ReverseOne(g, id), x) ==>
        IsActive(g, x) && forall y :: Needs(ReverseOne(g, id), x, y) ==> Needs(g, x, y)
      {
        if x != id {
          RemovedIndex(g.active, i, x);
        }
      }
    }
  }

  lemma {:induction false} CascadeStaysWithin(g: Graph, id: PluginId, fuel: nat)
    requires DistinctIds(g.active) && Known(g) && CascadeRun(g, id, fuel).Some?
    ensures Within(CascadeRun(g, id, fuel).value, g)
    decreases fuel, 0
  {
    hide DistinctIds, Known, ReverseOne, Dependents, IsActive, Needs;
    if !((id in g.byId && g.byId[id].scope == ThreadScope) || !IsActive(g, id)) {
      var ids := Dependents(g, id, |g.active|);
      EachStaysWithin(g, ids, fuel - 1);
      ReverseOneStaysWithin(CascadeEach(g, ids, fuel - 1).value, id);
    }
  }

  lemma {:induction false} EachStaysWithin(g: Graph, ids: seq<PluginId>, fuel: nat)
    requires DistinctIds(g.active) && Known(g) && CascadeEach(g, ids, fuel).Some?
    ensures Within(CascadeEach(g, ids, fuel).value, g)
    decreases fuel, |ids| + 1
  {
    hide DistinctIds, Known, CascadeRun, IsActive, Needs;
    if ids != [] {
      EachStaysWithin(g, ids[..|ids| - 1], fuel);
      CascadeStaysWithin(CascadeEach(g, ids[..|ids| - 1], fuel).value, ids[|ids| - 1], fuel);
    }
  }

  /** A dependent has less above it than its provider, however much has gone already. */
  lemma LessAboveDependent(g: Graph, id: PluginId, d: PluginId, h: Graph)
    requires Within(h, g) && Untangled(g, id) && IsActive(g, id) && Needs(g, d, id) && d != id
    ensures Untangled(h, d) && Closure(h, d) < Closure(g, id)
  {
    hide LeansOn, NeedsFewer, Needs, IsActive, Closure;
    LeansDirectly(g, d, id);
    LeansSelf(g, id);
    forall x ensures x in Closure(h, d) ==> x in Closure(g, id) && x != id {
      InClosure(h, d, x);
      InClosure(g, id, x);
      LeansFewer(h, g, x, d);
      if LeansOn(g, x, d) {
        LeansChain(g, x, d, id);
      }
    }
    InClosure(g, id, id);
    forall x, y | x != y && LeansOn(h, x, d) && LeansOn(h, x, y) ensures !LeansOn(h, y, x) {
      LeansFewer(h, g, x, d);
      LeansFewer(h, g, x, y);
      LeansFewer(h, g, y, x);
      LeansChain(g, x, d, id);
    }
  }

  /** With no circle above the plugin, enough calls finish, whatever else the graph is like. */
  lemma {:induction false} CascadeEnds(g: Graph, id: PluginId) returns (fuel: nat)
    requires DistinctIds(g.active) && Known(g) && Untangled(g, id)
    ensures CascadeRun(g, id, fuel).Some?
    decreases Closure(g, id), 1, 0
  {
    hide DistinctIds, Known, Untangled, Closure, ReverseOne, Dependents, CascadeEach;
    if (id in g.byId && g.byId[id].scope == ThreadScope) || !IsActive(g, id) {
      fuel := 1;
    } else {
      var ids := Dependents(g, id, |g.active|);
      assert ids[..|ids|] == ids;
      var each := EachEnds(g, id, |ids|);
      fuel := each + 1;
    }
  }

  lemma {:induction false} EachEnds(g: Graph, id: PluginId, k: nat) returns (fuel: nat)
    requires DistinctIds(g.active) && Known(g) && Untangled(g, id) && IsActive(g, id)
    requires k <= |Dependents(g, id, |g.active|)|
    ensures CascadeEach(g, Dependents(g, id, |g.active|)[..k], fuel).Some?
    decreases Closure(g, id), 0, k
  {
    hide Untangled, Closure, CascadeRun, Dependents, Needs, IsActive;
    var ids := Dependents(g, id, |g.active|);
    if k == 0 {
      fuel := 0;
    } else {
      var before := EachEnds(g, id, k - 1);
      var middle := CascadeEach(g, ids[..k - 1], before).value;
      EachStaysWithin(g, ids[..k - 1], before);
      DependentsUpTo(g, id, |g.active|, ids[k - 1]);
      LessAboveDependent(g, id, ids[k - 1], middle);
      var last := CascadeEnds(middle, ids[k - 1]);
      fuel := if before > last then before else last;
      EachMoreFuel(g, ids[..k - 1], before, fuel);
      RunMoreFuel(middle, ids[k - 1], last, fuel);
      assert ids[..k][..k - 1] == ids[..k - 1];
    }
  }

  // ---- without a circle it ends, exactly ----

  /** Enough calls reverse the plugin and all that leans on it, and nothing else. */
  lemma {:induction false} CascadeMeaning(g: Graph, id: PluginId) returns (fuel: nat, gone: seq<PluginId>)
    requires Wired(g) && Untangled(g, id)
    ensures CascadeRun(g, id, fuel).Some?
    ensures var after := CascadeRun(g, id, fuel).value; Wired(after) && Cascaded(g, id, gone, after)
    decreases Closure(g, id), 1, 0
  {
    hide Wired, Untangled, Closure, ReverseOne, Dependents, Reversed, CascadeEach;
    if (id in g.byId && g.byId[id].scope == ThreadScope) || !IsActive(g, id) {
      if IsActive(g, id) {
        WiredRecords(g);
        KnownIsHost(g, id);
      }
      NothingLeans(g, id);
      NothingReversed(g);
      fuel, gone := 1, [];
    } else {
      var ids := Dependents(g, id, |g.active|);
      assert ids[..|ids|] == ids;
      var each, taken := EachMeaning(g, id, |ids|);
      var middle := CascadeEach(g, ids, each).value;
      DependentsCarryClosure(g, id);
      ReverseCompletes(g, id, taken, middle);
      fuel, gone := each + 1, taken + [id];
    }
  }

  lemma ReverseCompletes(g: Graph, id: PluginId, taken: seq<PluginId>, middle: Graph)
    requires Wired(g) && Untangled(g, id) && IsActive(g, id)
    requires Wired(middle) && Reversed(g, taken, middle) && Members(taken) == Closure(g, id) - {id}
    ensures Wired(ReverseOne(middle, id)) && Cascaded(g, id, taken + [id], ReverseOne(middle, id))
  {
    hide Wired, Untangled, Closure, Reversed, Cascaded, Keeping, StoreKeeping, CellsKeeping, Closing, Journal;
    CascadeCompletes(g, id, taken, middle);
    ClosingIsCut(middle, id);
  }

  lemma {:induction false} EachMeaning(g: Graph, id: PluginId, k: nat) returns (fuel: nat, gone: seq<PluginId>)
    requires Wired(g) && Untangled(g, id) && IsActive(g, id) && k <= |Dependents(g, id, |g.active|)|
    ensures CascadeEach(g, Dependents(g, id, |g.active|)[..k], fuel).Some?
    ensures var ids := Dependents(g, id, |g.active|);
      var middle := CascadeEach(g, ids[..k], fuel).value;
      && Wired(middle) && Reversed(g, gone, middle) && UpClosed(g, Members(gone))
      && Members(gone) == Closures(g, ids[..k])
    decreases Closure(g, id), 0, k
  {
    hide Wired, Untangled, Closure, Closures, CascadeRun, Dependents, Reversed, UpClosed, Needs;
    var ids := Dependents(g, id, |g.active|);
    if k == 0 {
      NothingReversed(g);
      NoClosures(g, ids);
      fuel, gone := 0, [];
    } else {
      var before, taken := EachMeaning(g, id, k - 1);
      var middle := CascadeEach(g, ids[..k - 1], before).value;
      var d := ids[k - 1];
      ReversedIsCut(g, taken, middle);
      DependentsMeaning(g, id, |g.active|, d);
      DependentHasLess(g, id, d, Members(taken), middle.facts);
      var last, more := CascadeMeaning(middle, d);
      fuel := if before > last then before else last;
      EachMoreFuel(g, ids[..k - 1], before, fuel);
      RunMoreFuel(middle, d, last, fuel);
      ReversedTwice(g, taken, middle, d, more, CascadeRun(middle, d, last).value);
      ClosuresOneMore(g, ids, k - 1);
      assert ids[..k][..k - 1] == ids[..k - 1];
      gone := taken + more;
    }
  }

  lemma ReversedIsCut(g: Graph, taken: seq<PluginId>, middle: Graph)
    requires Reversed(g, taken, middle)
    ensures middle == Cut(g, Members(taken), middle.facts)
  {
  }

  // ---- main results ----

  /** A cascade ends if and only if no two plugins it would reverse lean on each other. */
  lemma CascadeEndsExactly(g: Graph, id: PluginId)
    requires DistinctIds(g.active) && Known(g)
    ensures (exists fuel: nat :: CascadeRun(g, id, fuel).Some?) <==> Untangled(g, id)
  {
    hide DistinctIds, Known, Untangled, CascadeRun;
    if Untangled(g, id) {
      var fuel := CascadeEnds(g, id);
    } else {
      var s := TangledIsTrapped(g, id);
      forall fuel: nat ensures CascadeRun(g, id, fuel).None? {
        if CascadeRun(g, id, fuel).Some? {
          TrapHolds(g, id, fuel, s);
        }
      }
    }
  }

  /** So where there are no circles at all, every deactivation ends. */
  lemma AcyclicCascadesEnd(g: Graph, id: PluginId)
    requires DistinctIds(g.active) && Known(g) && Acyclic(g)
    ensures exists fuel: nat :: CascadeRun(g, id, fuel).Some?
  {
    hide DistinctIds, Known, Acyclic, CascadeRun, Untangled;
    AcyclicIsUntangled(g, id);
    CascadeEndsExactly(g, id);
  }

  /** And one that ends reverses exactly the plugin and what leans on it, dependents first. */
  lemma CascadeIsExact(g: Graph, id: PluginId, fuel: nat) returns (gone: seq<PluginId>)
    requires Wired(g) && CascadeRun(g, id, fuel).Some?
    ensures var after := CascadeRun(g, id, fuel).value;
      && Wired(after) && Cascaded(g, id, gone, after)
      && (Ordered(g) ==> Ordered(after)) && (Acyclic(g) ==> Acyclic(after))
  {
    hide Wired, Untangled, CascadeRun, Ordered, Acyclic, DistinctIds, Known;
    WiredRecords(g);
    CascadeEndsExactly(g, id);
    var enough;
    enough, gone := CascadeMeaning(g, id);
    if fuel <= enough {
      RunMoreFuel(g, id, fuel, enough);
    } else {
      RunMoreFuel(g, id, enough, fuel);
    }
    CascadeKeepsShape(g, id, gone, CascadeRun(g, id, fuel).value);
  }

  lemma CascadeKeepsShape(g: Graph, id: PluginId, gone: seq<PluginId>, after: Graph)
    requires Wired(g) && Cascaded(g, id, gone, after)
    ensures (Ordered(g) ==> Ordered(after)) && (Acyclic(g) ==> Acyclic(after))
  {
    hide Wired, Ordered, Acyclic, Cut, Closure;
    ClosureIsUpClosed(g, id);
    CutKeepsAcyclic(g, Members(gone), after.facts);
    if Ordered(g) {
      CutKeepsOrder(g, Members(gone), after.facts);
    }
    ReversedIsCut(g, gone, after);
  }

  /** What a cascade leaves no longer has the plugin. */
  lemma CascadeTakesRoot(g: Graph, id: PluginId, fuel: nat)
    requires DistinctIds(g.active) && Known(g) && CascadeRun(g, id, fuel).Some?
    ensures !IsActive(CascadeRun(g, id, fuel).value, id)
  {
    hide Dependents, CascadeEach, ReverseOne, Known, DistinctIds;
    if (id in g.byId && g.byId[id].scope == ThreadScope) || !IsActive(g, id) {
      if IsActive(g, id) {
        KnownIsHost(g, id);
      }
    } else {
      var ids := Dependents(g, id, |g.active|);
      EachStaysWithin(g, ids, fuel - 1);
      ReverseOneTakes(CascadeEach(g, ids, fuel - 1).value, id);
    }
  }

  /** What is left active is still active in the journal. */
  lemma ReverseOneKeepsJournal(g: Graph, id: PluginId)
    requires DistinctIds(g.active) && Journaled(g)
    ensures Journaled(ReverseOne(g, id))
  {
    var i := ActiveIndex(g.active, id);
    if i >= 0 {
      var rest := g.active[..i] + g.active[i + 1..];
      JournalMeaning(g.facts, PluginDeactivated(id, HostScope));
      assert forall k :: 0 <= k < i ==> rest[k] == g.active[k];
      assert forall k :: i <= k < |rest| ==> rest[k] == g.active[k + 1];
    }
  }
}
