/** Which plugins a deactivation takes with it, and what it leaves behind. */
module HostCascade {
  import opened Primitives
  import opened SessionEvents
  import opened HostGraph
  import opened HostLeaning

  function Keeping(active: seq<Activation>, gone: set<PluginId>): seq<Activation> {
    if active == [] then []
    else
      var last := active[|active| - 1];
      Keeping(active[..|active| - 1], gone) + if last.plugin.id in gone then [] else [last]
  }

  function StoreKeeping(store: seq<Stored>, gone: set<PluginId>): seq<Stored> {
    if store == [] then []
    else
      var last := store[|store| - 1];
      StoreKeeping(store[..|store| - 1], gone) + if last.plugin in gone then [] else [last]
  }

  function CellsKeeping(cells: map<TokenId, PluginId>, gone: set<PluginId>): map<TokenId, PluginId> {
    map t | t in cells && cells[t] !in gone :: cells[t]
  }

  /** The graph with these plugins, their tokens and their contributions reversed. */
  function Cut(g: Graph, gone: set<PluginId>, facts: seq<Fact>): Graph {
    Graph(Keeping(g.active, gone), CellsKeeping(g.cells, gone), g.byId, StoreKeeping(g.store, gone), facts)
  }

  lemma {:induction false} KeepingIndex(active: seq<Activation>, gone: set<PluginId>, id: PluginId)
    ensures var kept := Keeping(active, gone);
      if id in gone then ActiveIndex(kept, id) < 0
      else
        && (ActiveIndex(kept, id) >= 0 <==> ActiveIndex(active, id) >= 0)
        && (ActiveIndex(kept, id) >= 0 ==> kept[ActiveIndex(kept, id)] == active[ActiveIndex(active, id)])
  {
    if active != [] {
      var n := |active| - 1;
      KeepingIndex(active[..n], gone, id);
      assert active == active[..n] + [active[n]];
      AppendedIndex(active[..n], active[n], id);
      KeepingLast(active, gone, id);
    }
  }

  lemma KeepingLast(active: seq<Activation>, gone: set<PluginId>, id: PluginId)
    requires active != []
    ensures var last := active[|active| - 1];
      var kept := Keeping(active[..|active| - 1], gone);
      ActiveIndex(Keeping(active, gone), id)
      == if ActiveIndex(kept, id) >= 0 then ActiveIndex(kept, id)
         else if last.plugin.id == id && id !in gone then |kept| else -1
  {
    var last := active[|active| - 1];
    var kept := Keeping(active[..|active| - 1], gone);
    if last.plugin.id in gone {
      assert Keeping(active, gone) == kept;
    } else {
      AppendedIndex(kept, last, id);
    }
  }

  lemma {:induction false} KeepingOrder(active: seq<Activation>, gone: set<PluginId>, a: PluginId, b: PluginId)
    requires DistinctIds(active) && a !in gone && b !in gone
    requires ActiveIndex(active, a) >= 0 && ActiveIndex(active, b) >= 0
    ensures var kept := Keeping(active, gone);
      ActiveIndex(kept, a) < ActiveIndex(kept, b) <==> ActiveIndex(active, a) < ActiveIndex(active, b)
  {
    var n := |active| - 1;
    var kept := Keeping(active[..n], gone);
    assert active == active[..n] + [active[n]];
    AppendedIndex(active[..n], active[n], a);
    AppendedIndex(active[..n], active[n], b);
    KeepingLast(active, gone, a);
    KeepingLast(active, gone, b);
    KeepingIndex(active[..n], gone, a);
    KeepingIndex(active[..n], gone, b);
    if ActiveIndex(active[..n], a) >= 0 && ActiveIndex(active[..n], b) >= 0 {
      KeepingOrder(active[..n], gone, a, b);
    }
  }

  lemma {:induction false} KeepingDistinct(active: seq<Activation>, gone: set<PluginId>)
    requires DistinctIds(active)
    ensures DistinctIds(Keeping(active, gone))
    ensures forall a :: a in Keeping(active, gone) ==> a in active && a.plugin.id !in gone
  {
    if active != [] {
      var n := |active| - 1;
      KeepingDistinct(active[..n], gone);
      forall a | a in Keeping(active[..n], gone) ensures a.plugin.id != active[n].plugin.id {
        var j :| 0 <= j < n && active[..n][j] == a;
        assert active[j] == a;
      }
      forall a | a in Keeping(active, gone) ensures a in active && a.plugin.id !in gone {
        if a in Keeping(active[..n], gone) {
          assert a in active[..n];
        }
      }
    }
  }

  lemma {:induction false} KeepingTwice(active: seq<Activation>, gone: set<PluginId>, more: set<PluginId>)
    ensures Keeping(Keeping(active, gone), more) == Keeping(active, gone + more)
  {
    if active != [] {
      var n := |active| - 1;
      var kept := Keeping(active[..n], gone);
      KeepingTwice(active[..n], gone, more);
      if active[n].plugin.id in gone {
        assert Keeping(active, gone) == kept + [] == kept;
      } else {
        assert (kept + [active[n]])[..|kept|] == kept;
      }
    }
  }

  lemma {:induction false} StoreKeepingTwice(store: seq<Stored>, gone: set<PluginId>, more: set<PluginId>)
    ensures StoreKeeping(StoreKeeping(store, gone), more) == StoreKeeping(store, gone + more)
  {
    if store != [] {
      var n := |store| - 1;
      var kept := StoreKeeping(store[..n], gone);
      StoreKeepingTwice(store[..n], gone, more);
      if store[n].plugin in gone {
        assert StoreKeeping(store, gone) == kept + [] == kept;
      } else {
        assert (kept + [store[n]])[..|kept|] == kept;
      }
    }
  }

  lemma CutTwice(g: Graph, gone: set<PluginId>, more: set<PluginId>, facts: seq<Fact>, facts': seq<Fact>)
    ensures Cut(Cut(g, gone, facts), more, facts') == Cut(g, gone + more, facts')
  {
    KeepingTwice(g.active, gone, more);
    StoreKeepingTwice(g.store, gone, more);
    assert CellsKeeping(CellsKeeping(g.cells, gone), more) == CellsKeeping(g.cells, gone + more);
  }

  lemma {:induction false} KeepingAll(active: seq<Activation>, gone: set<PluginId>)
    requires forall k :: 0 <= k < |active| ==> active[k].plugin.id !in gone
    ensures Keeping(active, gone) == active
  {
    if active != [] {
      var n := |active| - 1;
      assert active[n].plugin.id !in gone;
      KeepingAll(active[..n], gone);
      assert active[..n] + [active[n]] == active;
    }
  }

  lemma {:induction false} StoreKeepingAll(store: seq<Stored>, gone: set<PluginId>)
    requires forall k :: 0 <= k < |store| ==> store[k].plugin !in gone
    ensures StoreKeeping(store, gone) == store
  {
    if store != [] {
      var n := |store| - 1;
      assert store[n].plugin !in gone;
      StoreKeepingAll(store[..n], gone);
      assert store[..n] + [store[n]] == store;
    }
  }

  // ---- cutting keeps the graph in order ----

  lemma CutNeeds(g: Graph, gone: set<PluginId>, facts: seq<Fact>, x: PluginId, y: PluginId)
    ensures Needs(Cut(g, gone, facts), x, y) <==> x !in gone && y !in gone && Needs(g, x, y)
  {
    KeepingIndex(g.active, gone, x);
    var after := Cut(g, gone, facts);
    if Needs(after, x, y) {
      var t :| t in after.active[ActiveIndex(after.active, x)].plugin.inject && t in after.cells && after.cells[t] == y;
    }
    if x !in gone && y !in gone && Needs(g, x, y) {
      var t :| t in g.active[ActiveIndex(g.active, x)].plugin.inject && t in g.cells && g.cells[t] == y;
      assert t in after.cells && after.cells[t] == y;
    }
  }

  lemma NeededIsActive(g: Graph, x: PluginId, y: PluginId)
    requires Wired(g) && Needs(g, x, y)
    ensures IsActive(g, x) && IsActive(g, y)
  {
  }

  lemma CutKeepsOrder(g: Graph, gone: set<PluginId>, facts: seq<Fact>)
    requires Wired(g) && Ordered(g)
    ensures Ordered(Cut(g, gone, facts))
  {
    var after := Cut(g, gone, facts);
    forall x, y | Needs(after, x, y)
      ensures ActiveIndex(after.active, y) < ActiveIndex(after.active, x)
    {
      CutNeeds(g, gone, facts, x, y);
      NeededIsActive(g, x, y);
      KeepingOrder(g.active, gone, y, x);
    }
  }

  lemma CutKeepsWiring(g: Graph, gone: set<PluginId>, facts: seq<Fact>)
    requires Wired(g) && UpClosed(g, gone)
    requires forall p :: p in FoldActivePlugins(facts) <==> p in FoldActivePlugins(g.facts) && p !in gone
    ensures Wired(Cut(g, gone, facts))
  {
    KeepingDistinct(g.active, gone);
    CutKeepsLinks(g, gone, facts);
  }

  lemma CutKeepsLinks(g: Graph, gone: set<PluginId>, facts: seq<Fact>)
    requires Wired(g) && UpClosed(g, gone)
    ensures var after := Cut(g, gone, facts);
      DistinctIds(after.active) && Fed(after) && TokensOwned(after) && OwnersLive(after) && StoreLive(after)
  {
    var after := Cut(g, gone, facts);
    KeepingDistinct(g.active, gone);
    CutKeepsTokens(g, gone, facts);
    forall t | t in after.cells
      ensures var i := ActiveIndex(after.active, after.cells[t]); i >= 0 && t in after.active[i].tokens
    {
      KeepingIndex(g.active, gone, after.cells[t]);
    }
    forall k | 0 <= k < |after.store| ensures IsActive(after, after.store[k].plugin) {
      InStoreKeeping(g.store, gone, after.store[k]);
      KeepingIndex(g.active, gone, after.store[k].plugin);
    }
  }

  lemma {:induction false} InStoreKeeping(store: seq<Stored>, gone: set<PluginId>, e: Stored)
    ensures e in StoreKeeping(store, gone) <==> e in store && e.plugin !in gone
  {
    if store != [] {
      InStoreKeeping(store[..|store| - 1], gone, e);
      assert store == store[..|store| - 1] + [store[|store| - 1]];
    }
  }

  lemma CutKeepsTokens(g: Graph, gone: set<PluginId>, facts: seq<Fact>)
    requires DistinctIds(g.active) && Fed(g) && TokensOwned(g) && UpClosed(g, gone)
    ensures var after := Cut(g, gone, facts); Fed(after) && TokensOwned(after)
  {
    var after := Cut(g, gone, facts);
    KeepingDistinct(g.active, gone);
    forall i, t | 0 <= i < |after.active| && t in after.active[i].plugin.inject
      ensures t in after.cells
    {
      var a := after.active[i];
      assert a in Keeping(g.active, gone);
      var j :| 0 <= j < |g.active| && g.active[j] == a;
      ActiveIndexIs(g.active, j);
      assert Needs(g, a.plugin.id, g.cells[t]);
    }
    forall i, t | 0 <= i < |after.active| && t in after.active[i].tokens
      ensures t in after.cells && after.cells[t] == after.active[i].plugin.id
    {
      var a := after.active[i];
      assert a in Keeping(g.active, gone);
      var j :| 0 <= j < |g.active| && g.active[j] == a;
    }
  }

  /** What leans on `d` after a cut is what leaned on it before, less what the cut took. */
  lemma {:induction false} CutLeansIn(g: Graph, gone: set<PluginId>, facts: seq<Fact>, x: PluginId, d: PluginId, n: nat)
    requires UpClosed(g, gone) && x !in gone
    ensures LeansIn(Cut(g, gone, facts), x, d, n) <==> LeansIn(g, x, d, n)
    decreases n
  {
    hide Cut, Needs, ActiveIndex;
    var after := Cut(g, gone, facts);
    CutActive(g, gone, facts, x);
    if n > 0 {
      forall y
        ensures Needs(after, x, y) && LeansIn(after, y, d, n - 1) <==> Needs(g, x, y) && LeansIn(g, y, d, n - 1)
      {
        CutNeeds(g, gone, facts, x, y);
        if Needs(g, x, y) {
          CutLeansIn(g, gone, facts, y, d, n - 1);
        }
      }
    }
  }

  lemma CutActive(g: Graph, gone: set<PluginId>, facts: seq<Fact>, x: PluginId)
    ensures IsActive(Cut(g, gone, facts), x) <==> IsActive(g, x) && x !in gone
  {
    KeepingIndex(g.active, gone, x);
  }

  lemma CutLeans(g: Graph, gone: set<PluginId>, facts: seq<Fact>, x: PluginId, d: PluginId)
    requires UpClosed(g, gone)
    ensures LeansOn(Cut(g, gone, facts), x, d) <==> LeansOn(g, x, d) && x !in gone
  {
    hide Cut, LeansIn;
    if x in gone {
      CutActive(g, gone, facts, x);
      if LeansOn(Cut(g, gone, facts), x, d) {
        LeansActive(Cut(g, gone, facts), x, d);
      }
    } else {
      forall n: nat { CutLeansIn(g, gone, facts, x, d, n); }
    }
  }

  lemma CutClosure(g: Graph, gone: set<PluginId>, facts: seq<Fact>, d: PluginId)
    requires UpClosed(g, gone)
    ensures Closure(Cut(g, gone, facts), d) == Closure(g, d) - gone
  {
    hide Closure, Cut, LeansOn;
    var after := Cut(g, gone, facts);
    forall x ensures x in Closure(after, d) <==> x in Closure(g, d) - gone {
      InClosure(after, d, x);
      InClosure(g, d, x);
      CutLeans(g, gone, facts, x, d);
    }
  }

  /** A cut ties no new knots. */
  lemma CutKeepsAcyclic(g: Graph, gone: set<PluginId>, facts: seq<Fact>)
    requires UpClosed(g, gone)
    ensures Acyclic(g) ==> Acyclic(Cut(g, gone, facts))
    ensures forall d :: Untangled(g, d) ==> Untangled(Cut(g, gone, facts), d)
  {
    hide Cut, LeansOn;
    forall x, y { CutLeans(g, gone, facts, x, y); }
  }

  // ---- closing one scope ----

  /**
    Closing the scope a generation was bound to: its finalizer reverses the plugin only
    while that generation is the live one.
   */
  function Closing(g: Graph, id: PluginId, marker: nat, tokens: seq<TokenId>): Graph {
    var i := ActiveIndex(g.active, id);
    if i < 0 || g.active[i].marker != marker then g
    else
      Graph(g.active[..i] + g.active[i + 1..],
            map t | t in g.cells && !(t in tokens && g.cells[t] == id) :: g.cells[t],
            g.byId, StoreWithout(g.store, id), g.facts)
  }

  lemma {:induction false} KeepingOthers(active: seq<Activation>, i: nat)
    requires DistinctIds(active) && i < |active|
    ensures Keeping(active, {active[i].plugin.id}) == active[..i] + active[i + 1..]
  {
    var n := |active| - 1;
    var gone := {active[i].plugin.id};
    if i < n {
      KeepingOthers(active[..n], i);
      assert active[i + 1..] == active[..n][i + 1..] + [active[n]];
    } else {
      KeepingAll(active[..n], gone);
    }
  }

  lemma {:induction false} StoreWithoutIsKeeping(store: seq<Stored>, id: PluginId)
    ensures StoreWithout(store, id) == StoreKeeping(store, {id})
  {
    if store != [] {
      StoreWithoutIsKeeping(store[..|store| - 1], id);
    }
  }

  lemma OwnedByIsTokens(g: Graph, id: PluginId)
    requires OwnersLive(g) && TokensOwned(g) && DistinctIds(g.active) && IsActive(g, id)
    ensures forall t :: t in g.cells ==> (g.cells[t] == id <==> t in g.active[ActiveIndex(g.active, id)].tokens)
  {
  }

  /** Closing an active plugin's live scope takes away that plugin and nothing else. */
  lemma ClosingIsCut(g: Graph, id: PluginId)
    requires Wired(g) && IsActive(g, id)
    ensures var a := g.active[ActiveIndex(g.active, id)];
      Closing(g, id, a.marker, a.tokens) == Cut(g, {id}, g.facts)
  {
    var i := ActiveIndex(g.active, id);
    KeepingOthers(g.active, i);
    StoreWithoutIsKeeping(g.store, id);
    OwnedByIsTokens(g, id);
    var tokens := g.active[i].tokens;
    CellsWithoutOwner(g.cells, id, tokens);
  }

  lemma CellsWithoutOwner(cells: map<TokenId, PluginId>, id: PluginId, tokens: seq<TokenId>)
    requires forall t :: t in cells && cells[t] == id ==> t in tokens
    ensures (map t | t in cells && !(t in tokens && cells[t] == id) :: cells[t]) == CellsKeeping(cells, {id})
  {
  }

  // ---- a cascade, step by step ----

  function Reversals(gone: seq<PluginId>): (facts: seq<Fact>)
    ensures |facts| == |gone| && forall k :: 0 <= k < |gone| ==> facts[k] == PluginDeactivated(gone[k], HostScope)
  {
    seq(|gone|, k requires 0 <= k < |gone| => PluginDeactivated(gone[k], HostScope))
  }

  ghost predicate Unrepeated(gone: seq<PluginId>) {
    forall i, j :: 0 <= i < j < |gone| ==> gone[i] != gone[j]
  }

  /** No plugin goes before one that needs it. */
  ghost predicate DependentsFirst(g: Graph, gone: seq<PluginId>) {
    forall i, j :: 0 <= i < j < |gone| ==> !Needs(g, gone[j], gone[i])
  }

  function Members(gone: seq<PluginId>): set<PluginId> {
    set x | x in gone
  }

  /** These plugins, and nothing else, have been reversed, dependents first, each with its own fact. */
  ghost predicate Reversed(before: Graph, gone: seq<PluginId>, after: Graph) {
    && Unrepeated(gone) && DependentsFirst(before, gone)
    && after == Cut(before, Members(gone), before.facts + Reversals(gone))
  }

  /** The plugin and everything that leans on it have been reversed. */
  ghost predicate Cascaded(before: Graph, id: PluginId, gone: seq<PluginId>, after: Graph) {
    Reversed(before, gone, after) && Members(gone) == Closure(before, id)
  }

  lemma NothingReversed(g: Graph)
    requires Wired(g)
    ensures Reversed(g, [], g) && UpClosed(g, Members([]))
  {
    hide Keeping, StoreKeeping;
    KeepingAll(g.active, {});
    StoreKeepingAll(g.store, {});
    assert Members([]) == {};
    assert CellsKeeping(g.cells, {}) == g.cells;
    assert g.facts + Reversals([]) == g.facts;
  }

  lemma MembersAppend(a: seq<PluginId>, b: seq<PluginId>)
    ensures Members(a + b) == Members(a) + Members(b)
  {
  }

  lemma ReversedTwice(before: Graph, gone: seq<PluginId>, middle: Graph, d: PluginId, more: seq<PluginId>, after: Graph)
    requires UpClosed(before, Members(gone))
    requires Reversed(before, gone, middle) && Cascaded(middle, d, more, after)
    ensures Reversed(before, gone + more, after)
    ensures Members(gone + more) == Members(gone) + Closure(before, d)
    ensures UpClosed(before, Members(gone + more))
  {
    hide Closure, Keeping, StoreKeeping, CellsKeeping;
    CutClosure(before, Members(gone), middle.facts, d);
    MembersAppend(gone, more);
    CutTwice(before, Members(gone), Members(more), middle.facts, after.facts);
    assert before.facts + Reversals(gone + more) == (before.facts + Reversals(gone)) + Reversals(more);
    ClosureIsUpClosed(before, d);
    assert Members(gone) + Closure(before, d) == Members(gone) + Members(more);
    StillDependentsFirst(before, gone, middle.facts, more);
  }

  lemma StillDependentsFirst(before: Graph, gone: seq<PluginId>, facts: seq<Fact>, more: seq<PluginId>)
    requires UpClosed(before, Members(gone)) && Members(more) !! Members(gone)
    requires Unrepeated(gone) && DependentsFirst(before, gone)
    requires Unrepeated(more) && DependentsFirst(Cut(before, Members(gone), facts), more)
    ensures Unrepeated(gone + more) && DependentsFirst(before, gone + more)
  {
    var all := gone + more;
    forall i, j | 0 <= i < j < |all| ensures all[i] != all[j] && !Needs(before, all[j], all[i]) {
      if j < |gone| {
        assert !Needs(before, gone[j], gone[i]);
      } else {
        var y := more[j - |gone|];
        assert y in Members(more);
        if i < |gone| {
          assert gone[i] in Members(gone);
        } else {
          var x := more[i - |gone|];
          assert x in Members(more);
          CutNeeds(before, Members(gone), facts, y, x);
        }
      }
    }
  }

  /** The active plugins that inject from `id`, in activation order. */
  function Dependents(g: Graph, id: PluginId, n: nat): seq<PluginId>
    requires n <= |g.active|
  {
    if n == 0 then []
    else
      var other := g.active[n - 1].plugin;
      Dependents(g, id, n - 1)
      + if other.id != id && exists t :: t in other.inject && t in g.cells && g.cells[t] == id then [other.id] else []
  }

  /** They are reversed in the order they were activated. */
  ghost predicate InActivationOrder(g: Graph, ids: seq<PluginId>) {
    forall i, j :: 0 <= i < j < |ids| ==> ActiveIndex(g.active, ids[i]) < ActiveIndex(g.active, ids[j])
  }

  lemma {:induction false} DependentsInOrder(g: Graph, id: PluginId, n: nat)
    requires DistinctIds(g.active) && n <= |g.active|
    ensures InActivationOrder(g, Dependents(g, id, n))
  {
    hide InActivationOrder;
    if n == 0 {
      InOrderWithLast(g, [], "");
    } else {
      var before, last := Dependents(g, id, n - 1), g.active[n - 1].plugin.id;
      DependentsInOrder(g, id, n - 1);
      ActiveIndexIs(g.active, n - 1);
      forall i | 0 <= i < |before| ensures ActiveIndex(g.active, before[i]) < n - 1 {
        assert before[i] in before;
        DependentsUpTo(g, id, n - 1, before[i]);
      }
      InOrderWithLast(g, before, last);
      assert before + [] == before;
    }
  }

  lemma InOrderWithLast(g: Graph, ids: seq<PluginId>, last: PluginId)
    ensures InActivationOrder(g, [])
    ensures (forall i :: 0 <= i < |ids| ==> ActiveIndex(g.active, ids[i]) < ActiveIndex(g.active, last)) ==>
      (InActivationOrder(g, ids) ==> InActivationOrder(g, ids + [last]))
  {
  }

  lemma DependentsMeaning(g: Graph, id: PluginId, n: nat, x: PluginId)
    requires Wired(g) && n <= |g.active|
    ensures x in Dependents(g, id, n) <==> x != id && Needs(g, x, id) && ActiveIndex(g.active, x) < n
  {
    hide Dependents, ActiveIndex, Needs;
    DependentsUpTo(g, id, n, x);
  }

  lemma {:induction false} DependentsUpTo(g: Graph, id: PluginId, n: nat, x: PluginId)
    requires DistinctIds(g.active) && n <= |g.active|
    ensures x in Dependents(g, id, n) <==> x != id && Needs(g, x, id) && ActiveIndex(g.active, x) < n
  {
    hide ActiveIndex;
    if n > 0 {
      hide Dependents, Needs;
      DependentsUpTo(g, id, n - 1, x);
      ActiveIndexIs(g.active, n - 1);
      DependentsOneMore(g, id, n, x);
    }
  }

  lemma DependentsOneMore(g: Graph, id: PluginId, n: nat, x: PluginId)
    requires DistinctIds(g.active) && 0 < n <= |g.active|
    ensures x in Dependents(g, id, n) <==>
      x in Dependents(g, id, n - 1) || (x == g.active[n - 1].plugin.id && x != id && Needs(g, x, id))
  {
  }

  ghost function Closures(g: Graph, roots: seq<PluginId>): set<PluginId> {
    if roots == [] then {} else Closures(g, roots[..|roots| - 1]) + Closure(g, roots[|roots| - 1])
  }

  lemma ClosuresOneMore(g: Graph, roots: seq<PluginId>, k: nat)
    requires k < |roots|
    ensures Closures(g, roots[..k + 1]) == Closures(g, roots[..k]) + Closure(g, roots[k])
  {
    hide Closure;
    assert roots[..k + 1][..k] == roots[..k];
  }

  lemma NoClosures(g: Graph, roots: seq<PluginId>)
    ensures Closures(g, roots[..0]) == {}
  {
  }

  lemma {:induction false} InClosures(g: Graph, roots: seq<PluginId>, x: PluginId)
    ensures x in Closures(g, roots) <==> exists d :: d in roots && x in Closure(g, d)
  {
    if roots != [] {
      InClosures(g, roots[..|roots| - 1], x);
      assert roots == roots[..|roots| - 1] + [roots[|roots| - 1]];
    }
  }

  /**
    What leans on a plugin's dependents is what leans on it, less the plugin itself, unless
    it is part of a circle.
   */
  lemma DependentsCarryClosure(g: Graph, id: PluginId)
    requires Wired(g) && Untangled(g, id) && IsActive(g, id)
    ensures Closures(g, Dependents(g, id, |g.active|)) == Closure(g, id) - {id}
  {
    hide Closures, Closure, Dependents, LeansOn, Wired;
    var deps := Dependents(g, id, |g.active|);
    forall x ensures x in Closures(g, deps) <==> x in Closure(g, id) - {id} {
      if x in Closures(g, deps) {
        BehindDependent(g, id, x);
      }
      if x in Closure(g, id) && x != id {
        BehindSomeDependent(g, id, x);
      }
    }
  }

  lemma BehindDependent(g: Graph, id: PluginId, x: PluginId)
    requires Wired(g) && Untangled(g, id) && IsActive(g, id) && x in Closures(g, Dependents(g, id, |g.active|))
    ensures x in Closure(g, id) && x != id
  {
    hide Closures, Closure, Dependents, LeansOn, Wired;
    InClosures(g, Dependents(g, id, |g.active|), x);
    var d :| d in Dependents(g, id, |g.active|) && x in Closure(g, d);
    DependentsMeaning(g, id, |g.active|, d);
    InClosure(g, d, x);
    LeansDirectly(g, d, id);
    LeansChain(g, x, d, id);
    InClosure(g, id, x);
  }

  lemma BehindSomeDependent(g: Graph, id: PluginId, x: PluginId)
    requires Wired(g) && x in Closure(g, id) && x != id
    ensures x in Closures(g, Dependents(g, id, |g.active|))
  {
    hide Closures, Closure, Dependents, LeansOn, Wired;
    InClosure(g, id, x);
    var d := LeansThroughDependent(g, x, id);
    DependentsMeaning(g, id, |g.active|, d);
    InClosure(g, d, x);
    InClosures(g, Dependents(g, id, |g.active|), x);
  }

  /** Fewer plugins lean on a dependent than on what it needs, whatever is gone already. */
  lemma DependentHasLess(g: Graph, id: PluginId, d: PluginId, gone: set<PluginId>, facts: seq<Fact>)
    requires Untangled(g, id) && UpClosed(g, gone) && IsActive(g, id) && Needs(g, d, id) && d != id
    ensures Closure(Cut(g, gone, facts), d) < Closure(g, id)
    ensures Untangled(Cut(g, gone, facts), d)
  {
    hide Closure, Cut, LeansOn;
    CutClosure(g, gone, facts, d);
    CutKeepsAcyclic(g, gone, facts);
    LeansDirectly(g, d, id);
    LeansSelf(g, id);
    InClosure(g, id, id);
    InClosure(g, d, id);
    assert !(LeansOn(g, id, d) && LeansOn(g, d, id));
    forall x | x in Closure(g, d) ensures x in Closure(g, id) {
      InClosure(g, d, x);
      LeansChain(g, x, d, id);
      InClosure(g, id, x);
    }
    forall x, y | x != y && LeansOn(g, x, d) && LeansOn(g, x, y) ensures !LeansOn(g, y, x) {
      LeansChain(g, x, d, id);
    }
    assert Untangled(g, d);
  }

  /** With its dependents gone, a plugin can be reversed alone; that completes its cascade. */
  lemma CascadeCompletes(before: Graph, id: PluginId, gone: seq<PluginId>, middle: Graph)
    requires Wired(before) && Untangled(before, id) && IsActive(before, id)
    requires Wired(middle) && Reversed(before, gone, middle) && Members(gone) == Closure(before, id) - {id}
    ensures IsActive(middle, id)
    ensures var facts := Journal(middle.facts, PluginDeactivated(id, HostScope));
      var after := Cut(middle, {id}, facts);
      Wired(after) && Cascaded(before, id, gone + [id], after)
  {
    hide Wired, Untangled, Closure;
    KeepingIndex(before.active, Members(gone), id);
    NobodyNeedsIt(before, id, gone, middle);
    LastReversal(before, id, gone, middle);
    CutOneKeepsWiring(middle, id);
  }

  lemma LastReversal(before: Graph, id: PluginId, gone: seq<PluginId>, middle: Graph)
    requires Wired(before) && Untangled(before, id) && IsActive(before, id) && IsActive(middle, id)
    requires Wired(middle) && Reversed(before, gone, middle) && Members(gone) == Closure(before, id) - {id}
    ensures var facts := Journal(middle.facts, PluginDeactivated(id, HostScope));
      Cascaded(before, id, gone + [id], Cut(middle, {id}, facts))
  {
    hide Untangled, Closure, Keeping, StoreKeeping, CellsKeeping;
    var facts := Journal(middle.facts, PluginDeactivated(id, HostScope));
    assert middle.active[ActiveIndex(middle.active, id)].plugin.id in FoldActivePlugins(middle.facts);
    assert facts == before.facts + Reversals(gone + [id]);
    LastMember(before, id, gone);
    CutTwice(before, Members(gone), {id}, middle.facts, facts);
    LastGoesFirstNeeded(before, id, gone);
  }

  lemma CutOneKeepsWiring(g: Graph, id: PluginId)
    requires Wired(g) && UpClosed(g, {id})
    ensures Wired(Cut(g, {id}, Journal(g.facts, PluginDeactivated(id, HostScope))))
  {
    hide Wired, UpClosed, FoldActivePlugins;
    JournalMeaning(g.facts, PluginDeactivated(id, HostScope));
    CutKeepsWiring(g, {id}, Journal(g.facts, PluginDeactivated(id, HostScope)));
  }

  lemma LastMember(before: Graph, id: PluginId, gone: seq<PluginId>)
    requires IsActive(before, id) && Members(gone) == Closure(before, id) - {id}
    ensures Members(gone + [id]) == Members(gone) + {id} == Closure(before, id)
  {
    hide Closure;
    LeansSelf(before, id);
    InClosure(before, id, id);
    MembersAppend(gone, [id]);
    assert Members([id]) == {id};
  }

  lemma NobodyNeedsIt(before: Graph, id: PluginId, gone: seq<PluginId>, middle: Graph)
    requires IsActive(before, id)
    requires Reversed(before, gone, middle) && Members(gone) == Closure(before, id) - {id}
    ensures UpClosed(middle, {id})
  {
    hide Closure, Needs, Keeping, StoreKeeping, CellsKeeping, Unrepeated, DependentsFirst;
    ClosureIsUpClosed(before, id);
    LeansSelf(before, id);
    InClosure(before, id, id);
    forall x, y | Needs(middle, x, y) && y in {id} ensures x in {id} {
      CutNeeds(before, Members(gone), middle.facts, x, y);
    }
  }

  lemma LastGoesFirstNeeded(before: Graph, id: PluginId, gone: seq<PluginId>)
    requires Wired(before) && Untangled(before, id) && IsActive(before, id)
    requires Unrepeated(gone) && DependentsFirst(before, gone) && Members(gone) == Closure(before, id) - {id}
    ensures Unrepeated(gone + [id]) && DependentsFirst(before, gone + [id])
  {
    hide Wired, Closure, LeansOn, Needs;
    var all := gone + [id];
    forall i, j | 0 <= i < j < |all| ensures all[i] != all[j] && !Needs(before, all[j], all[i]) {
      assert all[i] == gone[i] && gone[i] in Members(gone);
      if j < |gone| {
        assert !Needs(before, gone[j], gone[i]);
      } else {
        NoNeedBack(before, id, gone[i]);
      }
    }
  }

  lemma NoNeedBack(g: Graph, id: PluginId, x: PluginId)
    requires Wired(g) && Untangled(g, id) && IsActive(g, id) && x in Closure(g, id) && x != id
    ensures !Needs(g, id, x)
  {
    hide Closure, LeansOn;
    InClosure(g, id, x);
    if Needs(g, id, x) {
      LeansActive(g, x, id);
      LeansDirectly(g, id, x);
    }
  }
}
