/** Replacing an active plugin in place, and exactly when that keeps the graph wired. */
module HostCutover {
  import opened Primitives
  import opened SessionEvents
  import opened HostGraph
  import opened HostLeaning
  import opened HostCascade
  import opened HostReversal

  /** The new generation is recorded over the old one, in the old one's place. */
  function Recording(g: Graph, plugin: Plugin, tokens: seq<TokenId>, marker: nat): Graph
    requires IsActive(g, plugin.id)
  {
    g.(active := g.active[ActiveIndex(g.active, plugin.id) := Activation(plugin, tokens, marker)],
       byId := g.byId[plugin.id := plugin])
  }

  /**
    A cutover that publishes.  The tokens to drop are read after the new ones were recorded,
    so none is dropped.
   */
  function CuttingOver(g: Graph, plugin: Plugin, tokens: seq<TokenId>, data: seq<Contribution>, marker: nat): Graph
    requires IsActive(g, plugin.id)
  {
    Recording(g, plugin, tokens, marker).(
      cells := Providing(g.cells, tokens, plugin.id),
      store := StoreWithout(g.store, plugin.id) + StoredBy(plugin.id, data))
  }

  /** A cutover refused because another plugin owns a token: the new scope is closed, and nothing else. */
  function RefusingCutover(g: Graph, plugin: Plugin, tokens: seq<TokenId>, marker: nat): Graph
    requires IsActive(g, plugin.id)
  {
    Closing(Recording(g, plugin, tokens, marker), plugin.id, marker, tokens)
  }

  /** The new generation provides at least what the old one did. */
  predicate CoversOldTokens(g: Graph, id: PluginId, tokens: seq<TokenId>)
    requires IsActive(g, id)
  {
    forall t :: t in g.active[ActiveIndex(g.active, id)].tokens ==> t in tokens
  }

  ghost predicate NeededByOthers(g: Graph, id: PluginId) {
    exists x :: x != id && Needs(g, x, id)
  }

  lemma ReplacedIndex(active: seq<Activation>, a: Activation, id: PluginId)
    requires ActiveIndex(active, a.plugin.id) >= 0
    ensures ActiveIndex(active[ActiveIndex(active, a.plugin.id) := a], id) == ActiveIndex(active, id)
  {
    var i := ActiveIndex(active, a.plugin.id);
    assert forall k :: 0 <= k < |active| ==> active[i := a][k].plugin.id == active[k].plugin.id;
  }

  /** A published cutover keeps the graph wired exactly when it gives up no token. */
  lemma CutoverKeepsWiring(g: Graph, plugin: Plugin, tokens: seq<TokenId>, data: seq<Contribution>, marker: nat)
    requires Wired(g) && IsActive(g, plugin.id) && plugin.scope == HostScope
    requires Missing(plugin.inject, g.cells.Keys) == [] && Taken(g.cells, tokens, plugin.id).None?
    ensures Wired(CuttingOver(g, plugin, tokens, data, marker)) <==> CoversOldTokens(g, plugin.id, tokens)
  {
    if CoversOldTokens(g, plugin.id, tokens) {
      CutoverKeepsRecords(g, plugin, tokens, data, marker);
      CutoverKeepsTokens(g, plugin, tokens, data, marker);
      CutoverKeepsOwners(g, plugin, tokens, data, marker);
      CutoverKeepsStore(g, plugin, tokens, data, marker);
    } else {
      DroppedTokenStays(g, plugin, tokens, data, marker);
    }
  }

  lemma CutoverKeepsRecords(g: Graph, plugin: Plugin, tokens: seq<TokenId>, data: seq<Contribution>, marker: nat)
    requires Wired(g) && IsActive(g, plugin.id) && plugin.scope == HostScope
    ensures var after := CuttingOver(g, plugin, tokens, data, marker);
      DistinctIds(after.active) && Known(after) && Journaled(after)
  {
  }

  lemma CutoverKeepsTokens(g: Graph, plugin: Plugin, tokens: seq<TokenId>, data: seq<Contribution>, marker: nat)
    requires Wired(g) && IsActive(g, plugin.id)
    requires Missing(plugin.inject, g.cells.Keys) == [] && Taken(g.cells, tokens, plugin.id).None?
    ensures var after := CuttingOver(g, plugin, tokens, data, marker); Fed(after) && TokensOwned(after)
  {
    var after := CuttingOver(g, plugin, tokens, data, marker);
    var i := ActiveIndex(g.active, plugin.id);
    OwnOrFreeTokens(g, plugin, tokens);
    ProvidingMeaning(g.cells, tokens, plugin.id);
    assert forall k :: 0 <= k < |g.active| && k != i ==> after.active[k] == g.active[k];
  }

  lemma OwnOrFreeTokens(g: Graph, plugin: Plugin, tokens: seq<TokenId>)
    requires Missing(plugin.inject, g.cells.Keys) == [] && Taken(g.cells, tokens, plugin.id).None?
    ensures forall t :: t in tokens && t in g.cells ==> g.cells[t] == plugin.id
    ensures forall t :: t in plugin.inject ==> t in g.cells
  {
    TakenMeaning(g.cells, tokens, plugin.id);
    forall t | t in plugin.inject ensures t in g.cells {
      MissingMeaning(plugin.inject, g.cells.Keys, t);
    }
  }

  lemma CutoverKeepsOwners(g: Graph, plugin: Plugin, tokens: seq<TokenId>, data: seq<Contribution>, marker: nat)
    requires Wired(g) && IsActive(g, plugin.id) && CoversOldTokens(g, plugin.id, tokens)
    ensures OwnersLive(CuttingOver(g, plugin, tokens, data, marker))
  {
    var after := CuttingOver(g, plugin, tokens, data, marker);
    var a := Activation(plugin, tokens, marker);
    ProvidingMeaning(g.cells, tokens, plugin.id);
    forall t | t in after.cells
      ensures var i := ActiveIndex(after.active, after.cells[t]); i >= 0 && t in after.active[i].tokens
    {
      ReplacedIndex(g.active, a, after.cells[t]);
    }
  }

  lemma CutoverKeepsStore(g: Graph, plugin: Plugin, tokens: seq<TokenId>, data: seq<Contribution>, marker: nat)
    requires Wired(g) && IsActive(g, plugin.id)
    ensures StoreLive(CuttingOver(g, plugin, tokens, data, marker))
  {
    var after := CuttingOver(g, plugin, tokens, data, marker);
    var kept := StoreWithout(g.store, plugin.id);
    forall k | 0 <= k < |after.store| ensures IsActive(after, after.store[k].plugin) {
      ReplacedIndex(g.active, Activation(plugin, tokens, marker), after.store[k].plugin);
      if k < |kept| {
        assert after.store[k] == kept[k] && kept[k] in kept;
        StoreWithoutMeaning(g.store, plugin.id, kept[k]);
        var j :| 0 <= j < |g.store| && g.store[j] == kept[k];
        assert IsActive(g, g.store[j].plugin);
      } else {
        assert after.store[k] == StoredBy(plugin.id, data)[k - |kept|];
      }
    }
  }

  /** A token the new generation does not provide keeps its cell, and nothing active provides it. */
  lemma DroppedTokenStays(g: Graph, plugin: Plugin, tokens: seq<TokenId>, data: seq<Contribution>, marker: nat)
    requires Wired(g) && IsActive(g, plugin.id) && !CoversOldTokens(g, plugin.id, tokens)
    ensures !OwnersLive(CuttingOver(g, plugin, tokens, data, marker))
  {
    var after := CuttingOver(g, plugin, tokens, data, marker);
    var i := ActiveIndex(g.active, plugin.id);
    var t :| t in g.active[i].tokens && t !in tokens;
    ProvidingMeaning(g.cells, tokens, plugin.id);
    assert t in after.cells && after.cells[t] == plugin.id;
    ReplacedIndex(g.active, Activation(plugin, tokens, marker), plugin.id);
  }

  /** Every inject of the new generation is owned by a plugin activated earlier. */
  ghost predicate KeepsPlace(g: Graph, plugin: Plugin) {
    forall t :: t in plugin.inject ==>
      t in g.cells && ActiveIndex(g.active, g.cells[t]) < ActiveIndex(g.active, plugin.id)
  }

  /** No inject of the new generation is owned by another plugin that leans on this one. */
  ghost predicate TiesNoCircle(g: Graph, plugin: Plugin) {
    forall t :: t in plugin.inject ==>
      t in g.cells && (g.cells[t] == plugin.id || !LeansOn(g, g.cells[t], plugin.id))
  }

  /** A published cutover keeps activation order exactly when every new inject is owned by an earlier plugin. */
  lemma CutoverKeepsOrder(g: Graph, plugin: Plugin, tokens: seq<TokenId>, data: seq<Contribution>, marker: nat)
    requires Wired(g) && Ordered(g) && IsActive(g, plugin.id) && plugin.scope == HostScope
    requires Missing(plugin.inject, g.cells.Keys) == [] && Taken(g.cells, tokens, plugin.id).None?
    ensures Ordered(CuttingOver(g, plugin, tokens, data, marker)) <==> KeepsPlace(g, plugin)
  {
    var after := CuttingOver(g, plugin, tokens, data, marker);
    forall x, y ensures ActiveIndex(after.active, y) < ActiveIndex(after.active, x)
                   <==> ActiveIndex(g.active, y) < ActiveIndex(g.active, x)
    {
      ReplacedIndex(g.active, Activation(plugin, tokens, marker), x);
      ReplacedIndex(g.active, Activation(plugin, tokens, marker), y);
    }
    OwnOrFreeTokens(g, plugin, tokens);
    forall x, y ensures x != plugin.id ==> (Needs(after, x, y) <==> Needs(g, x, y)) {
      if x != plugin.id { OthersNeeds(g, plugin, tokens, data, marker, x, y); }
    }
    forall y ensures Needs(after, plugin.id, y) <==> exists t :: t in plugin.inject && t in g.cells && g.cells[t] == y {
      ItsNeeds(g, plugin, tokens, data, marker, y);
    }
    if Ordered(after) {
      forall t | t in plugin.inject
        ensures t in g.cells && ActiveIndex(g.active, g.cells[t]) < ActiveIndex(g.active, plugin.id)
      {
        assert Needs(after, plugin.id, g.cells[t]);
      }
    }
  }

  /** A published cutover ties no circle exactly when no new inject is owned by another plugin that leans on it. */
  lemma CutoverKeepsAcyclic(g: Graph, plugin: Plugin, tokens: seq<TokenId>, data: seq<Contribution>, marker: nat)
    requires Wired(g) && Acyclic(g) && IsActive(g, plugin.id) && plugin.scope == HostScope
    requires Missing(plugin.inject, g.cells.Keys) == [] && Taken(g.cells, tokens, plugin.id).None?
    ensures Acyclic(CuttingOver(g, plugin, tokens, data, marker)) <==> TiesNoCircle(g, plugin)
  {
    hide Wired, LeansOn, CuttingOver, Needs, Missing, Taken;
    var id, after := plugin.id, CuttingOver(g, plugin, tokens, data, marker);
    OwnOrFreeTokens(g, plugin, tokens);
    CutoverNeeds(g, plugin, tokens, data, marker);
    forall x { SameReach(g, after, id, x); }
    if Acyclic(after) {
      forall t | t in plugin.inject ensures t in g.cells && (g.cells[t] == id || !LeansOn(g, g.cells[t], id)) {
        InjectedIsActive(g, plugin, t);
        LeansDirectly(after, id, g.cells[t]);
      }
    }
    if TiesNoCircle(g, plugin) {
      forall x, y | x != y && LeansOn(after, x, y) ensures !LeansOn(after, y, x) {
        if LeansOn(after, y, x) {
          NoNewCircle(g, after, plugin, x, y);
        }
      }
    }
  }

  lemma InjectedIsActive(g: Graph, plugin: Plugin, t: TokenId)
    requires Wired(g) && t in g.cells
    ensures IsActive(g, g.cells[t])
  {
  }

  /** Needs differ at one plugin only, and there they are what it injects. */
  ghost predicate NeedsMoved(g: Graph, after: Graph, plugin: Plugin) {
    && (forall x :: IsActive(after, x) <==> IsActive(g, x))
    && (forall x, y :: x != plugin.id ==> (Needs(after, x, y) <==> Needs(g, x, y)))
    && (forall y :: Needs(after, plugin.id, y) <==> exists t :: t in plugin.inject && t in g.cells && g.cells[t] == y)
  }

  lemma CutoverNeeds(g: Graph, plugin: Plugin, tokens: seq<TokenId>, data: seq<Contribution>, marker: nat)
    requires Wired(g) && IsActive(g, plugin.id)
    requires forall t :: t in tokens && t in g.cells ==> g.cells[t] == plugin.id
    requires forall t :: t in plugin.inject ==> t in g.cells
    ensures NeedsMoved(g, CuttingOver(g, plugin, tokens, data, marker), plugin)
  {
    hide Wired, Needs, ActiveIndex, Providing, StoreWithout;
    var after := CuttingOver(g, plugin, tokens, data, marker);
    forall x ensures IsActive(after, x) <==> IsActive(g, x) {
      ReplacedIndex(g.active, Activation(plugin, tokens, marker), x);
    }
    forall x, y ensures x != plugin.id ==> (Needs(after, x, y) <==> Needs(g, x, y)) {
      if x != plugin.id { OthersNeeds(g, plugin, tokens, data, marker, x, y); }
    }
    forall y ensures Needs(after, plugin.id, y) <==> exists t :: t in plugin.inject && t in g.cells && g.cells[t] == y {
      ItsNeeds(g, plugin, tokens, data, marker, y);
    }
  }

  /** Graphs whose needs differ at one plugin only agree on what leans on that plugin. */
  lemma {:induction false} SameReachIn(g: Graph, h: Graph, id: PluginId, x: PluginId, n: nat)
    requires forall x :: IsActive(h, x) <==> IsActive(g, x)
    requires forall x, y :: x != id ==> (Needs(h, x, y) <==> Needs(g, x, y))
    requires LeansIn(g, x, id, n)
    ensures LeansOn(h, x, id)
    decreases n
  {
    hide Needs, ActiveIndex;
    LeansInActive(g, x, id, n);
    if x == id {
      LeansSelf(h, x);
    } else {
      var y :| Needs(g, x, y) && LeansIn(g, y, id, n - 1);
      SameReachIn(g, h, id, y, n - 1);
      LeansStep(h, x, y, id);
    }
  }

  lemma SameReach(g: Graph, h: Graph, id: PluginId, x: PluginId)
    requires forall x :: IsActive(h, x) <==> IsActive(g, x)
    requires forall x, y :: x != id ==> (Needs(h, x, y) <==> Needs(g, x, y))
    ensures LeansOn(g, x, id) <==> LeansOn(h, x, id)
  {
    hide Needs, ActiveIndex, LeansIn;
    if LeansOn(g, x, id) {
      var n: nat :| LeansIn(g, x, id, n);
      SameReachIn(g, h, id, x, n);
    }
    if LeansOn(h, x, id) {
      var n: nat :| LeansIn(h, x, id, n);
      SameReachIn(h, g, id, x, n);
    }
  }

  /** A chain in the new graph is one in the old, or passes through the replaced plugin. */
  lemma {:induction false} OldOrThrough(g: Graph, after: Graph, plugin: Plugin, x: PluginId, y: PluginId, n: nat)
    requires NeedsMoved(g, after, plugin) && LeansIn(after, x, y, n)
    ensures LeansOn(g, x, y) || (LeansOn(after, x, plugin.id) && LeansOn(after, plugin.id, y))
    decreases n
  {
    hide Needs, ActiveIndex;
    LeansInActive(after, x, y, n);
    if x == plugin.id {
      LeansSelf(after, x);
      assert LeansOn(after, x, y);
    } else if n == 0 {
      LeansSelf(g, x);
    } else {
      var z :| Needs(after, x, z) && LeansIn(after, z, y, n - 1);
      OldOrThrough(g, after, plugin, z, y, n - 1);
      if LeansOn(g, z, y) {
        LeansStep(g, x, z, y);
      } else {
        LeansStep(after, x, z, plugin.id);
      }
    }
  }

  /** A chain out of a plugin leaves it by a need for another. */
  lemma {:induction false} WayOut(g: Graph, id: PluginId, w: PluginId, n: nat) returns (z: PluginId)
    requires LeansIn(g, id, w, n) && w != id
    ensures z != id && Needs(g, id, z) && LeansOn(g, z, w)
    decreases n
  {
    var y :| Needs(g, id, y) && LeansIn(g, y, w, n - 1);
    if y == id {
      z := WayOut(g, id, w, n - 1);
    } else {
      z := y;
      assert LeansOn(g, y, w);
    }
  }

  lemma NoNewCircle(g: Graph, after: Graph, plugin: Plugin, x: PluginId, y: PluginId)
    requires Acyclic(g) && NeedsMoved(g, after, plugin) && TiesNoCircle(g, plugin)
    requires x != y && LeansOn(after, x, y)
    ensures !LeansOn(after, y, x)
  {
    hide Needs, ActiveIndex, LeansIn;
    if LeansOn(after, y, x) {
      var n: nat, m: nat :| LeansIn(after, x, y, n) && LeansIn(after, y, x, m);
      OldOrThrough(g, after, plugin, x, y, n);
      OldOrThrough(g, after, plugin, y, x, m);
      var w := if x != plugin.id then x else y;
      if LeansOn(after, x, plugin.id) && LeansOn(after, plugin.id, y) {
        LeansChain(after, plugin.id, y, x);
        LeansChain(after, y, x, plugin.id);
      } else {
        LeansChain(after, plugin.id, x, y);
        LeansChain(after, x, y, plugin.id);
      }
      NotThrough(g, after, plugin, w);
    }
  }

  lemma NotThrough(g: Graph, after: Graph, plugin: Plugin, w: PluginId)
    requires NeedsMoved(g, after, plugin) && TiesNoCircle(g, plugin) && w != plugin.id
    ensures !(LeansOn(after, plugin.id, w) && LeansOn(after, w, plugin.id))
  {
    hide Needs, ActiveIndex, LeansIn;
    if LeansOn(after, plugin.id, w) && LeansOn(after, w, plugin.id) {
      var n: nat :| LeansIn(after, plugin.id, w, n);
      var z := WayOut(after, plugin.id, w, n);
      LeansChain(after, z, w, plugin.id);
      SameReach(g, after, plugin.id, z);
    }
  }

  lemma OthersNeeds(g: Graph, plugin: Plugin, tokens: seq<TokenId>, data: seq<Contribution>, marker: nat,
                    x: PluginId, y: PluginId)
    requires Wired(g) && IsActive(g, plugin.id) && x != plugin.id
    requires forall t :: t in tokens && t in g.cells ==> g.cells[t] == plugin.id
    ensures Needs(CuttingOver(g, plugin, tokens, data, marker), x, y) <==> Needs(g, x, y)
  {
    var after := CuttingOver(g, plugin, tokens, data, marker);
    ReplacedIndex(g.active, Activation(plugin, tokens, marker), x);
    ProvidingMeaning(g.cells, tokens, plugin.id);
    if IsActive(g, x) {
      var p := g.active[ActiveIndex(g.active, x)].plugin;
      assert after.active[ActiveIndex(g.active, x)].plugin == p;
      assert forall t :: t in p.inject ==> t in g.cells && after.cells[t] == g.cells[t];
    }
  }

  lemma ItsNeeds(g: Graph, plugin: Plugin, tokens: seq<TokenId>, data: seq<Contribution>, marker: nat, y: PluginId)
    requires Wired(g) && IsActive(g, plugin.id)
    requires forall t :: t in tokens && t in g.cells ==> g.cells[t] == plugin.id
    requires forall t :: t in plugin.inject ==> t in g.cells
    ensures Needs(CuttingOver(g, plugin, tokens, data, marker), plugin.id, y)
       <==> exists t :: t in plugin.inject && t in g.cells && g.cells[t] == y
  {
    var after := CuttingOver(g, plugin, tokens, data, marker);
    ReplacedIndex(g.active, Activation(plugin, tokens, marker), plugin.id);
    ProvidingMeaning(g.cells, tokens, plugin.id);
    assert after.active[ActiveIndex(g.active, plugin.id)].plugin == plugin;
    assert forall t :: t in plugin.inject ==> after.cells[t] == g.cells[t];
  }

  /**
    A refused cutover takes the plugin away without its dependents, and leaves behind any
    token the refused generation did not ask for.
   */
  lemma RefusalKeepsWiring(g: Graph, plugin: Plugin, tokens: seq<TokenId>, marker: nat)
    requires Wired(g) && IsActive(g, plugin.id) && plugin.scope == HostScope
    ensures Wired(RefusingCutover(g, plugin, tokens, marker)) <==>
              CoversOldTokens(g, plugin.id, tokens) && !NeededByOthers(g, plugin.id)
  {
    hide RefusingCutover, CoversOldTokens, NeededByOthers, Fed, OwnersLive;
    if CoversOldTokens(g, plugin.id, tokens) {
      CoveredRefusalIsCut(g, plugin, tokens, marker);
      if NeededByOthers(g, plugin.id) {
        OthersLoseTheirInject(g, plugin);
      } else {
        UnneededRemoval(g, plugin);
      }
    } else {
      OrphanedToken(g, plugin, tokens, marker);
    }
  }

  lemma UnneededRemoval(g: Graph, plugin: Plugin)
    requires Wired(g) && IsActive(g, plugin.id) && !NeededByOthers(g, plugin.id)
    ensures Wired(Cut(g, {plugin.id}, g.facts).(byId := g.byId[plugin.id := plugin]))
  {
    hide Keeping, CellsKeeping, StoreKeeping, Needs, Known, Journaled;
    CutKeepsLinks(g, {plugin.id}, g.facts);
    RemovalKeepsRecords(g, plugin);
  }

  lemma RefusalIsRemoval(g: Graph, plugin: Plugin, tokens: seq<TokenId>, marker: nat)
    requires Wired(g) && IsActive(g, plugin.id)
    ensures var after := RefusingCutover(g, plugin, tokens, marker);
      && after.active == Keeping(g.active, {plugin.id})
      && after.cells == (map t | t in g.cells && !(t in tokens && g.cells[t] == plugin.id) :: g.cells[t])
      && after.byId == g.byId[plugin.id := plugin] && after.store == StoreKeeping(g.store, {plugin.id})
      && after.facts == g.facts
  {
    var i := ActiveIndex(g.active, plugin.id);
    var middle := Recording(g, plugin, tokens, marker);
    ReplacedIndex(g.active, Activation(plugin, tokens, marker), plugin.id);
    KeepingOthers(g.active, i);
    StoreWithoutIsKeeping(g.store, plugin.id);
    assert middle.active[..i] == g.active[..i] && middle.active[i + 1..] == g.active[i + 1..];
  }

  /** It only takes away: order and freedom from circles are kept, whatever tokens stay behind. */
  lemma RefusalKeepsShape(g: Graph, plugin: Plugin, tokens: seq<TokenId>, marker: nat)
    requires Wired(g) && IsActive(g, plugin.id)
    ensures Ordered(g) ==> Ordered(RefusingCutover(g, plugin, tokens, marker))
    ensures Acyclic(g) ==> Acyclic(RefusingCutover(g, plugin, tokens, marker))
  {
    hide RefusingCutover, Keeping, StoreKeeping, ActiveIndex, Acyclic, Needs;
    var after := RefusingCutover(g, plugin, tokens, marker);
    forall x ensures IsActive(after, x) ==> x != plugin.id && IsActive(g, x) {
      RefusalIsRemoval(g, plugin, tokens, marker);
      KeepingIndex(g.active, {plugin.id}, x);
    }
    forall x, y ensures Needs(after, x, y) ==> Needs(g, x, y) {
      RefusalNeedsFewer(g, plugin, tokens, marker, x, y);
    }
    if Acyclic(g) {
      FewerKeepsAcyclic(after, g);
    }
    if Ordered(g) {
      forall x, y | Needs(after, x, y) ensures ActiveIndex(after.active, y) < ActiveIndex(after.active, x) {
        RefusalKeepsPlaces(g, plugin, tokens, marker, x, y);
      }
    }
  }

  lemma RefusalNeedsFewer(g: Graph, plugin: Plugin, tokens: seq<TokenId>, marker: nat, x: PluginId, y: PluginId)
    requires Wired(g) && IsActive(g, plugin.id)
    ensures Needs(RefusingCutover(g, plugin, tokens, marker), x, y) ==> Needs(g, x, y)
  {
    hide RefusingCutover, Keeping, StoreKeeping, ActiveIndex;
    RefusalIsRemoval(g, plugin, tokens, marker);
    KeepingIndex(g.active, {plugin.id}, x);
  }

  lemma RefusalKeepsPlaces(g: Graph, plugin: Plugin, tokens: seq<TokenId>, marker: nat, x: PluginId, y: PluginId)
    requires Wired(g) && IsActive(g, plugin.id) && Ordered(g)
    requires Needs(RefusingCutover(g, plugin, tokens, marker), x, y)
    ensures var active := RefusingCutover(g, plugin, tokens, marker).active;
      ActiveIndex(active, y) < ActiveIndex(active, x)
  {
    hide RefusingCutover, Keeping, StoreKeeping, ActiveIndex;
    RefusalIsRemoval(g, plugin, tokens, marker);
    RefusalNeedsFewer(g, plugin, tokens, marker, x, y);
    KeepingIndex(g.active, {plugin.id}, x);
    KeepingIndex(g.active, {plugin.id}, y);
    if y != plugin.id {
      NeededIsActive(g, x, y);
      KeepingOrder(g.active, {plugin.id}, y, x);
    }
  }

  lemma CoveredRefusalIsCut(g: Graph, plugin: Plugin, tokens: seq<TokenId>, marker: nat)
    requires Wired(g) && IsActive(g, plugin.id) && CoversOldTokens(g, plugin.id, tokens)
    ensures RefusingCutover(g, plugin, tokens, marker)
         == Cut(g, {plugin.id}, g.facts).(byId := g.byId[plugin.id := plugin])
  {
    hide RefusingCutover, Keeping, StoreKeeping, ActiveIndex;
    RefusalIsRemoval(g, plugin, tokens, marker);
    OwnedByIsTokens(g, plugin.id);
    CellsWithoutOwner(g.cells, plugin.id, tokens);
  }

  lemma RemovalKeepsRecords(g: Graph, plugin: Plugin)
    requires Wired(g)
    ensures var after := Cut(g, {plugin.id}, g.facts).(byId := g.byId[plugin.id := plugin]);
      Known(after) && Journaled(after)
  {
    hide FoldActivePlugins, Alternates, CellsKeeping, StoreKeeping, Keeping;
    var after := Cut(g, {plugin.id}, g.facts);
    KeepingDistinct(g.active, {plugin.id});
    forall k | 0 <= k < |after.active| ensures after.active[k] in g.active && after.active[k].plugin.id != plugin.id {
      assert after.active[k] in after.active;
    }
  }

  lemma OthersLoseTheirInject(g: Graph, plugin: Plugin)
    requires Wired(g) && NeededByOthers(g, plugin.id)
    ensures !Fed(Cut(g, {plugin.id}, g.facts).(byId := g.byId[plugin.id := plugin]))
  {
    hide Keeping, StoreKeeping, Wired, ActiveIndex;
    var id := plugin.id;
    var x :| x != id && Needs(g, x, id);
    var after := Cut(g, {id}, g.facts);
    var t :| t in g.active[ActiveIndex(g.active, x)].plugin.inject && t in g.cells && g.cells[t] == id;
    KeepingIndex(g.active, {id}, x);
    assert t in after.active[ActiveIndex(after.active, x)].plugin.inject;
    assert t !in after.cells;
  }

  lemma OrphanedToken(g: Graph, plugin: Plugin, tokens: seq<TokenId>, marker: nat)
    requires Wired(g) && IsActive(g, plugin.id) && !CoversOldTokens(g, plugin.id, tokens)
    ensures !OwnersLive(RefusingCutover(g, plugin, tokens, marker))
  {
    var after := RefusingCutover(g, plugin, tokens, marker);
    var t :| t in g.active[ActiveIndex(g.active, plugin.id)].tokens && t !in tokens;
    RefusalIsRemoval(g, plugin, tokens, marker);
    KeepingIndex(g.active, {plugin.id}, plugin.id);
    assert t in after.cells && after.cells[t] == plugin.id;
  }

  // ---- what an unsafe replacement leaves ----

  /** For one: a plugin that provided a token is replaced by one that provides none. */
  lemma DroppedTokenIsOrphaned(id: PluginId, t: TokenId)
    ensures var plugin := Plugin(id, HostScope, []);
      var g := Installing(Graph([], map[], map[], [], []), plugin, [t], [], 0);
      && Wired(g) && IsActive(g, id)
      && !Wired(CuttingOver(g, plugin, [], [], 1))
  {
    var empty := Graph([], map[], map[], [], []);
    var plugin := Plugin(id, HostScope, []);
    var g := Installing(empty, plugin, [t], [], 0);
    InstallKeepsWiring(empty, plugin, [t], [], 0);
    assert g.active == [Activation(plugin, [t], 0)];
    assert t in g.active[ActiveIndex(g.active, id)].tokens;
    CutoverKeepsWiring(g, plugin, [], [], 1);
  }

  /**
    A new generation that injects from its own dependent leaves two plugins that need each
    other, and no deactivation of either ends.
   */
  lemma ReplacingCanTangle(g: Graph, plugin: Plugin, tokens: seq<TokenId>, data: seq<Contribution>, marker: nat,
                           other: PluginId, t: TokenId)
    requires Wired(g) && IsActive(g, plugin.id) && plugin.scope == HostScope
    requires Missing(plugin.inject, g.cells.Keys) == [] && Taken(g.cells, tokens, plugin.id).None?
    requires other != plugin.id && Needs(g, other, plugin.id)
    requires t in plugin.inject && t in g.cells && g.cells[t] == other
    ensures var after := CuttingOver(g, plugin, tokens, data, marker);
      && Needs(after, plugin.id, other) && Needs(after, other, plugin.id)
      && forall fuel: nat :: CascadeRun(after, plugin.id, fuel).None? && CascadeRun(after, other, fuel).None?
  {
    hide Untangled, CascadeRun, CuttingOver, Needs, Taken, Missing, IsActive;
    var after := CuttingOver(g, plugin, tokens, data, marker);
    OwnOrFreeTokens(g, plugin, tokens);
    ItsNeeds(g, plugin, tokens, data, marker, other);
    OthersNeeds(g, plugin, tokens, data, marker, other, plugin.id);
    CutoverKeepsRecords(g, plugin, tokens, data, marker);
    NeedingEachOther(after, plugin.id, other);
    CascadeEndsExactly(after, plugin.id);
    CascadeEndsExactly(after, other);
  }

  /** Two plugins, `a` and `b`: the first provides `s`, the second injects `s` and provides `t`. */
  function ChainOfTwo(a: PluginId, b: PluginId, s: TokenId, t: TokenId): Graph {
    var first := Installing(Graph([], map[], map[], [], []), Plugin(a, HostScope, []), [s], [], 0);
    Installing(first, Plugin(b, HostScope, [s]), [t], [], 1)
  }

  /** For one: the first of them is replaced by a generation that still provides `s` but injects `t`. */
  lemma ChainTiedInCircle(a: PluginId, b: PluginId, s: TokenId, t: TokenId)
    requires a != b && s != t
    ensures var g := ChainOfTwo(a, b, s, t);
      var plugin := Plugin(a, HostScope, [t]);
      && Wired(g) && Ordered(g) && IsActive(g, a)
      && var after := CuttingOver(g, plugin, [s], [], 2);
      && Wired(after) && !Acyclic(after)
      && forall fuel: nat :: CascadeRun(after, a, fuel).None? && CascadeRun(after, b, fuel).None?
  {
    hide Wired, Ordered, Acyclic, CuttingOver, CascadeRun, LeansOn;
    var g, plugin := ChainOfTwo(a, b, s, t), Plugin(a, HostScope, [t]);
    ChainIsWired(a, b, s, t);
    CutoverKeepsWiring(g, plugin, [s], [], 2);
    ReplacingCanTangle(g, plugin, [s], [], 2, b, t);
    NeedingEachOther(CuttingOver(g, plugin, [s], [], 2), a, b);
    if Acyclic(CuttingOver(g, plugin, [s], [], 2)) {
      AcyclicIsUntangled(CuttingOver(g, plugin, [s], [], 2), a);
    }
  }

  lemma ChainIsWired(a: PluginId, b: PluginId, s: TokenId, t: TokenId)
    requires a != b && s != t
    ensures var g := ChainOfTwo(a, b, s, t);
      && Wired(g) && Ordered(g) && IsActive(g, a)
      && g.cells == map[s := a, t := b] && Needs(g, b, a)
      && Missing([t], g.cells.Keys) == [] && Taken(g.cells, [s], a).None? && CoversOldTokens(g, a, [s])
  {
    hide Wired, Ordered, Journal;
    var empty := Graph([], map[], map[], [], []);
    var first, second := Plugin(a, HostScope, []), Plugin(b, HostScope, [s]);
    var g := Installing(empty, first, [s], [], 0);
    EmptyIsWired();
    ProvidingOne(map[], s, a);
    ProvidingOne(map[s := a], t, b);
    InstallKeepsWiring(empty, first, [s], [], 0);
    InstallKeepsOrder(empty, first, [s], [], 0);
    assert g.active == [Activation(first, [s], 0)] && g.cells == map[s := a];
    assert [t][..0] == [] && [s][..0] == [] && [s][1..] == [] && [t][1..] == [];
    var both := ChainOfTwo(a, b, s, t);
    assert both.active == [Activation(first, [s], 0), Activation(second, [t], 1)];
    AppendedIndex(g.active, Activation(second, [t], 1), b);
    assert s in both.active[ActiveIndex(both.active, b)].plugin.inject && both.cells[s] == a;
    InstallKeepsWiring(g, second, [t], [], 1);
    InstallKeepsOrder(g, second, [t], [], 1);
  }

  lemma ProvidingOne(cells: map<TokenId, PluginId>, t: TokenId, id: PluginId)
    ensures Providing(cells, [t], id) == cells[t := id]
  {
    assert [t][..0] == [];
  }

  lemma EmptyIsWired()
    ensures var empty := Graph([], map[], map[], [], []); Wired(empty) && Ordered(empty)
  {
  }

  lemma NeedingEachOther(g: Graph, x: PluginId, y: PluginId)
    requires x != y && Needs(g, x, y) && Needs(g, y, x)
    ensures !Untangled(g, x) && !Untangled(g, y)
  {
    hide LeansOn;
    LeansDirectly(g, x, y);
    LeansDirectly(g, y, x);
    LeansSelf(g, x);
    LeansSelf(g, y);
  }
}
