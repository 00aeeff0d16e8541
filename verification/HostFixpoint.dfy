/** The least set of plugins that a boot or a reconcile can make live. */
module HostFixpoint {
  import opened Primitives
  import opened SessionEvents
  import opened HostGraph

  function Tokens(world: (Plugin, nat) -> Setup, p: Plugin): seq<TokenId> {
    if world(p, 0).Provided? then world(p, 0).tokens else []
  }

  ghost predicate Supplied(plugins: set<Plugin>, world: (Plugin, nat) -> Setup, ids: set<PluginId>, t: TokenId) {
    exists q :: q in plugins && q.id in ids && t in Tokens(world, q)
  }

  /** No plugin whose setup succeeds and whose injects these ids supply is missing from them. */
  ghost predicate ClosedUnder(plugins: set<Plugin>, world: (Plugin, nat) -> Setup, ids: set<PluginId>) {
    forall p :: p in plugins && world(p, 0).Provided?
                && (forall t :: t in p.inject ==> Supplied(plugins, world, ids, t)) ==>
      p.id in ids
  }

  /** The ids that every closed set above `base` holds. */
  ghost function Least(plugins: set<Plugin>, world: (Plugin, nat) -> Setup, base: set<PluginId>): set<PluginId> {
    set p | p in plugins && (forall ids :: base <= ids && ClosedUnder(plugins, world, ids) ==> p.id in ids) :: p.id
  }

  /** Each setup comes to the same every time, be it a failure, and no two plugins provide one token. */
  ghost predicate Alike(plugins: set<Plugin>, world: (Plugin, nat) -> Setup) {
    && (forall p, n :: p in plugins ==> world(p, n) == world(p, 0))
    && (forall p, q, t :: p in plugins && q in plugins && t in Tokens(world, p) && t in Tokens(world, q) ==>
          p.id == q.id)
  }

  /** The host plugins that are wanted or already live. */
  function Candidates(g: Graph, desired: seq<PluginId>): set<Plugin> {
    set id | id in g.byId && (id in desired || IsActive(g, id)) && g.byId[id].scope == HostScope :: g.byId[id]
  }

  /** The host plugins that are wanted. */
  function Wanted(byId: map<PluginId, Plugin>, desired: seq<PluginId>): set<Plugin> {
    set id | id in byId && id in desired && byId[id].scope == HostScope :: byId[id]
  }

  ghost predicate Faithful(g: Graph, world: (Plugin, nat) -> Setup) {
    forall i :: 0 <= i < |g.active| ==>
      world(g.active[i].plugin, 0).Provided? && g.active[i].tokens == world(g.active[i].plugin, 0).tokens
  }

  /** Every closed set above `base` holds what is live. */
  ghost predicate Below(g: Graph, plugins: set<Plugin>, world: (Plugin, nat) -> Setup, base: set<PluginId>) {
    forall ids :: base <= ids && ClosedUnder(plugins, world, ids) ==> ActiveIds(g) <= ids
  }

  lemma ActiveIsCandidate(g: Graph, desired: seq<PluginId>, i: nat)
    requires Wired(g) && i < |g.active|
    ensures g.active[i].plugin in Candidates(g, desired)
  {
  }

  /** When setups are alike, no other live plugin owns a token this one provides. */
  lemma EligibleTokensFree(g: Graph, desired: seq<PluginId>, world: (Plugin, nat) -> Setup, p: Plugin)
    requires Wired(g) && Faithful(g, world) && Alike(Candidates(g, desired), world)
    requires p in Candidates(g, desired)
    ensures Taken(g.cells, Tokens(world, p), p.id).None?
  {
    TakenMeaning(g.cells, Tokens(world, p), p.id);
    forall t | t in Tokens(world, p) && t in g.cells ensures g.cells[t] == p.id {
      var i := ActiveIndex(g.active, g.cells[t]);
      ActiveIsCandidate(g, desired, i);
      assert t in Tokens(world, g.active[i].plugin);
    }
  }

  lemma InstallStaysBelow(g: Graph, desired: seq<PluginId>, world: (Plugin, nat) -> Setup, base: set<PluginId>,
                          p: Plugin, ids: set<PluginId>)
    requires Wired(g) && Faithful(g, world) && Below(g, Candidates(g, desired), world, base)
    requires p in Candidates(g, desired) && Missing(p.inject, g.cells.Keys) == [] && world(p, 0).Provided?
    requires base <= ids && ClosedUnder(Candidates(g, desired), world, ids)
    ensures p.id in ids
  {
    var plugins := Candidates(g, desired);
    forall t | t in p.inject ensures Supplied(plugins, world, ids, t) {
      MissingMeaning(p.inject, g.cells.Keys, t);
      var i := ActiveIndex(g.active, g.cells[t]);
      ActiveIsCandidate(g, desired, i);
      InActiveIds(g, g.cells[t]);
      assert ActiveIds(g) <= ids;
      var q := g.active[i].plugin;
      assert q in plugins && q.id in ids && t in Tokens(world, q);
    }
  }

  /** A token that live candidates supply is in its cell. */
  lemma SuppliedIsLive(g: Graph, desired: seq<PluginId>, world: (Plugin, nat) -> Setup, t: TokenId)
    requires Wired(g) && Faithful(g, world)
    requires Supplied(Candidates(g, desired), world, ActiveIds(g), t)
    ensures t in g.cells
  {
  }

  lemma StuckIsClosed(g: Graph, desired: seq<PluginId>, world: (Plugin, nat) -> Setup)
    requires Wired(g) && Faithful(g, world)
    requires forall p :: p in Candidates(g, desired) && !IsActive(g, p.id) && world(p, 0).Provided? ==>
      Missing(p.inject, g.cells.Keys) != []
    ensures ClosedUnder(Candidates(g, desired), world, ActiveIds(g))
  {
    var plugins := Candidates(g, desired);
    forall p | p in plugins && world(p, 0).Provided?
        && (forall t :: t in p.inject ==> Supplied(plugins, world, ActiveIds(g), t))
      ensures p.id in ActiveIds(g)
    {
      InActiveIds(g, p.id);
      if Missing(p.inject, g.cells.Keys) != [] {
        var t := Missing(p.inject, g.cells.Keys)[0];
        MissingMeaning(p.inject, g.cells.Keys, t);
        SuppliedIsLive(g, desired, world, t);
      }
    }
  }

  lemma BelowIsWithinLeast(g: Graph, desired: seq<PluginId>, world: (Plugin, nat) -> Setup, base: set<PluginId>)
    requires Wired(g) && Below(g, Candidates(g, desired), world, base)
    ensures ActiveIds(g) <= Least(Candidates(g, desired), world, base)
  {
    var plugins := Candidates(g, desired);
    forall id | id in ActiveIds(g) ensures id in Least(plugins, world, base) {
      InActiveIds(g, id);
      var i := ActiveIndex(g.active, id);
      ActiveIsCandidate(g, desired, i);
      var p := g.active[i].plugin;
      assert forall ids :: base <= ids && ClosedUnder(plugins, world, ids) ==> p.id in ids;
    }
  }

  /** A stuck graph that stayed below every closed set is the least one. */
  lemma StuckIsLeast(g: Graph, desired: seq<PluginId>, world: (Plugin, nat) -> Setup, base: set<PluginId>)
    requires Wired(g) && Faithful(g, world) && Below(g, Candidates(g, desired), world, base)
    requires forall p :: p in Candidates(g, desired) && !IsActive(g, p.id) && world(p, 0).Provided? ==>
      Missing(p.inject, g.cells.Keys) != []
    requires base <= ActiveIds(g)
    ensures ActiveIds(g) == Least(Candidates(g, desired), world, base)
  {
    StuckIsClosed(g, desired, world);
    BelowIsWithinLeast(g, desired, world, base);
  }

  /** Going live moves neither the candidates nor the bound. */
  lemma InstallKeepsBound(g: Graph, desired: seq<PluginId>, world: (Plugin, nat) -> Setup, base: set<PluginId>,
                          p: Plugin, data: seq<Contribution>, marker: nat)
    requires Wired(g) && Faithful(g, world) && Below(g, Candidates(g, desired), world, base)
    requires p in Candidates(g, desired) && p.id in desired && !IsActive(g, p.id)
    requires Missing(p.inject, g.cells.Keys) == [] && world(p, 0).Provided?
    ensures var after := Installing(g, p, Tokens(world, p), data, marker);
      && Candidates(after, desired) == Candidates(g, desired) && after.byId == g.byId
      && Faithful(after, world) && Below(after, Candidates(g, desired), world, base)
      && ActiveIds(after) == ActiveIds(g) + {p.id}
  {
    var after := Installing(g, p, Tokens(world, p), data, marker);
    var a := Activation(p, Tokens(world, p), marker);
    assert g.byId[p.id] == p;
    assert after.byId == g.byId;
    forall id ensures IsActive(after, id) <==> IsActive(g, id) || id == p.id {
      AppendedIndex(g.active, a, id);
    }
    forall id ensures id in ActiveIds(after) <==> id in ActiveIds(g) + {p.id} {
      InActiveIds(g, id);
      InActiveIds(after, id);
    }
    forall ids | base <= ids && ClosedUnder(Candidates(g, desired), world, ids) ensures ActiveIds(after) <= ids {
      InstallStaysBelow(g, desired, world, base, p, ids);
    }
  }
}
