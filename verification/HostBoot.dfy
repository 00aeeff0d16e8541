/** How far a boot depends on the order in which plugins are listed. */
module HostBoot {
  import opened Primitives
  import opened SessionEvents
  import opened HostGraph
  import opened HostFixpoint
  import opened HostLifecycle
  import opened HostResolve
  import opened HostOperations

  /** The host plugins by id. */
  function HostKnown(plugins: seq<Plugin>): map<PluginId, Plugin> {
    var known := KnownOf(plugins);
    map id | id in known && known[id].scope == HostScope :: known[id]
  }

  /** Two graphs with the same plugins live, the same providers and the same plugins blocked alike. */
  ghost predicate Agree(g: Graph, blocked: map<PluginId, seq<TokenId>>,
                        h: Graph, blocked': map<PluginId, seq<TokenId>>) {
    ActiveIds(g) == ActiveIds(h) && g.cells == h.cells && blocked == blocked'
  }

  lemma InIdsOf(plugins: seq<Plugin>, id: PluginId)
    ensures id in IdsOf(FirstOfEach(plugins)) <==> id in KnownOf(plugins)
  {
    var order := FirstOfEach(plugins);
    if id in IdsOf(order) {
      var k :| 0 <= k < |order| && order[k].id == id;
      ResolvedOrder(plugins, order[k]);
    }
    if id in KnownOf(plugins) {
      KnownIsFirst(plugins, id);
      ResolvedOrder(plugins, KnownOf(plugins)[id]);
      var k :| 0 <= k < |order| && order[k] == KnownOf(plugins)[id];
      assert IdsOf(order)[k] == id;
    }
  }

  /** Lists with the same host plugins want the same ones. */
  lemma SameWanted(plugins: seq<Plugin>, shuffled: seq<Plugin>, entries: seq<Fact>)
    requires HostKnown(plugins) == HostKnown(shuffled)
    ensures var desired := RecoverLifecycle(entries, IdsOf(FirstOfEach(plugins))).desired;
      var desired' := RecoverLifecycle(entries, IdsOf(FirstOfEach(shuffled))).desired;
      && Wanted(KnownOf(plugins), desired) == Wanted(KnownOf(shuffled), desired')
      && forall id :: id in HostKnown(plugins) ==> (id in desired <==> id in desired')
  {
    hide KnownOf, FirstOfEach, FoldActivePlugins;
    var desired := RecoverLifecycle(entries, IdsOf(FirstOfEach(plugins))).desired;
    var desired' := RecoverLifecycle(entries, IdsOf(FirstOfEach(shuffled))).desired;
    forall id ensures id in HostKnown(plugins) ==> (id in desired <==> id in desired') {
      InIdsOf(plugins, id);
      InIdsOf(shuffled, id);
      assert id in HostKnown(plugins) <==> id in HostKnown(shuffled);
    }
    forall p ensures p in Wanted(KnownOf(plugins), desired) <==> p in Wanted(KnownOf(shuffled), desired') {
      WantedByHostKnown(plugins, desired, p);
      WantedByHostKnown(shuffled, desired', p);
    }
  }

  lemma WantedByHostKnown(plugins: seq<Plugin>, desired: seq<PluginId>, p: Plugin)
    ensures p in Wanted(KnownOf(plugins), desired)
       <==> exists id :: id in HostKnown(plugins) && id in desired && HostKnown(plugins)[id] == p
  {
    hide KnownOf;
    if p in Wanted(KnownOf(plugins), desired) {
      var id :| id in KnownOf(plugins) && id in desired && KnownOf(plugins)[id].scope == HostScope
          && KnownOf(plugins)[id] == p;
      assert id in HostKnown(plugins);
    }
  }

  lemma CellsFollowActive(g: Graph, h: Graph, world: (Plugin, nat) -> Setup, t: TokenId)
    requires Wired(g) && Wired(h) && Faithful(g, world) && Faithful(h, world) && ActiveIds(g) == ActiveIds(h)
    requires forall id :: IsActive(g, id) ==> id in g.byId && id in h.byId && g.byId[id] == h.byId[id]
    ensures t in g.cells ==> t in h.cells && h.cells[t] == g.cells[t]
  {
    hide Fed, StoreLive, Journaled;
    if t in g.cells {
      var id := g.cells[t];
      var i := ActiveIndex(g.active, id);
      InActiveIds(g, id);
      InActiveIds(h, id);
      var j := ActiveIndex(h.active, id);
      assert g.active[i].plugin == g.byId[id] == h.active[j].plugin;
      assert t in h.active[j].tokens;
    }
  }

  lemma ActiveIsHostKnown(plugins: seq<Plugin>, g: Graph, id: PluginId)
    requires Wired(g) && g.byId == KnownOf(plugins) && IsActive(g, id)
    ensures id in HostKnown(plugins) && id in g.byId && HostKnown(plugins)[id] == g.byId[id]
  {
    hide KnownOf;
    assert g.active[ActiveIndex(g.active, id)].plugin.id == id;
  }

  /** What is live settles which plugin each token resolves to. */
  lemma SameCells(plugins: seq<Plugin>, shuffled: seq<Plugin>, g: Graph, h: Graph, world: (Plugin, nat) -> Setup)
    requires HostKnown(plugins) == HostKnown(shuffled)
    requires Wired(g) && Wired(h) && Faithful(g, world) && Faithful(h, world) && ActiveIds(g) == ActiveIds(h)
    requires g.byId == KnownOf(plugins) && h.byId == KnownOf(shuffled)
    ensures g.cells == h.cells
  {
    hide Wired, Faithful, KnownOf, HostKnown, ActiveIndex;
    forall id ensures IsActive(g, id) <==> IsActive(h, id) {
      InActiveIds(g, id);
      InActiveIds(h, id);
    }
    forall id | IsActive(g, id) ensures id in g.byId && id in h.byId && g.byId[id] == h.byId[id] {
      ActiveIsHostKnown(plugins, g, id);
      ActiveIsHostKnown(shuffled, h, id);
    }
    forall t ensures t in g.cells <==> t in h.cells
             ensures t in g.cells ==> g.cells[t] == h.cells[t]
    {
      CellsFollowActive(g, h, world, t);
      CellsFollowActive(h, g, world, t);
    }
  }

  lemma SameBlocked(plugins: seq<Plugin>, shuffled: seq<Plugin>, g: Graph, h: Graph,
                    desired: seq<PluginId>, desired': seq<PluginId>)
    requires HostKnown(plugins) == HostKnown(shuffled)
    requires g.byId == KnownOf(plugins) && h.byId == KnownOf(shuffled)
    requires ActiveIds(g) == ActiveIds(h) && g.cells == h.cells
    requires forall id :: id in HostKnown(plugins) ==> (id in desired <==> id in desired')
    ensures BlockedOf(g, desired) == BlockedOf(h, desired')
  {
    hide KnownOf, ActiveIndex, Missing;
    forall id ensures IsActive(g, id) <==> IsActive(h, id) {
      InActiveIds(g, id);
      InActiveIds(h, id);
    }
    forall id ensures id in BlockedOf(g, desired) <==> id in BlockedOf(h, desired')
              ensures id in BlockedOf(g, desired) ==> BlockedOf(g, desired)[id] == BlockedOf(h, desired')[id]
    {
      assert id in HostKnown(plugins) <==> id in HostKnown(shuffled);
      assert id in HostKnown(plugins) ==> HostKnown(plugins)[id] == HostKnown(shuffled)[id];
    }
  }

  /** With the same host plugins known, any two boots from one journal agree. */
  lemma SameHostPluginsAgree(plugins: seq<Plugin>, shuffled: seq<Plugin>, entries: seq<Fact>,
                             world: (Plugin, nat) -> Setup,
                             g: Graph, desired: seq<PluginId>, blocked: map<PluginId, seq<TokenId>>,
                             g': Graph, desired': seq<PluginId>, blocked': map<PluginId, seq<TokenId>>)
    requires HostKnown(plugins) == HostKnown(shuffled)
    requires Booted(plugins, entries, world, g, desired, blocked)
    requires Booted(shuffled, entries, world, g', desired', blocked')
    requires Alike(Wanted(KnownOf(plugins), desired), world)
    ensures Agree(g, blocked, g', blocked')
  {
    hide Wired, Ordered, Faithful, Alike, Least, BlockedOf, RecoverLifecycle, KnownOf, HostKnown;
    SameWanted(plugins, shuffled, entries);
    SameCells(plugins, shuffled, g, g', world);
    SameBlocked(plugins, shuffled, g, g', desired, desired');
  }

  // ---- some boot of every list ----

  function NotLive(g: Graph, desired: seq<PluginId>): set<PluginId> {
    set id | id in desired && !IsActive(g, id)
  }

  lemma {:induction false} RunsToEnd(g: Graph, desired: seq<PluginId>, world: (Plugin, nat) -> Setup,
                                     plugins: set<Plugin>)
    returns (h: Graph)
    requires OnTrack(g, desired, world, plugins, {}) && Ordered(g)
    ensures OnTrack(h, desired, world, plugins, {}) && Ordered(h) && h.byId == g.byId
    ensures forall id :: id in desired ==> !IsReady(h, world, id)
    decreases NotLive(g, desired)
  {
    hide OnTrack, Ordered, Missing, ActiveIndex;
    if exists id :: id in desired && IsReady(g, world, id) {
      var id :| id in desired && IsReady(g, world, id);
      var next := Attempt(g, g.byId[id], world(g.byId[id], 0), 0).0;
      TrackAdvances(g, desired, world, plugins, {}, id, 0, 0);
      OneMoreLive(g, desired, world, plugins, id);
      h := RunsToEnd(next, desired, world, plugins);
    } else {
      h := g;
    }
  }

  lemma OneMoreLive(g: Graph, desired: seq<PluginId>, world: (Plugin, nat) -> Setup, plugins: set<Plugin>, id: PluginId)
    requires OnTrack(g, desired, world, plugins, {}) && Ordered(g) && id in desired && IsReady(g, world, id)
    requires Attempt(g, g.byId[id], world(g.byId[id], 0), 0).1.Installed?
    ensures var next := Attempt(g, g.byId[id], world(g.byId[id], 0), 0).0;
      && Ordered(next) && next.byId == g.byId
      && NotLive(next, desired) < NotLive(g, desired)
  {
    hide Wired, Ordered, Missing, Taken, ActiveIndex, Providing, StoreWithout, Journal, Alike, Faithful, Below;
    var plugin := g.byId[id];
    var next := Attempt(g, plugin, world(plugin, 0), 0).0;
    WiredKnowsIds(g);
    AttemptKeepsGraph(g, plugin, world(plugin, 0), 0);
    WentLive(g, next, id);
    assert id in NotLive(g, desired) && id !in NotLive(next, desired);
  }

  /** When setups are alike there is a boot. */
  lemma SomeBoot(plugins: seq<Plugin>, entries: seq<Fact>, world: (Plugin, nat) -> Setup)
    returns (g: Graph, desired: seq<PluginId>, blocked: map<PluginId, seq<TokenId>>)
    requires Alike(Wanted(KnownOf(plugins), RecoverLifecycle(entries, IdsOf(FirstOfEach(plugins))).desired), world)
    ensures Booted(plugins, entries, world, g, desired, blocked)
  {
    hide OnTrack, Wired, Ordered, Alike, Least, RecoverLifecycle, KnownOf, FirstOfEach, Faithful;
    var start := Graph([], map[], KnownOf(plugins), [], entries);
    desired := RecoverLifecycle(entries, IdsOf(FirstOfEach(plugins))).desired;
    KnownIsWired(plugins, start);
    EmptyIsOnTrack(start, desired, world);
    var wanted := Wanted(KnownOf(plugins), desired);
    g := RunsToEnd(start, desired, world, wanted);
    EndsOnTrack(g, desired, world, wanted, {});
    OnTrackIsWired(g, desired, world, wanted);
    blocked := BlockedOf(g, desired);
  }

  lemma OnTrackIsWired(g: Graph, desired: seq<PluginId>, world: (Plugin, nat) -> Setup, plugins: set<Plugin>)
    requires OnTrack(g, desired, world, plugins, {})
    ensures Wired(g)
  {
  }

  // ---- what a boot of plugins that provide nothing reveals ----

  function Nothing(p: Plugin, n: nat): Setup {
    Provided([], [])
  }

  lemma NothingIsAlike(plugins: set<Plugin>)
    ensures Alike(plugins, Nothing)
  {
  }

  /** There, a known host plugin is live when it injects nothing, and otherwise blocked for all it injects. */
  lemma BootReveals(plugins: seq<Plugin>, g: Graph, desired: seq<PluginId>, blocked: map<PluginId, seq<TokenId>>,
                    id: PluginId)
    requires Booted(plugins, [], Nothing, g, desired, blocked)
    ensures id in HostKnown(plugins) ==>
      if HostKnown(plugins)[id].inject == [] then id in ActiveIds(g)
      else id !in ActiveIds(g) && id in blocked && blocked[id] == HostKnown(plugins)[id].inject
    ensures id !in HostKnown(plugins) ==> id !in ActiveIds(g) && id !in blocked
  {
    hide Least, KnownOf, FirstOfEach, Ordered, Alternates, Missing, ActiveIndex, ActiveIds;
    NothingIsAlike(Wanted(g.byId, desired));
    NoCells(g);
    InActiveIds(g, id);
    if id in HostKnown(plugins) {
      InIdsOf(plugins, id);
      var p := HostKnown(plugins)[id];
      AllMissing(p.inject, g.cells.Keys);
      if p.inject == [] {
        KnownIsFirst(plugins, id);
        NoInjectIsLeast(Wanted(g.byId, desired), p);
      } else if IsActive(g, id) {
        ActiveHasNoInject(g, id);
      }
    } else if IsActive(g, id) {
      ActiveIsHostKnown(plugins, g, id);
    }
  }

  lemma NoCells(g: Graph)
    requires Wired(g) && Faithful(g, Nothing)
    ensures g.cells.Keys == {}
  {
    hide Wired, ActiveIndex;
    forall t ensures t !in g.cells.Keys {
      if t in g.cells {
        var i := OwnerProvides(g, t);
      }
    }
  }

  lemma OwnerProvides(g: Graph, t: TokenId) returns (i: nat)
    requires Wired(g) && t in g.cells
    ensures i < |g.active| && t in g.active[i].tokens
  {
    i := ActiveIndex(g.active, g.cells[t]);
  }

  lemma {:induction false} AllMissing(inject: seq<TokenId>, live: set<TokenId>)
    requires live == {}
    ensures Missing(inject, live) == inject
  {
    if inject != [] {
      AllMissing(inject[..|inject| - 1], live);
    }
  }

  lemma NoInjectIsLeast(plugins: set<Plugin>, p: Plugin)
    requires p in plugins && p.inject == []
    ensures p.id in Least(plugins, Nothing, {})
  {
    assert forall ids :: {} <= ids && ClosedUnder(plugins, Nothing, ids) ==> p.id in ids;
  }

  lemma ActiveHasNoInject(g: Graph, id: PluginId)
    requires Wired(g) && g.cells.Keys == {} && IsActive(g, id)
    ensures id in g.byId && g.byId[id].inject == []
  {
    hide Wired, ActiveIndex;
    var inject := ActiveIsFed(g, id);
  }

  lemma ActiveIsFed(g: Graph, id: PluginId) returns (inject: seq<TokenId>)
    requires Wired(g) && IsActive(g, id)
    ensures id in g.byId && g.byId[id].inject == inject && (inject == [] || exists t :: t in g.cells.Keys)
  {
    var p := g.active[ActiveIndex(g.active, id)].plugin;
    assert p == g.byId[id];
    inject := p.inject;
    assert inject != [] ==> inject[0] in g.cells.Keys;
  }

  /** Lists that differ in a host plugin have boots that differ. */
  lemma DifferentHostPluginsDiffer(plugins: seq<Plugin>, shuffled: seq<Plugin>)
    returns (g: Graph, desired: seq<PluginId>, blocked: map<PluginId, seq<TokenId>>,
             g': Graph, desired': seq<PluginId>, blocked': map<PluginId, seq<TokenId>>)
    requires HostKnown(plugins) != HostKnown(shuffled)
    ensures Booted(plugins, [], Nothing, g, desired, blocked) && Booted(shuffled, [], Nothing, g', desired', blocked')
    ensures Alike(Wanted(KnownOf(plugins), desired), Nothing)
    ensures !Agree(g, blocked, g', blocked')
  {
    hide Booted, KnownOf, HostKnown, FirstOfEach, RecoverLifecycle, ActiveIds, Alike;
    NothingIsAlike(Wanted(KnownOf(plugins), RecoverLifecycle([], IdsOf(FirstOfEach(plugins))).desired));
    NothingIsAlike(Wanted(KnownOf(shuffled), RecoverLifecycle([], IdsOf(FirstOfEach(shuffled))).desired));
    g, desired, blocked := SomeBoot(plugins, [], Nothing);
    g', desired', blocked' := SomeBoot(shuffled, [], Nothing);
    NothingIsAlike(Wanted(KnownOf(plugins), desired));
    var id := DifferingId(plugins, shuffled);
    BootReveals(plugins, g, desired, blocked, id);
    BootReveals(shuffled, g', desired', blocked', id);
  }

  lemma DifferingId(plugins: seq<Plugin>, shuffled: seq<Plugin>) returns (id: PluginId)
    requires HostKnown(plugins) != HostKnown(shuffled)
    ensures id in HostKnown(plugins) || id in HostKnown(shuffled)
    ensures id in HostKnown(plugins) && id in HostKnown(shuffled) ==>
              HostKnown(plugins)[id].inject != HostKnown(shuffled)[id].inject
  {
    hide KnownOf;
    var a, b := HostKnown(plugins), HostKnown(shuffled);
    if a.Keys == b.Keys {
      id :| id in a && a[id] != b[id];
    } else {
      id :| (id in a && id !in b) || (id in b && id !in a);
    }
    KnownIsFirst(plugins, id);
    KnownIsFirst(shuffled, id);
  }

  /** Any two boots of these lists agree, from every journal and in every world whose setups are alike. */
  ghost predicate BootsAgree(plugins: seq<Plugin>, shuffled: seq<Plugin>) {
    forall entries, world, g, desired, blocked, g', desired', blocked' ::
      && Booted(plugins, entries, world, g, desired, blocked)
      && Booted(shuffled, entries, world, g', desired', blocked')
      && Alike(Wanted(KnownOf(plugins), desired), world)
      ==> Agree(g, blocked, g', blocked')
  }

  /**
    Boots of two lists agree if and only if both lists know the same host plugin by each id:
    then the same plugins go live, the least set closed under satisfied injects, every token
    resolves to the same provider and the same plugins are blocked for the same tokens.
   */
  lemma BootIsOrderFree(plugins: seq<Plugin>, shuffled: seq<Plugin>)
    ensures BootsAgree(plugins, shuffled) <==> HostKnown(plugins) == HostKnown(shuffled)
  {
    hide Booted, KnownOf, HostKnown, Alike, Agree;
    if HostKnown(plugins) == HostKnown(shuffled) {
      forall entries, world, g, desired, blocked, g', desired', blocked' |
        && Booted(plugins, entries, world, g, desired, blocked)
        && Booted(shuffled, entries, world, g', desired', blocked')
        && Alike(Wanted(KnownOf(plugins), desired), world)
        ensures Agree(g, blocked, g', blocked')
      {
        SameHostPluginsAgree(plugins, shuffled, entries, world, g, desired, blocked, g', desired', blocked');
      }
    } else {
      var g, desired, blocked, g', desired', blocked' := DifferentHostPluginsDiffer(plugins, shuffled);
    }
  }

  /** For one: two host plugins with one id and different injects, listed in either order. */
  lemma RepeatedIdsBootApart(p: Plugin, q: Plugin)
    requires p.id == q.id && p.scope == HostScope && q.scope == HostScope && p.inject != q.inject
    ensures !BootsAgree([p, q], [q, p])
  {
    hide BootsAgree, KnownOf;
    RepeatedIdsKeepFirst(p, q);
    assert HostKnown([p, q])[p.id] == p && HostKnown([q, p])[p.id] == q;
    BootIsOrderFree([p, q], [q, p]);
  }

  /** An install that a boot tries: the graph it leaves, whatever the plugin's setup provides. */
  function Trying(g: Graph, plugin: Plugin, tokens: seq<TokenId>, marker: nat): Graph {
    Attempt(g, plugin, Provided(tokens, []), marker).0
  }

  /** The graph a boot of these two begins with. */
  function Both(p: Plugin, q: Plugin, facts: seq<Fact>): Graph {
    Graph([], map[], KnownOf([p, q]), [], facts)
  }

  /**
    Setups must be alike: two host plugins with ids of their own that provide one token.  The one
    tried first goes live and the other is refused, in the first round and in every later one.
   */
  lemma SharedTokenBootsApart(p: Plugin, q: Plugin, t: TokenId, facts: seq<Fact>, marker: nat, next: nat, later: nat)
    requires p.id != q.id && p.scope == HostScope && q.scope == HostScope && p.inject == [] && q.inject == []
    ensures HostKnown([p, q]) == HostKnown([q, p])
    ensures var ended := Trying(Trying(Both(p, q, facts), p, [t], marker), q, [t], next);
      && ActiveIds(ended) == {p.id} && ended.cells == map[t := p.id]
      && Trying(Trying(ended, p, [t], later), q, [t], later) == ended
    ensures var ended := Trying(Trying(Both(q, p, facts), q, [t], marker), p, [t], next);
      && ActiveIds(ended) == {q.id} && ended.cells == map[t := q.id]
      && Trying(Trying(ended, q, [t], later), p, [t], later) == ended
  {
    hide KnownOf, Trying, Both;
    KnownIsOrderFree([p, q], [q, p]);
    FirstTakesAll(p, q, t, facts, marker, next, later);
    FirstTakesAll(q, p, t, facts, marker, next, later);
  }

  lemma FirstTakesAll(p: Plugin, q: Plugin, t: TokenId, facts: seq<Fact>, marker: nat, next: nat, later: nat)
    requires p.id != q.id && p.scope == HostScope && q.scope == HostScope && p.inject == [] && q.inject == []
    ensures var ended := Trying(Trying(Both(p, q, facts), p, [t], marker), q, [t], next);
      && ActiveIds(ended) == {p.id} && ended.cells == map[t := p.id]
      && Trying(Trying(ended, p, [t], later), q, [t], later) == ended
  {
    hide KnownOf, Journal;
    var start := Both(p, q, facts);
    assert !IsActive(start, p.id) && Missing(p.inject, start.cells.Keys) == [];
    assert [t][1..] == [] && Taken(start.cells, [t], p.id).None?;
    var g := Trying(start, p, [t], marker);
    assert g.active == [Activation(p, [t], marker)];
    assert Providing(map[], [t], p.id) == map[t := p.id];
    assert IsActive(g, p.id) && !IsActive(g, q.id);
  }

  /** Any permutation of plugins with ids of their own boots alike. */
  lemma PermutationBootsAlike(plugins: seq<Plugin>, shuffled: seq<Plugin>)
    requires OneEach(plugins) && multiset(plugins) == multiset(shuffled)
    ensures BootsAgree(plugins, shuffled)
  {
    hide BootsAgree;
    SameMembers(plugins, shuffled);
    KnownIsOrderFree(plugins, shuffled);
    BootIsOrderFree(plugins, shuffled);
  }

  lemma SameMembers(plugins: seq<Plugin>, shuffled: seq<Plugin>)
    requires OneEach(plugins) && multiset(plugins) == multiset(shuffled)
    ensures OneEach(shuffled) && forall p :: p in plugins <==> p in shuffled
  {
    forall p ensures p in plugins <==> p in shuffled {
      assert p in plugins <==> p in multiset(plugins);
      assert p in shuffled <==> p in multiset(shuffled);
    }
    forall i, j | 0 <= i < j < |shuffled| ensures shuffled[i].id != shuffled[j].id {
      assert shuffled[i] in plugins && shuffled[j] in plugins;
      if shuffled[i] == shuffled[j] {
        TwiceCounted(shuffled, i, j);
        OnceCounted(plugins, shuffled[i]);
      }
    }
  }

  lemma TwiceCounted(s: seq<Plugin>, i: nat, j: nat)
    requires i < j < |s| && s[i] == s[j]
    ensures multiset(s)[s[i]] >= 2
  {
    assert s == s[..j] + [s[j]] + s[j + 1..];
    assert s[..j][i] == s[i];
    assert multiset(s) == multiset(s[..j]) + multiset{s[j]} + multiset(s[j + 1..]);
  }

  lemma OnceCounted(s: seq<Plugin>, p: Plugin)
    requires OneEach(s) && p in s
    ensures multiset(s)[p] == 1
  {
    var a :| 0 <= a < |s| && s[a] == p;
    assert s == s[..a] + [s[a]] + s[a + 1..];
    assert p !in s[..a] && p !in s[a + 1..];
    assert multiset(s) == multiset(s[..a]) + multiset{p} + multiset(s[a + 1..]);
  }
}
