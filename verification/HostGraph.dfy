/** The live provider graph of the host lane, and what its operations may rely on. */
module HostGraph {
  import opened Primitives
  import opened SessionEvents

  datatype Plugin = Plugin(id: PluginId, scope: Scope, inject: seq<TokenId>)
  datatype Contribution = Contribution(kind: string, value: string)
  datatype Stored = Stored(plugin: PluginId, item: Contribution)

  /** What running a plugin's `apply` came to. */
  datatype Setup = SetupFails | Provided(tokens: seq<TokenId>, data: seq<Contribution>)

  /** `marker` names the generation whose scope is live. */
  datatype Activation = Activation(plugin: Plugin, tokens: seq<TokenId>, marker: nat)

  /** `active` is in activation order, as the source's map is in insertion order. */
  datatype Graph = Graph(
    active: seq<Activation>,
    cells: map<TokenId, PluginId>,
    byId: map<PluginId, Plugin>,
    store: seq<Stored>,
    facts: seq<Fact>)

  // ---- the journal ----

  function Adding<T(==)>(s: seq<T>, x: T): seq<T> {
    if x in s then s else s + [x]
  }

  function Dropping<T(==)>(s: seq<T>, x: T): seq<T> {
    if s == [] then []
    else Dropping(s[..|s| - 1], x) + if s[|s| - 1] == x then [] else [s[|s| - 1]]
  }

  /** The plugins the journal leaves active, in the order they last became so. */
  function FoldActivePlugins(facts: seq<Fact>): seq<PluginId> {
    if facts == [] then []
    else
      var before := FoldActivePlugins(facts[..|facts| - 1]);
      match facts[|facts| - 1]
      case PluginActivated(plugin, _) => Adding(before, plugin)
      case PluginDeactivated(plugin, _) => Dropping(before, plugin)
      case _ => before
  }

  /** Index of the fact that made the plugin active, when it was not deactivated since; else -1. */
  function ActivatedAt(facts: seq<Fact>, p: PluginId): (index: int)
    ensures -1 <= index < |facts|
  {
    if facts == [] then -1
    else
      var n := |facts| - 1;
      var before := ActivatedAt(facts[..n], p);
      match facts[n]
      case PluginActivated(plugin, _) => if plugin == p && before < 0 then n else before
      case PluginDeactivated(plugin, _) => if plugin == p then -1 else before
      case _ => before
  }

  /** These plugins stand in the order they became active. */
  ghost predicate InTurn(facts: seq<Fact>, active: seq<PluginId>) {
    forall i, j :: 0 <= i < j < |active| ==> ActivatedAt(facts, active[i]) < ActivatedAt(facts, active[j])
  }

  ghost predicate Leaves(facts: seq<Fact>, active: seq<PluginId>) {
    InTurn(facts, active) && forall p :: p in active <==> ActivatedAt(facts, p) >= 0
  }

  /** The journal leaves exactly the activated plugins active, once each, in the order they became so. */
  lemma {:induction false} FoldMeaning(facts: seq<Fact>)
    ensures Leaves(facts, FoldActivePlugins(facts))
  {
    hide Leaves;
    if facts == [] {
      NothingLeft();
    } else {
      FoldMeaning(facts[..|facts| - 1]);
      LeavesOneMore(facts, FoldActivePlugins(facts[..|facts| - 1]));
    }
  }

  lemma NothingLeft()
    ensures Leaves([], [])
  {
  }

  lemma LeavesOneMore(facts: seq<Fact>, before: seq<PluginId>)
    requires facts != [] && Leaves(facts[..|facts| - 1], before)
    ensures var fact := facts[|facts| - 1];
      Leaves(facts, if fact.PluginActivated? then Adding(before, fact.plugin)
                    else if fact.PluginDeactivated? then Dropping(before, fact.plugin) else before)
  {
    hide ActivatedAt, InTurn;
    var n := |facts| - 1;
    var older, fact := facts[..n], facts[n];
    forall p { ActivatedOneMore(facts, p); }
    if fact.PluginDeactivated? {
      DroppingInTurn(older, before, fact.plugin);
      SameTurns(older, facts, Dropping(before, fact.plugin));
    } else {
      SameTurns(older, facts, before);
      if fact.PluginActivated? && fact.plugin !in before {
        LastInTurn(facts, before, fact.plugin);
      }
    }
  }

  lemma SameTurns(older: seq<Fact>, facts: seq<Fact>, active: seq<PluginId>)
    requires InTurn(older, active) && forall p :: p in active ==> ActivatedAt(facts, p) == ActivatedAt(older, p)
    ensures InTurn(facts, active)
  {
    hide ActivatedAt;
  }

  lemma LastInTurn(facts: seq<Fact>, active: seq<PluginId>, last: PluginId)
    requires InTurn(facts, active) && forall p :: p in active ==> ActivatedAt(facts, p) < ActivatedAt(facts, last)
    ensures InTurn(facts, active + [last])
  {
    hide ActivatedAt;
  }

  lemma ActivatedOneMore(facts: seq<Fact>, p: PluginId)
    requires facts != []
    ensures var n := |facts| - 1; var before := ActivatedAt(facts[..n], p);
      && before < n
      && ActivatedAt(facts, p)
           == if facts[n].PluginActivated? && facts[n].plugin == p && before < 0 then n
              else if facts[n].PluginDeactivated? && facts[n].plugin == p then -1 else before
  {
  }

  lemma {:induction false} DroppingInTurn(facts: seq<Fact>, s: seq<PluginId>, x: PluginId)
    requires InTurn(facts, s)
    ensures forall p :: p in Dropping(s, x) <==> p in s && p != x
    ensures InTurn(facts, Dropping(s, x))
  {
    hide ActivatedAt;
    if s != [] {
      var n := |s| - 1;
      DroppingInTurn(facts, s[..n], x);
      assert s == s[..n] + [s[n]];
      var rest := Dropping(s[..n], x);
      forall i | 0 <= i < |rest| ensures ActivatedAt(facts, rest[i]) < ActivatedAt(facts, s[n]) {
        assert rest[i] in s[..n];
        var k :| 0 <= k < n && s[..n][k] == rest[i];
        assert s[k] == rest[i];
      }
    }
  }

  predicate TurnsOver(facts: seq<Fact>, k: nat)
    requires k < |facts|
  {
    match facts[k]
    case PluginActivated(plugin, scope) => scope == HostScope && plugin !in FoldActivePlugins(facts[..k])
    case PluginDeactivated(plugin, scope) => scope == HostScope && plugin in FoldActivePlugins(facts[..k])
    case _ => true
  }

  /** From the fact at `from` on, each plugin fact turns over what the journal left before it. */
  ghost predicate Alternates(facts: seq<Fact>, from: nat) {
    forall k :: from <= k < |facts| ==> TurnsOver(facts, k)
  }

  lemma {:induction false} InDropping<T>(s: seq<T>, x: T, y: T)
    ensures y in Dropping(s, x) <==> y in s && y != x
  {
    if s != [] {
      InDropping(s[..|s| - 1], x, y);
      assert s == s[..|s| - 1] + [s[|s| - 1]];
    }
  }

  /** One more plugin fact changes its own plugin's state and no other's. */
  lemma FoldOneMore(facts: seq<Fact>, fact: Fact, p: PluginId)
    requires fact.PluginActivated? || fact.PluginDeactivated?
    ensures p in FoldActivePlugins(facts + [fact])
       <==> if p == fact.plugin then fact.PluginActivated? else p in FoldActivePlugins(facts)
  {
    assert (facts + [fact])[..|facts|] == facts;
    if fact.PluginDeactivated? {
      InDropping(FoldActivePlugins(facts), fact.plugin, p);
    }
  }

  lemma AlternatesOneMore(facts: seq<Fact>, fact: Fact, from: nat)
    requires Alternates(facts, from)
    requires fact.PluginActivated? || fact.PluginDeactivated?
    requires fact.scope == HostScope && (fact.PluginActivated? <==> fact.plugin !in FoldActivePlugins(facts))
    ensures Alternates(facts + [fact], from)
  {
    var after := facts + [fact];
    assert after[..|facts|] == facts;
    forall k | from <= k < |after| ensures TurnsOver(after, k) {
      if k < |facts| {
        assert TurnsOver(facts, k);
        assert after[..k] == facts[..k];
      }
    }
  }

  // ---- active plugins in order ----

  function ActiveIndex(active: seq<Activation>, id: PluginId): (index: int)
    ensures -1 <= index < |active|
    ensures index >= 0 ==> active[index].plugin.id == id
    ensures forall k :: 0 <= k < (if index < 0 then |active| else index) ==> active[k].plugin.id != id
  {
    if active == [] then -1
    else if active[0].plugin.id == id then 0
    else
      var rest := ActiveIndex(active[1..], id);
      if rest < 0 then -1 else rest + 1
  }

  predicate IsActive(g: Graph, id: PluginId) {
    ActiveIndex(g.active, id) >= 0
  }

  ghost predicate DistinctIds(active: seq<Activation>) {
    forall i, j :: 0 <= i < j < |active| ==> active[i].plugin.id != active[j].plugin.id
  }

  lemma ActiveIndexIs(active: seq<Activation>, i: nat)
    requires DistinctIds(active) && i < |active|
    ensures ActiveIndex(active, active[i].plugin.id) == i
  {
  }

  function ActiveIds(g: Graph): set<PluginId> {
    set k | 0 <= k < |g.active| :: g.active[k].plugin.id
  }

  lemma InActiveIds(g: Graph, id: PluginId)
    ensures id in ActiveIds(g) <==> IsActive(g, id)
  {
    if IsActive(g, id) {
      assert g.active[ActiveIndex(g.active, id)].plugin.id == id;
    }
  }

  // ---- the graph invariant ----

  /** `x` is active and injects a token that `y` owns. */
  predicate Needs(g: Graph, x: PluginId, y: PluginId) {
    IsActive(g, x) &&
    exists t :: t in g.active[ActiveIndex(g.active, x)].plugin.inject && t in g.cells && g.cells[t] == y
  }

  /** Plugins are known under their own ids, and each active one is the host plugin last known by its id. */
  ghost predicate Recorded(active: seq<Activation>, byId: map<PluginId, Plugin>) {
    && (forall id :: id in byId ==> byId[id].id == id)
    && forall i :: 0 <= i < |active| ==>
      var p := active[i].plugin; p.id in byId && byId[p.id] == p && p.scope == HostScope
  }

  ghost predicate Known(g: Graph) {
    Recorded(g.active, g.byId)
  }

  /** Every inject of an active plugin is owned by an active plugin. */
  ghost predicate Fed(g: Graph) {
    forall i, t :: 0 <= i < |g.active| && t in g.active[i].plugin.inject ==> t in g.cells
  }

  /** Every cell's owner is active and provides its token. */
  ghost predicate OwnersLive(g: Graph) {
    forall t :: t in g.cells ==>
      var i := ActiveIndex(g.active, g.cells[t]); i >= 0 && t in g.active[i].tokens
  }

  /** Every active plugin owns the cells of the tokens it provides. */
  ghost predicate TokensOwned(g: Graph) {
    forall i, t :: 0 <= i < |g.active| && t in g.active[i].tokens ==>
      t in g.cells && g.cells[t] == g.active[i].plugin.id
  }

  ghost predicate StoreLive(g: Graph) {
    forall k :: 0 <= k < |g.store| ==> IsActive(g, g.store[k].plugin)
  }

  /** The journal leaves every active plugin active. */
  ghost predicate Written(active: seq<Activation>, facts: seq<Fact>) {
    forall i :: 0 <= i < |active| ==> active[i].plugin.id in FoldActivePlugins(facts)
  }

  ghost predicate Journaled(g: Graph) {
    Written(g.active, g.facts)
  }

  ghost predicate Wired(g: Graph) {
    DistinctIds(g.active) && Known(g) && Fed(g) && OwnersLive(g) && TokensOwned(g) && StoreLive(g) && Journaled(g)
  }

  lemma WiredRecords(g: Graph)
    requires Wired(g)
    ensures DistinctIds(g.active) && Known(g)
  {
  }

  /** Dependencies point to earlier activations. */
  ghost predicate Ordered(g: Graph) {
    forall x, y :: Needs(g, x, y) ==> ActiveIndex(g.active, y) < ActiveIndex(g.active, x)
  }

  // ---- installing ----

  /** The injects that nothing provides, in the plugin's own order. */
  function Missing(inject: seq<TokenId>, live: set<TokenId>): seq<TokenId> {
    if inject == [] then []
    else Missing(inject[..|inject| - 1], live)
         + if inject[|inject| - 1] in live then [] else [inject[|inject| - 1]]
  }

  lemma {:induction false} MissingMeaning(inject: seq<TokenId>, live: set<TokenId>, t: TokenId)
    ensures t in Missing(inject, live) <==> t in inject && t !in live
  {
    if inject != [] {
      MissingMeaning(inject[..|inject| - 1], live, t);
      assert inject == inject[..|inject| - 1] + [inject[|inject| - 1]];
    }
  }

  /** The first of these tokens that another plugin owns. */
  function Taken(cells: map<TokenId, PluginId>, tokens: seq<TokenId>, id: PluginId): Option<TokenId> {
    if tokens == [] then None
    else if tokens[0] in cells && cells[tokens[0]] != id then Some(tokens[0])
    else Taken(cells, tokens[1..], id)
  }

  lemma {:induction false} TakenMeaning(cells: map<TokenId, PluginId>, tokens: seq<TokenId>, id: PluginId)
    ensures Taken(cells, tokens, id).Some? <==> exists t :: t in tokens && t in cells && cells[t] != id
  {
    if tokens != [] {
      TakenMeaning(cells, tokens[1..], id);
      assert tokens == [tokens[0]] + tokens[1..];
    }
  }

  function Providing(cells: map<TokenId, PluginId>, tokens: seq<TokenId>, id: PluginId): map<TokenId, PluginId> {
    if tokens == [] then cells
    else Providing(cells, tokens[..|tokens| - 1], id)[tokens[|tokens| - 1] := id]
  }

  lemma {:induction false} ProvidingMeaning(cells: map<TokenId, PluginId>, tokens: seq<TokenId>, id: PluginId)
    ensures forall t :: t in Providing(cells, tokens, id) <==> t in cells || t in tokens
    ensures forall t :: t in tokens ==> Providing(cells, tokens, id)[t] == id
    ensures forall t :: t in cells && t !in tokens ==> Providing(cells, tokens, id)[t] == cells[t]
  {
    if tokens != [] {
      ProvidingMeaning(cells, tokens[..|tokens| - 1], id);
      assert tokens == tokens[..|tokens| - 1] + [tokens[|tokens| - 1]];
    }
  }

  function StoreWithout(store: seq<Stored>, id: PluginId): seq<Stored> {
    if store == [] then []
    else StoreWithout(store[..|store| - 1], id) + if store[|store| - 1].plugin == id then [] else [store[|store| - 1]]
  }

  lemma {:induction false} StoreWithoutMeaning(store: seq<Stored>, id: PluginId, e: Stored)
    ensures e in StoreWithout(store, id) <==> e in store && e.plugin != id
  {
    if store != [] {
      StoreWithoutMeaning(store[..|store| - 1], id, e);
      assert store == store[..|store| - 1] + [store[|store| - 1]];
    }
  }

  function StoredBy(id: PluginId, data: seq<Contribution>): (stored: seq<Stored>)
    ensures |stored| == |data| && forall k :: 0 <= k < |data| ==> stored[k] == Stored(id, data[k])
  {
    seq(|data|, k requires 0 <= k < |data| => Stored(id, data[k]))
  }

  /** What one plugin contributes, in the order it was stored. */
  function ItemsBy(store: seq<Stored>, id: PluginId): seq<Contribution> {
    if store == [] then []
    else
      var last := store[|store| - 1];
      ItemsBy(store[..|store| - 1], id) + if last.plugin == id then [last.item] else []
  }

  lemma {:induction false} ItemsByAppend(a: seq<Stored>, b: seq<Stored>, id: PluginId)
    ensures ItemsBy(a + b, id) == ItemsBy(a, id) + ItemsBy(b, id)
  {
    if b == [] {
      assert a + b == a;
    } else {
      var n := |b| - 1;
      assert (a + b)[..|a| + n] == a + b[..n];
      ItemsByAppend(a, b[..n], id);
    }
  }

  lemma {:induction false} ItemsByOne(data: seq<Contribution>, id: PluginId, other: PluginId)
    ensures ItemsBy(StoredBy(id, data), other) == if other == id then data else []
  {
    if data != [] {
      var n := |data| - 1;
      ItemsByOne(data[..n], id, other);
      assert StoredBy(id, data)[..n] == StoredBy(id, data[..n]);
      assert data == data[..n] + [data[n]];
    }
  }

  lemma {:induction false} ItemsByWithout(store: seq<Stored>, id: PluginId, other: PluginId)
    ensures ItemsBy(StoreWithout(store, id), other) == if other == id then [] else ItemsBy(store, other)
  {
    if store != [] {
      var n := |store| - 1;
      ItemsByWithout(store[..n], id, other);
      var kept := StoreWithout(store[..n], id);
      if store[n].plugin == id {
        assert kept + [] == kept;
      } else {
        assert (kept + [store[n]])[..|kept|] == kept;
      }
    }
  }

  /** Storing a plugin's contributions anew replaces its own and leaves every other plugin's as they were. */
  lemma StoringReplaces(store: seq<Stored>, id: PluginId, data: seq<Contribution>, other: PluginId)
    ensures ItemsBy(StoreWithout(store, id) + StoredBy(id, data), other)
         == if other == id then data else ItemsBy(store, other)
  {
    ItemsByAppend(StoreWithout(store, id), StoredBy(id, data), other);
    ItemsByWithout(store, id, other);
    ItemsByOne(data, id, other);
    assert ItemsBy(store, other) + [] == ItemsBy(store, other) && [] + data == data;
  }

  /** The recorder's rule: a fact that would repeat what the journal says is not written. */
  function Journal(facts: seq<Fact>, fact: Fact): seq<Fact>
    requires fact.PluginActivated? || fact.PluginDeactivated?
  {
    if fact.scope == ThreadScope then facts
    else if fact.PluginActivated? == (fact.plugin in FoldActivePlugins(facts)) then facts
    else facts + [fact]
  }

  lemma JournalMeaning(facts: seq<Fact>, fact: Fact)
    requires (fact.PluginActivated? || fact.PluginDeactivated?) && fact.scope == HostScope
    ensures forall p :: p in FoldActivePlugins(Journal(facts, fact))
              <==> if p == fact.plugin then fact.PluginActivated? else p in FoldActivePlugins(facts)
    ensures forall from :: Alternates(facts, from) ==> Alternates(Journal(facts, fact), from)
  {
    if Journal(facts, fact) != facts {
      forall p { FoldOneMore(facts, fact, p); }
      forall from | Alternates(facts, from) ensures Alternates(facts + [fact], from) {
        AlternatesOneMore(facts, fact, from);
      }
    }
  }

  /** A plugin whose injects are met and whose tokens are free goes live. */
  function Installing(g: Graph, plugin: Plugin, tokens: seq<TokenId>, data: seq<Contribution>, marker: nat): Graph {
    Graph(
      g.active + [Activation(plugin, tokens, marker)],
      Providing(g.cells, tokens, plugin.id),
      g.byId[plugin.id := plugin],
      StoreWithout(g.store, plugin.id) + StoredBy(plugin.id, data),
      Journal(g.facts, PluginActivated(plugin.id, HostScope)))
  }

  predicate Installable(g: Graph, plugin: Plugin, tokens: seq<TokenId>) {
    && plugin.scope == HostScope && !IsActive(g, plugin.id)
    && Missing(plugin.inject, g.cells.Keys) == [] && Taken(g.cells, tokens, plugin.id).None?
  }

  lemma AppendedIndex(active: seq<Activation>, a: Activation, id: PluginId)
    ensures ActiveIndex(active + [a], id)
      == if ActiveIndex(active, id) >= 0 then ActiveIndex(active, id) else if a.plugin.id == id then |active| else -1
  {
    var all := active + [a];
    var i := ActiveIndex(active, id);
    assert forall k :: 0 <= k < |active| ==> all[k] == active[k];
    assert all[|active|] == a;
  }

  lemma FreeTokens(g: Graph, plugin: Plugin, tokens: seq<TokenId>)
    requires Wired(g) && Installable(g, plugin, tokens)
    ensures forall t :: t in tokens ==> t !in g.cells
    ensures forall t :: t in plugin.inject ==> t in g.cells
  {
    TakenMeaning(g.cells, tokens, plugin.id);
    forall t | t in plugin.inject ensures t in g.cells {
      MissingMeaning(plugin.inject, g.cells.Keys, t);
    }
  }

  lemma InstallKeepsWiring(g: Graph, plugin: Plugin, tokens: seq<TokenId>, data: seq<Contribution>, marker: nat)
    requires Wired(g) && Installable(g, plugin, tokens)
    ensures Wired(Installing(g, plugin, tokens, data, marker))
  {
    InstallKeepsIds(g, plugin, tokens, data, marker);
    FreeTokens(g, plugin, tokens);
    InstallKeepsTokens(g, plugin, tokens, data, marker);
    InstallKeepsOwners(g, plugin, tokens, data, marker);
    InstallKeepsStore(g, plugin, tokens, data, marker);
    InstallKeepsJournal(g, plugin, tokens, data, marker);
  }

  lemma InstallKeepsIds(g: Graph, plugin: Plugin, tokens: seq<TokenId>, data: seq<Contribution>, marker: nat)
    requires DistinctIds(g.active) && Known(g) && !IsActive(g, plugin.id) && plugin.scope == HostScope
    ensures var after := Installing(g, plugin, tokens, data, marker); DistinctIds(after.active) && Known(after)
  {
  }

  lemma InstallKeepsTokens(g: Graph, plugin: Plugin, tokens: seq<TokenId>, data: seq<Contribution>, marker: nat)
    requires Fed(g) && TokensOwned(g)
    requires forall t :: t in tokens ==> t !in g.cells
    requires forall t :: t in plugin.inject ==> t in g.cells
    ensures var after := Installing(g, plugin, tokens, data, marker); Fed(after) && TokensOwned(after)
  {
    var after := Installing(g, plugin, tokens, data, marker);
    ProvidingMeaning(g.cells, tokens, plugin.id);
    assert forall k :: 0 <= k < |g.active| ==> after.active[k] == g.active[k];
  }

  lemma InstallKeepsJournal(g: Graph, plugin: Plugin, tokens: seq<TokenId>, data: seq<Contribution>, marker: nat)
    requires Journaled(g)
    ensures Journaled(Installing(g, plugin, tokens, data, marker))
  {
    var after := Installing(g, plugin, tokens, data, marker);
    JournalMeaning(g.facts, PluginActivated(plugin.id, HostScope));
    assert forall k :: 0 <= k < |g.active| ==> after.active[k] == g.active[k];
  }

  lemma InstallKeepsOwners(g: Graph, plugin: Plugin, tokens: seq<TokenId>, data: seq<Contribution>, marker: nat)
    requires OwnersLive(g) && !IsActive(g, plugin.id)
    ensures OwnersLive(Installing(g, plugin, tokens, data, marker))
  {
    var a := Activation(plugin, tokens, marker);
    var after := Installing(g, plugin, tokens, data, marker);
    ProvidingMeaning(g.cells, tokens, plugin.id);
    forall t | t in after.cells
      ensures var i := ActiveIndex(after.active, after.cells[t]); i >= 0 && t in after.active[i].tokens
    {
      AppendedIndex(g.active, a, after.cells[t]);
    }
  }

  lemma InstallKeepsStore(g: Graph, plugin: Plugin, tokens: seq<TokenId>, data: seq<Contribution>, marker: nat)
    requires StoreLive(g)
    ensures StoreLive(Installing(g, plugin, tokens, data, marker))
  {
    var after := Installing(g, plugin, tokens, data, marker);
    var kept := StoreWithout(g.store, plugin.id);
    forall k | 0 <= k < |after.store| ensures IsActive(after, after.store[k].plugin) {
      AppendedIndex(g.active, Activation(plugin, tokens, marker), after.store[k].plugin);
      if k < |kept| {
        assert after.store[k] == kept[k] && kept[k] in kept;
        StoreWithoutMeaning(g.store, plugin.id, kept[k]);
        var j :| 0 <= j < |g.store| && g.store[j] == kept[k];
        assert IsActive(g, g.store[j].plugin);
      } else {
        assert after.store[k] == StoredBy(plugin.id, data)[k - |kept|];
      }
    }
  }

  lemma InstallKeepsOrder(g: Graph, plugin: Plugin, tokens: seq<TokenId>, data: seq<Contribution>, marker: nat)
    requires Wired(g) && Ordered(g) && Installable(g, plugin, tokens)
    ensures Ordered(Installing(g, plugin, tokens, data, marker))
  {
    var a := Activation(plugin, tokens, marker);
    var after := Installing(g, plugin, tokens, data, marker);
    FreeTokens(g, plugin, tokens);
    ProvidingMeaning(g.cells, tokens, plugin.id);
    forall x, y | Needs(after, x, y)
      ensures ActiveIndex(after.active, y) < ActiveIndex(after.active, x)
    {
      AppendedIndex(g.active, a, x);
      AppendedIndex(g.active, a, y);
      var t :| t in after.active[ActiveIndex(after.active, x)].plugin.inject && t in after.cells && after.cells[t] == y;
      assert t in g.cells && g.cells[t] == y;
      if ActiveIndex(g.active, x) >= 0 {
        assert Needs(g, x, y);
      }
    }
  }
}
