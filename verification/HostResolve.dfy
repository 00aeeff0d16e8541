/** Which plugins a boot works from: one per id, the first given. */
module HostResolve {
  import opened Primitives
  import opened HostGraph

  /** The plugins by id; the first with an id wins. */
  function KnownOf(plugins: seq<Plugin>): map<PluginId, Plugin> {
    if plugins == [] then map[]
    else
      var known, last := KnownOf(plugins[..|plugins| - 1]), plugins[|plugins| - 1];
      if last.id in known then known else known[last.id := last]
  }

  /** The same plugins in the order given. */
  function FirstOfEach(plugins: seq<Plugin>): seq<Plugin> {
    if plugins == [] then []
    else
      var last := plugins[|plugins| - 1];
      FirstOfEach(plugins[..|plugins| - 1])
      + if last.id in KnownOf(plugins[..|plugins| - 1]) then [] else [last]
  }

  function IdsOf(plugins: seq<Plugin>): (ids: seq<PluginId>)
    ensures |ids| == |plugins| && forall k :: 0 <= k < |plugins| ==> ids[k] == plugins[k].id
  {
    seq(|plugins|, k requires 0 <= k < |plugins| => plugins[k].id)
  }

  ghost predicate OneEach(plugins: seq<Plugin>) {
    forall i, j :: 0 <= i < j < |plugins| ==> plugins[i].id != plugins[j].id
  }

  function BlockedAt(order: seq<Plugin>, baseline: set<TokenId>): map<PluginId, seq<TokenId>> {
    if order == [] then map[]
    else
      var last := order[|order| - 1];
      var missing := Missing(last.inject, baseline);
      var before := BlockedAt(order[..|order| - 1], baseline);
      if missing == [] then before else before[last.id := missing]
  }

  method Resolve(plugins: seq<Plugin>, baseline: set<TokenId>)
    returns (order: seq<Plugin>, blocked: map<PluginId, seq<TokenId>>)
    ensures order == FirstOfEach(plugins) && blocked == BlockedAt(order, baseline)
  {
    var byId: map<PluginId, Plugin> := map[];
    order := [];
    for k := 0 to |plugins|
      invariant byId == KnownOf(plugins[..k]) && order == FirstOfEach(plugins[..k])
    {
      assert plugins[..k + 1][..k] == plugins[..k];
      if plugins[k].id !in byId {
        byId := byId[plugins[k].id := plugins[k]];
        order := order + [plugins[k]];
      }
    }
    assert plugins[..|plugins|] == plugins;
    blocked := map[];
    for k := 0 to |order|
      invariant blocked == BlockedAt(order[..k], baseline)
    {
      assert order[..k + 1][..k] == order[..k];
      var missing := Missing(order[k].inject, baseline);
      if missing != [] {
        blocked := blocked[order[k].id := missing];
      }
    }
    assert order[..|order|] == order;
  }

  method Remembering(plugins: seq<Plugin>) returns (known: map<PluginId, Plugin>)
    ensures known == KnownOf(plugins)
  {
    known := map[];
    for k := 0 to |plugins|
      invariant known == KnownOf(plugins[..k])
    {
      assert plugins[..k + 1][..k] == plugins[..k];
      if plugins[k].id !in known {
        known := known[plugins[k].id := plugins[k]];
      }
    }
    assert plugins[..|plugins|] == plugins;
  }

  /** Each id is known by the first plugin that has it. */
  lemma {:induction false} KnownIsFirst(plugins: seq<Plugin>, id: PluginId)
    ensures id !in KnownOf(plugins) ==> forall k :: 0 <= k < |plugins| ==> plugins[k].id != id
    ensures id in KnownOf(plugins) ==>
      exists k :: 0 <= k < |plugins| && plugins[k] == KnownOf(plugins)[id] && plugins[k].id == id
               && forall j :: 0 <= j < k ==> plugins[j].id != id
  {
    if plugins != [] {
      var n := |plugins| - 1;
      KnownIsFirst(plugins[..n], id);
      if id in KnownOf(plugins[..n]) {
        var k :| 0 <= k < n && plugins[..n][k] == KnownOf(plugins[..n])[id] && plugins[..n][k].id == id
              && forall j :: 0 <= j < k ==> plugins[..n][j].id != id;
        assert plugins[k] == KnownOf(plugins)[id];
        assert forall j :: 0 <= j < k ==> plugins[j] == plugins[..n][j];
      } else {
        assert forall j :: 0 <= j < n ==> plugins[j] == plugins[..n][j];
      }
    }
  }

  /** A resolved order lists every known plugin, once. */
  lemma {:induction false} ResolvedOrder(plugins: seq<Plugin>, p: Plugin)
    ensures OneEach(FirstOfEach(plugins))
    ensures p in FirstOfEach(plugins) <==> p.id in KnownOf(plugins) && KnownOf(plugins)[p.id] == p
  {
    if plugins != [] {
      var n := |plugins| - 1;
      var before, last := FirstOfEach(plugins[..n]), plugins[n];
      ResolvedOrder(plugins[..n], p);
      if last.id !in KnownOf(plugins[..n]) {
        forall k | 0 <= k < |before| ensures before[k].id != last.id {
          ResolvedOrder(plugins[..n], before[k]);
        }
      }
    }
  }

  /** A resolution blocks exactly the known plugins that miss an inject, and says what they miss. */
  lemma {:induction false} BlockedAtMeaning(order: seq<Plugin>, baseline: set<TokenId>, p: Plugin)
    requires OneEach(order) && p in order
    ensures var blocked := BlockedAt(order, baseline);
      && (p.id in blocked <==> exists t :: t in p.inject && t !in baseline)
      && (p.id in blocked ==> blocked[p.id] == Missing(p.inject, baseline))
  {
    var n := |order| - 1;
    if p == order[n] {
      BlockedAtKeys(order[..n], baseline, p.id);
      if Missing(p.inject, baseline) != [] {
        var t := Missing(p.inject, baseline)[0];
        MissingMeaning(p.inject, baseline, t);
      } else {
        forall t | t in p.inject ensures t in baseline {
          MissingMeaning(p.inject, baseline, t);
        }
      }
    } else {
      assert p in order[..n];
      BlockedAtMeaning(order[..n], baseline, p);
    }
  }

  lemma {:induction false} BlockedAtKeys(order: seq<Plugin>, baseline: set<TokenId>, id: PluginId)
    requires forall k :: 0 <= k < |order| ==> order[k].id != id
    ensures id !in BlockedAt(order, baseline)
  {
    if order != [] {
      BlockedAtKeys(order[..|order| - 1], baseline, id);
    }
  }

  // ---- the order plugins are given in ----

  /** When no id repeats, what is known is a matter of which plugins were given. */
  lemma KnownWhenOneEach(plugins: seq<Plugin>, p: Plugin)
    requires OneEach(plugins)
    ensures p in plugins <==> p.id in KnownOf(plugins) && KnownOf(plugins)[p.id] == p
  {
    KnownIsFirst(plugins, p.id);
  }

  lemma KnownIsOrderFree(plugins: seq<Plugin>, shuffled: seq<Plugin>)
    requires OneEach(plugins) && OneEach(shuffled) && forall p :: p in plugins <==> p in shuffled
    ensures KnownOf(plugins) == KnownOf(shuffled)
  {
    forall id ensures id in KnownOf(plugins) ==>
      id in KnownOf(shuffled) && KnownOf(shuffled)[id] == KnownOf(plugins)[id]
    {
      KnownAgrees(plugins, shuffled, id);
    }
    forall id ensures id in KnownOf(shuffled) ==> id in KnownOf(plugins) {
      KnownAgrees(shuffled, plugins, id);
    }
  }

  lemma KnownAgrees(plugins: seq<Plugin>, shuffled: seq<Plugin>, id: PluginId)
    requires OneEach(plugins) && OneEach(shuffled) && forall p :: p in plugins ==> p in shuffled
    ensures id in KnownOf(plugins) ==> id in KnownOf(shuffled) && KnownOf(shuffled)[id] == KnownOf(plugins)[id]
  {
    KnownIsFirst(plugins, id);
    if id in KnownOf(plugins) {
      var p := KnownOf(plugins)[id];
      assert p in plugins && p.id == id;
      KnownWhenOneEach(shuffled, p);
    }
  }

  /** With a repeated id the order does matter: the first one listed is known. */
  lemma RepeatedIdsKeepFirst(p: Plugin, q: Plugin)
    requires p.id == q.id
    ensures KnownOf([p, q]) == map[p.id := p] && KnownOf([q, p]) == map[p.id := q]
  {
    KnownOfTwo(p, q);
    KnownOfTwo(q, p);
  }

  lemma KnownOfTwo(p: Plugin, q: Plugin)
    requires p.id == q.id
    ensures KnownOf([p, q]) == map[p.id := p]
  {
    assert [p, q][..1] == [p] && [p][..0] == [];
    assert KnownOf([p]) == map[p.id := p];
  }
}
