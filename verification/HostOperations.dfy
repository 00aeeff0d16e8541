/** What the operations of a plugin host come to, as functions of the graph and of what setups do. */
module HostOperations {
  import opened Primitives
  import opened SessionEvents
  import opened HostGraph
  import opened HostLeaning
  import opened HostCascade
  import opened HostFixpoint
  import opened HostLifecycle
  import opened HostResolve
  import opened HostCutover

  datatype Outcome =
    | Installed(tokens: seq<TokenId>)
    | Unmet(missing: seq<TokenId>)
    | SetupFailed
    | DuplicateProvider(token: TokenId)

  /** What installing a plugin on the host lane does, given what its setup came to. */
  function Attempt(g: Graph, plugin: Plugin, setup: Setup, marker: nat): (Graph, Outcome) {
    if plugin.scope == ThreadScope then (g, Installed([]))
    else if IsActive(g, plugin.id) then (g, Installed(g.active[ActiveIndex(g.active, plugin.id)].tokens))
    else if Missing(plugin.inject, g.cells.Keys) != [] then (g, Unmet(Missing(plugin.inject, g.cells.Keys)))
    else
      match setup
      case SetupFails => (g, SetupFailed)
      case Provided(tokens, data) =>
        var taken := Taken(g.cells, tokens, plugin.id);
        if taken.Some? then (g, DuplicateProvider(taken.value))
        else (Installing(g, plugin, tokens, data, marker), Installed(tokens))
  }

  /** From a wired graph to a wired graph, and in order or without circles where it was so before. */
  ghost predicate Keeps(before: Graph, after: Graph) {
    Wired(before) ==>
      Wired(after) && (Ordered(before) ==> Ordered(after)) && (Acyclic(before) ==> Acyclic(after))
  }

  lemma KeepsItself(g: Graph)
    ensures Keeps(g, g)
  {
  }

  lemma KeepsTwice(a: Graph, b: Graph, c: Graph)
    requires Keeps(a, b) && Keeps(b, c)
    ensures Keeps(a, c)
  {
  }

  lemma KeepsWiring(before: Graph, after: Graph)
    requires Keeps(before, after) && Wired(before)
    ensures Wired(after)
  {
  }

  /** Whatever was live still is, and contributes what it did. */
  ghost predicate LeavesLive(before: Graph, after: Graph) {
    forall id :: IsActive(before, id) ==> IsActive(after, id) && ItemsBy(after.store, id) == ItemsBy(before.store, id)
  }

  lemma LeavesLiveItself(g: Graph)
    ensures LeavesLive(g, g)
  {
  }

  lemma LeavesLiveTwice(a: Graph, b: Graph, c: Graph)
    requires LeavesLive(a, b) && LeavesLive(b, c)
    ensures LeavesLive(a, c)
  {
  }

  /** An install leaves what is live alone, and stores just what its own plugin contributes. */
  lemma AttemptStores(g: Graph, plugin: Plugin, setup: Setup, marker: nat)
    ensures LeavesLive(g, Attempt(g, plugin, setup, marker).0)
    ensures var (after, outcome) := Attempt(g, plugin, setup, marker);
      outcome.Installed? && plugin.scope == HostScope && !IsActive(g, plugin.id) ==>
        setup.Provided? && ItemsBy(after.store, plugin.id) == setup.data
  {
    hide Missing, Taken, Providing, Journal, StoreWithout, StoredBy, ItemsBy, ActiveIndex;
    var (after, outcome) := Attempt(g, plugin, setup, marker);
    if outcome.Installed? && plugin.scope == HostScope && !IsActive(g, plugin.id) {
      forall id ensures IsActive(g, id) ==> IsActive(after, id) {
        AppendedIndex(g.active, Activation(plugin, setup.tokens, marker), id);
      }
      forall id ensures ItemsBy(after.store, id) == if id == plugin.id then setup.data else ItemsBy(g.store, id) {
        StoringReplaces(g.store, plugin.id, setup.data, id);
      }
    }
  }

  lemma AttemptKeepsGraph(g: Graph, plugin: Plugin, setup: Setup, marker: nat)
    ensures var (after, outcome) := Attempt(g, plugin, setup, marker);
      && Keeps(g, after)
      && (!outcome.Installed? ==> after == g)
      && g.active <= after.active
  {
    hide Wired, Ordered, Acyclic, Providing, StoreWithout, Journal, Taken, Missing, ActiveIndex;
    if Wired(g) && setup.Provided? && Installable(g, plugin, setup.tokens) {
      InstallKeepsWiring(g, plugin, setup.tokens, setup.data, marker);
      if Ordered(g) {
        InstallKeepsOrder(g, plugin, setup.tokens, setup.data, marker);
      }
      if Acyclic(g) {
        InstallKeepsAcyclic(g, plugin, setup.tokens, setup.data, marker);
      }
    }
  }

  /**
    What an install comes to, case by case: nothing changes unless the plugin goes live, and
    then it is last in activation order, owns each token it provides, and its contributions
    are its own and no other's are touched.
   */
  lemma AttemptMeaning(g: Graph, plugin: Plugin, setup: Setup, marker: nat)
    requires Wired(g) && plugin.scope == HostScope && !IsActive(g, plugin.id)
    ensures var (after, outcome) := Attempt(g, plugin, setup, marker);
      && (outcome.Unmet? <==> !Fits(g, plugin))
      && (outcome.Unmet? ==> forall t :: t in outcome.missing <==> t in plugin.inject && t !in g.cells)
      && (outcome.SetupFailed? <==> Fits(g, plugin) && setup.SetupFails?)
      && (outcome.DuplicateProvider? ==>
            && Fits(g, plugin) && setup.Provided?
            && outcome.token in setup.tokens && outcome.token in g.cells && g.cells[outcome.token] != plugin.id)
      && (outcome.Installed? <==> Fits(g, plugin) && setup.Provided? && forall t :: t in setup.tokens ==> t !in g.cells)
      && (outcome.Installed? ==>
            && outcome.tokens == setup.tokens
            && after.active == g.active + [Activation(plugin, setup.tokens, marker)]
            && (forall t :: t in after.cells <==> t in g.cells || t in setup.tokens)
            && (forall t :: t in after.cells ==> after.cells[t] == if t in setup.tokens then plugin.id else g.cells[t])
            && after.store == g.store + StoredBy(plugin.id, setup.data))
      && (!outcome.Installed? ==> after == g)
  {
    hide Wired, Providing, Taken, Missing, Journal, StoreWithout;
    forall t ensures t in Missing(plugin.inject, g.cells.Keys) <==> t in plugin.inject && t !in g.cells {
      MissingMeaning(plugin.inject, g.cells.Keys, t);
    }
    if Missing(plugin.inject, g.cells.Keys) != [] {
      assert Missing(plugin.inject, g.cells.Keys)[0] in Missing(plugin.inject, g.cells.Keys);
    } else if setup.Provided? {
      FirstTaken(g.cells, setup.tokens, plugin.id);
      TakenMeaning(g.cells, setup.tokens, plugin.id);
      ProvidingMeaning(g.cells, setup.tokens, plugin.id);
      NothingStored(g, plugin.id);
      if Taken(g.cells, setup.tokens, plugin.id).None? {
        FreeTokens(g, plugin, setup.tokens);
      }
    }
  }

  /** A thread's plugin is not the host lane's to install, and a plugin that is live already answers with its tokens. */
  lemma AttemptLeavesAlone(g: Graph, plugin: Plugin, setup: Setup, marker: nat, k: nat)
    requires DistinctIds(g.active)
    ensures plugin.scope == ThreadScope ==> Attempt(g, plugin, setup, marker) == (g, Installed([]))
    ensures plugin.scope == HostScope && k < |g.active| && g.active[k].plugin.id == plugin.id ==>
      Attempt(g, plugin, setup, marker) == (g, Installed(g.active[k].tokens))
  {
    hide Missing, Taken, Installing, ActiveIndex;
    if k < |g.active| {
      ActiveIndexIs(g.active, k);
    }
  }

  /** Every inject is owned. */
  ghost predicate Fits(g: Graph, plugin: Plugin) {
    forall t :: t in plugin.inject ==> t in g.cells
  }

  lemma {:induction false} FirstTaken(cells: map<TokenId, PluginId>, tokens: seq<TokenId>, id: PluginId)
    ensures var taken := Taken(cells, tokens, id);
      taken.Some? ==> taken.value in tokens && taken.value in cells && cells[taken.value] != id
  {
    if tokens != [] {
      FirstTaken(cells, tokens[1..], id);
    }
  }

  /** A plugin that is not active has stored nothing. */
  lemma NothingStored(g: Graph, id: PluginId)
    requires Wired(g) && !IsActive(g, id)
    ensures StoreWithout(g.store, id) == g.store
  {
    hide StoreWithout, StoreKeeping;
    StoreWithoutIsKeeping(g.store, id);
    StoreKeepingAll(g.store, {id});
  }

  /** A host blocks exactly the wanted host plugins that are not live and miss an inject. */
  lemma BlockedMeaning(g: Graph, desired: seq<PluginId>, id: PluginId)
    ensures id in BlockedOf(g, desired) <==>
      && id in desired && id in g.byId && g.byId[id].scope == HostScope && !IsActive(g, id)
      && exists t :: t in g.byId[id].inject && t !in g.cells
    ensures id in BlockedOf(g, desired) ==>
      forall t :: t in BlockedOf(g, desired)[id] <==> t in g.byId[id].inject && t !in g.cells
  {
    hide Missing, ActiveIndex;
    if id in g.byId {
      var missing := Missing(g.byId[id].inject, g.cells.Keys);
      forall t ensures t in missing <==> t in g.byId[id].inject && t !in g.cells {
        MissingMeaning(g.byId[id].inject, g.cells.Keys, t);
      }
      assert missing != [] ==> missing[0] in missing;
    }
  }

  /** The desired plugins that are known, not active and short of an inject, with what they miss. */
  function BlockedOf(g: Graph, desired: seq<PluginId>): map<PluginId, seq<TokenId>> {
    map id | id in desired && IsBlocked(g, id) :: Missing(g.byId[id].inject, g.cells.Keys)
  }

  lemma BlockedOneMore(g: Graph, ids: seq<PluginId>, id: PluginId)
    ensures BlockedOf(g, ids + [id])
      == if IsBlocked(g, id) then BlockedOf(g, ids)[id := Missing(g.byId[id].inject, g.cells.Keys)]
          else BlockedOf(g, ids)
  {
  }

  predicate IsBlocked(g: Graph, id: PluginId) {
    && !IsActive(g, id) && id in g.byId && g.byId[id].scope == HostScope
    && Missing(g.byId[id].inject, g.cells.Keys) != []
  }

  predicate IsEligible(g: Graph, id: PluginId) {
    && !IsActive(g, id) && id in g.byId && g.byId[id].scope == HostScope
    && Missing(g.byId[id].inject, g.cells.Keys) == []
  }

  /** A plugin that would go live now: eligible, and its setup succeeds. */
  predicate IsReady(g: Graph, world: (Plugin, nat) -> Setup, id: PluginId) {
    IsEligible(g, id) && world(g.byId[id], 0).Provided?
  }

  /** The first wanted plugin, in the order they were wanted, whose injects are met has a setup that fails. */
  ghost predicate Stopped(g: Graph, desired: seq<PluginId>, world: (Plugin, nat) -> Setup) {
    exists k :: 0 <= k < |desired| && StopsAt(g, desired, world, k)
  }

  ghost predicate StopsAt(g: Graph, desired: seq<PluginId>, world: (Plugin, nat) -> Setup, k: nat)
    requires k < |desired|
  {
    && IsEligible(g, desired[k]) && !IsReady(g, world, desired[k])
    && forall j :: 0 <= j < k ==> !IsEligible(g, desired[j])
  }

  lemma WentLive(before: Graph, after: Graph, id: PluginId)
    requires before.active < after.active && |after.active| == |before.active| + 1
    requires after.active[|before.active|].plugin.id == id
    ensures forall x :: IsActive(after, x) <==> IsActive(before, x) || x == id
  {
  }

  /** What went live in a round, in the order the plugins are listed. */
  ghost predicate Follows(order: seq<Plugin>, live: seq<Activation>) {
    live == [] ||
    exists k :: 0 <= k < |order| && order[k].id == live[|live| - 1].plugin.id
             && Follows(order[..k], live[..|live| - 1])
  }

  lemma NothingFollows(order: seq<Plugin>)
    ensures Follows(order, [])
  {
  }

  lemma FollowsFurther(order: seq<Plugin>, k: nat, live: seq<Activation>)
    requires k < |order| && Follows(order[..k], live)
    ensures Follows(order[..k + 1], live)
    ensures forall a: Activation :: a.plugin.id == order[k].id ==> Follows(order[..k + 1], live + [a])
  {
    assert order[..k + 1][..k] == order[..k];
    if live != [] {
      var j :| 0 <= j < k && order[..k][j].id == live[|live| - 1].plugin.id
          && Follows(order[..k][..j], live[..|live| - 1]);
      assert order[..k + 1][..j] == order[..k][..j];
    }
    forall a: Activation | a.plugin.id == order[k].id ensures Follows(order[..k + 1], live + [a]) {
      assert (live + [a])[..|live|] == live;
    }
  }

  /** A reconcile that started above `base` with these candidates can only be on its way to the least set. */
  ghost predicate OnTrack(g: Graph, desired: seq<PluginId>, world: (Plugin, nat) -> Setup,
                          plugins: set<Plugin>, base: set<PluginId>) {
    && Wired(g) && Candidates(g, desired) == plugins && Alike(plugins, world) && Faithful(g, world)
    && Below(g, plugins, world, base) && base <= ActiveIds(g)
  }

  lemma StartsOnTrack(g: Graph, desired: seq<PluginId>, world: (Plugin, nat) -> Setup)
    requires Wired(g) && Alike(Candidates(g, desired), world) && Faithful(g, world)
    ensures OnTrack(g, desired, world, Candidates(g, desired), ActiveIds(g))
  {
  }

  lemma EmptyIsOnTrack(g: Graph, desired: seq<PluginId>, world: (Plugin, nat) -> Setup)
    requires Wired(g) && g.active == []
    ensures Alike(Wanted(g.byId, desired), world) ==>
              OnTrack(g, desired, world, Wanted(g.byId, desired), {})
  {
  }

  lemma KnownIsWired(plugins: seq<Plugin>, g: Graph)
    requires g.active == [] && g.cells == map[] && g.store == [] && g.byId == KnownOf(plugins)
    ensures Wired(g) && Ordered(g)
  {
    forall id | id in g.byId ensures g.byId[id].id == id {
      KnownIsFirst(plugins, id);
    }
  }

  lemma WiredKnowsIds(g: Graph)
    requires Wired(g)
    ensures forall id :: id in g.byId ==> g.byId[id].id == id
  {
  }

  lemma EndsOnTrack(g: Graph, desired: seq<PluginId>, world: (Plugin, nat) -> Setup,
                    plugins: set<Plugin>, base: set<PluginId>)
    requires OnTrack(g, desired, world, plugins, base)
    requires forall id :: id in desired ==> !IsReady(g, world, id)
    ensures Faithful(g, world) && ActiveIds(g) == Least(plugins, world, base)
  {
    StuckIsLeast(g, desired, world, base);
  }

  /** On the way nothing goes beyond the least set. */
  lemma OnTrackIsWithin(g: Graph, desired: seq<PluginId>, world: (Plugin, nat) -> Setup,
                        plugins: set<Plugin>, base: set<PluginId>)
    requires OnTrack(g, desired, world, plugins, base)
    ensures Wired(g) && Faithful(g, world) && base <= ActiveIds(g) <= Least(plugins, world, base)
  {
    BelowIsWithinLeast(g, desired, world, base);
  }

  /** On track, a plugin that is not live goes live exactly when it is ready, and stays on track. */
  lemma TrackAdvances(g: Graph, desired: seq<PluginId>, world: (Plugin, nat) -> Setup,
                      plugins: set<Plugin>, base: set<PluginId>, id: PluginId, attempt: nat, marker: nat)
    requires OnTrack(g, desired, world, plugins, base)
    requires id in desired && id in g.byId && g.byId[id].scope == HostScope && !IsActive(g, id)
    ensures var (after, outcome) := Attempt(g, g.byId[id], world(g.byId[id], attempt), marker);
      (outcome.Installed? <==> IsReady(g, world, id)) && OnTrack(after, desired, world, plugins, base)
  {
    hide Wired, Taken, Missing;
    var plugin := g.byId[id];
    WiredKnowsIds(g);
    assert plugin in plugins;
    AttemptKeepsGraph(g, plugin, world(plugin, attempt), marker);
    if IsReady(g, world, id) {
      EligibleTokensFree(g, desired, world, plugin);
      InstallKeepsBound(g, desired, world, base, plugin, world(plugin, attempt).data, marker);
    }
  }

  /** What replacing an active plugin does, given what its new setup came to. */
  function CutoverAttempt(g: Graph, plugin: Plugin, setup: Setup, marker: nat): (Graph, Outcome)
    requires IsActive(g, plugin.id)
  {
    if Missing(plugin.inject, g.cells.Keys) != [] then (g, Unmet(Missing(plugin.inject, g.cells.Keys)))
    else
      match setup
      case SetupFails => (g, SetupFailed)
      case Provided(tokens, data) =>
        var taken := Taken(g.cells, tokens, plugin.id);
        if taken.Some? then (RefusingCutover(g, plugin, tokens, marker), DuplicateProvider(taken.value))
        else (CuttingOver(g, plugin, tokens, data, marker), Installed(tokens))
  }

  /**
    What a cutover comes to, case by case: nothing changes when an inject is missing or the setup
    fails; a refused one takes the plugin away; and a published one puts the new generation in
    the old one's place, with its tokens beside those already owned and its own contributions in
    place of the old generation's.
   */
  lemma CutoverMeaning(g: Graph, plugin: Plugin, setup: Setup, marker: nat)
    requires IsActive(g, plugin.id) && DistinctIds(g.active)
    ensures var (after, outcome) := CutoverAttempt(g, plugin, setup, marker);
      && (outcome.Unmet? <==> !Fits(g, plugin))
      && (outcome.Unmet? ==> forall t :: t in outcome.missing <==> t in plugin.inject && t !in g.cells)
      && (outcome.SetupFailed? <==> Fits(g, plugin) && setup.SetupFails?)
      && (outcome.Unmet? || outcome.SetupFailed? ==> after == g)
      && (outcome.DuplicateProvider? ==>
            && setup.Provided? && outcome.token in setup.tokens
            && outcome.token in g.cells && g.cells[outcome.token] != plugin.id
            && Refused(g, plugin, setup.tokens, after))
      && (outcome.Installed? <==>
            && Fits(g, plugin) && setup.Provided?
            && forall t :: t in setup.tokens && t in g.cells ==> g.cells[t] == plugin.id)
      && (outcome.Installed? ==>
            outcome.tokens == setup.tokens && Published(g, plugin, setup.tokens, setup.data, marker, after))
  {
    hide Taken, Missing, CuttingOver, RefusingCutover, Published, Refused, ActiveIndex, DistinctIds;
    forall t ensures t in Missing(plugin.inject, g.cells.Keys) <==> t in plugin.inject && t !in g.cells {
      MissingMeaning(plugin.inject, g.cells.Keys, t);
    }
    if Missing(plugin.inject, g.cells.Keys) != [] {
      assert Missing(plugin.inject, g.cells.Keys)[0] in Missing(plugin.inject, g.cells.Keys);
    } else if setup.Provided? {
      FirstTaken(g.cells, setup.tokens, plugin.id);
      TakenMeaning(g.cells, setup.tokens, plugin.id);
      if Taken(g.cells, setup.tokens, plugin.id).Some? {
        RefusalMeaning(g, plugin, setup.tokens, marker);
      } else {
        PublishingMeaning(g, plugin, setup.tokens, setup.data, marker);
      }
    }
  }

  /** The plugin is active in its old place with the new generation, which owns its tokens and has its contributions. */
  ghost predicate Published(g: Graph, plugin: Plugin, tokens: seq<TokenId>, data: seq<Contribution>, marker: nat,
                            after: Graph)
    requires IsActive(g, plugin.id)
  {
    && |after.active| == |g.active| && after.facts == g.facts && after.byId == g.byId[plugin.id := plugin]
    && (forall k :: 0 <= k < |g.active| ==>
          after.active[k]
          == if g.active[k].plugin.id == plugin.id then Activation(plugin, tokens, marker) else g.active[k])
    && (forall t :: t in after.cells <==> t in g.cells || t in tokens)
    && (forall t :: t in after.cells ==> after.cells[t] == if t in tokens then plugin.id else g.cells[t])
    && ItemsBy(after.store, plugin.id) == data
    && (forall other :: other != plugin.id ==> ItemsBy(after.store, other) == ItemsBy(g.store, other))
    && (forall e :: e in after.store <==>
          (e in g.store && e.plugin != plugin.id) || (e.plugin == plugin.id && e.item in data))
  }

  /** The plugin is gone, with the tokens its refused generation asked for and its contributions. */
  ghost predicate Refused(g: Graph, plugin: Plugin, tokens: seq<TokenId>, after: Graph) {
    && !IsActive(after, plugin.id) && after.facts == g.facts && after.byId == g.byId[plugin.id := plugin]
    && (forall a :: a in after.active <==> a in g.active && a.plugin.id != plugin.id)
    && (forall t :: t in after.cells <==> t in g.cells && !(t in tokens && g.cells[t] == plugin.id))
    && (forall t :: t in after.cells ==> after.cells[t] == g.cells[t])
    && ItemsBy(after.store, plugin.id) == []
    && (forall other :: other != plugin.id ==> ItemsBy(after.store, other) == ItemsBy(g.store, other))
  }

  lemma PublishingMeaning(g: Graph, plugin: Plugin, tokens: seq<TokenId>, data: seq<Contribution>, marker: nat)
    requires IsActive(g, plugin.id) && DistinctIds(g.active)
    ensures Published(g, plugin, tokens, data, marker, CuttingOver(g, plugin, tokens, data, marker))
  {
    hide ItemsBy, StoreWithout, Providing, StoredBy, ActiveIndex;
    var after := CuttingOver(g, plugin, tokens, data, marker);
    ProvidingMeaning(g.cells, tokens, plugin.id);
    forall other ensures ItemsBy(after.store, other) == if other == plugin.id then data else ItemsBy(g.store, other) {
      StoringReplaces(g.store, plugin.id, data, other);
    }
    forall e ensures e in after.store <==>
      (e in g.store && e.plugin != plugin.id) || (e.plugin == plugin.id && e.item in data)
    {
      StoreWithoutMeaning(g.store, plugin.id, e);
      InStoredBy(plugin.id, data, e);
    }
  }

  lemma InStoredBy(id: PluginId, data: seq<Contribution>, e: Stored)
    ensures e in StoredBy(id, data) <==> e.plugin == id && e.item in data
  {
    var stored := StoredBy(id, data);
    if e.plugin == id && e.item in data {
      var k :| 0 <= k < |data| && data[k] == e.item;
      assert stored[k] == e;
    }
  }

  lemma RefusalMeaning(g: Graph, plugin: Plugin, tokens: seq<TokenId>, marker: nat)
    requires IsActive(g, plugin.id) && DistinctIds(g.active)
    ensures Refused(g, plugin, tokens, RefusingCutover(g, plugin, tokens, marker))
  {
    hide ItemsBy, StoreWithout, ActiveIndex;
    var after := RefusingCutover(g, plugin, tokens, marker);
    var i := ActiveIndex(g.active, plugin.id);
    ReplacedIndex(g.active, Activation(plugin, tokens, marker), plugin.id);
    assert after.active == g.active[..i] + g.active[i + 1..];
    assert forall k :: 0 <= k < i ==> after.active[k] == g.active[k];
    assert forall k :: i <= k < |after.active| ==> after.active[k] == g.active[k + 1];
    forall other ensures ItemsBy(after.store, other) == if other == plugin.id then [] else ItemsBy(g.store, other) {
      ItemsByWithout(g.store, plugin.id, other);
    }
  }

  /** Replacing a plugin: a cutover when it is live, an install when it is not; thread plugins live elsewhere. */
  function ReplaceAttempt(g: Graph, plugin: Plugin, setup: Setup, marker: nat): (Graph, Outcome) {
    if plugin.scope == HostScope && IsActive(g, plugin.id) then CutoverAttempt(g, plugin, setup, marker)
    else Attempt(g, plugin, setup, marker)
  }

  /** A replacement that succeeds leaves its plugin live, contributing what its setup provided and nothing else. */
  lemma ReplaceStores(g: Graph, plugin: Plugin, setup: Setup, marker: nat)
    requires DistinctIds(g.active) && plugin.scope == HostScope
    ensures var (after, outcome) := ReplaceAttempt(g, plugin, setup, marker);
      outcome.Installed? ==>
        IsActive(after, plugin.id) && setup.Provided? && ItemsBy(after.store, plugin.id) == setup.data
  {
    hide DistinctIds, ActiveIndex, CutoverAttempt, Attempt, ItemsBy;
    if IsActive(g, plugin.id) {
      CutoverMeaning(g, plugin, setup, marker);
      if CutoverAttempt(g, plugin, setup, marker).1.Installed? {
        PublishedIsLive(g, plugin, setup.tokens, setup.data, marker, CutoverAttempt(g, plugin, setup, marker).0);
      }
    } else {
      AttemptStores(g, plugin, setup, marker);
      AttemptActivates(g, plugin, setup, marker);
    }
  }

  lemma PublishedIsLive(g: Graph, plugin: Plugin, tokens: seq<TokenId>, data: seq<Contribution>, marker: nat,
                        after: Graph)
    requires IsActive(g, plugin.id) && Published(g, plugin, tokens, data, marker, after)
    ensures IsActive(after, plugin.id)
  {
    assert after.active[ActiveIndex(g.active, plugin.id)].plugin.id == plugin.id;
  }

  /** Exactly when replacing an active plugin leaves the graph wired. */
  ghost predicate SafeToReplace(g: Graph, plugin: Plugin, setup: Setup)
    requires IsActive(g, plugin.id)
  {
    Missing(plugin.inject, g.cells.Keys) == [] && setup.Provided? ==>
      && CoversOldTokens(g, plugin.id, setup.tokens)
      && (Taken(g.cells, setup.tokens, plugin.id).Some? ==> !NeededByOthers(g, plugin.id))
  }

  /**
    A replaced plugin leaves every provider live and every inject fed if and only if its new
    generation gives up no token and, when it is refused, nothing else needs it.
   */
  lemma ReplaceKeepsWiring(g: Graph, plugin: Plugin, setup: Setup, marker: nat)
    requires Wired(g)
    ensures Wired(ReplaceAttempt(g, plugin, setup, marker).0)
       <==> (plugin.scope == HostScope && IsActive(g, plugin.id) ==> SafeToReplace(g, plugin, setup))
  {
    hide Wired, CoversOldTokens, NeededByOthers, CuttingOver, RefusingCutover, Attempt, ActiveIndex;
    if plugin.scope != HostScope || !IsActive(g, plugin.id) {
      AttemptKeepsGraph(g, plugin, setup, marker);
      KeepsWiring(g, Attempt(g, plugin, setup, marker).0);
    } else if Missing(plugin.inject, g.cells.Keys) == [] && setup.Provided? {
      if Taken(g.cells, setup.tokens, plugin.id).Some? {
        RefusalKeepsWiring(g, plugin, setup.tokens, marker);
      } else {
        CutoverKeepsWiring(g, plugin, setup.tokens, setup.data, marker);
      }
    }
  }

  /** The replacement is a cutover that publishes its new generation. */
  predicate Publishes(g: Graph, plugin: Plugin, setup: Setup) {
    && plugin.scope == HostScope && IsActive(g, plugin.id)
    && Missing(plugin.inject, g.cells.Keys) == [] && setup.Provided? && Taken(g.cells, setup.tokens, plugin.id).None?
  }

  /** A replacement breaks activation order, or ties a circle, exactly when the injects it publishes do so. */
  lemma ReplaceKeepsShape(g: Graph, plugin: Plugin, setup: Setup, marker: nat)
    requires Wired(g)
    ensures Ordered(g) ==>
      (Ordered(ReplaceAttempt(g, plugin, setup, marker).0) <==> (Publishes(g, plugin, setup) ==> KeepsPlace(g, plugin)))
    ensures Acyclic(g) ==>
      (Acyclic(ReplaceAttempt(g, plugin, setup, marker).0)
       <==> (Publishes(g, plugin, setup) ==> TiesNoCircle(g, plugin)))
  {
    hide Wired, Ordered, Acyclic, KeepsPlace, TiesNoCircle, CuttingOver, RefusingCutover, Attempt, ActiveIndex;
    if plugin.scope != HostScope || !IsActive(g, plugin.id) {
      AttemptKeepsGraph(g, plugin, setup, marker);
    } else if Publishes(g, plugin, setup) {
      if Ordered(g) {
        CutoverKeepsOrder(g, plugin, setup.tokens, setup.data, marker);
      }
      if Acyclic(g) {
        CutoverKeepsAcyclic(g, plugin, setup.tokens, setup.data, marker);
      }
    } else if setup.Provided? {
      RefusalKeepsShape(g, plugin, setup.tokens, marker);
    }
  }

  /**
    A reconcile that began at `before`: only wanted plugins joined, and when setups are alike
    what is live lies within the least closed set above what was, and is all of it unless a
    failing setup stopped the reconcile.
   */
  ghost predicate ClosedUp(before: Graph, desired: seq<PluginId>, world: (Plugin, nat) -> Setup, after: Graph) {
    && after.byId == before.byId
    && before.active <= after.active
    && (forall i :: |before.active| <= i < |after.active| ==> after.active[i].plugin.id in desired)
    && Keeps(before, after) && LeavesLive(before, after)
    && (Wired(before) && Alike(Candidates(before, desired), world) && Faithful(before, world) ==>
          && Faithful(after, world)
          && ActiveIds(after) <= Least(Candidates(before, desired), world, ActiveIds(before))
          && (ActiveIds(after) == Least(Candidates(before, desired), world, ActiveIds(before))
              || Stopped(after, desired, world)))
  }

  /** Only a candidate whose setup fails stops a reconcile. */
  lemma StoppedByFailure(g: Graph, desired: seq<PluginId>, world: (Plugin, nat) -> Setup) returns (p: Plugin)
    requires Stopped(g, desired, world)
    ensures p in Candidates(g, desired) && world(p, 0).SetupFails?
  {
    var k :| 0 <= k < |desired| && StopsAt(g, desired, world, k);
    p := g.byId[desired[k]];
  }

  lemma AttemptActivates(g: Graph, plugin: Plugin, setup: Setup, marker: nat)
    requires plugin.scope == HostScope
    ensures var (after, outcome) := Attempt(g, plugin, setup, marker);
      outcome.Installed? ==> IsActive(after, plugin.id)
  {
    hide Missing, Taken, Providing, StoreWithout, Journal, ActiveIndex;
    var (after, outcome) := Attempt(g, plugin, setup, marker);
    if !IsActive(g, plugin.id) && outcome.Installed? {
      AppendedIndex(g.active, Activation(plugin, setup.tokens, marker), plugin.id);
    }
  }

  lemma StaysActive(before: Graph, after: Graph, id: PluginId)
    requires before.active <= after.active
    ensures IsActive(before, id) ==> IsActive(after, id)
  {
  }

  lemma StaysInactive(before: Graph, after: Graph, id: PluginId)
    requires before.active <= after.active && !IsActive(before, id)
    requires forall i :: |before.active| <= i < |after.active| ==> after.active[i].plugin.id != id
    ensures !IsActive(after, id)
  {
  }

  lemma ClosingKeepsMarkers(g: Graph, id: PluginId, marker: nat, tokens: seq<TokenId>, next: nat)
    requires forall i :: 0 <= i < |g.active| ==> g.active[i].marker < next
    ensures var after := Closing(g, id, marker, tokens);
      forall i :: 0 <= i < |after.active| ==> after.active[i].marker < next
  {
  }

  lemma ClosingKeepsRecords(g: Graph, id: PluginId, marker: nat, tokens: seq<TokenId>)
    requires DistinctIds(g.active) && Known(g)
    ensures var after := Closing(g, id, marker, tokens); DistinctIds(after.active) && Known(after)
    ensures Journaled(g) ==> Journaled(Closing(g, id, marker, tokens))
  {
    var i := ActiveIndex(g.active, id);
    if i >= 0 {
      var rest := g.active[..i] + g.active[i + 1..];
      assert forall k :: 0 <= k < i ==> rest[k] == g.active[k];
      assert forall k :: i <= k < |rest| ==> rest[k] == g.active[k + 1];
    }
  }

  lemma RecordingKeepsRecords(g: Graph, plugin: Plugin, tokens: seq<TokenId>, marker: nat)
    requires DistinctIds(g.active) && Known(g) && IsActive(g, plugin.id) && plugin.scope == HostScope
    ensures var after := Recording(g, plugin, tokens, marker); DistinctIds(after.active) && Known(after)
    ensures Journaled(g) ==> Journaled(Recording(g, plugin, tokens, marker))
  {
    var after := Recording(g, plugin, tokens, marker);
    var i := ActiveIndex(g.active, plugin.id);
    assert forall k :: 0 <= k < |g.active| && k != i ==> after.active[k] == g.active[k];
  }

  /** Closing the scope of a generation that is no longer the live one does nothing. */
  lemma StaleScope(g: Graph, id: PluginId, marker: nat, tokens: seq<TokenId>)
    requires IsActive(g, id) && g.active[ActiveIndex(g.active, id)].marker != marker
    ensures Closing(g, id, marker, tokens) == g
  {
  }

  /** `activate` remembers a plugin it has not met. */
  function Remembered(g: Graph, plugin: Plugin): Graph {
    if plugin.id in g.byId then g else g.(byId := g.byId[plugin.id := plugin])
  }

  lemma RememberKeepsGraph(g: Graph, plugin: Plugin)
    ensures Keeps(g, Remembered(g, plugin))
    ensures var after := Remembered(g, plugin);
      && after == g.(byId := after.byId) && plugin.id in after.byId
      && after.byId[plugin.id] == (if plugin.id in g.byId then g.byId[plugin.id] else plugin)
      && after.byId - {plugin.id} == g.byId - {plugin.id}
    ensures DistinctIds(g.active) && Known(g) ==> Known(Remembered(g, plugin))
  {
    hide Ordered, Acyclic, ActiveIndex, FoldActivePlugins;
    if Wired(g) {
      SameShape(g, Remembered(g, plugin));
    }
  }

  /** What needs what, and in which order and circles, is a matter of activations and cells alone. */
  lemma SameShape(g: Graph, h: Graph)
    requires Wired(g) && g.active == h.active && g.cells == h.cells
    ensures (Ordered(g) ==> Ordered(h)) && (Acyclic(g) ==> Acyclic(h))
  {
    hide Wired, LeansOn;
    forall x, y ensures Needs(h, x, y) <==> Needs(g, x, y) {
    }
    NeedsStayInside(g);
    forall x, y | x != y && LeansOn(h, x, y) && LeansOn(h, y, x)
      ensures LeansOn(g, x, y) && LeansOn(g, y, x)
    {
      LeansActive(h, x, y);
      InActiveIds(g, x);
      InActiveIds(g, y);
      SameLeans(g, h, ActiveIds(g), x, y);
      SameLeans(g, h, ActiveIds(g), y, x);
    }
  }

  lemma NeedsStayInside(g: Graph)
    requires Wired(g)
    ensures forall x, y :: Needs(g, x, y) ==> y in ActiveIds(g)
  {
    forall x, y | Needs(g, x, y) ensures y in ActiveIds(g) {
      InActiveIds(g, y);
    }
  }

  /** What a boot from these plugins and this journal leaves. */
  ghost predicate Booted(plugins: seq<Plugin>, entries: seq<Fact>, world: (Plugin, nat) -> Setup,
                         g: Graph, desired: seq<PluginId>, blocked: map<PluginId, seq<TokenId>>) {
    && Wired(g) && Ordered(g) && g.byId == KnownOf(plugins)
    && desired == RecoverLifecycle(entries, IdsOf(FirstOfEach(plugins))).desired
    && blocked == BlockedOf(g, desired)
    && (Alike(Wanted(g.byId, desired), world) ==>
          Faithful(g, world) && ActiveIds(g) == Least(Wanted(g.byId, desired), world, {}))
  }
}
