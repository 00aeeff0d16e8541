/** The plugin host's own lane: installing, reconciling, replacing and cascading away. */
module PluginHosts {
  import opened Primitives
  import opened SessionEvents
  import opened HostGraph
  import opened HostLeaning
  import opened HostCascade
  import opened HostFixpoint
  import opened HostLifecycle
  import opened HostResolve
  import opened HostReversal
  import opened HostCutover
  import opened HostOperations

  /** The cells of one lane: who provides each token. */
  class Registry {
    var cells: map<TokenId, PluginId>

    constructor ()
      ensures cells == map[]
    {
      cells := map[];
    }

    method Provide(token: TokenId, owner: PluginId)
      modifies this
      ensures cells == old(cells)[token := owner]
    {
      if token in cells {
        if cells[token] != owner {
          cells := cells[token := owner];
        }
        assert cells == old(cells)[token := owner];
        return;
      }
      cells := cells[token := owner];
    }

    method Remove(token: TokenId, owner: PluginId)
      modifies this
      ensures cells == map t | t in old(cells) && !(t == token && old(cells)[t] == owner) :: old(cells)[t]
    {
      if token in cells && cells[token] == owner {
        cells := map t | t in cells && t != token :: cells[t];
      } else {
        assert cells == map t | t in cells && !(t == token && cells[t] == owner) :: cells[t];
      }
    }
  }

  class PluginHost {
    const registry: Registry
    /** What the n-th setup, of this plugin, comes to. */
    const world: (Plugin, nat) -> Setup
    /** The length of the journal this host began with. */
    const inherited: nat

    var active: seq<Activation>
    var byId: map<PluginId, Plugin>
    var desired: seq<PluginId>
    var store: seq<Stored>
    var blocked: map<PluginId, seq<TokenId>>
    var facts: seq<Fact>
    var recorded: seq<PluginId>
    var markers: nat
    var attempts: nat

    function State(): Graph
      reads this, registry
    {
      Graph(active, registry.cells, byId, store, facts)
    }

    /**
      What holds whatever is replaced: the recorder agrees with the journal, the facts this
      host wrote alternate, ids are not repeated, each active plugin is the one known by its
      id and is active in the journal, and every marker given out is older than the next.
     */
    ghost predicate Steady()
      reads this`recorded, this`facts, this`active, this`markers, this`byId
    {
      && recorded == FoldActivePlugins(facts) && Alternates(facts, inherited)
      && DistinctIds(active) && Recorded(active, byId) && Written(active, facts)
      && forall i :: 0 <= i < |active| ==> active[i].marker < markers
    }

    ghost predicate Valid()
      reads this, registry
    {
      Wired(State()) && Steady()
    }

    /** Plugins that are wanted but not live. */
    function Waiting(): set<PluginId>
      reads this, registry
    {
      set id | id in desired && !IsActive(State(), id)
    }

    /**
      Start a host on these plugins and the journal of earlier ones, and install what is
      wanted, round after round, until a round makes no progress.
     */
    constructor Boot(plugins: seq<Plugin>, entries: seq<Fact>, world: (Plugin, nat) -> Setup)
      ensures Valid() && fresh(registry) && this.world == world && inherited == |entries|
      ensures Booted(plugins, entries, world, State(), desired, blocked)
    {
      hide BlockedOf, Alike, Faithful, Least, FirstOfEach, KnownOf, ActiveIndex, TurnsOver, Ordered;
      var known := Remembering(plugins);
      var order, unmet := Resolve(plugins, {});
      var recovered := RecoverLifecycle(entries, IdsOf(order));
      registry := new Registry();
      this.world, inherited := world, |entries|;
      active, byId, desired, store, blocked := [], known, recovered.desired, [], map[];
      facts, recorded, markers, attempts := entries, recovered.journalActive, 0, 0;
      new;
      KnownIsWired(plugins, State());
      forall k | 0 <= k < |order| ensures order[k].id in byId && byId[order[k].id] == order[k] {
        ResolvedOrder(plugins, order[k]);
      }
      forall id | id in byId ensures byId[id] in order {
        KnownIsFirst(plugins, id);
        ResolvedOrder(plugins, byId[id]);
      }
      InstallRounds(order);
      RefreshBlocked();
    }

    /** The rounds of a boot. */
    method InstallRounds(order: seq<Plugin>)
      requires Valid() && active == []
      requires forall k :: 0 <= k < |order| ==> order[k].id in byId && byId[order[k].id] == order[k]
      requires forall id :: id in byId ==> byId[id] in order
      modifies this, registry
      ensures Valid() && desired == old(desired) && byId == old(byId) && Keeps(old(State()), State())
      ensures var plugins := Wanted(byId, desired);
        Alike(plugins, world) ==> Faithful(State(), world) && ActiveIds(State()) == Least(plugins, world, {})
    {
      hide Wired, Keeps, OnTrack, Alike, Faithful, IsEligible, Steady, Least;
      ghost var before := State();
      ghost var plugins := Wanted(byId, desired);
      ghost var alike := Alike(plugins, world);
      EmptyIsOnTrack(before, desired, world);
      KeepsItself(before);
      var progressing := true;
      while progressing
        invariant Valid() && desired == old(desired) && byId == old(byId) && Keeps(before, State())
        invariant alike ==> OnTrack(State(), desired, world, plugins, {})
        invariant alike && !progressing ==>
          forall k :: 0 <= k < |order| && order[k].id in desired ==> !IsReady(State(), world, order[k].id)
        decreases Waiting(), progressing
      {
        ghost var here := State();
        progressing := InstallRound(order, plugins, alike);
        KeepsTwice(before, here, State());
        KeepsWiring(here, State());
      }
      if alike {
        forall id | id in desired ensures !IsReady(State(), world, id) {
          WiredKnowsIds(State());
          NoneEligible(order, id);
        }
        EndsOnTrack(State(), desired, world, plugins, {});
      }
    }

    lemma NoneEligible(order: seq<Plugin>, id: PluginId)
      requires forall k :: 0 <= k < |order| && order[k].id in desired ==> !IsReady(State(), world, order[k].id)
      requires forall id :: id in byId ==> byId[id] in order
      requires forall id :: id in byId ==> byId[id].id == id
      requires id in desired
      ensures !IsReady(State(), world, id)
    {
    }

    /** One round: try every wanted host plugin that is not live, as listed; reports whether any went live. */
    method InstallRound(order: seq<Plugin>, ghost plugins: set<Plugin>, ghost alike: bool) returns (progressed: bool)
      requires Steady()
      requires forall k :: 0 <= k < |order| ==> order[k].id in byId && byId[order[k].id] == order[k]
      requires alike ==> OnTrack(State(), desired, world, plugins, {})
      modifies this, registry
      ensures Steady() && desired == old(desired) && byId == old(byId) && Keeps(old(State()), State())
      ensures alike ==> OnTrack(State(), desired, world, plugins, {})
      ensures old(active) <= active && Follows(order, active[|old(active)|..])
      ensures progressed ==> Waiting() < old(Waiting())
      ensures !progressed ==> State() == old(State())
      ensures alike && !progressed ==>
        forall k :: 0 <= k < |order| && order[k].id in desired ==> !IsReady(State(), world, order[k].id)
    {
      hide Keeps, OnTrack, IsReady, Steady, Follows, ActiveIndex;
      ghost var before := State();
      KeepsItself(before);
      NothingFollows(order[..0]);
      assert active[|before.active|..] == [];
      progressed := false;
      for k := 0 to |order|
        invariant Steady() && desired == old(desired) && byId == old(byId) && Keeps(before, State())
        invariant alike ==> OnTrack(State(), desired, world, plugins, {})
        invariant before.active <= active && Follows(order[..k], active[|before.active|..])
        invariant progressed ==> Waiting() < old(Waiting())
        invariant !progressed ==> State() == old(State())
        invariant alike && !progressed ==>
          forall j :: 0 <= j < k && order[j].id in desired ==> !IsReady(State(), world, order[j].id)
      {
        ghost var here := State();
        var live := InstallRoundStep(order[k], plugins, alike);
        KeepsTwice(before, here, State());
        FollowsFurther(order, k, here.active[|before.active|..]);
        if live {
          assert active[|before.active|..] == here.active[|before.active|..] + [active[|here.active|]];
        }
        progressed := progressed || live;
      }
      assert order[..|order|] == order;
    }

    method InstallRoundStep(plugin: Plugin, ghost plugins: set<Plugin>, ghost alike: bool) returns (live: bool)
      requires Steady() && plugin.id in byId && byId[plugin.id] == plugin
      requires alike ==> OnTrack(State(), desired, world, plugins, {})
      modifies this, registry
      ensures Steady() && desired == old(desired) && byId == old(byId) && Keeps(old(State()), State())
      ensures alike ==> OnTrack(State(), desired, world, plugins, {})
      ensures live ==> |active| == |old(active)| + 1 && old(active) <= active
      ensures live ==> active[|old(active)|].plugin.id == plugin.id && Waiting() < old(Waiting())
      ensures !live ==> State() == old(State())
      ensures alike && !live && plugin.id in desired ==> !IsReady(State(), world, plugin.id)
    {
      hide Keeps, OnTrack, Steady;
      if ActiveIndex(active, plugin.id) >= 0 || plugin.scope == ThreadScope || plugin.id !in desired {
        KeepsItself(State());
        return false;
      }
      live := InstallWanted(plugin.id, plugins, {}, alike);
    }

    // ---- one effect at a time ----

    method Emit(fact: Fact)
      requires IsPluginFact(fact) && recorded == FoldActivePlugins(facts)
      modifies this`facts, this`recorded
      ensures facts == Journal(old(facts), fact) && recorded == FoldActivePlugins(facts)
      ensures Alternates(old(facts), inherited) ==> Alternates(facts, inherited)
    {
      DecisionFollowsFold(facts, fact);
      var decision := DecideHostFact(recorded, fact);
      if decision.Append? {
        facts := facts + [fact];
      }
      recorded := decision.next;
    }

    method ReplaceData(id: PluginId, data: seq<Contribution>)
      modifies this`store
      ensures store == StoreWithout(old(store), id) + StoredBy(id, data)
    {
      store := StoreWithout(store, id) + StoredBy(id, data);
    }

    /** Refuse when another plugin owns one of the tokens, otherwise provide them all. */
    method PublishServices(id: PluginId, tokens: seq<TokenId>) returns (taken: Option<TokenId>)
      modifies registry
      ensures taken == Taken(old(registry.cells), tokens, id)
      ensures registry.cells == if taken.Some? then old(registry.cells) else Providing(old(registry.cells), tokens, id)
    {
      var k := 0;
      while k < |tokens|
        invariant 0 <= k <= |tokens|
        invariant Taken(registry.cells, tokens, id) == Taken(registry.cells, tokens[k..], id)
        invariant registry.cells == old(registry.cells)
      {
        if tokens[k] in registry.cells && registry.cells[tokens[k]] != id {
          return Some(tokens[k]);
        }
        k := k + 1;
      }
      taken := None;
      for j := 0 to |tokens|
        invariant registry.cells == Providing(old(registry.cells), tokens[..j], id)
      {
        assert tokens[..j + 1][..j] == tokens[..j];
        registry.Provide(tokens[j], id);
      }
      assert tokens[..|tokens|] == tokens;
    }

    /** Close the scope bound to a generation: reverse the plugin if that generation is live. */
    method CloseScope(id: PluginId, marker: nat, tokens: seq<TokenId>)
      modifies this`active, this`store, registry
      ensures State() == Closing(old(State()), id, marker, tokens)
    {
      var i := ActiveIndex(active, id);
      if i < 0 || active[i].marker != marker {
        return;
      }
      for k := 0 to |tokens|
        modifies registry
        invariant registry.cells == map t | t in old(registry.cells)
            && !(t in tokens[..k] && old(registry.cells)[t] == id)
                                      :: old(registry.cells)[t]
      {
        registry.Remove(tokens[k], id);
      }
      assert tokens[..|tokens|] == tokens;
      store := StoreWithout(store, id);
      active := active[..i] + active[i + 1..];
    }

    method Install(plugin: Plugin) returns (outcome: Outcome)
      requires Steady()
      modifies this, registry
      ensures Steady() && desired == old(desired)
      ensures (State(), outcome) == Attempt(old(State()), plugin, world(plugin, old(attempts)), old(markers))
    {
      if plugin.scope == ThreadScope {
        return Installed([]);
      }
      var index := ActiveIndex(active, plugin.id);
      if index >= 0 {
        return Installed(active[index].tokens);
      }
      var missing := Missing(plugin.inject, registry.cells.Keys);
      if missing != [] {
        blocked := blocked[plugin.id := missing];
        return Unmet(missing);
      }
      var setup := world(plugin, attempts);
      attempts := attempts + 1;
      if setup.SetupFails? {
        return SetupFailed;
      }
      outcome := GoLive(plugin, setup.tokens, setup.data);
    }

    /** Publish what a setup provided, or close its scope again when a token is taken. */
    method GoLive(plugin: Plugin, tokens: seq<TokenId>, data: seq<Contribution>) returns (outcome: Outcome)
      requires Steady() && ActiveIndex(active, plugin.id) < 0 && plugin.scope == HostScope
      modifies this, registry
      ensures Steady() && desired == old(desired)
      ensures var taken := Taken(old(registry.cells), tokens, plugin.id);
        if taken.Some? then State() == old(State()) && outcome == DuplicateProvider(taken.value)
        else State() == Installing(old(State()), plugin, tokens, data, old(markers)) && outcome == Installed(tokens)
    {
      hide FoldActivePlugins, Journal, Providing, Taken, StoreWithout, Alternates, DistinctIds, Recorded, Written;
      InstallKeepsIds(State(), plugin, tokens, data, markers);
      InstallKeepsJournal(State(), plugin, tokens, data, markers);
      var marker := markers;
      markers := markers + 1;
      var taken := PublishServices(plugin.id, tokens);
      if taken.Some? {
        CloseScope(plugin.id, marker, tokens);
        return DuplicateProvider(taken.value);
      }
      ReplaceData(plugin.id, data);
      active := active + [Activation(plugin, tokens, marker)];
      byId := byId[plugin.id := plugin];
      blocked := blocked - {plugin.id};
      Emit(PluginActivated(plugin.id, HostScope));
      outcome := Installed(tokens);
    }

    method RefreshBlocked()
      modifies this`blocked
      ensures blocked == BlockedOf(State(), desired)
    {
      var next: map<PluginId, seq<TokenId>> := map[];
      for k := 0 to |desired|
        invariant next == BlockedOf(State(), desired[..k])
      {
        var id := desired[k];
        assert desired[..k + 1] == desired[..k] + [id];
        BlockedOneMore(State(), desired[..k], id);
        if ActiveIndex(active, id) < 0 && id in byId && byId[id].scope == HostScope {
          var missing := Missing(byId[id].inject, registry.cells.Keys);
          if missing != [] {
            next := next[id := missing];
          }
        }
      }
      assert desired[..|desired|] == desired;
      blocked := next;
    }

    /**
      Install wanted plugins whose injects are met until none is left or one fails, then
      recompute what is blocked.  When setups are alike, what ends up live is the least
      closed set above what was, unless one that fails stopped it.
     */
    method Reconcile()
      requires Steady()
      modifies this, registry
      ensures Steady() && desired == old(desired) && byId == old(byId)
      ensures blocked == BlockedOf(State(), desired)
      ensures ClosedUp(old(State()), desired, world, State())
    {
      hide Wired, Keeps, LeavesLive, OnTrack, Alike, Faithful, IsEligible, Steady;
      ghost var before := State();
      ghost var plugins := Candidates(before, desired);
      ghost var base := ActiveIds(before);
      ghost var alike := Wired(before) && Alike(plugins, world) && Faithful(before, world);
      if alike {
        StartsOnTrack(before, desired, world);
      }
      KeepsItself(before);
      LeavesLiveItself(before);
      var progressing := true;
      while progressing
        invariant Steady() && desired == old(desired) && byId == old(byId) && Keeps(before, State())
        invariant before.active <= active && LeavesLive(before, State())
        invariant forall i :: |before.active| <= i < |active| ==> active[i].plugin.id in desired
        invariant alike ==> OnTrack(State(), desired, world, plugins, base)
        invariant alike && !progressing ==>
          (forall id :: id in desired ==> !IsReady(State(), world, id)) || Stopped(State(), desired, world)
        decreases Waiting(), progressing
      {
        progressing := false;
        var k := FindEligible();
        if k < |desired| {
          ghost var here := State();
          progressing := InstallWanted(desired[k], plugins, base, alike);
          KeepsTwice(before, here, State());
          LeavesLiveTwice(before, here, State());
          assert alike && !progressing ==> StopsAt(State(), desired, world, k);
        }
      }
      if alike {
        OnTrackIsWithin(State(), desired, world, plugins, base);
        if !Stopped(State(), desired, world) {
          EndsOnTrack(State(), desired, world, plugins, base);
        }
      }
      RefreshBlocked();
    }

    /** The first wanted plugin, in the order they were wanted, that could go live now. */
    method FindEligible() returns (k: nat)
      ensures k <= |desired|
      ensures k < |desired| ==> IsEligible(State(), desired[k])
      ensures forall j :: 0 <= j < k ==> !IsEligible(State(), desired[j])
    {
      k := 0;
      while k < |desired|
        invariant k <= |desired|
        invariant forall j :: 0 <= j < k ==> !IsEligible(State(), desired[j])
      {
        var id := desired[k];
        if ActiveIndex(active, id) < 0 && id in byId && byId[id].scope != ThreadScope
           && Missing(byId[id].inject, registry.cells.Keys) == [] {
          return;
        }
        k := k + 1;
      }
    }

    /** One install of a reconcile; reports whether it went live. */
    method InstallWanted(id: PluginId, ghost plugins: set<Plugin>, ghost base: set<PluginId>, ghost alike: bool)
      returns (live: bool)
      requires Steady() && id in desired && id in byId && byId[id].scope == HostScope && !IsActive(State(), id)
      requires alike ==> OnTrack(State(), desired, world, plugins, base)
      modifies this, registry
      ensures Steady() && desired == old(desired) && byId == old(byId) && Keeps(old(State()), State())
      ensures LeavesLive(old(State()), State())
      ensures live ==> |active| == |old(active)| + 1 && old(active) <= active && active[|old(active)|].plugin.id == id
      ensures live ==> Waiting() < old(Waiting())
      ensures !live ==> State() == old(State())
      ensures alike ==> OnTrack(State(), desired, world, plugins, base)
      ensures alike && !live ==> !IsReady(State(), world, id)
    {
      hide Keeps, LeavesLive, OnTrack, FoldActivePlugins, Alternates;
      ghost var before := State();
      var plugin := byId[id];
      if alike {
        TrackAdvances(before, desired, world, plugins, base, id, attempts, markers);
      }
      AttemptKeepsGraph(before, plugin, world(plugin, attempts), markers);
      AttemptStores(before, plugin, world(plugin, attempts), markers);
      var outcome := Install(plugin);
      live := outcome.Installed?;
      if live {
        WentLive(before, State(), id);
        assert id in old(Waiting()) && id !in Waiting();
      }
    }

    // ---- deactivating ----

    /** Close the whole cascade above one plugin, dependents first, as far as it ends. */
    method DeactivateBody(id: PluginId, ghost fuel: nat)
      requires Steady() && CascadeRun(State(), id, fuel).Some?
      modifies this`active, this`store, this`facts, this`recorded, registry
      ensures Steady() && CascadeRun(old(State()), id, fuel) == Some(State())
      decreases fuel, 0
    {
      hide Steady, Dependents, ReverseOne, ActiveIndex;
      if (id in byId && byId[id].scope == ThreadScope) || ActiveIndex(active, id) < 0 {
        return;
      }
      DeactivateEach(Dependents(State(), id, |active|), fuel - 1);
      Reverse(id);
    }

    method DeactivateEach(ids: seq<PluginId>, ghost fuel: nat)
      requires Steady() && CascadeEach(State(), ids, fuel).Some?
      modifies this`active, this`store, this`facts, this`recorded, registry
      ensures Steady() && CascadeEach(old(State()), ids, fuel) == Some(State())
      decreases fuel, 1
    {
      hide Steady, CascadeRun, CascadeEach;
      ghost var before := State();
      EachPrefixes(before, ids, fuel);
      for k := 0 to |ids|
        invariant Steady() && CascadeEach(before, ids[..k], fuel) == Some(State())
      {
        EachOneMore(before, ids, k, fuel);
        DeactivateBody(ids[k], fuel);
      }
      assert ids[..|ids|] == ids;
    }

    /** Close the live scope of a plugin that is still active and record that it went. */
    method Reverse(id: PluginId)
      requires Steady()
      modifies this`active, this`store, this`facts, this`recorded, registry
      ensures Steady() && State() == ReverseOne(old(State()), id)
    {
      hide FoldActivePlugins, Journal, StoreWithout, Alternates, DistinctIds, Recorded, Written;
      var index := ActiveIndex(active, id);
      if index < 0 {
        return;
      }
      ReverseOneTakes(State(), id);
      ReverseOneKeepsJournal(State(), id);
      ClosingKeepsMarkers(State(), id, active[index].marker, active[index].tokens, markers);
      CloseScope(id, active[index].marker, active[index].tokens);
      Emit(PluginDeactivated(id, HostScope));
    }

    // ---- the host's own operations ----

    /** Remember and want the plugin, install it, then let whatever it unblocked follow. */
    method Activate(plugin: Plugin) returns (outcome: Outcome)
      requires Steady()
      modifies this, registry
      ensures Steady() && old(active) <= active && Keeps(old(State()), State())
      ensures plugin.scope == ThreadScope ==>
        outcome == Installed([]) && State() == Remembered(old(State()), plugin) && desired == old(desired)
      ensures plugin.scope == HostScope ==>
        desired == Adding(old(desired), plugin.id) && blocked == BlockedOf(State(), desired)
      ensures var (installed, result) :=
          Attempt(Remembered(old(State()), plugin), plugin, world(plugin, old(attempts)), old(markers));
        && outcome == result && installed.active <= active
        && (plugin.scope == HostScope ==> ClosedUp(installed, desired, world, State()))
      ensures plugin.scope == HostScope && outcome.Installed? ==> IsActive(State(), plugin.id)
      ensures plugin.scope == HostScope && outcome.Installed? && !IsActive(old(State()), plugin.id) ==>
        var setup := world(plugin, old(attempts)); setup.Provided? && ItemsBy(store, plugin.id) == setup.data
    {
      hide ItemsBy, Keeps, Steady, Installing, BlockedOf, Alike, Faithful, Candidates, Least, ActiveIds;
      ghost var before := State();
      RememberKeepsGraph(before, plugin);
      Remember(plugin);
      ghost var remembered := State();
      if plugin.scope == ThreadScope {
        return Installed([]);
      }
      desired := Adding(desired, plugin.id);
      AttemptKeepsGraph(remembered, plugin, world(plugin, attempts), markers);
      AttemptActivates(remembered, plugin, world(plugin, attempts), markers);
      AttemptStores(remembered, plugin, world(plugin, attempts), markers);
      outcome := Install(plugin);
      ghost var installed := State();
      Reconcile();
      StaysActive(installed, State(), plugin.id);
      KeepsTwice(before, remembered, installed);
      KeepsTwice(before, installed, State());
    }

    method Remember(plugin: Plugin)
      requires Steady()
      modifies this`byId
      ensures Steady() && State() == Remembered(old(State()), plugin)
    {
      if plugin.id !in byId {
        byId := byId[plugin.id := plugin];
      }
    }

    /**
      No longer want the plugin, reverse it and all that leans on it, then let others follow.
      It asks only that the cascade ends, which it does exactly when no two plugins it would
      reverse lean on each other.
     */
    method Deactivate(id: PluginId) returns (ghost gone: seq<PluginId>, ghost middle: Graph)
      requires Steady() && exists fuel: nat :: CascadeRun(State(), id, fuel).Some?
      modifies this, registry
      ensures Steady() && Keeps(old(State()), State())
      ensures desired == Dropping(old(desired), id) && blocked == BlockedOf(State(), desired)
      ensures exists fuel: nat :: CascadeRun(old(State()), id, fuel) == Some(middle)
      ensures Wired(old(State())) ==> Cascaded(old(State()), id, gone, middle)
      ensures middle.active <= active && ClosedUp(middle, desired, world, State())
      ensures !IsActive(State(), id)
    {
      hide Wired, Ordered, Acyclic, Steady, Cascaded, BlockedOf, Alike, Faithful, Candidates, Least, ActiveIds,
          CascadeRun;
      ghost var before := State();
      ghost var fuel: nat :| CascadeRun(State(), id, fuel).Some?;
      SteadyRecords();
      CascadeTakesRoot(before, id, fuel);
      if Wired(before) {
        gone := CascadeIsExact(before, id, fuel);
      } else {
        gone := [];
      }
      desired := Dropping(desired, id);
      DeactivateBody(id, fuel);
      middle := State();
      Reconcile();
      InDropping(old(desired), id, id);
      StaysInactive(middle, State(), id);
    }

    lemma SteadyRecords()
      requires Steady()
      ensures DistinctIds(State().active) && Known(State())
    {
    }

    /** Put a new generation of an active plugin in the place of the old one. */
    method Cutover(plugin: Plugin) returns (outcome: Outcome)
      requires Steady() && IsActive(State(), plugin.id) && plugin.scope == HostScope
      modifies this, registry
      ensures Steady() && desired == old(desired)
      ensures (State(), outcome) == CutoverAttempt(old(State()), plugin, world(plugin, old(attempts)), old(markers))
    {
      var missing := Missing(plugin.inject, registry.cells.Keys);
      if missing != [] {
        blocked := blocked[plugin.id := missing];
        return Unmet(missing);
      }
      var setup := world(plugin, attempts);
      attempts := attempts + 1;
      if setup.SetupFails? {
        return SetupFailed;
      }
      outcome := SwapGeneration(plugin, setup.tokens, setup.data);
    }

    method SwapGeneration(plugin: Plugin, tokens: seq<TokenId>, data: seq<Contribution>) returns (outcome: Outcome)
      requires Steady() && IsActive(State(), plugin.id) && plugin.scope == HostScope
      modifies this, registry
      ensures Steady() && desired == old(desired) && attempts == old(attempts)
      ensures var taken := Taken(old(registry.cells), tokens, plugin.id);
        if taken.Some? then
          && State() == RefusingCutover(old(State()), plugin, tokens, old(markers))
          && outcome == DuplicateProvider(taken.value)
        else State() == CuttingOver(old(State()), plugin, tokens, data, old(markers)) && outcome == Installed(tokens)
    {
      hide FoldActivePlugins, Providing, Taken, StoreWithout, ActiveIndex, Closing, Alternates, DistinctIds,
          Recorded, Written;
      var index := ActiveIndex(active, plugin.id);
      var previous := active[index];
      var marker := markers;
      RecordingKeepsRecords(State(), plugin, tokens, marker);
      markers := markers + 1;
      active := active[index := Activation(plugin, tokens, marker)];
      byId := byId[plugin.id := plugin];
      blocked := blocked - {plugin.id};
      ReplacedIndex(old(active), active[index], plugin.id);
      var taken := PublishServices(plugin.id, tokens);
      if taken.Some? {
        ClosingKeepsMarkers(State(), plugin.id, marker, tokens, markers);
        ClosingKeepsRecords(State(), plugin.id, marker, tokens);
        CloseScope(plugin.id, marker, tokens);
        return DuplicateProvider(taken.value);
      }
      DropTokens(plugin.id, active[index].tokens, tokens);
      ReplaceData(plugin.id, data);
      StaleScope(State(), plugin.id, previous.marker, previous.tokens);
      CloseScope(plugin.id, previous.marker, previous.tokens);
      outcome := Installed(tokens);
    }

    /** Remove the tokens recorded for a plugin that its next generation does not provide. */
    method DropTokens(id: PluginId, recordedTokens: seq<TokenId>, next: seq<TokenId>)
      modifies registry
      ensures registry.cells
           == map t | t in old(registry.cells) && !(t in recordedTokens && t !in next && old(registry.cells)[t] == id)
                :: old(registry.cells)[t]
    {
      assert registry.cells == map t | t in registry.cells :: registry.cells[t];
      for k := 0 to |recordedTokens|
        invariant registry.cells
               == map t | t in old(registry.cells)
                   && !(t in recordedTokens[..k] && t !in next && old(registry.cells)[t] == id)
                    :: old(registry.cells)[t]
      {
        if recordedTokens[k] !in next {
          registry.Remove(recordedTokens[k], id);
        }
      }
      assert recordedTokens[..|recordedTokens|] == recordedTokens;
    }

    /**
      Replace a plugin: cut over when it is active, install it when it is not.  The graph
      stays wired if it was and the replacement is safe, and then stays in order, or free of
      circles, if it was and the new injects allow it.
     */
    method Replace(plugin: Plugin) returns (outcome: Outcome)
      requires Steady()
      modifies this, registry
      ensures Steady() && blocked == BlockedOf(State(), desired)
      ensures desired == if plugin.scope == HostScope then Adding(old(desired), plugin.id) else old(desired)
      ensures var (replaced, result) :=
          ReplaceAttempt(old(State()), plugin, world(plugin, old(attempts)), old(markers));
        outcome == result && replaced.active <= active && ClosedUp(replaced, desired, world, State())
      ensures plugin.scope == HostScope && outcome.Installed? ==>
        var setup := world(plugin, old(attempts));
        IsActive(State(), plugin.id) && setup.Provided? && ItemsBy(store, plugin.id) == setup.data
      ensures var (before, setup) := (old(State()), world(plugin, old(attempts)));
        Wired(before) && (plugin.scope == HostScope && IsActive(before, plugin.id)
                          ==> SafeToReplace(before, plugin, setup))
        ==>
          && Valid()
          && (Ordered(before) && (Publishes(before, plugin, setup) ==> KeepsPlace(before, plugin)) ==> Ordered(State()))
          && (Acyclic(before) && (Publishes(before, plugin, setup) ==> TiesNoCircle(before, plugin))
              ==> Acyclic(State()))
    {
      hide Wired, Steady, Installing, BlockedOf, Alike, Faithful, Candidates, Least, ActiveIds, CutoverAttempt,
        SafeToReplace, ActiveIndex, ItemsBy, DistinctIds, Ordered, Acyclic, Publishes, KeepsPlace, TiesNoCircle;
      ghost var before := State();
      if Wired(before) {
        ReplaceKeepsWiring(before, plugin, world(plugin, attempts), markers);
        ReplaceKeepsShape(before, plugin, world(plugin, attempts), markers);
      }
      if plugin.scope == HostScope {
        SteadyRecords();
        ReplaceStores(before, plugin, world(plugin, attempts), markers);
        desired := Adding(desired, plugin.id);
        if ActiveIndex(active, plugin.id) >= 0 {
          outcome := Cutover(plugin);
        } else {
          outcome := Install(plugin);
        }
      } else {
        outcome := Installed([]);
      }
      Reconcile();
    }
  }
}
