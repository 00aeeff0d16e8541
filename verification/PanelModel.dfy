/** The app's outlets: slots filled from the host's snapshot, and panel tabs over one shared bundle. */
module PanelModel {
  import opened Primitives
  import opened UiSlots

  type SessionId = string
  /** What a definition keeps of its own; the app only carries it. */
  type Child = string

  /** Titles are numbered from the model's counter. */
  datatype Tab = Tab(sessionId: SessionId, projectId: Option<string>, number: nat, wsUrl: Option<string>)

  datatype Outlet =
    | Empty
    | Loading(plugin: PluginId, defId: string, slot: SlotId, jsUrl: string, address: string)
    | Ready(plugin: PluginId, defId: string, slot: SlotId, address: string, child: Child)
    | Failed(plugin: PluginId, defId: string, slot: SlotId, reason: string)

  datatype Bundle = Bundle(plugin: PluginId, defId: string, address: string, jsUrl: string, sdkMajor: nat)

  datatype Model = Model(
    composerUi: Outlet,
    conversationUi: Outlet,
    tabs: seq<Tab>,
    active: Option<SessionId>,
    outlets: map<SessionId, Outlet>,
    bundle: Option<Bundle>,
    creating: bool,
    error: Option<string>,
    counter: nat,
    selected: Option<ThreadId>)

  /** The app as it opens on a route, which may name a thread. */
  function Opening(selected: Option<ThreadId>): Model {
    Model(Empty, Empty, [], None, map[], None, false, None, 0, selected)
  }

  /** What a tab's outlet is told: its tab, and the thread the route names. */
  datatype Props = Props(tab: Tab, selected: Option<ThreadId>)

  datatype DefKey = DefKey(plugin: PluginId, defId: string, address: string)

  /** Loaded code: a fresh child, what it makes of its props, and what it makes of a message. */
  datatype Def = Def(
    init: Child,
    absorbComposer: (Child, Option<ThreadId>) -> Child,
    absorbTab: (Child, Props) -> Child,
    update: (Child, string) -> Child)

  type Defs = map<DefKey, Def>

  datatype Snapshot = Snapshot(assignments: seq<Assignment>, bundles: seq<Bundle>)

  datatype Message =
    | ChangedUrl(selected: Option<ThreadId>)
    | UiSnapshotArrived(snapshot: Snapshot)
    | BundleReady(plugin: PluginId, defId: string, slot: SlotId, address: string)
    | BundleFailed(plugin: PluginId, defId: string, slot: SlotId, reason: string)
    | ClickedNewTerminal(project: Option<string>)
    | PtySessionCreated(sessionId: SessionId, projectId: Option<string>, wsUrl: Option<string>)
    | PtySessionFailed(reason: string)
    | PtySessionCloseFailed(reason: string)
    | ClickedPanelTab(sessionId: SessionId)
    | ClickedClosePanelTab(sessionId: SessionId)
    | GotPanelUi(sessionId: SessionId, message: string)

  datatype Command =
    | LoadBundle(plugin: PluginId, defId: string, slot: SlotId, jsUrl: string, address: string, sdkMajor: nat)
    | CreatePtySession(project: Option<string>)
    | DeletePtySession(sessionId: SessionId)

  // ---- tabs ----

  predicate HasTab(tabs: seq<Tab>, id: SessionId) {
    exists k :: 0 <= k < |tabs| && tabs[k].sessionId == id
  }

  function WithoutTab(tabs: seq<Tab>, id: SessionId): seq<Tab> {
    if tabs == [] then []
    else WithoutTab(tabs[..|tabs| - 1], id) + if tabs[|tabs| - 1].sessionId == id then [] else [tabs[|tabs| - 1]]
  }

  function KeyOf(b: Bundle): DefKey {
    DefKey(b.plugin, b.defId, b.address)
  }

  /** An outlet of its own for every tab that had none. */
  function Added(tabs: seq<Tab>, outlets: map<SessionId, Outlet>, b: Bundle, def: Def, selected: Option<ThreadId>)
    : map<SessionId, Outlet>
  {
    if tabs == [] then map[]
    else
      var tab := tabs[|tabs| - 1];
      var before := Added(tabs[..|tabs| - 1], outlets, b, def, selected);
      if tab.sessionId in outlets then before
      else before[tab.sessionId :=
                    Ready(b.plugin, b.defId, Panel, b.address, def.absorbTab(def.init, Props(tab, selected)))]
  }

  function MountPanelBundle(m: Model, defs: Defs): Model {
    if m.bundle.None? || KeyOf(m.bundle.value) !in defs then m
    else
      var def := defs[KeyOf(m.bundle.value)];
      m.(outlets := m.outlets + Added(m.tabs, m.outlets, m.bundle.value, def, m.selected))
  }

  method MountTabs(m: Model, defs: Defs) returns (mounted: Model)
    ensures mounted == MountPanelBundle(m, defs)
  {
    if m.bundle.None? || KeyOf(m.bundle.value) !in defs {
      return m;
    }
    var b, def := m.bundle.value, defs[KeyOf(m.bundle.value)];
    var added: map<SessionId, Outlet> := map[];
    for k := 0 to |m.tabs|
      invariant added == Added(m.tabs[..k], m.outlets, b, def, m.selected)
    {
      assert m.tabs[..k + 1][..k] == m.tabs[..k];
      var tab := m.tabs[k];
      if tab.sessionId !in m.outlets {
        var child := def.absorbTab(def.init, Props(tab, m.selected));
        added := added[tab.sessionId := Ready(b.plugin, b.defId, Panel, b.address, child)];
      }
    }
    assert m.tabs[..|m.tabs|] == m.tabs;
    mounted := m.(outlets := m.outlets + added);
  }

  /** Fresh props for every ready outlet of a tab. */
  function Refreshed(tabs: seq<Tab>, outlets: map<SessionId, Outlet>, def: Def, selected: Option<ThreadId>)
    : map<SessionId, Outlet>
  {
    if tabs == [] then map[]
    else
      var tab := tabs[|tabs| - 1];
      var before := Refreshed(tabs[..|tabs| - 1], outlets, def, selected);
      if tab.sessionId in outlets && outlets[tab.sessionId].Ready?
      then before[tab.sessionId := Absorbing(outlets[tab.sessionId], def, Props(tab, selected))]
      else before
  }

  function Absorbing(outlet: Outlet, def: Def, props: Props): Outlet
    requires outlet.Ready?
  {
    outlet.(child := def.absorbTab(outlet.child, props))
  }

  method RefreshTabs(m: Model, defs: Defs) returns (synced: Model)
    ensures synced == ResyncPanelProps(m, defs)
  {
    if m.bundle.None? || KeyOf(m.bundle.value) !in defs {
      return m;
    }
    var def := defs[KeyOf(m.bundle.value)];
    var refreshed: map<SessionId, Outlet> := map[];
    for k := 0 to |m.tabs|
      invariant refreshed == Refreshed(m.tabs[..k], m.outlets, def, m.selected)
    {
      assert m.tabs[..k + 1][..k] == m.tabs[..k];
      var tab := m.tabs[k];
      if tab.sessionId in m.outlets && m.outlets[tab.sessionId].Ready? {
        var outlet := m.outlets[tab.sessionId];
        refreshed := refreshed[tab.sessionId := outlet.(child := def.absorbTab(outlet.child, Props(tab, m.selected)))];
      }
    }
    assert m.tabs[..|m.tabs|] == m.tabs;
    synced := m.(outlets := m.outlets + refreshed);
  }

  function ResyncPanelProps(m: Model, defs: Defs): Model {
    if m.bundle.None? || KeyOf(m.bundle.value) !in defs then m
    else m.(outlets := m.outlets + Refreshed(m.tabs, m.outlets, defs[KeyOf(m.bundle.value)], m.selected))
  }

  function SyncComposer(m: Model, defs: Defs): Model {
    match m.composerUi
    case Ready(plugin, defId, _, address, child) =>
      var key := DefKey(plugin, defId, address);
      if key in defs then m.(composerUi := m.composerUi.(child := defs[key].absorbComposer(child, m.selected))) else m
    case _ => m
  }

  // ---- reconciling with a snapshot ----

  function AssignmentFor(assignments: seq<Assignment>, slot: SlotId): Option<Assignment> {
    if assignments == [] then None
    else if assignments[0].slot == slot then Some(assignments[0])
    else AssignmentFor(assignments[1..], slot)
  }

  function BundleFor(bundles: seq<Bundle>, a: Assignment): Option<Bundle> {
    if bundles == [] then None
    else if bundles[0].plugin == a.plugin && bundles[0].defId == a.defId then Some(bundles[0])
    else BundleFor(bundles[1..], a)
  }

  /** The bundle a snapshot gives a slot, when it assigns the slot and carries the code. */
  function Offered(s: Snapshot, slot: SlotId): Option<Bundle> {
    var a := AssignmentFor(s.assignments, slot);
    if a.None? then None else BundleFor(s.bundles, a.value)
  }

  function OutletOf(m: Model, slot: SlotId): Outlet {
    if slot.Composer? then m.composerUi else m.conversationUi
  }

  function SetOutlet(m: Model, slot: SlotId, outlet: Outlet): Model {
    if slot.Composer? then m.(composerUi := outlet) else m.(conversationUi := outlet)
  }

  /** The outlet already shows, or waits for, this generation. */
  predicate Holds(outlet: Outlet, b: Bundle) {
    && (outlet.Ready? || outlet.Loading?)
    && outlet.plugin == b.plugin && outlet.defId == b.defId && outlet.address == b.address
  }

  function ReconcileSlot(m: Model, slot: SlotId, offered: Option<Bundle>, defs: Defs): (Model, seq<Command>) {
    var outlet := OutletOf(m, slot);
    if offered.None? then (if outlet.Empty? then m else SetOutlet(m, slot, Empty), [])
    else
      var b := offered.value;
      if Holds(outlet, b) then (m, [])
      else if KeyOf(b) in defs then
        var mounted := SetOutlet(m, slot, Ready(b.plugin, b.defId, slot, b.address, defs[KeyOf(b)].init));
        (if slot.Composer? then SyncComposer(mounted, defs) else mounted, [])
      else
        (SetOutlet(m, slot, Loading(b.plugin, b.defId, slot, b.jsUrl, b.address)),
         [LoadBundle(b.plugin, b.defId, slot, b.jsUrl, b.address, b.sdkMajor)])
  }

  /** A new generation drops every tab's outlet before its own are mounted. */
  function ReconcilePanel(m: Model, offered: Option<Bundle>, defs: Defs): (Model, seq<Command>) {
    if offered.None? then (if m.bundle.None? then m else m.(bundle := None, outlets := map[]), [])
    else
      var b := offered.value;
      if m.bundle.Some? && KeyOf(m.bundle.value) == KeyOf(b) then (m, [])
      else
        var withBundle := m.(bundle := Some(b), outlets := map[]);
        if KeyOf(b) in defs then (MountPanelBundle(withBundle, defs), [])
        else (withBundle, [LoadBundle(b.plugin, b.defId, Panel, b.jsUrl, b.address, b.sdkMajor)])
  }

  function ReconcileAll(m: Model, s: Snapshot, defs: Defs): (Model, seq<Command>) {
    var (first, firstCommands) := ReconcileSlot(m, Composer, Offered(s, Composer), defs);
    var (second, secondCommands) := ReconcileSlot(first, Conversation, Offered(s, Conversation), defs);
    var (third, thirdCommands) := ReconcilePanel(second, Offered(s, Panel), defs);
    (third, firstCommands + secondCommands + thirdCommands)
  }

  // ---- the update function, panel and bundle arms ----

  function OnBundleReady(m: Model, plugin: PluginId, defId: string, slot: SlotId, address: string, defs: Defs): Model {
    var key := DefKey(plugin, defId, address);
    if slot.Panel? then
      if m.bundle.None? || KeyOf(m.bundle.value) != key then m else MountPanelBundle(m, defs)
    else if !slot.Composer? && !slot.Conversation? then m
    else
      var outlet := OutletOf(m, slot);
      if !outlet.Loading? || DefKey(outlet.plugin, outlet.defId, outlet.address) != key || key !in defs then m
      else
        var mounted := SetOutlet(m, slot, Ready(plugin, defId, slot, address, defs[key].init));
        if slot.Composer? then SyncComposer(mounted, defs) else mounted
  }

  function OnBundleFailed(m: Model, plugin: PluginId, defId: string, slot: SlotId, reason: string): Model {
    if slot.Panel? then
      if m.bundle.None? || m.bundle.value.plugin != plugin || m.bundle.value.defId != defId then m
      else m.(error := Some("terminal failed: " + reason))
    else if !slot.Composer? && !slot.Conversation? then m
    else
      var outlet := OutletOf(m, slot);
      if !outlet.Loading? || outlet.plugin != plugin || outlet.defId != defId then m
      else SetOutlet(m, slot, Failed(plugin, defId, slot, reason))
  }

  function OnSessionCreated(m: Model, id: SessionId, project: Option<string>, wsUrl: Option<string>,
                            defs: Defs): Model {
    if HasTab(m.tabs, id) then m.(creating := false, active := Some(id))
    else
      MountPanelBundle(
        m.(creating := false, counter := m.counter + 1, tabs := m.tabs + [Tab(id, project, m.counter + 1, wsUrl)],
           active := Some(id), error := None),
        defs)
  }

  function OnCloseTab(m: Model, id: SessionId): Model {
    var tabs := WithoutTab(m.tabs, id);
    m.(tabs := tabs,
       outlets := m.outlets - {id},
       active := if m.active != Some(id) then m.active
                 else if tabs == [] then None
                 else Some(tabs[|tabs| - 1].sessionId))
  }

  function OnPanelUi(m: Model, id: SessionId, message: string, defs: Defs): Model {
    if id !in m.outlets || !m.outlets[id].Ready? then m
    else
      var outlet := m.outlets[id];
      var key := DefKey(outlet.plugin, outlet.defId, outlet.address);
      if key !in defs then m
      else m.(outlets := m.outlets[id := outlet.(child := defs[key].update(outlet.child, message))])
  }

  function Update(m: Model, message: Message, defs: Defs): (Model, seq<Command>) {
    match message
    case ChangedUrl(selected) => (SyncComposer(ResyncPanelProps(m.(selected := selected), defs), defs), [])
    case UiSnapshotArrived(s) => ReconcileAll(m, s, defs)
    case BundleReady(plugin, defId, slot, address) => (OnBundleReady(m, plugin, defId, slot, address, defs), [])
    case BundleFailed(plugin, defId, slot, reason) => (OnBundleFailed(m, plugin, defId, slot, reason), [])
    case ClickedNewTerminal(project) =>
      if m.creating then (m, []) else (m.(creating := true, error := None), [CreatePtySession(project)])
    case PtySessionCreated(id, project, wsUrl) => (OnSessionCreated(m, id, project, wsUrl, defs), [])
    case PtySessionFailed(reason) => (m.(creating := false, error := Some(reason)), [])
    case PtySessionCloseFailed(reason) => (m.(error := Some(reason)), [])
    case ClickedPanelTab(id) => (if HasTab(m.tabs, id) then m.(active := Some(id)) else m, [])
    case ClickedClosePanelTab(id) =>
      if HasTab(m.tabs, id) then (OnCloseTab(m, id), [DeletePtySession(id)]) else (m, [])
    case GotPanelUi(id, message) => (OnPanelUi(m, id, message, defs), [])
  }

  // ---- what every run keeps ----

  ghost predicate TabsDistinct(tabs: seq<Tab>) {
    forall i, j :: 0 <= i < j < |tabs| ==> tabs[i].sessionId != tabs[j].sessionId
  }

  /** Titles are never given twice: numbers grow with the tabs, up to the counter. */
  ghost predicate Numbered(tabs: seq<Tab>, counter: nat) {
    && (forall i, j :: 0 <= i < j < |tabs| ==> tabs[i].number < tabs[j].number)
    && (forall i :: 0 <= i < |tabs| ==> 0 < tabs[i].number <= counter)
  }

  /** Each outlet belongs to an open tab and shows the current generation. */
  ghost predicate OutletsCurrent(m: Model) {
    forall id :: id in m.outlets ==>
      && HasTab(m.tabs, id) && m.bundle.Some? && m.outlets[id].Ready?
      && DefKey(m.outlets[id].plugin, m.outlets[id].defId, m.outlets[id].address) == KeyOf(m.bundle.value)
  }

  ghost predicate Consistent(m: Model) {
    && TabsDistinct(m.tabs) && Numbered(m.tabs, m.counter) && OutletsCurrent(m)
    && (m.active.None? <==> m.tabs == [])
    && (m.active.Some? ==> HasTab(m.tabs, m.active.value))
  }

  lemma {:induction false} InAdded(tabs: seq<Tab>, outlets: map<SessionId, Outlet>, b: Bundle, def: Def,
                                   selected: Option<ThreadId>, id: SessionId)
    ensures var added := Added(tabs, outlets, b, def, selected);
      && (id in added <==> id !in outlets && HasTab(tabs, id))
      && (id in added ==> added[id].Ready? && DefKey(added[id].plugin, added[id].defId, added[id].address) == KeyOf(b))
  {
    if tabs != [] {
      var n := |tabs| - 1;
      InAdded(tabs[..n], outlets, b, def, selected, id);
      HasTabLast(tabs, id);
    }
  }

  lemma HasTabLast(tabs: seq<Tab>, id: SessionId)
    requires tabs != []
    ensures HasTab(tabs, id) <==> HasTab(tabs[..|tabs| - 1], id) || tabs[|tabs| - 1].sessionId == id
  {
  }

  lemma {:induction false} InRefreshed(tabs: seq<Tab>, outlets: map<SessionId, Outlet>, def: Def,
                                       selected: Option<ThreadId>, id: SessionId)
    ensures var refreshed := Refreshed(tabs, outlets, def, selected);
      && (id in refreshed <==> id in outlets && outlets[id].Ready? && HasTab(tabs, id))
      && (id in refreshed ==> exists props :: refreshed[id] == Absorbing(outlets[id], def, props))
  {
    if tabs != [] {
      var n := |tabs| - 1;
      InRefreshed(tabs[..n], outlets, def, selected, id);
      HasTabLast(tabs, id);
    }
  }

  lemma {:induction false} RefreshedAt(tabs: seq<Tab>, outlets: map<SessionId, Outlet>, def: Def,
                                       selected: Option<ThreadId>, k: nat)
    requires TabsDistinct(tabs) && k < |tabs| && tabs[k].sessionId in outlets && outlets[tabs[k].sessionId].Ready?
    ensures var id := tabs[k].sessionId; var refreshed := Refreshed(tabs, outlets, def, selected);
      id in refreshed && refreshed[id] == Absorbing(outlets[id], def, Props(tabs[k], selected))
  {
    var n := |tabs| - 1;
    if k < n {
      RefreshedAt(tabs[..n], outlets, def, selected, k);
      assert tabs[..n][k] == tabs[k];
    }
  }

  /**
    Going to another thread tells each mounted tab so, once, together with the tab it is, and
    changes nothing else of the panel.
   */
  lemma ChangedUrlReachesTabs(m: Model, selected: Option<ThreadId>, defs: Defs, k: nat)
    requires Consistent(m) && k < |m.tabs| && m.tabs[k].sessionId in m.outlets
    requires m.bundle.Some? && KeyOf(m.bundle.value) in defs
    ensures var after := Update(m, ChangedUrl(selected), defs).0; var id := m.tabs[k].sessionId;
      && after.selected == selected && after.tabs == m.tabs && after.active == m.active && after.bundle == m.bundle
      && after.outlets.Keys == m.outlets.Keys
      && after.outlets[id] == Absorbing(m.outlets[id], defs[KeyOf(m.bundle.value)], Props(m.tabs[k], selected))
  {
    hide Refreshed, HasTab, TabsDistinct, Numbered;
    var def := defs[KeyOf(m.bundle.value)];
    RefreshedAt(m.tabs, m.outlets, def, selected, k);
    forall id ensures id in Refreshed(m.tabs, m.outlets, def, selected) ==> id in m.outlets {
      InRefreshed(m.tabs, m.outlets, def, selected, id);
    }
  }

  /** And it tells the composer's outlet, when that is mounted from loaded code. */
  lemma ChangedUrlReachesComposer(m: Model, selected: Option<ThreadId>, defs: Defs)
    ensures var (after, commands) := Update(m, ChangedUrl(selected), defs);
      && commands == [] && after.conversationUi == m.conversationUi
      && if m.composerUi.Ready? && DefKey(m.composerUi.plugin, m.composerUi.defId, m.composerUi.address) in defs then
           var def := defs[DefKey(m.composerUi.plugin, m.composerUi.defId, m.composerUi.address)];
           after.composerUi == m.composerUi.(child := def.absorbComposer(m.composerUi.child, selected))
         else after.composerUi == m.composerUi
  {
    hide Refreshed;
  }

  /** Mounting gives every open tab an outlet and touches none that was there. */
  lemma MountFillsTabs(m: Model, defs: Defs, id: SessionId)
    requires m.bundle.Some? && KeyOf(m.bundle.value) in defs
    ensures var after := MountPanelBundle(m, defs);
      && (id in after.outlets <==> id in m.outlets || HasTab(m.tabs, id))
      && (id in m.outlets ==> after.outlets[id] == m.outlets[id])
  {
    InAdded(m.tabs, m.outlets, m.bundle.value, defs[KeyOf(m.bundle.value)], m.selected, id);
  }

  lemma MountKeepsConsistent(m: Model, defs: Defs)
    requires Consistent(m)
    ensures Consistent(MountPanelBundle(m, defs))
  {
    hide Added, TabsDistinct, Numbered;
    if m.bundle.Some? && KeyOf(m.bundle.value) in defs {
      forall id { InAdded(m.tabs, m.outlets, m.bundle.value, defs[KeyOf(m.bundle.value)], m.selected, id); }
    }
  }

  lemma ResyncKeepsConsistent(m: Model, defs: Defs)
    requires Consistent(m)
    ensures Consistent(ResyncPanelProps(m, defs))
  {
    hide Refreshed, TabsDistinct, Numbered;
    if m.bundle.Some? && KeyOf(m.bundle.value) in defs {
      forall id { InRefreshed(m.tabs, m.outlets, defs[KeyOf(m.bundle.value)], m.selected, id); }
    }
  }

  lemma {:induction false} InWithoutTab(tabs: seq<Tab>, id: SessionId, t: Tab)
    ensures t in WithoutTab(tabs, id) <==> t in tabs && t.sessionId != id
  {
    if tabs != [] {
      InWithoutTab(tabs[..|tabs| - 1], id, t);
      assert tabs == tabs[..|tabs| - 1] + [tabs[|tabs| - 1]];
    }
  }

  lemma {:induction false} ClosedTabs(tabs: seq<Tab>, id: SessionId, counter: nat)
    requires TabsDistinct(tabs) && Numbered(tabs, counter)
    ensures TabsDistinct(WithoutTab(tabs, id)) && Numbered(WithoutTab(tabs, id), counter)
  {
    if tabs != [] {
      var n := |tabs| - 1;
      var rest := WithoutTab(tabs[..n], id);
      ClosedTabs(tabs[..n], id, counter);
      forall t | t in rest ensures t.number < tabs[n].number && t.sessionId != tabs[n].sessionId {
        InWithoutTab(tabs[..n], id, t);
        var k :| 0 <= k < n && tabs[..n][k] == t;
        assert tabs[k] == t;
      }
      OneMoreTab(rest, tabs[n], counter);
    }
  }

  lemma OneMoreTab(rest: seq<Tab>, tab: Tab, counter: nat)
    requires TabsDistinct(rest) && Numbered(rest, counter) && 0 < tab.number <= counter
    requires forall t :: t in rest ==> t.number < tab.number && t.sessionId != tab.sessionId
    ensures TabsDistinct(rest + [tab]) && Numbered(rest + [tab], counter)
  {
  }

  lemma HasTabIn(tabs: seq<Tab>, id: SessionId)
    ensures HasTab(tabs, id) <==> exists t :: t in tabs && t.sessionId == id
  {
  }

  lemma CloseKeepsConsistent(m: Model, id: SessionId)
    requires Consistent(m) && HasTab(m.tabs, id)
    ensures Consistent(OnCloseTab(m, id))
  {
    hide WithoutTab, HasTab, TabsDistinct, Numbered;
    ClosedTabs(m.tabs, id, m.counter);
    ShownTabExists(m, id);
    var after := OnCloseTab(m, id);
    forall x ensures HasTab(after.tabs, x) <==> HasTab(m.tabs, x) && x != id {
      HasTabIn(m.tabs, x);
      HasTabIn(after.tabs, x);
      forall t { InWithoutTab(m.tabs, id, t); }
    }
    if after.tabs != [] {
      HasTabIn(after.tabs, after.tabs[|after.tabs| - 1].sessionId);
    } else if m.active != Some(id) {
      HasTabIn(after.tabs, m.active.value);
    }
  }

  lemma CreateKeepsConsistent(m: Model, id: SessionId, project: Option<string>, wsUrl: Option<string>, defs: Defs)
    requires Consistent(m)
    ensures Consistent(OnSessionCreated(m, id, project, wsUrl, defs))
  {
    hide MountPanelBundle, TabsDistinct, Numbered, HasTab;
    if !HasTab(m.tabs, id) {
      var tab := Tab(id, project, m.counter + 1, wsUrl);
      var withTab := m.(creating := false, counter := m.counter + 1, tabs := m.tabs + [tab],
                        active := Some(id), error := None);
      assert withTab.tabs[..|m.tabs|] == m.tabs;
      OpenedTab(m.tabs, tab, m.counter);
      forall x ensures HasTab(withTab.tabs, x) <==> HasTab(m.tabs, x) || x == id {
        HasTabLast(withTab.tabs, x);
      }
      MountKeepsConsistent(withTab, defs);
    } else {
      ShownTabExists(m, id);
    }
  }

  lemma OpenedTab(tabs: seq<Tab>, tab: Tab, counter: nat)
    requires TabsDistinct(tabs) && Numbered(tabs, counter) && !HasTab(tabs, tab.sessionId) && tab.number == counter + 1
    ensures TabsDistinct(tabs + [tab]) && Numbered(tabs + [tab], counter + 1)
  {
  }

  lemma ReconcileKeepsConsistent(m: Model, s: Snapshot, defs: Defs)
    requires Consistent(m)
    ensures Consistent(ReconcileAll(m, s, defs).0)
  {
    hide MountPanelBundle, Offered, TabsDistinct, Numbered, HasTab;
    var first := ReconcileSlot(m, Composer, Offered(s, Composer), defs).0;
    var second := ReconcileSlot(first, Conversation, Offered(s, Conversation), defs).0;
    SlotsLeavePanel(m, Composer, Offered(s, Composer), defs);
    SlotsLeavePanel(first, Conversation, Offered(s, Conversation), defs);
    assert Consistent(second);
    var offered := Offered(s, Panel);
    if offered.Some? && !(second.bundle.Some? && KeyOf(second.bundle.value) == KeyOf(offered.value)) {
      MountKeepsConsistent(second.(bundle := offered, outlets := map[]), defs);
    }
  }

  /** Reconciling a slot changes that slot's outlet and nothing of the panel. */
  lemma SlotsLeavePanel(m: Model, slot: SlotId, offered: Option<Bundle>, defs: Defs)
    ensures var after := ReconcileSlot(m, slot, offered, defs).0;
      after == m.(composerUi := after.composerUi, conversationUi := after.conversationUi)
    ensures !slot.Composer? ==> ReconcileSlot(m, slot, offered, defs).0.composerUi == m.composerUi
    ensures slot.Composer? ==> ReconcileSlot(m, slot, offered, defs).0.conversationUi == m.conversationUi
  {
  }

  lemma UpdateKeepsConsistent(m: Model, message: Message, defs: Defs)
    requires Consistent(m)
    ensures Consistent(Update(m, message, defs).0)
  {
    hide MountPanelBundle, ResyncPanelProps, OnCloseTab, OnSessionCreated, ReconcileAll, TabsDistinct, Numbered, HasTab;
    match message {
      case ChangedUrl(selected) => ResyncKeepsConsistent(m.(selected := selected), defs);
      case UiSnapshotArrived(s) => ReconcileKeepsConsistent(m, s, defs);
      case BundleReady(plugin, defId, slot, address) => MountKeepsConsistent(m, defs);
      case PtySessionCreated(id, project, wsUrl) => CreateKeepsConsistent(m, id, project, wsUrl, defs);
      case ClickedPanelTab(id) => if HasTab(m.tabs, id) { ShownTabExists(m, id); }
      case ClickedClosePanelTab(id) => if HasTab(m.tabs, id) { CloseKeepsConsistent(m, id); }
      case _ =>
    }
  }

  lemma ShownTabExists(m: Model, id: SessionId)
    requires HasTab(m.tabs, id)
    ensures m.tabs != []
  {
  }

  /** What the app that opened on a route is after these messages, each met with the code loaded by then. */
  function After(route: Option<ThreadId>, steps: seq<(Message, Defs)>): Model {
    if steps == [] then Opening(route)
    else
      var (message, defs) := steps[|steps| - 1];
      Update(After(route, steps[..|steps| - 1]), message, defs).0
  }

  /**
    Over all message sequences tab ids stay unique, the active tab is none exactly when no
    tab is open and otherwise names one, and every panel outlet belongs to an open tab and
    shows the current bundle's generation.
   */
  lemma {:induction false} RunsStayConsistent(route: Option<ThreadId>, steps: seq<(Message, Defs)>)
    ensures Consistent(After(route, steps))
  {
    hide Consistent, Update;
    if steps == [] {
      OpeningIsConsistent(route);
    } else {
      var n := |steps| - 1;
      RunsStayConsistent(route, steps[..n]);
      UpdateKeepsConsistent(After(route, steps[..n]), steps[n].0, steps[n].1);
    }
  }

  lemma OpeningIsConsistent(route: Option<ThreadId>)
    ensures Consistent(Opening(route))
  {
  }

  /**
    Closing a tab removes it and its outlet and no other; the tab shown stays, or is the last
    one left when the shown one was closed.
   */
  lemma ClosingShowsLast(m: Model, id: SessionId, defs: Defs)
    requires Consistent(m) && HasTab(m.tabs, id)
    ensures var after := Update(m, ClickedClosePanelTab(id), defs).0;
      && (forall t :: t in after.tabs <==> t in m.tabs && t.sessionId != id)
      && (forall x :: x in after.outlets <==> x in m.outlets && x != id)
      && (forall x :: x in after.outlets ==> after.outlets[x] == m.outlets[x])
      && (m.active != Some(id) ==> after.active == m.active)
      && (m.active == Some(id) && after.tabs != [] ==>
            exists t :: t in after.tabs && after.active == Some(t.sessionId)
                     && forall u :: u in after.tabs ==> u.number <= t.number)
  {
    hide WithoutTab, HasTab, TabsDistinct;
    var after := OnCloseTab(m, id);
    forall t { InWithoutTab(m.tabs, id, t); }
    ClosedTabs(m.tabs, id, m.counter);
    if m.active == Some(id) && after.tabs != [] {
      var t := after.tabs[|after.tabs| - 1];
      assert t in after.tabs;
      forall u | u in after.tabs ensures u.number <= t.number {
        var k :| 0 <= k < |after.tabs| && after.tabs[k] == u;
      }
    }
  }

  /** A new session opens the next numbered tab, shown at once; a known one is only shown. */
  lemma CreatingShowsTab(m: Model, id: SessionId, project: Option<string>, wsUrl: Option<string>, defs: Defs)
    ensures var (after, commands) := Update(m, PtySessionCreated(id, project, wsUrl), defs);
      && commands == [] && after.active == Some(id) && !after.creating
      && after.tabs == (if HasTab(m.tabs, id) then m.tabs else m.tabs + [Tab(id, project, m.counter + 1, wsUrl)])
      && (forall x :: x in m.outlets ==> x in after.outlets && after.outlets[x] == m.outlets[x])
      && (!HasTab(m.tabs, id) && m.bundle.Some? && KeyOf(m.bundle.value) in defs ==> id in after.outlets)
  {
    if !HasTab(m.tabs, id) {
      var tab := Tab(id, project, m.counter + 1, wsUrl);
      var withTab := m.(creating := false, counter := m.counter + 1, tabs := m.tabs + [tab],
                        active := Some(id), error := None);
      assert withTab.tabs[|m.tabs|].sessionId == id;
      if m.bundle.Some? && KeyOf(m.bundle.value) in defs {
        forall x { MountFillsTabs(withTab, defs, x); }
      }
    }
  }

  /** Nothing but the outlet of this slot differs. */
  predicate SameBesides(m: Model, after: Model, slot: SlotId) {
    && (forall other :: IsExclusive(other) && other != slot ==> OutletOf(after, other) == OutletOf(m, other))
    && after.tabs == m.tabs && after.active == m.active && after.outlets == m.outlets && after.bundle == m.bundle
    && after.creating == m.creating && after.error == m.error && after.counter == m.counter
    && after.selected == m.selected
  }

  /**
    Code that arrives fills the outlet that waits for that very generation, with a fresh child,
    and changes nothing else; code for any other generation changes nothing at all.
   */
  lemma ArrivedBundleMounts(m: Model, b: Bundle, slot: SlotId, defs: Defs)
    requires IsExclusive(slot)
    ensures var (after, commands) := Update(m, BundleReady(b.plugin, b.defId, slot, b.address), defs);
      commands == [] &&
      if OutletOf(m, slot).Loading? && Holds(OutletOf(m, slot), b) && KeyOf(b) in defs
      then
        && OutletOf(after, slot).Ready? && Holds(OutletOf(after, slot), b)
        && OutletOf(after, slot).child
             == (if slot.Composer? then defs[KeyOf(b)].absorbComposer(defs[KeyOf(b)].init, m.selected)
                 else defs[KeyOf(b)].init)
        && SameBesides(m, after, slot)
      else after == m
  {
  }

  /** The panel's code fills every tab that has no outlet, when it is of the generation the panel shows. */
  lemma ArrivedPanelMounts(m: Model, b: Bundle, defs: Defs, id: SessionId)
    ensures var after := Update(m, BundleReady(b.plugin, b.defId, Panel, b.address), defs).0;
      var current := m.bundle.Some? && KeyOf(m.bundle.value) == KeyOf(b) && KeyOf(b) in defs;
      && after == m.(outlets := after.outlets)
      && (id in after.outlets <==> id in m.outlets || (current && HasTab(m.tabs, id)))
      && (id in m.outlets ==> after.outlets[id] == m.outlets[id])
      && (id in after.outlets && id !in m.outlets ==> Holds(after.outlets[id], b))
  {
    if m.bundle.Some? && KeyOf(m.bundle.value) == KeyOf(b) && KeyOf(b) in defs {
      MountFillsTabs(m, defs, id);
      InAdded(m.tabs, m.outlets, m.bundle.value, defs[KeyOf(b)], m.selected, id);
    }
  }

  // ---- snapshots ----

  lemma SlotSettles(m: Model, slot: SlotId, offered: Option<Bundle>, defs: Defs)
    requires IsExclusive(slot)
    ensures var after := ReconcileSlot(m, slot, offered, defs).0;
      if offered.None? then OutletOf(after, slot).Empty? else Holds(OutletOf(after, slot), offered.value)
  {
  }

  lemma PanelSettles(m: Model, offered: Option<Bundle>, defs: Defs)
    ensures var after := ReconcilePanel(m, offered, defs).0;
      && (offered.None? <==> after.bundle.None?)
      && (offered.Some? ==> KeyOf(after.bundle.value) == KeyOf(offered.value))
      && after.tabs == m.tabs && after.active == m.active && after.counter == m.counter
      && (offered.Some? && m.bundle.Some? && KeyOf(m.bundle.value) == KeyOf(offered.value) ==> after == m)
  {
  }

  /**
    After a snapshot each slot shows, or waits for, what it was offered, and is empty when it
    was offered nothing; tabs keep their sessions; and the same snapshot again changes nothing
    and loads nothing, whatever code has been loaded since.
   */
  lemma SnapshotSettles(m: Model, s: Snapshot, defs: Defs, later: Defs)
    ensures var (after, commands) := Update(m, UiSnapshotArrived(s), defs);
      && (forall slot :: IsExclusive(slot) ==>
            if Offered(s, slot).None? then OutletOf(after, slot).Empty?
            else Holds(OutletOf(after, slot), Offered(s, slot).value))
      && (Offered(s, Panel).None? <==> after.bundle.None?)
      && (after.bundle.Some? ==> KeyOf(after.bundle.value) == KeyOf(Offered(s, Panel).value))
      && after.tabs == m.tabs && after.active == m.active
      && Update(after, UiSnapshotArrived(s), later) == (after, [])
  {
    hide MountPanelBundle, Offered, Holds;
    var first := ReconcileSlot(m, Composer, Offered(s, Composer), defs).0;
    var second := ReconcileSlot(first, Conversation, Offered(s, Conversation), defs).0;
    var third := ReconcilePanel(second, Offered(s, Panel), defs).0;
    SlotsLeavePanel(m, Composer, Offered(s, Composer), defs);
    SlotsLeavePanel(first, Conversation, Offered(s, Conversation), defs);
    SlotSettles(m, Composer, Offered(s, Composer), defs);
    SlotSettles(first, Conversation, Offered(s, Conversation), defs);
    PanelSettles(second, Offered(s, Panel), defs);
    PanelLeavesSlots(second, Offered(s, Panel), defs);
    SettledStays(third, s, later);
  }

  lemma PanelLeavesSlots(m: Model, offered: Option<Bundle>, defs: Defs)
    ensures var after := ReconcilePanel(m, offered, defs).0;
      after.composerUi == m.composerUi && after.conversationUi == m.conversationUi
  {
  }

  lemma SettledStays(m: Model, s: Snapshot, defs: Defs)
    requires forall slot :: IsExclusive(slot) ==>
      if Offered(s, slot).None? then OutletOf(m, slot).Empty? else Holds(OutletOf(m, slot), Offered(s, slot).value)
    requires Offered(s, Panel).None? <==> m.bundle.None?
    requires m.bundle.Some? ==> KeyOf(m.bundle.value) == KeyOf(Offered(s, Panel).value)
    ensures ReconcileAll(m, s, defs) == (m, [])
  {
    hide Holds, Offered;
    assert IsExclusive(Composer) && IsExclusive(Conversation);
    assert ReconcileSlot(m, Composer, Offered(s, Composer), defs) == (m, []);
    assert ReconcileSlot(m, Conversation, Offered(s, Conversation), defs) == (m, []);
    assert ReconcilePanel(m, Offered(s, Panel), defs) == (m, []);
    var none: seq<Command> := [];
    assert none + none + none == none;
  }

  // ---- what a snapshot offers, loads and shows ----

  /** The snapshot's first assignment of the slot is at `i`, and its first bundle for it at `j`. */
  predicate OffersAt(s: Snapshot, slot: SlotId, i: nat, j: nat) {
    && AssignsAt(s, slot, i) && j < |s.bundles| && CarriesCode(s.bundles[j], s.assignments[i])
    && forall k :: 0 <= k < j ==> !CarriesCode(s.bundles[k], s.assignments[i])
  }

  predicate AssignsAt(s: Snapshot, slot: SlotId, i: nat) {
    && i < |s.assignments| && s.assignments[i].slot == slot
    && forall k :: 0 <= k < i ==> s.assignments[k].slot != slot
  }

  predicate CarriesCode(b: Bundle, a: Assignment) {
    b.plugin == a.plugin && b.defId == a.defId
  }

  lemma {:induction false} AssignmentAt(assignments: seq<Assignment>, slot: SlotId) returns (i: nat)
    ensures i <= |assignments| && forall k :: 0 <= k < i ==> assignments[k].slot != slot
    ensures i < |assignments| ==>
      assignments[i].slot == slot && AssignmentFor(assignments, slot) == Some(assignments[i])
    ensures i == |assignments| ==> AssignmentFor(assignments, slot).None?
  {
    if assignments == [] || assignments[0].slot == slot {
      i := 0;
    } else {
      var k := AssignmentAt(assignments[1..], slot);
      i := k + 1;
    }
  }

  lemma {:induction false} BundleAt(bundles: seq<Bundle>, a: Assignment) returns (j: nat)
    ensures j <= |bundles| && forall k :: 0 <= k < j ==> !CarriesCode(bundles[k], a)
    ensures j < |bundles| ==> CarriesCode(bundles[j], a) && BundleFor(bundles, a) == Some(bundles[j])
    ensures j == |bundles| ==> BundleFor(bundles, a).None?
  {
    if bundles == [] || CarriesCode(bundles[0], a) {
      j := 0;
    } else {
      var k := BundleAt(bundles[1..], a);
      j := k + 1;
    }
  }

  /** A slot is offered the first code carried for its first assignment, and nothing when either is missing. */
  lemma OfferedMeaning(s: Snapshot, slot: SlotId) returns (i: nat, j: nat)
    ensures Offered(s, slot).Some? ==> OffersAt(s, slot, i, j) && Offered(s, slot).value == s.bundles[j]
    ensures Offered(s, slot).None? ==> forall a: nat, b: nat :: !OffersAt(s, slot, a, b)
  {
    i := AssignmentAt(s.assignments, slot);
    j := 0;
    if i < |s.assignments| {
      j := BundleAt(s.bundles, s.assignments[i]);
      forall a: nat, b: nat | OffersAt(s, slot, a, b) ensures a == i {
        FirstAssignment(s, slot, a, i);
      }
    }
  }

  lemma FirstAssignment(s: Snapshot, slot: SlotId, a: nat, i: nat)
    requires AssignsAt(s, slot, a) && AssignsAt(s, slot, i)
    ensures a == i
  {
  }

  /** The slot already shows, or waits for, what it is offered. */
  predicate Shows(m: Model, slot: SlotId, b: Bundle) {
    if slot.Panel? then m.bundle.Some? && KeyOf(m.bundle.value) == KeyOf(b) else Holds(OutletOf(m, slot), b)
  }

  function LoadOf(b: Bundle, slot: SlotId): Command {
    LoadBundle(b.plugin, b.defId, slot, b.jsUrl, b.address, b.sdkMajor)
  }

  predicate Loads(m: Model, s: Snapshot, defs: Defs, slot: SlotId) {
    Offered(s, slot).Some? && !Shows(m, slot, Offered(s, slot).value) && KeyOf(Offered(s, slot).value) !in defs
  }

  /**
    A snapshot loads code for just those slots whose offer is neither shown nor awaited nor
    loaded yet: the composer's first, then the conversation's, then the panel's.
   */
  lemma SnapshotLoads(m: Model, s: Snapshot, defs: Defs)
    ensures Update(m, UiSnapshotArrived(s), defs).1
         == (if Loads(m, s, defs, Composer) then [LoadOf(Offered(s, Composer).value, Composer)] else [])
            + (if Loads(m, s, defs, Conversation) then [LoadOf(Offered(s, Conversation).value, Conversation)] else [])
            + (if Loads(m, s, defs, Panel) then [LoadOf(Offered(s, Panel).value, Panel)] else [])
  {
    hide MountPanelBundle, Offered;
    var first := ReconcileSlot(m, Composer, Offered(s, Composer), defs).0;
    SlotsLeavePanel(m, Composer, Offered(s, Composer), defs);
    SlotsLeavePanel(first, Conversation, Offered(s, Conversation), defs);
  }

  /**
    What it makes of an exclusive slot: what was shown stays when it is offered still; a new offer
    is mounted afresh when its code is loaded, and awaited when it is not.
   */
  lemma SnapshotShows(m: Model, s: Snapshot, defs: Defs, slot: SlotId)
    requires IsExclusive(slot)
    ensures var after := OutletOf(Update(m, UiSnapshotArrived(s), defs).0, slot);
      match Offered(s, slot)
      case None => after == Empty
      case Some(b) =>
        if Shows(m, slot, b) then after == OutletOf(m, slot)
        else if KeyOf(b) in defs then
          var def := defs[KeyOf(b)];
          after == Ready(b.plugin, b.defId, slot, b.address,
                         if slot.Composer? then def.absorbComposer(def.init, m.selected) else def.init)
        else after == Loading(b.plugin, b.defId, slot, b.jsUrl, b.address)
  {
    hide MountPanelBundle, Offered;
    var first := ReconcileSlot(m, Composer, Offered(s, Composer), defs).0;
    var second := ReconcileSlot(first, Conversation, Offered(s, Conversation), defs).0;
    SlotsLeavePanel(m, Composer, Offered(s, Composer), defs);
    SlotsLeavePanel(first, Conversation, Offered(s, Conversation), defs);
    PanelLeavesSlots(second, Offered(s, Panel), defs);
  }

  /**
    What it makes of the panel: a bundle offered still keeps every outlet; a new one drops them
    all and mounts every tab afresh when its code is loaded; and with none the panel is empty.
   */
  lemma SnapshotMounts(m: Model, s: Snapshot, defs: Defs, id: SessionId)
    ensures var after := Update(m, UiSnapshotArrived(s), defs).0;
      match Offered(s, Panel)
      case None => after.bundle == None && (m.bundle.Some? ==> after.outlets == map[])
      case Some(b) =>
        if Shows(m, Panel, b) then after.bundle == m.bundle && after.outlets == m.outlets
        else
          && after.bundle == Some(b)
          && (id in after.outlets <==> KeyOf(b) in defs && HasTab(m.tabs, id))
          && (id in after.outlets ==> Holds(after.outlets[id], b))
  {
    hide Offered, HasTab;
    var first := ReconcileSlot(m, Composer, Offered(s, Composer), defs).0;
    var second := ReconcileSlot(first, Conversation, Offered(s, Conversation), defs).0;
    SlotsLeavePanel(m, Composer, Offered(s, Composer), defs);
    SlotsLeavePanel(first, Conversation, Offered(s, Conversation), defs);
    var offered := Offered(s, Panel);
    if offered.Some? && !Shows(m, Panel, offered.value) && KeyOf(offered.value) in defs {
      var cleared := second.(bundle := offered, outlets := map[]);
      MountFillsTabs(cleared, defs, id);
      InAdded(cleared.tabs, cleared.outlets, offered.value, defs[KeyOf(offered.value)], cleared.selected, id);
    }
  }

  /** A freshly mounted tab has absorbed its own props once. */
  lemma {:induction false} AddedAt(tabs: seq<Tab>, outlets: map<SessionId, Outlet>, b: Bundle, def: Def,
                                   selected: Option<ThreadId>, k: nat)
    requires TabsDistinct(tabs) && k < |tabs| && tabs[k].sessionId !in outlets
    ensures var id := tabs[k].sessionId; var added := Added(tabs, outlets, b, def, selected);
      && id in added
      && added[id] == Ready(b.plugin, b.defId, Panel, b.address, def.absorbTab(def.init, Props(tabs[k], selected)))
  {
    var n := |tabs| - 1;
    if k < n {
      AddedAt(tabs[..n], outlets, b, def, selected, k);
      assert tabs[..n][k] == tabs[k];
    }
  }

  /** So mounting gives a tab without an outlet its own, fresh from the code, told its tab and the thread selected. */
  lemma MountedAfresh(m: Model, defs: Defs, k: nat)
    requires Consistent(m) && k < |m.tabs| && m.tabs[k].sessionId !in m.outlets
    requires m.bundle.Some? && KeyOf(m.bundle.value) in defs
    ensures var id := m.tabs[k].sessionId; var b := m.bundle.value; var def := defs[KeyOf(b)];
      var after := MountPanelBundle(m, defs);
      && id in after.outlets
      && after.outlets[id]
           == Ready(b.plugin, b.defId, Panel, b.address, def.absorbTab(def.init, Props(m.tabs[k], m.selected)))
  {
    hide Added, TabsDistinct;
    AddedAt(m.tabs, m.outlets, m.bundle.value, defs[KeyOf(m.bundle.value)], m.selected, k);
  }

  // ---- the other messages ----

  /** Code that fails to load marks the slot that waits for it, and of the panel's only the error shows. */
  lemma FailedBundleShows(m: Model, plugin: PluginId, defId: string, slot: SlotId, reason: string, defs: Defs)
    ensures var after := Update(m, BundleFailed(plugin, defId, slot, reason), defs).0;
      if IsExclusive(slot) then
        var outlet := OutletOf(m, slot);
        if outlet.Loading? && outlet.plugin == plugin && outlet.defId == defId
        then OutletOf(after, slot) == Failed(plugin, defId, slot, reason) && SameBesides(m, after, slot)
        else after == m
      else if slot.Panel? && m.bundle.Some? && m.bundle.value.plugin == plugin && m.bundle.value.defId == defId
      then after.error.Some? && after == m.(error := after.error)
      else after == m
  {
  }

  /** A message of one tab's outlet reaches that outlet's own code, and no other outlet. */
  lemma PanelUiReachesOne(m: Model, id: SessionId, message: string, defs: Defs)
    requires Consistent(m) && id in m.outlets && m.bundle.Some? && KeyOf(m.bundle.value) in defs
    ensures var (after, commands) := Update(m, GotPanelUi(id, message), defs);
      && commands == [] && after == m.(outlets := after.outlets) && after.outlets.Keys == m.outlets.Keys
      && after.outlets[id]
           == m.outlets[id].(child := defs[KeyOf(m.bundle.value)].update(m.outlets[id].child, message))
      && forall other :: other in m.outlets && other != id ==> after.outlets[other] == m.outlets[other]
  {
    hide TabsDistinct, Numbered, HasTab;
  }

  // ---- what is asked of the host over a run ----

  function CommandsOf(route: Option<ThreadId>, steps: seq<(Message, Defs)>): seq<Command> {
    if steps == [] then []
    else
      var (message, defs) := steps[|steps| - 1];
      CommandsOf(route, steps[..|steps| - 1]) + Update(After(route, steps[..|steps| - 1]), message, defs).1
  }

  function Creations(commands: seq<Command>): nat {
    if commands == [] then 0
    else Creations(commands[..|commands| - 1]) + if commands[|commands| - 1].CreatePtySession? then 1 else 0
  }

  function Deletions(commands: seq<Command>, id: SessionId): nat {
    if commands == [] then 0
    else Deletions(commands[..|commands| - 1], id) + if commands[|commands| - 1] == DeletePtySession(id) then 1 else 0
  }

  /** The answers of the host to a creation, that arrived. */
  function Answered(steps: seq<(Message, Defs)>): nat {
    if steps == [] then 0
    else
      var message := steps[|steps| - 1].0;
      Answered(steps[..|steps| - 1]) + if message.PtySessionCreated? || message.PtySessionFailed? then 1 else 0
  }

  function Opened(steps: seq<(Message, Defs)>, id: SessionId): nat {
    if steps == [] then 0
    else
      var message := steps[|steps| - 1].0;
      Opened(steps[..|steps| - 1], id) + if message.PtySessionCreated? && message.sessionId == id then 1 else 0
  }

  lemma {:induction false} CommandsAppend(a: seq<Command>, b: seq<Command>, id: SessionId)
    ensures Creations(a + b) == Creations(a) + Creations(b)
    ensures Deletions(a + b, id) == Deletions(a, id) + Deletions(b, id)
  {
    if b == [] {
      assert a + b == a;
    } else {
      var n := |b| - 1;
      assert (a + b)[..|a| + n] == a + b[..n];
      CommandsAppend(a, b[..n], id);
    }
  }

  lemma OneCommand(c: Command, id: SessionId)
    ensures Creations([c]) == (if c.CreatePtySession? then 1 else 0) && Creations([]) == 0
    ensures Deletions([c], id) == (if c == DeletePtySession(id) then 1 else 0) && Deletions([], id) == 0
  {
    assert [c][..0] == [];
  }

  lemma {:induction false} NeitherOfThese(commands: seq<Command>, id: SessionId)
    requires forall c :: c in commands ==> c.LoadBundle?
    ensures Creations(commands) == 0 && Deletions(commands, id) == 0
  {
    if commands != [] {
      var n := |commands| - 1;
      assert commands[n] in commands && forall c :: c in commands[..n] ==> c in commands;
      NeitherOfThese(commands[..n], id);
    }
  }

  /** One message asks for a terminal only while none is being created, and ends only a session whose tab it closes. */
  lemma UpdateAsks(m: Model, message: Message, defs: Defs, id: SessionId)
    ensures var (after, commands) := Update(m, message, defs);
      var answer := message.PtySessionCreated? || message.PtySessionFailed?;
      && Creations(commands) + (if m.creating then 1 else 0)
           <= (if after.creating then 1 else 0) + (if answer then 1 else 0)
      && Deletions(commands, id) + (if HasTab(after.tabs, id) then 1 else 0)
           <= (if HasTab(m.tabs, id) then 1 else 0)
              + (if message.PtySessionCreated? && message.sessionId == id then 1 else 0)
  {
    hide MountPanelBundle, ResyncPanelProps, ReconcileAll, HasTab, WithoutTab, Creations, Deletions;
    match message {
      case UiSnapshotArrived(s) =>
        SnapshotTouchesNoTab(m, s, defs);
        NeitherOfThese(ReconcileAll(m, s, defs).1, id);
      case ClickedNewTerminal(project) => OneCommand(CreatePtySession(project), id);
      case ClickedClosePanelTab(closed) =>
        OneCommand(DeletePtySession(closed), id);
        ClosesJustThat(m, closed, id);
      case PtySessionCreated(created, project, wsUrl) =>
        OneCommand(CreatePtySession(None), id);
        OpensJustThat(m, created, project, wsUrl, defs, id);
      case ChangedUrl(selected) =>
        OneCommand(CreatePtySession(None), id);
        ResyncLeavesTabs(m.(selected := selected), defs);
      case BundleReady(plugin, defId, slot, address) =>
        OneCommand(CreatePtySession(None), id);
        MountLeavesTabs(m, defs);
      case _ => OneCommand(CreatePtySession(None), id);
    }
  }

  lemma MountLeavesTabs(m: Model, defs: Defs)
    ensures var after := MountPanelBundle(m, defs); after == m.(outlets := after.outlets)
  {
  }

  lemma ResyncLeavesTabs(m: Model, defs: Defs)
    ensures var after := ResyncPanelProps(m, defs); after == m.(outlets := after.outlets)
  {
  }

  lemma SnapshotTouchesNoTab(m: Model, s: Snapshot, defs: Defs)
    ensures var (after, commands) := ReconcileAll(m, s, defs);
      && after.tabs == m.tabs && after.creating == m.creating
      && forall c :: c in commands ==> c.LoadBundle?
  {
    hide MountPanelBundle, Offered;
    var first := ReconcileSlot(m, Composer, Offered(s, Composer), defs).0;
    var second := ReconcileSlot(first, Conversation, Offered(s, Conversation), defs).0;
    SlotsLeavePanel(m, Composer, Offered(s, Composer), defs);
    SlotsLeavePanel(first, Conversation, Offered(s, Conversation), defs);
    if Offered(s, Panel).Some? {
      MountLeavesTabs(second.(bundle := Offered(s, Panel), outlets := map[]), defs);
    }
  }

  lemma ClosesJustThat(m: Model, closed: SessionId, id: SessionId)
    ensures HasTab(OnCloseTab(m, closed).tabs, id) <==> HasTab(m.tabs, id) && id != closed
  {
    hide HasTab, WithoutTab;
    HasTabIn(m.tabs, id);
    HasTabIn(OnCloseTab(m, closed).tabs, id);
    forall t { InWithoutTab(m.tabs, closed, t); }
  }

  lemma OpensJustThat(m: Model, created: SessionId, project: Option<string>, wsUrl: Option<string>, defs: Defs,
                      id: SessionId)
    ensures var after := OnSessionCreated(m, created, project, wsUrl, defs);
      !after.creating && (HasTab(after.tabs, id) <==> HasTab(m.tabs, id) || id == created)
  {
    hide MountPanelBundle, HasTab;
    if !HasTab(m.tabs, created) {
      var tab := Tab(created, project, m.counter + 1, wsUrl);
      var withTab := m.(creating := false, counter := m.counter + 1, tabs := m.tabs + [tab],
                        active := Some(created), error := None);
      MountLeavesTabs(withTab, defs);
      assert withTab.tabs[..|m.tabs|] == m.tabs;
      HasTabLast(withTab.tabs, id);
    }
  }

  /**
    Over every run one terminal is asked for at a time, each but the last having been answered,
    and a session is ended at most as often as its tab was opened.
   */
  lemma {:induction false} HostIsAskedInTurn(route: Option<ThreadId>, steps: seq<(Message, Defs)>, id: SessionId)
    ensures Creations(CommandsOf(route, steps)) <= Answered(steps) + (if After(route, steps).creating then 1 else 0)
    ensures Deletions(CommandsOf(route, steps), id) + (if HasTab(After(route, steps).tabs, id) then 1 else 0)
         <= Opened(steps, id)
  {
    hide Update, HasTab, Creations, Deletions;
    if steps == [] {
      OneCommand(CreatePtySession(None), id);
      NoTabAtFirst(route, id);
    } else {
      var n := |steps| - 1;
      HostIsAskedInTurn(route, steps[..n], id);
      UpdateAsks(After(route, steps[..n]), steps[n].0, steps[n].1, id);
      CommandsAppend(CommandsOf(route, steps[..n]), Update(After(route, steps[..n]), steps[n].0, steps[n].1).1, id);
    }
  }

  lemma NoTabAtFirst(route: Option<ThreadId>, id: SessionId)
    ensures !HasTab(Opening(route).tabs, id)
  {
  }

  /** A new terminal is asked for when none is being created; its failure is shown and lets the next be asked for. */
  lemma AskedWhenFree(m: Model, project: Option<string>, again: Option<string>, reason: string, defs: Defs)
    requires !m.creating
    ensures var (asked, commands) := Update(m, ClickedNewTerminal(project), defs);
      && commands == [CreatePtySession(project)]
      && Update(asked, ClickedNewTerminal(again), defs) == (asked, [])
      && var (failed, none) := Update(asked, PtySessionFailed(reason), defs);
         && none == [] && failed == m.(error := Some(reason))
         && Update(failed, ClickedNewTerminal(again), defs).1 == [CreatePtySession(again)]
  {
  }

  /** A click shows an open tab and closing ends its session, once; a tab that is not open is left alone. */
  lemma ClicksReachOpenTabs(m: Model, id: SessionId, defs: Defs)
    ensures HasTab(m.tabs, id) ==>
      && Update(m, ClickedPanelTab(id), defs) == (m.(active := Some(id)), [])
      && var (closed, commands) := Update(m, ClickedClosePanelTab(id), defs);
         && commands == [DeletePtySession(id)]
         && Update(closed, ClickedClosePanelTab(id), defs) == Update(closed, ClickedPanelTab(id), defs) == (closed, [])
    ensures !HasTab(m.tabs, id) ==>
      Update(m, ClickedClosePanelTab(id), defs) == Update(m, ClickedPanelTab(id), defs) == (m, [])
  {
    hide WithoutTab, HasTab;
    ClosesJustThat(m, id, id);
  }
}
