/** Which plugins lean on which, through any chain of injects, and when none does so in a circle. */
module HostLeaning {
  import opened Primitives
  import opened HostGraph

  /** `n` injects lead from `x` to `root`. */
  ghost predicate LeansIn(g: Graph, x: PluginId, root: PluginId, n: nat)
    decreases n
  {
    if n == 0 then x == root && IsActive(g, x)
    else exists y :: Needs(g, x, y) && LeansIn(g, y, root, n - 1)
  }

  /** `x` is `root`, or injects from a plugin that leans on it. */
  ghost predicate LeansOn(g: Graph, x: PluginId, root: PluginId) {
    exists n: nat :: LeansIn(g, x, root, n)
  }

  ghost function Closure(g: Graph, root: PluginId): set<PluginId> {
    set k | 0 <= k < |g.active| && LeansOn(g, g.active[k].plugin.id, root) :: g.active[k].plugin.id
  }

  /** No two plugins that lean on `root` lean on each other. */
  ghost predicate Untangled(g: Graph, root: PluginId) {
    forall x, y :: x != y && LeansOn(g, x, root) && LeansOn(g, x, y) ==> !LeansOn(g, y, x)
  }

  /** No two plugins lean on each other; one may inject a token of its own. */
  ghost predicate Acyclic(g: Graph) {
    forall x, y :: x != y && LeansOn(g, x, y) ==> !LeansOn(g, y, x)
  }

  lemma LeansSelf(g: Graph, x: PluginId)
    requires IsActive(g, x)
    ensures LeansOn(g, x, x)
  {
    assert LeansIn(g, x, x, 0);
  }

  lemma LeansStep(g: Graph, x: PluginId, y: PluginId, root: PluginId)
    requires Needs(g, x, y) && LeansOn(g, y, root)
    ensures LeansOn(g, x, root)
  {
    var n: nat :| LeansIn(g, y, root, n);
    assert LeansIn(g, x, root, n + 1);
  }

  lemma LeansDirectly(g: Graph, x: PluginId, y: PluginId)
    requires Needs(g, x, y) && IsActive(g, y)
    ensures LeansOn(g, x, y)
  {
    LeansSelf(g, y);
    LeansStep(g, x, y, y);
  }

  lemma {:induction false} LeansInChain(g: Graph, x: PluginId, y: PluginId, root: PluginId, n: nat)
    requires LeansIn(g, x, y, n) && LeansOn(g, y, root)
    ensures LeansOn(g, x, root)
    decreases n
  {
    if n > 0 {
      var z :| Needs(g, x, z) && LeansIn(g, z, y, n - 1);
      LeansInChain(g, z, y, root, n - 1);
      LeansStep(g, x, z, root);
    }
  }

  lemma LeansChain(g: Graph, x: PluginId, y: PluginId, root: PluginId)
    requires LeansOn(g, x, y) && LeansOn(g, y, root)
    ensures LeansOn(g, x, root)
  {
    var n: nat :| LeansIn(g, x, y, n);
    LeansInChain(g, x, y, root, n);
  }

  lemma {:induction false} LeansInActive(g: Graph, x: PluginId, root: PluginId, n: nat)
    requires LeansIn(g, x, root, n)
    ensures IsActive(g, x) && IsActive(g, root)
    decreases n
  {
    if n > 0 {
      var y :| Needs(g, x, y) && LeansIn(g, y, root, n - 1);
      LeansInActive(g, y, root, n - 1);
    }
  }

  lemma LeansActive(g: Graph, x: PluginId, root: PluginId)
    requires LeansOn(g, x, root)
    ensures IsActive(g, x) && IsActive(g, root)
  {
    var n: nat :| LeansIn(g, x, root, n);
    LeansInActive(g, x, root, n);
  }

  lemma InClosure(g: Graph, root: PluginId, x: PluginId)
    ensures x in Closure(g, root) <==> LeansOn(g, x, root)
  {
    if LeansOn(g, x, root) {
      LeansActive(g, x, root);
      assert g.active[ActiveIndex(g.active, x)].plugin.id == x;
    }
  }

  lemma NothingLeans(g: Graph, root: PluginId)
    requires !IsActive(g, root)
    ensures Closure(g, root) == {} && Untangled(g, root)
  {
    forall x ensures !LeansOn(g, x, root) {
      if LeansOn(g, x, root) {
        LeansActive(g, x, root);
      }
    }
  }

  lemma {:induction false} LeansInThrough(g: Graph, x: PluginId, root: PluginId, n: nat) returns (d: PluginId)
    requires LeansIn(g, x, root, n) && x != root
    ensures Needs(g, d, root) && d != root && LeansOn(g, x, d)
    decreases n
  {
    var y :| Needs(g, x, y) && LeansIn(g, y, root, n - 1);
    if y == root {
      LeansSelf(g, x);
      d := x;
    } else {
      d := LeansInThrough(g, y, root, n - 1);
      LeansStep(g, x, y, d);
    }
  }

  /** A chain that leans on `root` passes through something else that needs it directly. */
  lemma LeansThroughDependent(g: Graph, x: PluginId, root: PluginId) returns (d: PluginId)
    requires LeansOn(g, x, root) && x != root
    ensures Needs(g, d, root) && d != root && LeansOn(g, x, d) && LeansOn(g, d, root)
  {
    var n: nat :| LeansIn(g, x, root, n);
    d := LeansInThrough(g, x, root, n);
    LeansActive(g, x, root);
    LeansDirectly(g, d, root);
  }

  /** A set of plugins that holds every plugin that needs one of them. */
  ghost predicate UpClosed(g: Graph, gone: set<PluginId>) {
    forall x, y :: Needs(g, x, y) && y in gone ==> x in gone
  }

  lemma ClosureIsUpClosed(g: Graph, root: PluginId)
    ensures UpClosed(g, Closure(g, root))
  {
    forall x, y | Needs(g, x, y) && y in Closure(g, root) ensures x in Closure(g, root) {
      InClosure(g, root, y);
      LeansStep(g, x, y, root);
      InClosure(g, root, x);
    }
  }

  lemma AcyclicIsUntangled(g: Graph, root: PluginId)
    requires Acyclic(g)
    ensures Untangled(g, root)
  {
  }

  /** Activation order, where dependencies keep to it, leaves no room for a circle. */
  lemma OrderedIsAcyclic(g: Graph)
    requires Ordered(g)
    ensures Acyclic(g)
  {
    forall x, y | x != y && LeansOn(g, x, y) ensures !LeansOn(g, y, x) {
      LeansLater(g, x, y);
      if LeansOn(g, y, x) {
        LeansLater(g, y, x);
      }
    }
  }

  lemma LeansLater(g: Graph, x: PluginId, root: PluginId)
    requires Ordered(g) && LeansOn(g, x, root) && x != root
    ensures ActiveIndex(g.active, root) < ActiveIndex(g.active, x)
  {
    var n: nat :| LeansIn(g, x, root, n);
    LeansInLater(g, x, root, n);
  }

  lemma {:induction false} LeansInLater(g: Graph, x: PluginId, root: PluginId, n: nat)
    requires Ordered(g) && LeansIn(g, x, root, n)
    ensures x == root || ActiveIndex(g.active, root) < ActiveIndex(g.active, x)
    decreases n
  {
    if n > 0 {
      var y :| Needs(g, x, y) && LeansIn(g, y, root, n - 1);
      LeansInLater(g, y, root, n - 1);
    }
  }

  // ---- graphs with the same needs ----

  /** The plugins of `keep` are active and need the same in both graphs, and need only each other. */
  ghost predicate SameNeeds(g: Graph, h: Graph, keep: set<PluginId>) {
    && (forall x :: x in keep ==> (IsActive(g, x) <==> IsActive(h, x)))
    && (forall x, y :: x in keep ==> (Needs(g, x, y) <==> Needs(h, x, y)))
    && (forall x, y :: x in keep && Needs(g, x, y) ==> y in keep)
  }

  lemma {:induction false} SameLeansIn(g: Graph, h: Graph, keep: set<PluginId>, x: PluginId, root: PluginId, n: nat)
    requires SameNeeds(g, h, keep) && x in keep
    ensures LeansIn(g, x, root, n) <==> LeansIn(h, x, root, n)
    decreases n
  {
    if n > 0 {
      forall y ensures Needs(g, x, y) && LeansIn(g, y, root, n - 1) <==> Needs(h, x, y) && LeansIn(h, y, root, n - 1) {
        if Needs(g, x, y) {
          SameLeansIn(g, h, keep, y, root, n - 1);
        }
      }
    }
  }

  lemma SameLeans(g: Graph, h: Graph, keep: set<PluginId>, x: PluginId, root: PluginId)
    requires SameNeeds(g, h, keep) && x in keep
    ensures LeansOn(g, x, root) <==> LeansOn(h, x, root)
  {
    forall n: nat { SameLeansIn(g, h, keep, x, root, n); }
  }

  // ---- graphs with fewer needs ----

  /** Nothing is active or needed in `h` that is not so in `g`. */
  ghost predicate NeedsFewer(h: Graph, g: Graph) {
    && (forall x :: IsActive(h, x) ==> IsActive(g, x))
    && (forall x, y :: Needs(h, x, y) ==> Needs(g, x, y))
  }

  lemma {:induction false} LeansInFewer(h: Graph, g: Graph, x: PluginId, root: PluginId, n: nat)
    requires NeedsFewer(h, g) && LeansIn(h, x, root, n)
    ensures LeansIn(g, x, root, n)
    decreases n
  {
    hide IsActive, Needs;
    if n > 0 {
      var y :| Needs(h, x, y) && LeansIn(h, y, root, n - 1);
      LeansInFewer(h, g, y, root, n - 1);
    }
  }

  lemma LeansFewer(h: Graph, g: Graph, x: PluginId, root: PluginId)
    requires NeedsFewer(h, g)
    ensures LeansOn(h, x, root) ==> LeansOn(g, x, root)
  {
    hide LeansIn, NeedsFewer;
    if LeansOn(h, x, root) {
      var n: nat :| LeansIn(h, x, root, n);
      LeansInFewer(h, g, x, root, n);
    }
  }

  lemma FewerKeepsAcyclic(h: Graph, g: Graph)
    requires NeedsFewer(h, g) && Acyclic(g)
    ensures Acyclic(h)
  {
    hide LeansOn, NeedsFewer, Acyclic;
    forall x, y | x != y && LeansOn(h, x, y) && LeansOn(h, y, x) ensures false {
      LeansFewer(h, g, x, y);
      LeansFewer(h, g, y, x);
      AcyclicMeans(g, x, y);
    }
    MeansAcyclic(h);
  }

  // ---- installing ----

  /** A plugin that goes live needs what was there, and nothing there needs it. */
  lemma InstallKeepsAcyclic(g: Graph, plugin: Plugin, tokens: seq<TokenId>, data: seq<Contribution>, marker: nat)
    requires Wired(g) && Acyclic(g) && Installable(g, plugin, tokens)
    ensures Acyclic(Installing(g, plugin, tokens, data, marker))
  {
    hide Acyclic, LeansOn, Wired;
    var after := Installing(g, plugin, tokens, data, marker);
    InstallKeepsNeeds(g, plugin, tokens, data, marker);
    forall x, y | x != y && LeansOn(after, x, y) && LeansOn(after, y, x) ensures false {
      LeansActive(after, x, y);
      NothingLeansOnNew(after, plugin.id, x);
      NothingLeansOnNew(after, plugin.id, y);
      AppendedIndex(g.active, Activation(plugin, tokens, marker), x);
      AppendedIndex(g.active, Activation(plugin, tokens, marker), y);
      InActiveIds(g, x);
      InActiveIds(g, y);
      SameLeans(g, after, ActiveIds(g), x, y);
      SameLeans(g, after, ActiveIds(g), y, x);
      AcyclicMeans(g, x, y);
    }
    MeansAcyclic(after);
  }

  lemma AcyclicMeans(g: Graph, x: PluginId, y: PluginId)
    requires Acyclic(g) && x != y && LeansOn(g, x, y)
    ensures !LeansOn(g, y, x)
  {
  }

  lemma MeansAcyclic(g: Graph)
    requires forall x, y :: x != y && LeansOn(g, x, y) ==> !LeansOn(g, y, x)
    ensures Acyclic(g)
  {
  }

  lemma NothingLeansOnNew(after: Graph, id: PluginId, x: PluginId)
    requires forall z :: !Needs(after, z, id)
    ensures LeansOn(after, x, id) ==> x == id
  {
    if LeansOn(after, x, id) && x != id {
      var d := LeansThroughDependent(after, x, id);
    }
  }

  lemma InstallKeepsNeeds(g: Graph, plugin: Plugin, tokens: seq<TokenId>, data: seq<Contribution>, marker: nat)
    requires Wired(g) && Installable(g, plugin, tokens)
    ensures var after := Installing(g, plugin, tokens, data, marker);
      && SameNeeds(g, after, ActiveIds(g))
      && forall z :: !Needs(after, z, plugin.id)
  {
    var after := Installing(g, plugin, tokens, data, marker);
    hide Needs, Wired, Providing, Installable, ActiveIds;
    forall x ensures IsActive(g, x) ==> IsActive(after, x) {
      AppendedIndex(g.active, Activation(plugin, tokens, marker), x);
    }
    forall x { InActiveIds(g, x); }
    forall x, y ensures Needs(after, x, y) ==> IsActive(g, y)
                ensures IsActive(g, x) ==> (Needs(g, x, y) <==> Needs(after, x, y))
    {
      InstalledNeeds(g, plugin, tokens, data, marker, x, y);
    }
    NotYetActive(g, plugin, tokens);
  }

  lemma NotYetActive(g: Graph, plugin: Plugin, tokens: seq<TokenId>)
    requires Installable(g, plugin, tokens)
    ensures !IsActive(g, plugin.id)
  {
  }

  lemma InstalledNeeds(g: Graph, plugin: Plugin, tokens: seq<TokenId>, data: seq<Contribution>, marker: nat,
                       x: PluginId, y: PluginId)
    requires Wired(g) && Installable(g, plugin, tokens)
    ensures var after := Installing(g, plugin, tokens, data, marker);
      && (Needs(after, x, y) ==> IsActive(g, y))
      && (IsActive(g, x) ==> (Needs(g, x, y) <==> Needs(after, x, y)))
  {
    var after := Installing(g, plugin, tokens, data, marker);
    FreeTokens(g, plugin, tokens);
    ProvidingMeaning(g.cells, tokens, plugin.id);
    AppendedIndex(g.active, Activation(plugin, tokens, marker), x);
    if IsActive(after, x) {
      var p := after.active[ActiveIndex(after.active, x)].plugin;
      forall t | t in p.inject ensures t in g.cells && after.cells[t] == g.cells[t] {
      }
    }
  }
}
