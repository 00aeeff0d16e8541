/** The lifecycle journal: what is recorded, and what a restart recovers from it. */
module HostLifecycle {
  import opened Primitives
  import opened SessionEvents
  import opened HostGraph

  datatype LifecycleState = LifecycleState(desired: seq<PluginId>, journalActive: seq<PluginId>)

  datatype RecordDecision = Skip(next: seq<PluginId>) | Append(next: seq<PluginId>)

  function DecideHostFact(journalActive: seq<PluginId>, event: Fact): RecordDecision {
    match event
    case PluginActivated(plugin, scope) =>
      if scope == ThreadScope || plugin in journalActive then Skip(journalActive)
      else Append(Adding(journalActive, plugin))
    case PluginDeactivated(plugin, scope) =>
      if scope == ThreadScope || plugin !in journalActive then Skip(journalActive)
      else Append(Dropping(journalActive, plugin))
    case _ => Skip(journalActive)
  }

  predicate IsPluginFact(fact: Fact) {
    fact.PluginActivated? || fact.PluginDeactivated?
  }

  function RecoverLifecycle(entries: seq<Fact>, known: seq<PluginId>): LifecycleState {
    var journalActive := FoldActivePlugins(entries);
    if exists k :: 0 <= k < |entries| && IsPluginFact(entries[k])
    then LifecycleState(journalActive, journalActive)
    else LifecycleState(known, journalActive)
  }

  /** A recorder fed any events keeps its set equal to the fold of what it wrote. */
  function RecordAll(entries: seq<Fact>, journalActive: seq<PluginId>, events: seq<Fact>): (seq<Fact>, seq<PluginId>) {
    if events == [] then (entries, journalActive)
    else
      var (written, active) := RecordAll(entries, journalActive, events[..|events| - 1]);
      var event := events[|events| - 1];
      var decision := DecideHostFact(active, event);
      (if decision.Append? then written + [event] else written, decision.next)
  }

  lemma DecisionFollowsFold(entries: seq<Fact>, event: Fact)
    ensures var decision := DecideHostFact(FoldActivePlugins(entries), event);
      var written := if decision.Append? then entries + [event] else entries;
      && FoldActivePlugins(written) == decision.next
      && forall from :: Alternates(entries, from) ==> Alternates(written, from)
  {
    var decision := DecideHostFact(FoldActivePlugins(entries), event);
    if decision.Append? {
      assert (entries + [event])[..|entries|] == entries;
      forall from | Alternates(entries, from) ensures Alternates(entries + [event], from) {
        AlternatesOneMore(entries, event, from);
      }
    }
  }

  /**
    Whatever a host did before it stopped, and whatever journal it began with, its recorder
    agrees with its journal, the plugin facts it wrote itself alternate, and a restart wants
    exactly what the journal left active once any plugin fact was written.
   */
  lemma {:induction false} RestartRecovers(entries: seq<Fact>, events: seq<Fact>, known: seq<PluginId>)
    ensures var (written, active) := RecordAll(entries, FoldActivePlugins(entries), events);
      && entries <= written && Alternates(written, |entries|)
      && (Alternates(entries, 0) ==> Alternates(written, 0))
      && active == FoldActivePlugins(written) == RecoverLifecycle(written, known).journalActive
      && ((exists k :: 0 <= k < |written| && IsPluginFact(written[k])) ==>
            RecoverLifecycle(written, known).desired == active)
      && ((forall k :: 0 <= k < |written| ==> !IsPluginFact(written[k])) ==>
            RecoverLifecycle(written, known).desired == known && active == [])
  {
    if events != [] {
      RestartRecovers(entries, events[..|events| - 1], known);
      var (written, active) := RecordAll(entries, FoldActivePlugins(entries), events[..|events| - 1]);
      DecisionFollowsFold(written, events[|events| - 1]);
    }
    var (written, active) := RecordAll(entries, FoldActivePlugins(entries), events);
    if forall k :: 0 <= k < |written| ==> !IsPluginFact(written[k]) {
      NothingRecorded(written);
    }
  }

  lemma {:induction false} NothingRecorded(entries: seq<Fact>)
    requires forall k :: 0 <= k < |entries| ==> !IsPluginFact(entries[k])
    ensures FoldActivePlugins(entries) == []
  {
    if entries != [] {
      NothingRecorded(entries[..|entries| - 1]);
    }
  }
}
