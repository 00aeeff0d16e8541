/** The facts of a session and the envelope the log puts around each of them. */
module SessionEvents {
  import opened Primitives

  datatype Lane = HostLane | ThreadLane(id: ThreadId)
  datatype Scope = HostScope | ThreadScope
  datatype Role = User | Assistant | ToolRole
  datatype Verdict = Approve | Deny
  datatype InboxQueue = NextTurn | NextStep

  datatype Fact =
    | PluginActivated(plugin: PluginId, scope: Scope)
    | PluginDeactivated(plugin: PluginId, scope: Scope)
    | ProjectCreated(project: ProjectId, name: string, cwd: string)
    | ProjectUpdated(project: ProjectId, name: string, cwd: string)
    | ProjectDeleted(project: ProjectId)
    | ThreadCreated(thread: ThreadId, project: ProjectId)
    | ThreadConfigured(thread: ThreadId, harness: Option<string>, model: Option<string>, reasoning: Option<string>)
    | TurnStarted(thread: ThreadId, turn: TurnId)
    | TurnFailed(thread: ThreadId, turn: TurnId, reason: string)
    | TurnUsage(thread: ThreadId, turn: TurnId, inputTokens: int, outputTokens: int, cost: Option<real>)
    | ThreadContextWindow(thread: ThreadId, tokens: int, contextWindow: int)
    | MessageAppended(thread: ThreadId, role: Role, body: string)
    | ToolRequested(thread: ThreadId, turn: TurnId, call: CallId, name: string, arguments: string)
    | ToolCompleted(thread: ThreadId, turn: TurnId, call: CallId, name: string, ok: bool, result: string)
    | ApprovalDecided(thread: ThreadId, request: string, decision: Verdict)
    | ThreadCompacted(thread: ThreadId, summary: string, firstKept: EventId, tokensBefore: int)
    | ThreadBranched(thread: ThreadId, fromId: EventId, carried: Option<string>)
    | InboxSpliced(thread: ThreadId, queue: InboxQueue, body: string)

  /** What a writer hands to the log: the tree fields are the log's to fill in. */
  datatype Draft = Draft(id: EventId, fact: Fact)

  datatype Event = Event(id: EventId, parentId: Option<EventId>, seqNo: nat, timestamp: int, fact: Fact)

  function LaneOfFact(fact: Fact): Lane {
    match fact
    case PluginActivated(_, _) => HostLane
    case PluginDeactivated(_, _) => HostLane
    case ProjectCreated(_, _, _) => HostLane
    case ProjectUpdated(_, _, _) => HostLane
    case ProjectDeleted(_) => HostLane
    case _ => ThreadLane(fact.thread)
  }

  predicate IsHostFact(fact: Fact) {
    fact.PluginActivated? || fact.PluginDeactivated? || fact.ProjectCreated? || fact.ProjectUpdated?
        || fact.ProjectDeleted?
  }

  /** Two facts lie on one lane exactly when both are of plugins or projects, or both of one thread. */
  lemma LaneMeaning(a: Fact, b: Fact)
    ensures LaneOfFact(a) == LaneOfFact(b) <==>
      if IsHostFact(a) then IsHostFact(b) else !IsHostFact(b) && a.thread == b.thread
    ensures !IsHostFact(a) ==> LaneOfFact(a) == ThreadLane(a.thread)
  {
  }

  function LaneOf(event: Event): Lane {
    LaneOfFact(event.fact)
  }
}
