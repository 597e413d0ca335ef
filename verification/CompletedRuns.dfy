/** What the files of a returned run say, read back against the run's own counters. */
module CompletedRuns {
  import opened Contracts
  import opened Environments
  import opened Kernels
  import opened Ledger
  import opened LedgerShape
  import opened PluginRegistries
  import opened Plugins
  import opened Policies
  import opened RunContexts
  import opened RunIndexing
  import opened Runs
  import opened TraceReading

  predicate IsBudget(event: RunEvent) {
    event.eventType == Some(BudgetUpdated) && event.payload.BudgetPayload?
  }

  /** Budget snapshots never decrease, and the audit's last one is the greatest. */
  lemma {:induction false} BudgetsNeverFall(events: seq<RunEvent>)
    requires AuditOf(events).budgetsOrdered
    ensures forall i, j :: 0 <= i < j < |events| && IsBudget(events[i]) && IsBudget(events[j]) ==>
      events[i].payload.budget.AtMost(events[j].payload.budget)
    ensures forall i :: 0 <= i < |events| && IsBudget(events[i]) ==>
      AuditOf(events).lastBudget.Some? && events[i].payload.budget.AtMost(AuditOf(events).lastBudget.value)
  {
    if |events| > 0 {
      BudgetsNeverFall(events[..|events| - 1]);
    }
  }

  /** The positions at which a tool call starts. */
  ghost function ToolStarts(events: seq<RunEvent>): set<nat> {
    set i: nat | i < |events| && IsToolStart(events[i]) :: i
  }

  lemma {:induction false} ToolStartsCounted(events: seq<RunEvent>)
    ensures |ToolStarts(events)| == AuditOf(events).toolStarts
  {
    if |events| > 0 {
      var n := |events| - 1;
      var front := events[..n];
      ToolStartsCounted(front);
      assert ToolStarts(events) == ToolStarts(front) + if IsToolStart(events[n]) then {n} else {};
    }
  }

  /** A recorded event that closes a span carries its duration. */
  lemma LastCloses(events: seq<RunEvent>)
    requires PairingOf(events).good && |events| > 0
    requires IsSpan(events[|events| - 1]) && !IsStart(events[|events| - 1]) && events[|events| - 1].correlationId.Some?
    ensures Closes(events[|events| - 1])
  {
    PairingMeaning(events);
  }

  /**
   The ledger of a returned run, read by the index and by the trace reader. The model requests the
   index counts are the run's but for one that could not be built, and so is the last budget snapshot;
   tool calls agree exactly, and snapshots never fall. The reader recovers exactly the recorded events
   and durations.
   */
  lemma ReturnedRunReads(ctx: RunContext)
    requires ctx.bundle.finalized && ctx.trace.bundle == ctx.bundle && ctx.trace.Valid()
    requires ctx.Tally().spans.Closed? && Accounted(ctx)
    ensures UsageOf(ctx.bundle.events).requests + ctx.unbuilt == ctx.modelCalls
    ensures |ToolStarts(ctx.bundle.events)| == ctx.toolCalls
    ensures match AuditOf(ctx.bundle.events).lastBudget
      case None => ctx.modelCalls == ctx.unbuilt && ctx.toolCalls == 0 && ctx.iterations == 0
      case Some(b) =>
        b.modelCalls + ctx.unbuilt == ctx.modelCalls && b.toolCalls == ctx.toolCalls && b.iterations == ctx.iterations
    ensures var events := ctx.bundle.events;
      forall i, j :: 0 <= i < j < |events| && IsBudget(events[i]) && IsBudget(events[j]) ==>
        events[i].payload.budget.AtMost(events[j].payload.budget)
    ensures |ctx.bundle.events| >= 2 && ReadingOf(ctx.bundle.events).items == FaithfulItems(ctx.bundle.events)
    ensures ReadingOf(ctx.bundle.events).runDurationMs == ctx.bundle.events[|ctx.bundle.events| - 1].durationMs
  {
    hide AuditOf, PairingOf, ReadingOf, FaithfulItems, UsageOf, Settled;
    var events := ctx.bundle.events;
    IndexAgrees(events);
    ToolStartsCounted(events);
    BudgetsNeverFall(events);
    ClosedLedger(events);
    LastCloses(events);
    ReadingUndoesRecording(events);
    RunDurationRead(events);
  }

  // When the counts agree.

  /** Each schema a request needs can be generated every time or never. */
  predicate Steady(schemas: seq<Schema>) {
    forall k :: 0 <= k < |schemas| ==> !schemas[k].MayRaise?
  }

  /**
   The index counts the run's model calls exactly when every request was built. For a fixed or direct
   run that is always so; for an agentic run with steady schemas, when all of them can be generated or
   no request was ever due.
   */
  lemma CountsAgreeIff(policy: Policy, kernel: HarnessKernel, ctx: RunContext)
    requires Accounted(ctx) && BuiltFor(policy, kernel, ctx)
    ensures UsageOf(ctx.bundle.events).requests == ctx.modelCalls <==> ctx.unbuilt == 0
    ensures !policy.AgenticPolicy? ==> UsageOf(ctx.bundle.events).requests == ctx.modelCalls
    ensures policy.AgenticPolicy? && Steady(kernel.RequestSchemas(ctx)) ==>
      (UsageOf(ctx.bundle.events).requests == ctx.modelCalls
       <==> AllGenerate(kernel.RequestSchemas(ctx)) || ctx.modelCalls == 0)
  {
    hide AuditOf, UsageOf, HarnessKernel.RequestSchemas;
    IndexAgrees(ctx.bundle.events);
  }

  /** A visible tool whose input model has a field without a JSON schema. */
  const UNDESCRIBED := Plugin(
    Manifest("other.undescribed", ToolKind, [], [], true),
    Some(ToolFacet("undescribed", CustomBody, NeverGenerates)))

  /** A registry accepts and resolves it. */
  lemma UndescribedResolves()
    ensures Resolvable(map[UNDESCRIBED.manifest.id := UNDESCRIBED])
    ensures Resolves(map[UNDESCRIBED.manifest.id := UNDESCRIBED], [UNDESCRIBED])
  {
    var id := UNDESCRIBED.manifest.id;
    var plugins, order, depth := map[id := UNDESCRIBED], [id], map[id := 0];
    assert DependencyOrder(plugins, order);
    assert ByDepth(plugins, order, depth);
    assert Pick(plugins, order) == [UNDESCRIBED];
  }

  /** With it, no decision request can be built, whatever the task. */
  lemma UndescribedNeverBuilds(kernel: HarnessKernel, ctx: RunContext)
    requires kernel.plugins == [UNDESCRIBED]
    ensures SomeNever(kernel.RequestSchemas(ctx))
  {
    assert ToolSchemas([UNDESCRIBED]) == [NeverGenerates] + ToolSchemas([]);
    assert kernel.RequestSchemas(ctx)[0] == NeverGenerates;
  }

  /**
   With a model to ask, something probed and a call left, such a request is counted and reaches no one:
   only the wall clock stops a started run from getting that far.
   */
  method UndescribedRequest(kernel: HarnessKernel, ctx: RunContext, env: Environment)
    returns (r: Outcome<(Decision, Usage)>)
    requires kernel.plugins == [UNDESCRIBED] && ctx.Ready() && kernel.startedAt.Some?
    requires ctx.hasAgentModel && ctx.probe.Some? && ctx.modelCalls < ctx.policy.maxModelCalls
    modifies ctx`modelCalls, ctx`unbuilt, ctx`verifierFeedback, env`exits, env`modelInvocations
    modifies ctx.trace`origin, ctx.trace`now, ctx.trace`finished
    modifies ctx.bundle`sequence, ctx.bundle`events, ctx.bundle`issuedIds
    ensures r.Raised? && env.modelInvocations == old(env.modelInvocations)
    ensures if r.exn.kind.WallClock? then ctx.modelCalls == old(ctx.modelCalls) && ctx.unbuilt == 0
            else ctx.modelCalls == old(ctx.modelCalls) + 1 && ctx.unbuilt == 1 && ctx.Tally() == old(ctx.Tally())
  {
    hide RunContext.Tally, RunContext.Ready, RunContext.Between, HarnessKernel.RequestSchemas, SomeNever, AllGenerate;
    var now;
    UndescribedNeverBuilds(kernel, ctx);
    ReadyIsBetween(ctx);
    r, now := kernel.RequestAgentDecision(ctx, env, false);
  }

  /**
   The failing input: an agentic run over that registry asks no model. It gets as far as its first request
   if a model is there, the media was probed, the policy grants a call and time does not run out; then it
   counts one model call, and leaves no trace of the call in the ledger.
   */
  method UndescribedRun(kernel: HarnessKernel, ctx: RunContext, env: Environment) returns (r: RunOutcome)
    requires kernel.plugins == [UNDESCRIBED] && ctx.Valid() && ctx.IsFresh() && ctx.policy.Valid()
    modifies kernel`repairRounds, kernel`startedAt, env`exits, env`modelInvocations, env`saved
    modifies ctx`probe, ctx`evidence, ctx`allocatedIds, ctx`idCounters, ctx`toolCalls, ctx`callFingerprints
    modifies ctx`toolResults, ctx`artifactCalls, ctx`iterations, ctx`modelCalls, ctx`output, ctx`verification
    modifies ctx`terminalState, ctx`verifierFeedback, ctx`formatRepairUsed, ctx`unbuilt, ctx`runSpan
    modifies ctx.trace`origin, ctx.trace`now, ctx.trace`finished
    modifies ctx.bundle`sequence, ctx.bundle`events, ctx.bundle`issuedIds, ctx.bundle`evidenceFiles
    modifies ctx.bundle`finalized, ctx.bundle`terminalState
    ensures r.Returned? && ctx.hasAgentModel && ctx.probe.Some? && ctx.policy.maxModelCalls > 0 ==>
      r.reason == Some(BudgetReason(WallClock)) || ctx.modelCalls > 0
    ensures r.Returned? ==>
      && ctx.modelCalls <= 1 && UsageOf(ctx.bundle.events).requests == 0
      && env.modelInvocations == old(env.modelInvocations) && !IsClean(r.terminalState)
      && match AuditOf(ctx.bundle.events).lastBudget case None => true case Some(b) => b.modelCalls == 0
  {
    hide AuditOf, UsageOf, HarnessKernel.RequestSchemas, SomeNever, AllGenerate;
    r := Run(AgenticPolicy, kernel, ctx, env);
    UndescribedNeverBuilds(kernel, ctx);
    if r.Returned? {
      IndexAgrees(ctx.bundle.events);
    }
  }
}
