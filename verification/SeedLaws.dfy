/** What a seed leaves, in the terms of its request and of the tables it was called on. */
module SeedLaws {
  import opened Wrappers
  import opened SeedRegistry
  import opened LineageSeed

  /** The Agent and Kernel contents a source names, and the revisions and the Lineage they come from. */
  predicate Names(r: Reg, source: Source, agent: Digest, kernel: Digest, agentId: Option<AgentId>,
                  kernelId: Option<KernelId>, lineage: Option<LineageId>)
  {
    match source
    case Artifacts(a, k) => agent == a && kernel == k && agentId.None? && kernelId.None? && lineage.None?
    case Revisions(ai, ki) =>
      && ai in r.agents && ki in r.kernels && agent == r.agents[ai].optimizer && kernel == r.kernels[ki].artifact
      && agentId == Some(ai) && kernelId == Some(ki) && lineage.None?
    case Baseline(l) =>
      && l in r.baselines && r.baselines[l].0 in r.agents && r.baselines[l].1 in r.kernels
      && agent == r.agents[r.baselines[l].0].optimizer && kernel == r.kernels[r.baselines[l].1].artifact
      && agentId == Some(r.baselines[l].0) && kernelId == Some(r.baselines[l].1) && lineage == Some(l)
  }

  /** The source exists and is of the request's DSL; a baseline is correct and measured. */
  predicate Sourced(r: Reg, source: Source, dsl: Dsl) {
    match source
    case Artifacts(_, _) => true
    case Revisions(ai, ki) => ai in r.agents && r.agents[ai].dsl == dsl && ki in r.kernelDsl && r.kernelDsl[ki] == dsl
    case Baseline(l) =>
      && l in r.lineages && r.lineages[l].dsl == dsl && l in r.baselines && r.baselines[l].1 in r.kernels
      && r.kernels[r.baselines[l].1].evaluation.correct && r.kernels[r.baselines[l].1].evaluation.latency.Some?
  }

  lemma ResolveMeans(w: Site, r: Reg, source: Source, dsl: Dsl)
    requires Resolve(w, r, source, dsl).Some?
    ensures
      var roots := Resolve(w, r, source, dsl).value;
      && Names(r, source, roots.agent, roots.kernel, roots.sourceAgent, roots.sourceKernel, roots.sourceLineage)
      && Sourced(r, source, dsl)
      && roots.agent in w.kinds && w.kinds[roots.agent] == KernelAgent
      && roots.kernel in w.kinds && w.kinds[roots.kernel] == KernelArtifact
      && (if source.Baseline? then
            && roots.baseline == Some(r.kernels[r.baselines[source.lineage].1].evaluation)
            && roots.evidence == Some(r.lineages[source.lineage].evidence)
          else roots.baseline.None? && roots.evidence.None?)
  {
  }

  /** The Agent the new Lineage starts from: the replacement, if one is asked for, else the named one,
      and in it the selected workflow, if one is. */
  function RootAgent(w: Site, spec: Spec, named: Digest): Digest {
    var base := match spec.replacementAgent case Some(other) => other case None => named;
    match spec.workflow case Some(workflow) => w.selectWorkflow(base, spec.dsl, workflow) case None => base
  }

  lemma SelectedMeans(w: Site, r: Reg, spec: Spec)
    requires Selected(w, r, spec).Some?
    ensures
      var roots, named := Selected(w, r, spec).value, Resolve(w, r, spec.source, spec.dsl);
      && named.Some? && roots.agent == RootAgent(w, spec, named.value.agent) && roots.kernel == named.value.kernel
      && roots.sourceAgent == (if spec.replacementAgent.Some? then None else named.value.sourceAgent)
      && roots.sourceKernel == named.value.sourceKernel && roots.sourceLineage == named.value.sourceLineage
      && roots.baseline == named.value.baseline && roots.evidence == named.value.evidence
  {
  }

  /** A success has the selected roots. */
  predicate HasRoots(result: Result, campaign: CampaignId, spec: Spec, roots: Roots) {
    && result.agent == roots.agent && result.kernel == roots.kernel
    && result.sourceAgent == roots.sourceAgent && result.sourceKernel == roots.sourceKernel
    && result.provenance == ProvenanceOf(campaign, spec, roots)
    && result.evidence == EvidenceOf(SeedOf(campaign, spec.creationKey), spec, roots)
  }

  /** What the tables hold of a result, and the request's choices in both. */
  predicate Recorded(r: Reg, result: Result, campaign: CampaignId, spec: Spec) {
    var id := SeedOf(campaign, spec.creationKey);
    && id in r.lineages && id in r.baselines && r.baselines[id] == (result.agentId, result.kernelId)
    && result.lineage == id && result.campaign == campaign && r.lineages[id].campaign == campaign
    && result.dsl == spec.dsl && r.lineages[id].dsl == spec.dsl
    && r.lineages[id].config == spec.config.(bootstrapSource := result.provenance.sourceLineage)
    && result.optimizer == spec.config.optimizer && result.evolver == spec.config.evolver
    && result.agentId in r.agents && r.agents[result.agentId].optimizer == result.agent
    && r.agents[result.agentId].receipt == SeedReceipt(result.provenance)
    && result.kernelId in r.kernels && r.kernels[result.kernelId].artifact == result.kernel
    && r.kernels[result.kernelId].evaluation.result == result.gatewayResult
    && r.kernels[result.kernelId].evaluation.latency == Some(result.latency)
    && r.kernels[result.kernelId].createdAt == result.createdAt
  }

  lemma PublishHasRoots(w: Site, r: Reg, campaign: CampaignId, spec: Spec, roots: Roots, o: Oracle)
    requires campaign in r.campaigns && SeedOf(campaign, spec.creationKey) !in r.lineages
    requires Publish(w, r, campaign, spec, roots, o).1.Done?
    ensures
      var (after, outcome) := Publish(w, r, campaign, spec, roots, o);
      HasRoots(outcome.result, campaign, spec, roots) && Recorded(after, outcome.result, campaign, spec)
  {
    var id := SeedOf(campaign, spec.creationKey);
    var kernel := KernelFor(w, r, id, roots, o).value;
    EnrollDone(r, id, SeedKey(campaign, spec.creationKey), kernel,
               SeedAgent(campaign, spec, roots, kernel.createdAt),
               SeedLineageRecord(r, campaign, spec, roots, AgentOf(id)), o.crash);
  }

  lemma ProceedHasRoots(w: Site, r: Reg, campaign: CampaignId, spec: Spec, roots: Option<Roots>, o: Oracle)
    requires campaign in r.campaigns && Proceed(w, r, campaign, spec, roots, o).1.Done?
    ensures
      var (after, outcome) := Proceed(w, r, campaign, spec, roots, o);
      && roots.Some? && HasRoots(outcome.result, campaign, spec, roots.value)
      && Recorded(after, outcome.result, campaign, spec)
  {
    if SeedOf(campaign, spec.creationKey) !in r.lineages { PublishHasRoots(w, r, campaign, spec, roots.value, o); }
  }

  /** Binding the Evolver commit changes nothing a seed is made from. */
  lemma BoundTables(w: Site, r: Reg, campaign: CampaignId, spec: Spec)
    requires Bind(w, r, campaign).Did?
    ensures
      var bound := Bind(w, r, campaign).reg;
      && bound == r.(campaigns := bound.campaigns)
      && Resolve(w, bound, spec.source, spec.dsl) == Resolve(w, r, spec.source, spec.dsl)
  {
  }

  /** Every success is rooted as its request says: in the Kernel its source names, and in the Agent it
      names or the replacement, with the selected workflow; the result, the receipt and the recorded
      choices say so. */
  lemma DoneMeans(w: Site, r: Reg, campaign: CampaignId, spec: Spec, o: Oracle)
    returns (named: Digest, source: Option<AgentId>)
    requires Seed(w, r, campaign, spec, o).1.Done?
    ensures
      var (after, outcome) := Seed(w, r, campaign, spec, o);
      var result, p, id := outcome.result, outcome.result.provenance, SeedOf(campaign, spec.creationKey);
      && Names(r, spec.source, named, result.kernel, source, result.sourceKernel, p.sourceLineage)
      && Sourced(r, spec.source, spec.dsl)
      && result.agent == RootAgent(w, spec, named)
      && result.sourceAgent == (if spec.replacementAgent.Some? then None else source)
      && Recorded(after, result, campaign, spec)
      && result.evidence == (if spec.source.Baseline? then Clone(id, r.lineages[spec.source.lineage].evidence.Root())
                             else Initial(id, spec.initialEvidence))
      && p == Provenance(campaign, id, spec.creationKey, spec.dsl, result.agent, result.kernel, result.sourceAgent,
                         result.sourceKernel, p.sourceLineage, result.evidence, spec.config.observer, spec.workflow,
                         spec.config.visibility, spec.config.raw, spec.config.devOnly, spec.config.readResults,
                         spec.config.toolModules)
  {
    var bound := Bind(w, r, campaign).reg;
    BoundTables(w, r, campaign, spec);
    ProceedHasRoots(w, bound, campaign, spec, Selected(w, bound, spec), o);
    SelectedMeans(w, bound, spec);
    ResolveMeans(w, r, spec.source, spec.dsl);
    var roots := Resolve(w, r, spec.source, spec.dsl).value;
    named, source := roots.agent, roots.sourceAgent;
  }

  /** A Lineage is only created in an active Campaign, with an Agent that rebuilds to itself, and, if it is
      observed, next to an observer of the same DSL, cloned from the same source, in a Campaign of the
      same operator, hardware, contract and problem. */
  lemma CreationMeans(w: Site, r: Reg, campaign: CampaignId, spec: Spec, o: Oracle)
    requires Seed(w, r, campaign, spec, o).1.Done? && SeedOf(campaign, spec.creationKey) !in r.lineages
    ensures
      var result := Seed(w, r, campaign, spec, o).1.result;
      && campaign in r.campaigns && r.campaigns[campaign].active && o.rebuilt == result.agent
      && (spec.config.observer.Some? ==>
            && spec.config.observer.value in r.lineages
            && var x := r.lineages[spec.config.observer.value];
               && x.dsl == spec.dsl && spec.source.Baseline?
               && x.config.bootstrapSource == Some(spec.source.lineage) && x.campaign in r.campaigns
               && r.campaigns[x.campaign].operator == r.campaigns[campaign].operator
               && r.campaigns[x.campaign].hardware == r.campaigns[campaign].hardware
               && r.campaigns[x.campaign].contract == r.campaigns[campaign].contract
               && r.campaigns[x.campaign].problem == r.campaigns[campaign].problem)
  {
    var bound := Bind(w, r, campaign).reg;
    BoundTables(w, r, campaign, spec);
    BoundCampaigns(w, r, campaign);
    ProceedHasRoots(w, bound, campaign, spec, Selected(w, bound, spec), o);
    SelectedMeans(w, bound, spec);
    ResolveMeans(w, r, spec.source, spec.dsl);
  }

  /** A Kernel that is already registered is only used if it is correct and measured. */
  lemma UsedKernelMeans(w: Site, r: Reg, campaign: CampaignId, spec: Spec, o: Oracle)
    requires Seed(w, r, campaign, spec, o).1.Done? && SeedOf(campaign, spec.creationKey) !in r.lineages
    requires KernelOf(SeedOf(campaign, spec.creationKey)) in r.kernels
    ensures
      var k := r.kernels[KernelOf(SeedOf(campaign, spec.creationKey))];
      k.artifact == Seed(w, r, campaign, spec, o).1.result.kernel && k.evaluation.correct && k.evaluation.latency.Some?
  {
    var bound := Bind(w, r, campaign).reg;
    BoundTables(w, r, campaign, spec);
    ProceedHasRoots(w, bound, campaign, spec, Selected(w, bound, spec), o);
    assert KernelFor(w, bound, SeedOf(campaign, spec.creationKey), Selected(w, bound, spec).value, o).Some?;
  }

  lemma BoundCampaigns(w: Site, r: Reg, campaign: CampaignId)
    requires Bind(w, r, campaign).Did?
    ensures
      var bound := Bind(w, r, campaign).reg;
      && bound.campaigns.Keys == r.campaigns.Keys
      && forall c :: c in r.campaigns ==>
           && bound.campaigns[c].Identity() == r.campaigns[c].Identity()
           && bound.campaigns[c].active == r.campaigns[c].active
  {
    var bound := Bind(w, r, campaign).reg;
    if w.evolverCommit.Some? && r.campaigns[campaign].evolverCommit.None? {
      assert bound.campaigns == r.campaigns[campaign := r.campaigns[campaign].(evolverCommit := w.evolverCommit)];
    } else {
      assert bound == r;
    }
  }

  /** The first Kernel record of a seed: the artifact its source names, produced by no Attempt, correct
      and measured. Its evaluation is that of the cloned baseline, or else a fresh one of this very
      artifact. */
  predicate FirstRecord(w: Site, r: Reg, spec: Spec, o: Oracle, k: Kernel) {
    && k.attempt.None? && k.createdAt == o.now && k.evaluation.correct && k.evaluation.latency.Some?
    && match spec.source
       case Baseline(l) =>
         l in r.baselines && r.baselines[l].1 in r.kernels && k.evaluation == r.kernels[r.baselines[l].1].evaluation
         && k.artifact == r.kernels[r.baselines[l].1].artifact
       case _ =>
         && k.evaluation == o.evaluation && k.artifact == o.artifact
         && k.evaluation.result in w.kinds && w.kinds[k.evaluation.result] == GatewayResult
  }

  lemma EnrolledKernel(r: Reg, id: LineageId, key: CreationKey, kernel: Kernel, agent: Agent, lineage: Lineage,
                       crash: nat)
    requires KernelOf(id) !in r.kernels && KernelOf(id) in Enroll(r, id, key, kernel, agent, lineage, crash).0.kernels
    ensures Enroll(r, id, key, kernel, agent, lineage, crash).0.kernels[KernelOf(id)] == kernel
  {
    if crash != 1 {
      var step := RegisterKernel(r, KernelOf(id), kernel);
      EnrolledKernels(step.reg, id, key, agent, lineage, crash);
    }
  }

  lemma EnrolledKernels(r: Reg, id: LineageId, key: CreationKey, agent: Agent, lineage: Lineage, crash: nat)
    ensures EnrollAgent(r, id, key, agent, lineage, crash).0.kernels == r.kernels
  {
    var step := RegisterAgent(r, AgentOf(id), key, agent);
    if step.Did? {
      assert step.reg.kernels == r.kernels;
      LastKernels(step.reg, id, step.value, lineage, crash);
    }
  }

  lemma LastKernels(r: Reg, id: LineageId, agent: AgentId, lineage: Lineage, crash: nat)
    ensures EnrollLineage(r, id, agent, lineage, crash).0.kernels == r.kernels
  {
    var step := InsertLineage(r, id, lineage.(activeAgent := agent));
    assert step.Did? ==> step.reg.kernels == r.kernels;
  }

  lemma FirstKernelMeans(w: Site, r: Reg, campaign: CampaignId, spec: Spec, o: Oracle)
    requires
      var kernel := KernelOf(SeedOf(campaign, spec.creationKey));
      kernel !in r.kernels && kernel in Seed(w, r, campaign, spec, o).0.kernels
    ensures
      var kernel := KernelOf(SeedOf(campaign, spec.creationKey));
      FirstRecord(w, r, spec, o, Seed(w, r, campaign, spec, o).0.kernels[kernel])
  {
    var bound, id := Bind(w, r, campaign).reg, SeedOf(campaign, spec.creationKey);
    BoundTables(w, r, campaign, spec);
    var roots := Selected(w, bound, spec);
    SelectedMeans(w, bound, spec);
    ResolveMeans(w, r, spec.source, spec.dsl);
    PublishEnrols(w, bound, campaign, spec, roots.value, o);
    var kernel := KernelFor(w, bound, id, roots.value, o).value;
    EnrolledKernel(bound, id, SeedKey(campaign, spec.creationKey), kernel,
                   SeedAgent(campaign, spec, roots.value, kernel.createdAt),
                   SeedLineageRecord(bound, campaign, spec, roots.value, AgentOf(id)), o.crash);
  }

  lemma EnrolledLineage(r: Reg, id: LineageId, key: CreationKey, kernel: Kernel, agent: Agent, lineage: Lineage,
                        crash: nat)
    requires id !in r.lineages && id in Enroll(r, id, key, kernel, agent, lineage, crash).0.lineages
    ensures
      var after := Enroll(r, id, key, kernel, agent, lineage, crash).0;
      && after.lineages[id].(activeAgent := lineage.activeAgent) == lineage
      && after.lineages[id].activeAgent in after.agents
      && after.agents[after.lineages[id].activeAgent].Content() == agent.Content()
      && id in after.baselines && after.baselines[id] == (after.lineages[id].activeAgent, lineage.bestKernel)
      && lineage.bestKernel in after.kernelDsl && after.kernelDsl[lineage.bestKernel] == lineage.dsl
  {
    var step := RegisterKernel(r, KernelOf(id), kernel);
    assert step.Did? ==> step.reg.lineages == r.lineages;
    if crash != 1 && step.Did? { EnrolledAfterKernel(step.reg, id, key, agent, lineage, crash); }
  }

  lemma EnrolledAfterKernel(r: Reg, id: LineageId, key: CreationKey, agent: Agent, lineage: Lineage, crash: nat)
    requires id !in r.lineages && id in EnrollAgent(r, id, key, agent, lineage, crash).0.lineages
    ensures
      var after := EnrollAgent(r, id, key, agent, lineage, crash).0;
      && after.lineages[id].(activeAgent := lineage.activeAgent) == lineage
      && after.lineages[id].activeAgent in after.agents
      && after.agents[after.lineages[id].activeAgent].Content() == agent.Content()
      && id in after.baselines && after.baselines[id] == (after.lineages[id].activeAgent, lineage.bestKernel)
      && lineage.bestKernel in after.kernelDsl && after.kernelDsl[lineage.bestKernel] == lineage.dsl
  {
    var step := RegisterAgent(r, AgentOf(id), key, agent);
    assert step.Did? ==> step.reg.lineages == r.lineages;
  }

  /** The record of a Lineage that a call creates, also one that is interrupted right after: ready for its
      first Epoch on the Campaign's hardware, with the request's choices, its own Kernel, an Agent of the
      request's DSL and the Evidence of its source. The version-0 links name that Agent and Kernel, and
      the Kernel belongs to the DSL. */
  lemma FirstLineageMeans(w: Site, r: Reg, campaign: CampaignId, spec: Spec, o: Oracle)
    requires
      var id := SeedOf(campaign, spec.creationKey);
      id !in r.lineages && id in Seed(w, r, campaign, spec, o).0.lineages
    ensures
      var after, id := Seed(w, r, campaign, spec, o).0, SeedOf(campaign, spec.creationKey);
      var l := after.lineages[id];
      && campaign in r.campaigns && l.campaign == campaign && l.dsl == spec.dsl
      && l.hardware == r.campaigns[campaign].hardware && l.nextEpoch == 1 && l.ready && l.bestKernel == KernelOf(id)
      && l.config == spec.config.(bootstrapSource := if spec.source.Baseline? then Some(spec.source.lineage) else None)
      && (if spec.source.Baseline? then
            spec.source.lineage in r.lineages
            && l.evidence == Clone(id, r.lineages[spec.source.lineage].evidence.Root())
          else l.evidence == Initial(id, spec.initialEvidence))
      && l.activeAgent in after.agents && after.agents[l.activeAgent].dsl == spec.dsl
      && id in after.baselines && after.baselines[id] == (l.activeAgent, KernelOf(id))
      && KernelOf(id) in after.kernelDsl && after.kernelDsl[KernelOf(id)] == spec.dsl
  {
    var bound, id := Bind(w, r, campaign).reg, SeedOf(campaign, spec.creationKey);
    BoundTables(w, r, campaign, spec);
    BoundHardware(w, r, campaign);
    var roots := Selected(w, bound, spec);
    SelectedMeans(w, bound, spec);
    ResolveMeans(w, r, spec.source, spec.dsl);
    PublishEnrols(w, bound, campaign, spec, roots.value, o);
    var kernel := KernelFor(w, bound, id, roots.value, o).value;
    EnrolledLineage(bound, id, SeedKey(campaign, spec.creationKey), kernel,
                    SeedAgent(campaign, spec, roots.value, kernel.createdAt),
                    SeedLineageRecord(bound, campaign, spec, roots.value, AgentOf(id)), o.crash);
  }

  lemma BoundHardware(w: Site, r: Reg, campaign: CampaignId)
    requires Bind(w, r, campaign).Did? && campaign in Bind(w, r, campaign).reg.campaigns
    ensures campaign in r.campaigns
    ensures Bind(w, r, campaign).reg.campaigns[campaign].hardware == r.campaigns[campaign].hardware
  {
    BoundCampaigns(w, r, campaign);
    assert Bind(w, r, campaign).reg.campaigns[campaign].Identity() == r.campaigns[campaign].Identity();
  }

  /** The root of an Evidence is the Epoch-0 checkpoint it starts from, however much has been added. */
  lemma {:induction false} RootMeans(c: Checkpoint, note: string)
    ensures Later(c, note).Root() == c.Root() && !c.Root().Later?
    ensures !c.Later? ==> c.Root() == c
  {
    if c.Later? { RootMeans(c.previous, note); }
  }
}
