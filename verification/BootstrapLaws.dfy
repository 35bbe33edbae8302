/** What a bootstrap leaves, in the terms of its request and of the generator's outcome. */
module BootstrapLaws {
  import opened Wrappers
  import opened SeedRegistry
  import opened LineageSeed
  import opened Bootstrap

  /** What the generator answers: a completed outcome again; nothing for an outcome without a completed
      run; else the fresh answer, if there is one, if it is correct and measured, and if the call is not
      interrupted inside. Whatever it answers is on record as completed. */
  lemma GenerateMeans(was: Recorded, o: BootOracle)
    ensures
      var (now, answer) := Generate(was, o);
      && (was.Completed? ==> now == was && answer == Some(was.generated))
      && (was.Outcome? ==> now == was && answer == None)
      && (was.Nothing? && o.generated == None ==> now == Nothing && answer == None)
      && (was.Nothing? && o.generated.Some? ==>
            var g := o.generated.value;
            if o.crash != 2 && g.evaluation.correct && g.evaluation.latency.Some?
            then now == Completed(g) && answer == Some(g)
            else now == Outcome(g) && answer == None)
  {
  }

  /** The Campaign, the Lineage, the Agent and the Kernel of a success. */
  predicate Holds(r: Reg, spec: BootSpec, result: BootResult) {
    var id := BootLineage(spec.creationKey, spec.dsl);
    && result.campaign == BootOf(spec.creationKey) && result.lineage == id && result.kernelId == KernelOf(id)
    && result.campaign in r.campaigns && id in r.lineages && result.agentId in r.agents && KernelOf(id) in r.kernels
    && var c, l, a := r.campaigns[result.campaign], r.lineages[id], r.agents[result.agentId];
       && c.operator == spec.operator && c.hardware == spec.hardware
       && c.contract == spec.contract == result.contract && c.problem == spec.problem == result.problem
       && c.problemModel == spec.problemModel && c.evolverCommit == spec.commit
       && l.campaign == result.campaign && l.dsl == spec.dsl && l.hardware == spec.hardware
       && l.config.maxChallengers == spec.maxChallengers && l.config.attemptBudget == spec.attemptBudget
       && l.config.optimizer == spec.optimizerModel == result.optimizer
       && l.config.evolver == spec.evolverModel == result.evolver
       && (l.nextEpoch == 1 ==> l.activeAgent == result.agentId && l.bestKernel == KernelOf(id))
       && a.dsl == spec.dsl && a.optimizer == spec.optimizer == result.agent && a.receipt == BaseReceipt(spec.base)
       && a.createdAt == result.agentCreated
  }

  /** What a call that creates the Lineage has added: the generated Kernel with its measurement, and a
      Lineage ready for its first Epoch whose Evidence holds the generated report. */
  predicate Created(r: Reg, spec: BootSpec, result: BootResult, g: Generated) {
    var id := BootLineage(spec.creationKey, spec.dsl);
    && id in r.lineages && KernelOf(id) in r.kernels
    && r.kernels[KernelOf(id)].artifact == g.kernel && r.kernels[KernelOf(id)].evaluation == g.evaluation
    && r.kernels[KernelOf(id)].attempt == None
    && r.lineages[id] == Lineage(BootOf(spec.creationKey), spec.dsl, spec.hardware, r.lineages[id].config,
                                 result.agentId, KernelOf(id), Initial(id, Some(g.report)), 1, true)
    && r.lineages[id].config == Config(spec.maxChallengers, spec.attemptBudget, spec.optimizerModel, spec.evolverModel,
                                       None, None, "isolated", None, true, false, false)
    && id in r.baselines && r.baselines[id] == (result.agentId, KernelOf(id))
    && KernelOf(id) in r.kernelDsl && r.kernelDsl[KernelOf(id)] == spec.dsl
    && result.evidence == Initial(id, Some(g.report))
  }

  lemma NewMeans(r: Reg, spec: BootSpec, agent: AgentId, g: Generated, now: Time, crash: nat)
    requires agent in r.agents && r.agents[agent].Content() == BootAgent(spec, now).Content()
    requires spec.Lineage() !in r.lineages && spec.Campaign() in r.campaigns
    requires SameCampaign(r.campaigns[spec.Campaign()], spec)
    requires BootNew(r, spec, agent, g, now, crash).1.Booted?
    ensures
      var (after, outcome) := BootNew(r, spec, agent, g, now, crash);
      Holds(after, spec, outcome.result) && Created(after, spec, outcome.result, g)
  {
    var id, record := spec.Lineage(), BootLineageRecord(spec, agent, g);
    var step1 := RegisterKernel(r, KernelOf(id), BootKernel(g, now));
    RegisterKernelMeans(r, KernelOf(id), BootKernel(g, now));
    var step2 := InsertLineage(step1.reg, id, record);
    InsertLineageMeans(step1.reg, id, record);
    assert BootNew(r, spec, agent, g, now, crash).0 == step2.reg;
    var result := BootNew(r, spec, agent, g, now, crash).1.result;
    assert step2.reg.kernels == step1.reg.kernels && step2.reg.agents == r.agents && step2.reg.campaigns == r.campaigns;
    StoredHolds(step2.reg, spec, agent, g, result);
    StoredCreated(step2.reg, spec, agent, g, result);
  }

  lemma StoredHolds(r: Reg, spec: BootSpec, agent: AgentId, g: Generated, result: BootResult)
    requires spec.Campaign() in r.campaigns && SameCampaign(r.campaigns[spec.Campaign()], spec)
    requires agent in r.agents && r.agents[agent].Content() == BootAgent(spec, "").Content()
    requires spec.Lineage() in r.lineages && r.lineages[spec.Lineage()] == BootLineageRecord(spec, agent, g)
    requires KernelOf(spec.Lineage()) in r.kernels
    requires result.campaign == spec.Campaign() && result.lineage == spec.Lineage() && result.agentId == agent
    requires result.kernelId == KernelOf(spec.Lineage()) && result.contract == spec.contract
    requires result.problem == spec.problem && result.agentCreated == r.agents[agent].createdAt
    requires result.agent == r.agents[agent].optimizer
    requires result.optimizer == spec.optimizerModel && result.evolver == spec.evolverModel
    ensures Holds(r, spec, result)
  {
  }

  lemma StoredCreated(r: Reg, spec: BootSpec, agent: AgentId, g: Generated, result: BootResult)
    requires spec.Lineage() in r.lineages && r.lineages[spec.Lineage()] == BootLineageRecord(spec, agent, g)
    requires KernelOf(spec.Lineage()) in r.kernels
    requires r.kernels[KernelOf(spec.Lineage())].(createdAt := "") == BootKernel(g, "")
    requires spec.Lineage() in r.baselines && r.baselines[spec.Lineage()] == (agent, KernelOf(spec.Lineage()))
    requires KernelOf(spec.Lineage()) in r.kernelDsl && r.kernelDsl[KernelOf(spec.Lineage())] == spec.dsl
    requires result.agentId == agent && result.evidence == BootEvidence(spec, g)
    ensures Created(r, spec, result, g)
  {
  }

  lemma ExistingMeans(r: Reg, spec: BootSpec, agent: AgentId)
    requires agent in r.agents && r.agents[agent].Content() == BootAgent(spec, "").Content()
    requires spec.Lineage() in r.lineages && spec.Campaign() in r.campaigns
    requires SameCampaign(r.campaigns[spec.Campaign()], spec)
    requires BootExisting(r, spec, agent).Booted?
    ensures Holds(r, spec, BootExisting(r, spec, agent).result)
    ensures BootExisting(r, spec, agent).result.evidence == r.lineages[spec.Lineage()].evidence.Root()
  {
  }

  /** Every success has the requested Campaign, Agent and Lineage. If the call creates the Lineage, its
      roots are what the generator answered. */
  lemma BootedMeans(r: Reg, was: Recorded, spec: BootSpec, o: BootOracle)
    requires Boot(r, was, spec, o).2.Booted?
    ensures
      var (after, now, outcome) := Boot(r, was, spec, o);
      && Holds(after, spec, outcome.result)
      && (BootLineage(spec.creationKey, spec.dsl) in r.lineages ==>
            && now == was
            && outcome.result.evidence == r.lineages[BootLineage(spec.creationKey, spec.dsl)].evidence.Root())
      && (BootLineage(spec.creationKey, spec.dsl) !in r.lineages ==>
            now.Completed? && Created(after, spec, outcome.result, now.generated))
  {
    EnsuredCampaign(r, spec, o.now);
    var ensured := EnsureCampaign(r, spec, o.now).0;
    RestMeans(ensured, was, spec, o);
  }

  /** The Kernel and the Agent a call adds carry its time. */
  lemma NewRecordsMeans(r: Reg, was: Recorded, spec: BootSpec, o: BootOracle)
    ensures
      var after, id := Boot(r, was, spec, o).0, BootLineage(spec.creationKey, spec.dsl);
      && (KernelOf(id) in after.kernels && KernelOf(id) !in r.kernels ==>
            after.kernels[KernelOf(id)].createdAt == o.now)
      && (AgentOf(id) in after.agents && AgentOf(id) !in r.agents ==> after.agents[AgentOf(id)].createdAt == o.now)
  {
    EnsuredCampaign(r, spec, o.now);
    RestAdds(EnsureCampaign(r, spec, o.now).0, was, spec, o);
  }

  lemma NewAdds(r: Reg, spec: BootSpec, agent: AgentId, g: Generated, now: Time, crash: nat)
    requires agent in r.agents
    ensures
      var after, id := BootNew(r, spec, agent, g, now, crash).0, spec.Lineage();
      && after.agents == r.agents
      && (KernelOf(id) in after.kernels && KernelOf(id) !in r.kernels ==> after.kernels[KernelOf(id)].createdAt == now)
  {
    var id := spec.Lineage();
    var step1 := RegisterKernel(r, KernelOf(id), BootKernel(g, now));
    RegisterKernelMeans(r, KernelOf(id), BootKernel(g, now));
    if step1.Did? { InsertLineageMeans(step1.reg, id, BootLineageRecord(spec, agent, g)); }
  }

  lemma AfterAdds(r: Reg, was: Recorded, spec: BootSpec, agent: AgentId, o: BootOracle)
    requires agent in r.agents
    ensures
      var after, id := BootAfter(r, was, spec, agent, o).0, spec.Lineage();
      && after.agents == r.agents
      && (KernelOf(id) in after.kernels && KernelOf(id) !in r.kernels ==>
            after.kernels[KernelOf(id)].createdAt == o.now)
  {
    var g := Generate(was, o).1;
    if g.Some? { NewAdds(r, spec, agent, g.value, o.now, o.crash); }
  }

  lemma RestAdds(r: Reg, was: Recorded, spec: BootSpec, o: BootOracle)
    ensures
      var after, id := BootRest(r, was, spec, o).0, spec.Lineage();
      && (KernelOf(id) in after.kernels && KernelOf(id) !in r.kernels ==>
            after.kernels[KernelOf(id)].createdAt == o.now)
      && (AgentOf(id) in after.agents && AgentOf(id) !in r.agents ==> after.agents[AgentOf(id)].createdAt == o.now)
  {
    var step := RegisterAgent(r, AgentOf(spec.Lineage()), spec.Key(), BootAgent(spec, o.now));
    RegisterAgentMeans(r, AgentOf(spec.Lineage()), spec.Key(), BootAgent(spec, o.now));
    if step.Did? {
      assert step.reg.kernels == r.kernels;
      AfterAdds(step.reg, was, spec, step.value, o);
    }
  }

  /** A Campaign that a call adds is active, and is the request's, of the call's time. */
  lemma NewCampaignMeans(r: Reg, spec: BootSpec, now: Time)
    requires BootOf(spec.creationKey) !in r.campaigns
    ensures
      var c := Campaign(spec.operator, spec.hardware, spec.contract, spec.problem, now, true,
                        spec.problemModel, spec.commit);
      EnsureCampaign(r, spec, now) == (r.(campaigns := r.campaigns[BootOf(spec.creationKey) := c]), true)
  {
  }

  lemma RestMeans(r: Reg, was: Recorded, spec: BootSpec, o: BootOracle)
    requires spec.Campaign() in r.campaigns && SameCampaign(r.campaigns[spec.Campaign()], spec)
    requires BootRest(r, was, spec, o).2.Booted?
    ensures
      var (after, now, outcome) := BootRest(r, was, spec, o);
      && Holds(after, spec, outcome.result)
      && (spec.Lineage() in r.lineages ==>
            now == was && outcome.result.evidence == r.lineages[spec.Lineage()].evidence.Root())
      && (spec.Lineage() !in r.lineages ==> now.Completed? && Created(after, spec, outcome.result, now.generated))
  {
    var step := RegisterAgent(r, AgentOf(spec.Lineage()), spec.Key(), BootAgent(spec, o.now));
    assert step.reg.campaigns == r.campaigns && step.reg.lineages == r.lineages;
    if spec.Lineage() in r.lineages {
      ExistingMeans(step.reg, spec, step.value);
    } else {
      GenerateMeans(was, o);
      NewMeans(step.reg, spec, step.value, Generate(was, o).1.value, o.now, o.crash);
    }
  }
}
