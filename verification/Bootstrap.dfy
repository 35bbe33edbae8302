/** The idempotent steps that create one Lineage of a Campaign (`bootstrap.py`), and the baseline
    generator that remembers its outcome across them (`composition/bootstrap.py`). */
module Bootstrap {
  import opened Wrappers
  import opened SeedRegistry
  import opened LineageSeed

  /** One Lineage's request; `commit` is the Evolver commit the process is configured with, `base` the
      receipt of the base revision the Agent comes from. */
  datatype BootSpec = BootSpec(
    creationKey: string, dsl: Dsl, operator: string, hardware: string, problemModel: Option<string>,
    commit: Option<string>, contract: Digest, problem: Digest, optimizer: Digest, base: Digest,
    maxChallengers: nat, attemptBudget: nat, optimizerModel: Option<string>, evolverModel: Option<string>)
  {
    function Campaign(): CampaignId { BootOf(creationKey) }

    function Lineage(): LineageId { BootLineage(creationKey, dsl) }

    function Key(): CreationKey { BootKey(creationKey, dsl) }

    function Id(): Identity { Identity(Lineage(), Key()) }

    function Config(): Config {
      SeedRegistry.Config(maxChallengers, attemptBudget, optimizerModel, evolverModel, None, None, "isolated", None,
                          true, false, false)
    }

    /** The part all Lineages of one Campaign share. */
    function Shared(): (string, string, Option<string>, Option<string>, Digest, Digest) {
      (operator, hardware, problemModel, commit, contract, problem)
    }
  }

  /** A generated baseline: its Kernel, its measurement, and the report and trace its Evidence is made of. */
  datatype Generated = Generated(kernel: Digest, evaluation: Evaluation, report: string)
  {
    /** Only a correct and measured outcome is used. */
    predicate Good() { evaluation.correct && evaluation.latency.Some? }
  }

  /** What the generator has on record under the bootstrap Attempt: nothing; an authoritative outcome
      whose run has not been recorded as completed; or both. */
  datatype Recorded = Nothing | Outcome(generated: Generated) | Completed(generated: Generated)

  /** Where the call is interrupted, what a fresh generation would produce, if anything, and the clock. */
  datatype BootOracle = BootOracle(crash: nat, generated: Option<Generated>, now: Time)

  datatype BootResult = BootResult(
    campaign: CampaignId, lineage: LineageId, agentId: AgentId, kernelId: KernelId, contract: Digest, problem: Digest,
    evidence: Checkpoint, kernelCreated: Time, agentCreated: Time, agent: Digest,
    optimizer: Option<string>, evolver: Option<string>)

  datatype BootOutcome = Booted(result: BootResult) | Failed | Interrupted

  function BootCampaign(spec: BootSpec, now: Time): Campaign {
    SeedRegistry.Campaign(spec.operator, spec.hardware, spec.contract, spec.problem, now, true, spec.problemModel,
                          spec.commit)
  }

  predicate SameCampaign(c: Campaign, spec: BootSpec) {
    && c.Identity() == (spec.operator, spec.hardware, spec.contract, spec.problem)
    && c.problemModel == spec.problemModel && c.evolverCommit == spec.commit
  }

  /** An existing Campaign is first bound to the configured Evolver commit, in a transaction of its own. */
  function BindCampaign(r: Reg, spec: BootSpec): Called<()> {
    if spec.commit.Some? then EnsureCommit(r, spec.Campaign(), spec.commit.value) else Did(r, ())
  }

  /** The Campaign is inserted; an existing one must be the requested one, and the answer says whether
      it is. */
  function EnsureCampaign(r: Reg, spec: BootSpec, now: Time): (Reg, bool) {
    var id := spec.Campaign();
    if id !in r.campaigns then (r.(campaigns := r.campaigns[id := BootCampaign(spec, now)]), true)
    else
      var bound := BindCampaign(r, spec);
      if bound.Refused? || id !in bound.reg.campaigns then (r, false)
      else (bound.reg, SameCampaign(bound.reg.campaigns[id], spec))
  }

  function BootAgent(spec: BootSpec, now: Time): Agent { Agent(spec.dsl, spec.optimizer, BaseReceipt(spec.base), now) }

  function BootKernel(g: Generated, now: Time): Kernel { Kernel(g.kernel, g.evaluation, None, now) }

  function BootEvidence(spec: BootSpec, g: Generated): Checkpoint { Initial(spec.Lineage(), Some(g.report)) }

  function BootLineageRecord(spec: BootSpec, agent: AgentId, g: Generated): Lineage {
    SeedRegistry.Lineage(spec.Campaign(), spec.dsl, spec.hardware, spec.Config(), agent, KernelOf(spec.Lineage()),
                         BootEvidence(spec, g), 1, true)
  }

  /** The Lineage was created by this request, and still has its first roots if it is in its first Epoch. */
  predicate SameRequest(l: Lineage, spec: BootSpec, agent: AgentId) {
    && l.campaign == spec.Campaign() && l.dsl == spec.dsl && l.hardware == spec.hardware
    && l.config.maxChallengers == spec.maxChallengers && l.config.attemptBudget == spec.attemptBudget
    && l.config.optimizer == spec.optimizerModel && l.config.evolver == spec.evolverModel
    && (l.nextEpoch == 1 ==> l.activeAgent == agent && l.bestKernel == KernelOf(spec.Lineage()))
  }

  /** The result for an existing Lineage; its Epoch-0 Evidence is found again however far it has evolved. */
  function BootExisting(r: Reg, spec: BootSpec, agent: AgentId): BootOutcome
    requires spec.Lineage() in r.lineages && agent in r.agents
  {
    var l, kernel := r.lineages[spec.Lineage()], KernelOf(spec.Lineage());
    if !SameRequest(l, spec, agent) || kernel !in r.kernels then Failed
    else
      Booted(BootResult(spec.Campaign(), spec.Lineage(), agent, kernel, spec.contract, spec.problem, l.evidence.Root(),
                        r.kernels[kernel].createdAt, r.agents[agent].createdAt, r.agents[agent].optimizer,
                        spec.optimizerModel, spec.evolverModel))
  }

  /** The baseline of a new Lineage. The result carries the timestamp of this call. */
  function BootNew(r: Reg, spec: BootSpec, agent: AgentId, g: Generated, now: Time, crash: nat): (Reg, BootOutcome)
    requires agent in r.agents
  {
    var id := spec.Lineage();
    var step1 := RegisterKernel(r, KernelOf(id), BootKernel(g, now));
    if crash == 3 then (r, Interrupted)
    else if step1.Refused? then (r, Failed)
    else if crash == 4 then (step1.reg, Interrupted)
    else
      var step2 := InsertLineage(step1.reg, id, BootLineageRecord(spec, agent, g));
      if step2.Refused? then (step1.reg, Failed)
      else if crash == 5 then (step2.reg, Interrupted)
      else
        (step2.reg,
         Booted(BootResult(spec.Campaign(), id, agent, KernelOf(id), spec.contract, spec.problem, BootEvidence(spec, g),
                           now, r.agents[agent].createdAt, r.agents[agent].optimizer,
                           spec.optimizerModel, spec.evolverModel)))
  }

  /** The generator records its outcome and then, in a second transaction, its completed run. It returns
      a completed outcome again, and raises on an outcome without a completed run; an outcome that is
      not good never gets one. */
  function Generate(was: Recorded, o: BootOracle): (Recorded, Option<Generated>) {
    match was
    case Completed(g) => (was, Some(g))
    case Outcome(_) => (was, None)
    case Nothing =>
      if o.generated.None? then (Nothing, None)
      else if o.crash == 2 || !o.generated.value.Good() then (Outcome(o.generated.value), None)
      else (Completed(o.generated.value), o.generated)
  }

  predicate CutInside(was: Recorded, o: BootOracle) { was.Nothing? && o.generated.Some? && o.crash == 2 }

  function BootAfter(r: Reg, was: Recorded, spec: BootSpec, agent: AgentId, o: BootOracle): (Reg, Recorded, BootOutcome)
    requires agent in r.agents
  {
    if o.crash == 1 then (r, was, Interrupted)
    else if spec.Lineage() in r.lineages then (r, was, BootExisting(r, spec, agent))
    else
      var (now, generated) := Generate(was, o);
      if generated.None? then (r, now, if CutInside(was, o) then Interrupted else Failed)
      else
        var (after, outcome) := BootNew(r, spec, agent, generated.value, o.now, o.crash);
        (after, now, outcome)
  }

  function BootRest(r: Reg, was: Recorded, spec: BootSpec, o: BootOracle): (Reg, Recorded, BootOutcome) {
    var step := RegisterAgent(r, AgentOf(spec.Lineage()), spec.Key(), BootAgent(spec, o.now));
    if step.Refused? then (r, was, Failed) else BootAfter(step.reg, was, spec, step.value, o)
  }

  /** One call for one Lineage. */
  function Boot(r: Reg, was: Recorded, spec: BootSpec, o: BootOracle): (Reg, Recorded, BootOutcome) {
    var (ensured, same) := EnsureCampaign(r, spec, o.now);
    if !same then (ensured, was, Failed)
    else if o.crash == 0 then (ensured, was, Interrupted)
    else BootRest(ensured, was, spec, o)
  }

  // ---- The same steps on the stores -------------------------------------------------------

  /** The gateway's record of bootstrap outcomes. */
  class Outcomes {
    var recorded: map<LineageId, Recorded>

    function Of(id: LineageId): Recorded reads this { if id in recorded then recorded[id] else Nothing }

    constructor ()
      ensures recorded == map[]
    {
      recorded := map[];
    }

    method Produce(id: LineageId, o: BootOracle) returns (g: Option<Generated>)
      modifies this
      ensures (Of(id), g) == Generate(old(Of(id)), o)
      ensures forall other :: other != id ==> Of(other) == old(Of(other))
    {
      var was := Of(id);
      if was.Completed? {
        return Some(was.generated);
      }
      if was.Outcome? || o.generated.None? {
        return None;
      }
      recorded := recorded[id := Outcome(o.generated.value)];
      if o.crash == 2 || !o.generated.value.Good() {
        return None;
      }
      recorded := recorded[id := Completed(o.generated.value)];
      g := o.generated;
    }
  }

  method BootstrapLineage(registry: Registry, outcomes: Outcomes, spec: BootSpec,
                          o: BootOracle) returns (outcome: BootOutcome)
    modifies registry, outcomes
    ensures (registry.tables, outcomes.Of(spec.Lineage()), outcome)
      == Boot(old(registry.tables), old(outcomes.Of(spec.Lineage())), spec, o)
    ensures forall other :: other != spec.Lineage() ==> outcomes.Of(other) == old(outcomes.Of(other))
  {
    var campaign := spec.Campaign();
    if campaign in registry.tables.campaigns {
      var ok := true;
      if spec.commit.Some? {
        ok := registry.BindCommit(campaign, spec.commit.value);
      }
      if !ok || !SameCampaign(registry.tables.campaigns[campaign], spec) {
        return Failed;
      }
    } else {
      var _ := registry.AddCampaign(campaign, BootCampaign(spec, o.now));
    }
    if o.crash == 0 {
      return Interrupted;
    }
    outcome := BootstrapRest(registry, outcomes, spec, o);
  }

  method BootstrapRest(registry: Registry, outcomes: Outcomes, spec: BootSpec,
                       o: BootOracle) returns (outcome: BootOutcome)
    modifies registry, outcomes
    ensures (registry.tables, outcomes.Of(spec.Lineage()), outcome)
      == BootRest(old(registry.tables), old(outcomes.Of(spec.Lineage())), spec, o)
    ensures forall other :: other != spec.Lineage() ==> outcomes.Of(other) == old(outcomes.Of(other))
  {
    var id := spec.Lineage();
    var agent := registry.AddAgent(AgentOf(id), spec.Key(), BootAgent(spec, o.now));
    if agent.None? {
      return Failed;
    }
    if o.crash == 1 {
      return Interrupted;
    }
    if id in registry.tables.lineages {
      return BootExisting(registry.tables, spec, agent.value);
    }
    var was := outcomes.Of(id);
    var g := outcomes.Produce(id, o);
    if g.None? {
      return if CutInside(was, o) then Interrupted else Failed;
    }
    outcome := BootstrapNew(registry, spec, agent.value, g.value, o.now, o.crash);
  }

  method BootstrapNew(registry: Registry, spec: BootSpec, agent: AgentId, g: Generated, now: Time, crash: nat)
    returns (outcome: BootOutcome)
    requires agent in registry.tables.agents
    modifies registry
    ensures (registry.tables, outcome) == BootNew(old(registry.tables), spec, agent, g, now, crash)
  {
    var id := spec.Lineage();
    var record := registry.tables.agents[agent];
    if crash == 3 {
      return Interrupted;
    }
    var ok := registry.AddKernel(KernelOf(id), BootKernel(g, now));
    if !ok {
      return Failed;
    }
    if crash == 4 {
      return Interrupted;
    }
    ok := registry.AddLineage(id, BootLineageRecord(spec, agent, g));
    if !ok {
      return Failed;
    }
    if crash == 5 {
      return Interrupted;
    }
    outcome := Booted(BootResult(spec.Campaign(), id, agent, KernelOf(id), spec.contract, spec.problem,
                                 BootEvidence(spec, g), now, record.createdAt, record.optimizer,
                                 spec.optimizerModel, spec.evolverModel));
  }

  // ---- What a success says ----------------------------------------------------------------

  /** What the durable records of a bootstrapped Lineage say. */
  function BootDurable(r: Reg, spec: BootSpec): Option<BootResult> {
    var id := spec.Lineage();
    if id !in r.lineages || spec.Key() !in r.keys || r.keys[spec.Key()] !in r.agents || KernelOf(id) !in r.kernels
       || spec.Campaign() !in r.campaigns
    then None
    else
      var l, a, c := r.lineages[id], r.agents[r.keys[spec.Key()]], r.campaigns[spec.Campaign()];
      Some(BootResult(l.campaign, id, r.keys[spec.Key()], KernelOf(id), c.contract, c.problem, l.evidence.Root(),
                      r.kernels[KernelOf(id)].createdAt, a.createdAt, a.optimizer, l.config.optimizer,
                      l.config.evolver))
  }

  /** The call reports the recorded Kernel's timestamp. */
  predicate ReportsRecordedTime(r: Reg, spec: BootSpec, now: Time) {
    || spec.Lineage() in r.lineages || KernelOf(spec.Lineage()) !in r.kernels
    || r.kernels[KernelOf(spec.Lineage())].createdAt == now
  }

  /** A success agrees with the durable records on everything but, possibly, the Kernel's timestamp. */
  predicate SaysDurable(r: Reg, after: Reg, outcome: BootOutcome, spec: BootSpec, now: Time)
    requires outcome.Booted?
  {
    && BootDurable(after, spec).Some?
    && outcome.result == BootDurable(after, spec).value.(kernelCreated := outcome.result.kernelCreated)
    && (outcome.result.kernelCreated == BootDurable(after, spec).value.kernelCreated
        <==> ReportsRecordedTime(r, spec, now))
  }

  predicate CampaignSays(r: Reg, spec: BootSpec) {
    && spec.Campaign() in r.campaigns
    && r.campaigns[spec.Campaign()].contract == spec.contract && r.campaigns[spec.Campaign()].problem == spec.problem
  }

  lemma CommitStays(r: Reg, id: CampaignId, commit: string)
    requires EnsureCommit(r, id, commit).Did?
    ensures
      var after := EnsureCommit(r, id, commit).reg;
      && after == r.(campaigns := after.campaigns) && after.campaigns.Keys == r.campaigns.Keys
      && CampaignsStay(r.campaigns, after.campaigns)
  {
    var c, after := r.campaigns[id], EnsureCommit(r, id, commit).reg;
    if c.evolverCommit.None? {
      var campaigns := r.campaigns[id := c.(evolverCommit := Some(commit))];
      assert CampaignsStay(r.campaigns, campaigns);
      assert after == r.(campaigns := campaigns);
    } else {
      assert after == r;
    }
  }

  /** Only the call's own Campaign may appear, and it is the requested one if the call goes on; no other
      table has changed. */
  lemma EnsuredCampaign(r: Reg, spec: BootSpec, now: Time)
    ensures
      var (after, same) := EnsureCampaign(r, spec, now);
      && after == r.(campaigns := after.campaigns) && CampaignsStay(r.campaigns, after.campaigns)
      && after.campaigns.Keys == r.campaigns.Keys + {spec.Campaign()}
      && (same ==> SameCampaign(after.campaigns[spec.Campaign()], spec))
      && (spec.Campaign() !in r.campaigns ==> SameCampaign(after.campaigns[spec.Campaign()], spec))
  {
    var id, after := spec.Campaign(), EnsureCampaign(r, spec, now).0;
    if id !in r.campaigns {
      var campaigns := r.campaigns[id := BootCampaign(spec, now)];
      assert CampaignsStay(r.campaigns, campaigns);
      assert after == r.(campaigns := campaigns);
    } else {
      if BindCampaign(r, spec).Did? { BoundCampaign(r, spec); }
      assert after == r || after == BindCampaign(r, spec).reg;
    }
  }

  lemma BoundCampaign(r: Reg, spec: BootSpec)
    requires BindCampaign(r, spec).Did?
    ensures
      var after := BindCampaign(r, spec).reg;
      && after == r.(campaigns := after.campaigns) && after.campaigns.Keys == r.campaigns.Keys
      && CampaignsStay(r.campaigns, after.campaigns)
  {
    if spec.commit.Some? { CommitStays(r, spec.Campaign(), spec.commit.value); }
  }

  lemma NewIsDurable(r: Reg, spec: BootSpec, agent: AgentId, g: Generated, now: Time, crash: nat)
    requires agent in r.agents && spec.Lineage() !in r.lineages && CampaignSays(r, spec)
    requires spec.Key() in r.keys && r.keys[spec.Key()] == agent
    requires BootNew(r, spec, agent, g, now, crash).1.Booted?
    ensures
      var (after, outcome) := BootNew(r, spec, agent, g, now, crash);
      SaysDurable(r, after, outcome, spec, now)
  {
  }

  lemma AfterIsDurable(r: Reg, was: Recorded, spec: BootSpec, agent: AgentId, o: BootOracle)
    requires agent in r.agents && CampaignSays(r, spec) && spec.Key() in r.keys && r.keys[spec.Key()] == agent
    requires BootAfter(r, was, spec, agent, o).2.Booted?
    ensures SaysDurable(r, BootAfter(r, was, spec, agent, o).0, BootAfter(r, was, spec, agent, o).2, spec, o.now)
  {
    if spec.Lineage() !in r.lineages { NewIsDurable(r, spec, agent, Generate(was, o).1.value, o.now, o.crash); }
  }

  lemma RestIsDurable(r: Reg, was: Recorded, spec: BootSpec, o: BootOracle)
    requires CampaignSays(r, spec) && BootRest(r, was, spec, o).2.Booted?
    ensures SaysDurable(r, BootRest(r, was, spec, o).0, BootRest(r, was, spec, o).2, spec, o.now)
  {
    var step := RegisterAgent(r, AgentOf(spec.Lineage()), spec.Key(), BootAgent(spec, o.now));
    assert step.reg.kernels == r.kernels && step.reg.lineages == r.lineages && step.reg.campaigns == r.campaigns;
    AfterIsDurable(step.reg, was, spec, step.value, o);
  }

  /** A successful bootstrap returns what the durable records say, except possibly for one field: the
      Kernel's timestamp is the recorded one iff the Lineage already existed, or the Kernel did not, or
      the clock happens to repeat. */
  lemma BootIsDurable(r: Reg, was: Recorded, spec: BootSpec, o: BootOracle)
    requires Boot(r, was, spec, o).2.Booted?
    ensures SaysDurable(r, Boot(r, was, spec, o).0, Boot(r, was, spec, o).2, spec, o.now)
  {
    EnsuredCampaign(r, spec, o.now);
    RestIsDurable(EnsureCampaign(r, spec, o.now).0, was, spec, o);
  }

  lemma BootDurableStays(r: Reg, r': Reg, spec: BootSpec)
    requires Keeps(r, r') && BootDurable(r, spec).Some?
    ensures BootDurable(r', spec) == BootDurable(r, spec)
  {
    assert SameLineage(r.lineages[spec.Lineage()], r'.lineages[spec.Lineage()]);
    assert r'.campaigns[spec.Campaign()].Identity() == r.campaigns[spec.Campaign()].Identity();
  }

  // ---- A call changes no record -----------------------------------------------------------

  lemma NewKeeps(r: Reg, spec: BootSpec, agent: AgentId, g: Generated, now: Time, crash: nat)
    requires WellFormed(r) && agent in r.agents && spec.Lineage() !in r.lineages
    ensures Keeps(r, BootNew(r, spec, agent, g, now, crash).0) && WellFormed(BootNew(r, spec, agent, g, now, crash).0)
  {
    var after := BootNew(r, spec, agent, g, now, crash).0;
    var id, record := spec.Lineage(), BootLineageRecord(spec, agent, g);
    var step1 := RegisterKernel(r, KernelOf(id), BootKernel(g, now));
    KeepsSelf(r);
    if crash != 3 && step1.Did? {
      KernelKeeps(r, KernelOf(id), BootKernel(g, now));
      LineageKeeps(step1.reg, id, record);
      var last := InsertLineage(step1.reg, id, record).reg;
      KeepsTrans(r, step1.reg, last);
      assert after == step1.reg || after == last;
    } else {
      assert after == r;
    }
  }

  lemma AfterKeeps(r: Reg, was: Recorded, spec: BootSpec, agent: AgentId, o: BootOracle)
    requires WellFormed(r) && agent in r.agents
    ensures Keeps(r, BootAfter(r, was, spec, agent, o).0) && WellFormed(BootAfter(r, was, spec, agent, o).0)
  {
    var after, g := BootAfter(r, was, spec, agent, o).0, Generate(was, o).1;
    KeepsSelf(r);
    if spec.Lineage() !in r.lineages && g.Some? {
      NewKeeps(r, spec, agent, g.value, o.now, o.crash);
      assert after == r || after == BootNew(r, spec, agent, g.value, o.now, o.crash).0;
    } else {
      assert after == r;
    }
  }

  lemma RestKeeps(r: Reg, was: Recorded, spec: BootSpec, o: BootOracle)
    requires WellFormed(r)
    ensures Keeps(r, BootRest(r, was, spec, o).0) && WellFormed(BootRest(r, was, spec, o).0)
  {
    var id, agent := AgentOf(spec.Lineage()), BootAgent(spec, o.now);
    var step := RegisterAgent(r, id, spec.Key(), agent);
    if step.Did? {
      AgentKeeps(r, id, spec.Key(), agent);
      AfterKeeps(step.reg, was, spec, step.value, o);
      KeepsTrans(r, step.reg, BootAfter(step.reg, was, spec, step.value, o).0);
    } else {
      KeepsSelf(r);
    }
  }

  lemma CampaignKeeps(r: Reg, spec: BootSpec, now: Time)
    requires WellFormed(r)
    ensures Keeps(r, EnsureCampaign(r, spec, now).0) && WellFormed(EnsureCampaign(r, spec, now).0)
  {
    EnsuredCampaign(r, spec, now);
    var after := EnsureCampaign(r, spec, now).0;
    OnlyCampaigns(r, after.campaigns);
    assert after == r.(campaigns := after.campaigns);
  }

  lemma OnlyCampaigns(r: Reg, campaigns: map<CampaignId, Campaign>)
    requires WellFormed(r) && CampaignsStay(r.campaigns, campaigns)
    ensures Keeps(r, r.(campaigns := campaigns)) && WellFormed(r.(campaigns := campaigns))
  {
    KeepsSelf(r);
  }

  /** A bootstrap call, wherever it is interrupted, changes no record. */
  lemma BootKeeps(r: Reg, was: Recorded, spec: BootSpec, o: BootOracle)
    requires WellFormed(r)
    ensures Keeps(r, Boot(r, was, spec, o).0) && WellFormed(Boot(r, was, spec, o).0)
  {
    var after, ensured := Boot(r, was, spec, o).0, EnsureCampaign(r, spec, o.now).0;
    CampaignKeeps(r, spec, o.now);
    RestKeeps(ensured, was, spec, o);
    var last := BootRest(ensured, was, spec, o).0;
    KeepsTrans(r, ensured, last);
    assert after == ensured || after == last;
  }

  /** Two successful calls with anything in between agree on everything but the Kernel's timestamp. */
  lemma BootResultsAgree(r: Reg, was: Recorded, r': Reg, was': Recorded, spec: BootSpec, o: BootOracle, o': BootOracle)
    requires WellFormed(r) && WellFormed(r') && Keeps(Boot(r, was, spec, o).0, r')
    requires Boot(r, was, spec, o).2.Booted? && Boot(r', was', spec, o').2.Booted?
    ensures
      var first, second := Boot(r, was, spec, o).2.result, Boot(r', was', spec, o').2.result;
      second.(kernelCreated := first.kernelCreated) == first
  {
    BootIsDurable(r, was, spec, o);
    BootIsDurable(r', was', spec, o');
    BootKeeps(r', was', spec, o');
    var after, after' := Boot(r, was, spec, o).0, Boot(r', was', spec, o').0;
    KeepsTrans(after, r', after');
    BootDurableStays(after, after', spec);
  }
}
