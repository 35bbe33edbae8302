/** Crash-and-retry creation of a Lineage (`lineage_seed.py`): insert-if-absent steps under derived
    identities, with an evaluator and a clock that answer differently every time. */
module LineageSeed {
  import opened Wrappers
  import opened SeedRegistry

  datatype Source = Artifacts(agent: Digest, kernel: Digest) | Revisions(agentId: AgentId, kernelId: KernelId)
    | Baseline(lineage: LineageId)

  datatype Spec = Spec(creationKey: string, dsl: Dsl, source: Source, replacementAgent: Option<Digest>,
                       initialEvidence: Option<string>, workflow: Option<string>, config: Config)

  datatype Kind = KernelAgent | KernelArtifact | GatewayResult | OtherKind

  /** What stays fixed over every retry: the sealed Artifacts' kinds, the workflow selection, and the
      Evolver commit the process was configured with. */
  datatype Site = Site(kinds: map<Digest, Kind>, selectWorkflow: (Digest, Dsl, string) -> Digest,
                       evolverCommit: Option<string>)
  {
    predicate Is(d: Digest, k: Kind) { d in kinds && kinds[d] == k }
  }

  /** What may differ at every call: where it is interrupted, what the evaluator and the clock say, and
      what rebuilding the Agent yields. */
  datatype Oracle = Oracle(crash: nat, artifact: Digest, evaluation: Evaluation, now: Time, rebuilt: Digest)

  datatype Roots = Roots(agent: Digest, kernel: Digest, sourceAgent: Option<AgentId>, sourceKernel: Option<KernelId>,
                         sourceLineage: Option<LineageId>, baseline: Option<Evaluation>, evidence: Option<Checkpoint>)

  datatype Result = Result(campaign: CampaignId, lineage: LineageId, dsl: Dsl, agentId: AgentId, kernelId: KernelId,
                           agent: Digest, kernel: Digest, gatewayResult: Digest, latency: nat, evidence: Checkpoint,
                           provenance: Provenance, sourceAgent: Option<AgentId>, sourceKernel: Option<KernelId>,
                           optimizer: Option<string>, evolver: Option<string>, createdAt: Time)

  datatype Outcome = Done(result: Result) | Raised | Crashed

  function Resolve(w: Site, r: Reg, source: Source, dsl: Dsl): Option<Roots> {
    match source
    case Artifacts(a, k) =>
      if w.Is(a, KernelAgent) && w.Is(k, KernelArtifact) then Some(Roots(a, k, None, None, None, None, None)) else None
    case Revisions(ai, ki) =>
      if ai !in r.agents || ki !in r.kernels || r.agents[ai].dsl != dsl || ki !in r.kernelDsl || r.kernelDsl[ki] != dsl
      then None
      else
        var a, k := r.agents[ai].optimizer, r.kernels[ki].artifact;
        if w.Is(a, KernelAgent) && w.Is(k, KernelArtifact)
        then Some(Roots(a, k, Some(ai), Some(ki), None, None, None))
        else None
    case Baseline(l) =>
      if l !in r.lineages || r.lineages[l].dsl != dsl || l !in r.baselines then None
      else
        var (ai, ki) := r.baselines[l];
        if ai !in r.agents || ki !in r.kernels then None
        else
          var a, k := r.agents[ai], r.kernels[ki];
          if k.evaluation.correct && k.evaluation.latency.Some? && w.Is(a.optimizer, KernelAgent)
             && w.Is(k.artifact, KernelArtifact)
          then
            Some(Roots(a.optimizer, k.artifact, Some(ai), Some(ki), Some(l), Some(k.evaluation),
                       Some(r.lineages[l].evidence)))
          else None
  }

  /** The roots after an Agent replacement and a workflow selection. */
  function Selected(w: Site, r: Reg, spec: Spec): Option<Roots> {
    var roots := Resolve(w, r, spec.source, spec.dsl);
    if roots.None? then None
    else
      var swapped := if spec.replacementAgent.Some? then
        roots.value.(agent := spec.replacementAgent.value, sourceAgent := None) else roots.value;
      Some(if spec.workflow.Some? then
        swapped.(agent := w.selectWorkflow(swapped.agent, spec.dsl, spec.workflow.value)) else swapped)
  }

  /** A cloned baseline brings its Epoch-0 Evidence; otherwise the given or an empty Evidence is used. */
  function EvidenceOf(id: LineageId, spec: Spec, roots: Roots): Checkpoint {
    if roots.evidence.Some? then Clone(id, roots.evidence.value.Root()) else Initial(id, spec.initialEvidence)
  }

  function ProvenanceOf(campaign: CampaignId, spec: Spec, roots: Roots): Provenance {
    var id := SeedOf(campaign, spec.creationKey);
    Provenance(campaign, id, spec.creationKey, spec.dsl, roots.agent, roots.kernel,
               roots.sourceAgent, roots.sourceKernel,
               roots.sourceLineage, EvidenceOf(id, spec, roots), spec.config.observer, spec.workflow,
               spec.config.visibility, spec.config.raw, spec.config.devOnly, spec.config.readResults,
               spec.config.toolModules)
  }

  function ConfigOf(spec: Spec, roots: Roots): Config { spec.config.(bootstrapSource := roots.sourceLineage) }

  function ResultOf(campaign: CampaignId, l: Lineage, spec: Spec, roots: Roots, agentId: AgentId, agent: Agent,
                    kernelId: KernelId, kernel: Kernel): Result
    requires kernel.evaluation.latency.Some?
  {
    var id := SeedOf(campaign, spec.creationKey);
    Result(l.campaign, id, l.dsl, agentId, kernelId, agent.optimizer, kernel.artifact, kernel.evaluation.result,
           kernel.evaluation.latency.value, EvidenceOf(id, spec, roots), ProvenanceOf(campaign, spec, roots),
           roots.sourceAgent, roots.sourceKernel, l.config.optimizer, l.config.evolver, kernel.createdAt)
  }

  /** An existing Lineage is accepted only with the same Campaign, choices and version-0 content. */
  function ValidateExisting(r: Reg, campaign: CampaignId, spec: Spec, roots: Roots): Outcome
    requires SeedOf(campaign, spec.creationKey) in r.lineages
  {
    var id := SeedOf(campaign, spec.creationKey);
    var l := r.lineages[id];
    if l.campaign != campaign || id !in r.baselines then Raised
    else
      var (ai, ki) := r.baselines[id];
      if ai !in r.agents || ki !in r.kernels then Raised
      else
        var a, k := r.agents[ai], r.kernels[ki];
        if l.dsl != spec.dsl || l.config != ConfigOf(spec, roots) || a.optimizer != roots.agent
           || a.receipt != SeedReceipt(ProvenanceOf(campaign, spec, roots)) || k.artifact != roots.kernel
           || k.evaluation.latency.None?
        then Raised
        else Done(ResultOf(campaign, l, spec, roots, ai, a, ki, k))
  }

  /** The observer checks made before anything is created. */
  predicate ObserverOk(r: Reg, campaign: CampaignId, spec: Spec, roots: Roots) {
    spec.config.observer.None? ||
    (&& spec.config.observer.value in r.lineages
     && var o := r.lineages[spec.config.observer.value];
        && o.dsl == spec.dsl && roots.sourceLineage.Some? && o.config.bootstrapSource == roots.sourceLineage
        && o.campaign in r.campaigns && campaign in r.campaigns
        && r.campaigns[o.campaign].Identity() == r.campaigns[campaign].Identity())
  }

  /** The first Kernel record: a cloned evaluation, or a fresh one that must be of this very Artifact,
      correct and measured. */
  function FreshKernel(w: Site, roots: Roots, o: Oracle): Option<Kernel> {
    if roots.baseline.Some? then Some(Kernel(roots.kernel, roots.baseline.value, None, o.now))
    else if o.artifact != roots.kernel || !o.evaluation.correct || o.evaluation.latency.None?
            || !w.Is(o.evaluation.result, GatewayResult)
    then None
    else Some(Kernel(roots.kernel, o.evaluation, None, o.now))
  }

  function SeedAgent(campaign: CampaignId, spec: Spec, roots: Roots, created: Time): Agent {
    Agent(spec.dsl, roots.agent, SeedReceipt(ProvenanceOf(campaign, spec, roots)), created)
  }

  function SeedLineageRecord(r: Reg, campaign: CampaignId, spec: Spec, roots: Roots, agent: AgentId): Lineage
    requires campaign in r.campaigns
  {
    var id := SeedOf(campaign, spec.creationKey);
    Lineage(campaign, spec.dsl, r.campaigns[campaign].hardware, ConfigOf(spec, roots), agent, KernelOf(id),
            EvidenceOf(id, spec, roots), 1, true)
  }

  datatype Enrolled = Complete(agent: AgentId) | Stopped(outcome: Outcome)

  /** The last insertion; `lineage` is completed with the identity of the registered Agent. */
  function EnrollLineage(r: Reg, id: LineageId, agent: AgentId, lineage: Lineage, crash: nat): (Reg, Enrolled) {
    if crash == 3 then (r, Stopped(Crashed))
    else
      var step := InsertLineage(r, id, lineage.(activeAgent := agent));
      if step.Refused? then (r, Stopped(Raised))
      else if crash == 4 then (step.reg, Stopped(Crashed))
      else (step.reg, Complete(agent))
  }

  function EnrollAgent(r: Reg, id: LineageId, key: CreationKey, agent: Agent, lineage: Lineage, crash: nat): (Reg,
                       Enrolled) {
    if crash == 2 then (r, Stopped(Crashed))
    else
      var step := RegisterAgent(r, AgentOf(id), key, agent);
      if step.Refused? then (r, Stopped(Raised)) else EnrollLineage(step.reg, id, step.value, lineage, crash)
  }

  /** Kernel, Agent, Lineage, in this order, each in one transaction and with a possible crash before
      and after each. */
  function Enroll(r: Reg, id: LineageId, key: CreationKey, kernel: Kernel, agent: Agent, lineage: Lineage,
                  crash: nat): (Reg, Enrolled) {
    if crash == 1 then (r, Stopped(Crashed))
    else
      var step := RegisterKernel(r, KernelOf(id), kernel);
      if step.Refused? then (r, Stopped(Raised)) else EnrollAgent(step.reg, id, key, agent, lineage, crash)
  }

  /** A registered Kernel is used as it is, if it is the right one; otherwise a first record is made. */
  function KernelFor(w: Site, r: Reg, id: LineageId, roots: Roots, o: Oracle): (k: Option<Kernel>)
    ensures k.Some? ==> k.value.artifact == roots.kernel
    ensures k.Some? && KernelOf(id) !in r.kernels ==> k.value.attempt.None?
  {
    if KernelOf(id) in r.kernels then
      var k := r.kernels[KernelOf(id)];
      if k.artifact == roots.kernel && k.evaluation.correct && k.evaluation.latency.Some? then Some(k) else None
    else FreshKernel(w, roots, o)
  }

  function Publish(w: Site, r: Reg, campaign: CampaignId, spec: Spec, roots: Roots, o: Oracle): (Reg, Outcome)
    requires campaign in r.campaigns
  {
    var id := SeedOf(campaign, spec.creationKey);
    var kernel := KernelFor(w, r, id, roots, o);
    if kernel.None? then (r, Raised)
    else
      var lineage := SeedLineageRecord(r, campaign, spec, roots, AgentOf(id));
      var (after, enrolled) := Enroll(r, id, SeedKey(campaign, spec.creationKey), kernel.value,
                                      SeedAgent(campaign, spec, roots, kernel.value.createdAt), lineage, o.crash);
      if enrolled.Stopped? then (after, enrolled.outcome)
      else if kernel.value.evaluation.latency.None? || enrolled.agent !in after.agents then (after, Raised)
      else
        (after, Done(ResultOf(campaign, lineage, spec, roots, enrolled.agent, after.agents[enrolled.agent],
                              KernelOf(id), kernel.value)))
  }

  /** The rest of a call once the roots have been resolved. */
  function Proceed(w: Site, r: Reg, campaign: CampaignId, spec: Spec, roots: Option<Roots>, o: Oracle): (Reg, Outcome)
    requires campaign in r.campaigns
  {
    if roots.None? then (r, Raised)
    else if SeedOf(campaign, spec.creationKey) in r.lineages then (r, ValidateExisting(r, campaign, spec, roots.value))
    else if !ObserverOk(r, campaign, spec, roots.value) || o.rebuilt != roots.value.agent then (r, Raised)
    else Publish(w, r, campaign, spec, roots.value, o)
  }

  function Bind(w: Site, r: Reg, campaign: CampaignId): Called<()> {
    if w.evolverCommit.Some? then EnsureCommit(r, campaign, w.evolverCommit.value) else Did(r, ())
  }

  /** One call of `seed_lineage`. */
  function Seed(w: Site, r: Reg, campaign: CampaignId, spec: Spec, o: Oracle): (Reg, Outcome) {
    var bound := Bind(w, r, campaign);
    if bound.Refused? || campaign !in bound.reg.campaigns then (r, Raised)
    else if o.crash == 0 then (bound.reg, Crashed)
    else if !bound.reg.campaigns[campaign].active then (bound.reg, Raised)
    else Proceed(w, bound.reg, campaign, spec, Selected(w, bound.reg, spec), o)
  }

  /** The insertions of one call, in order, on the store itself. */
  method EnrollInto(registry: Registry, id: LineageId, key: CreationKey, kernel: Kernel, agent: Agent,
                    lineage: Lineage, crash: nat)
    returns (enrolled: Enrolled)
    modifies registry
    ensures (registry.tables, enrolled) == Enroll(old(registry.tables), id, key, kernel, agent, lineage, crash)
  {
    if crash == 1 {
      return Stopped(Crashed);
    }
    var ok := registry.AddKernel(KernelOf(id), kernel);
    if !ok {
      return Stopped(Raised);
    }
    if crash == 2 {
      return Stopped(Crashed);
    }
    var registered := registry.AddAgent(AgentOf(id), key, agent);
    if registered.None? {
      return Stopped(Raised);
    }
    if crash == 3 {
      return Stopped(Crashed);
    }
    ok := registry.AddLineage(id, lineage.(activeAgent := registered.value));
    if !ok {
      return Stopped(Raised);
    }
    enrolled := if crash == 4 then Stopped(Crashed) else Complete(registered.value);
  }

  method PublishInto(registry: Registry, w: Site, campaign: CampaignId, spec: Spec, roots: Roots, o: Oracle)
    returns (outcome: Outcome)
    requires campaign in registry.tables.campaigns
    modifies registry
    ensures (registry.tables, outcome) == Publish(w, old(registry.tables), campaign, spec, roots, o)
  {
    var id := SeedOf(campaign, spec.creationKey);
    var kernel := KernelFor(w, registry.tables, id, roots, o);
    if kernel.None? {
      return Raised;
    }
    var agent := SeedAgent(campaign, spec, roots, kernel.value.createdAt);
    var lineage := SeedLineageRecord(registry.tables, campaign, spec, roots, AgentOf(id));
    var key := SeedKey(campaign, spec.creationKey);
    var enrolled := EnrollInto(registry, id, key, kernel.value, agent, lineage, o.crash);
    if enrolled.Stopped? {
      return enrolled.outcome;
    }
    if kernel.value.evaluation.latency.None? || enrolled.agent !in registry.tables.agents {
      return Raised;
    }
    outcome := Done(ResultOf(campaign, lineage, spec, roots, enrolled.agent, registry.tables.agents[enrolled.agent],
                             KernelOf(id), kernel.value));
  }

  method SeedLineage(registry: Registry, w: Site, campaign: CampaignId, spec: Spec,
                     o: Oracle) returns (outcome: Outcome)
    modifies registry
    ensures (registry.tables, outcome) == Seed(w, old(registry.tables), campaign, spec, o)
  {
    if w.evolverCommit.Some? {
      var ok := registry.BindCommit(campaign, w.evolverCommit.value);
      if !ok {
        return Raised;
      }
    }
    if campaign !in registry.tables.campaigns {
      return Raised;
    }
    if o.crash == 0 {
      return Crashed;
    }
    if !registry.tables.campaigns[campaign].active {
      return Raised;
    }
    var roots := Selected(w, registry.tables, spec);
    if roots.None? {
      return Raised;
    }
    if SeedOf(campaign, spec.creationKey) in registry.tables.lineages {
      return ValidateExisting(registry.tables, campaign, spec, roots.value);
    }
    if !ObserverOk(registry.tables, campaign, spec, roots.value) || o.rebuilt != roots.value.agent {
      return Raised;
    }
    outcome := PublishInto(registry, w, campaign, spec, roots.value, o);
  }

  // ---- What never changes -----------------------------------------------------------------

  /** Tables that belong together: only recorded Lineages have baselines, a seed's Kernel is linked to a
      DSL only by its own Lineage, and no Attempt has produced the root of a Lineage. */
  ghost predicate WellFormed(r: Reg) {
    && (forall id :: id in r.baselines ==> id in r.lineages)
    && (forall id :: KernelOf(id) in r.kernelDsl ==> id in r.lineages)
    && (forall id :: KernelOf(id) in r.kernels ==> r.kernels[KernelOf(id)].attempt.None?)
    && (forall id :: id in r.baselines && r.baselines[id].1 in r.kernels ==> r.kernels[r.baselines[id].1].attempt.None?)
  }

  /** What an evolving Lineage keeps; until its first Epoch is over, its roots too. */
  predicate SameLineage(l: Lineage, l': Lineage) {
    && l'.campaign == l.campaign && l'.dsl == l.dsl && l'.hardware == l.hardware && l'.config == l.config
    && l'.evidence.Root() == l.evidence.Root() && l.nextEpoch <= l'.nextEpoch
    && (l'.nextEpoch <= 1 ==> l'.activeAgent == l.activeAgent && l'.bestKernel == l.bestKernel)
  }

  predicate Extends<K, V(==)>(m: map<K, V>, m': map<K, V>) { forall k :: k in m ==> k in m' && m'[k] == m[k] }

  ghost predicate CampaignsStay(m: map<CampaignId, Campaign>, m': map<CampaignId, Campaign>) {
    forall c :: c in m ==>
      && c in m' && m'[c].Identity() == m[c].Identity() && m'[c].problemModel == m[c].problemModel
      && (m[c].evolverCommit.Some? ==> m'[c].evolverCommit == m[c].evolverCommit)
  }

  /** Only the evaluation of an Attempt's Kernel may change. */
  ghost predicate KernelsStay(m: map<KernelId, Kernel>, m': map<KernelId, Kernel>) {
    forall k :: k in m ==>
      && k in m' && m'[k].(evaluation := m[k].evaluation) == m[k]
      && (m[k].attempt.None? ==> m'[k] == m[k])
  }

  ghost predicate LineagesStay(m: map<LineageId, Lineage>, m': map<LineageId, Lineage>) {
    forall l :: l in m ==> l in m' && SameLineage(m[l], m'[l])
  }

  /** Records stay; a Lineage may evolve (its active Agent, best Kernel, Evidence, Epoch and status), a
      Campaign may change status or be bound to an Evolver commit, and the provisional evaluation of
      an Attempt's Kernel may be replaced. */
  ghost predicate Keeps(r: Reg, r': Reg) {
    && CampaignsStay(r.campaigns, r'.campaigns) && LineagesStay(r.lineages, r'.lineages)
    && KernelsStay(r.kernels, r'.kernels) && Extends(r.agents, r'.agents) && Extends(r.keys, r'.keys)
    && Extends(r.baselines, r'.baselines) && Extends(r.kernelDsl, r'.kernelDsl)
  }

  lemma ExtendsTrans<K, V>(a: map<K, V>, b: map<K, V>, c: map<K, V>)
    requires Extends(a, b) && Extends(b, c)
    ensures Extends(a, c)
  {
  }

  lemma LineagesTrans(a: map<LineageId, Lineage>, b: map<LineageId, Lineage>, c: map<LineageId, Lineage>)
    requires LineagesStay(a, b) && LineagesStay(b, c)
    ensures LineagesStay(a, c)
  {
  }

  lemma KernelsTrans(a: map<KernelId, Kernel>, b: map<KernelId, Kernel>, c: map<KernelId, Kernel>)
    requires KernelsStay(a, b) && KernelsStay(b, c)
    ensures KernelsStay(a, c)
  {
  }

  lemma CampaignsTrans(a: map<CampaignId, Campaign>, b: map<CampaignId, Campaign>, c: map<CampaignId, Campaign>)
    requires CampaignsStay(a, b) && CampaignsStay(b, c)
    ensures CampaignsStay(a, c)
  {
  }

  lemma KeepsTrans(a: Reg, b: Reg, c: Reg)
    requires Keeps(a, b) && Keeps(b, c)
    ensures Keeps(a, c)
  {
    CampaignsTrans(a.campaigns, b.campaigns, c.campaigns);
    LineagesTrans(a.lineages, b.lineages, c.lineages);
    KernelsTrans(a.kernels, b.kernels, c.kernels);
    ExtendsTrans(a.agents, b.agents, c.agents);
    ExtendsTrans(a.keys, b.keys, c.keys);
    ExtendsTrans(a.baselines, b.baselines, c.baselines);
    ExtendsTrans(a.kernelDsl, b.kernelDsl, c.kernelDsl);
  }

  lemma KeepsSelf(r: Reg)
    ensures Keeps(r, r)
  {
  }

  lemma KernelFits(r: Reg, id: KernelId, k: Kernel)
    requires WellFormed(r) && k.attempt.None? && RegisterKernel(r, id, k).Did?
    ensures WellFormed(RegisterKernel(r, id, k).reg)
  {
  }

  lemma KernelKeeps(r: Reg, id: KernelId, k: Kernel)
    requires WellFormed(r) && k.attempt.None? && RegisterKernel(r, id, k).Did?
    ensures Keeps(r, RegisterKernel(r, id, k).reg) && WellFormed(RegisterKernel(r, id, k).reg)
  {
    KeepsSelf(r);
    KernelFits(r, id, k);
    var after := RegisterKernel(r, id, k).reg;
    assert after == r.(kernels := after.kernels);
    assert KernelsStay(r.kernels, after.kernels);
  }

  lemma AgentKeeps(r: Reg, id: AgentId, key: CreationKey, a: Agent)
    requires WellFormed(r) && RegisterAgent(r, id, key, a).Did?
    ensures Keeps(r, RegisterAgent(r, id, key, a).reg) && WellFormed(RegisterAgent(r, id, key, a).reg)
  {
    KeepsSelf(r);
  }

  lemma LineageKeeps(r: Reg, id: LineageId, l: Lineage)
    requires WellFormed(r) && id !in r.lineages && l.bestKernel == KernelOf(id) && InsertLineage(r, id, l).Did?
    ensures Keeps(r, InsertLineage(r, id, l).reg) && WellFormed(InsertLineage(r, id, l).reg)
  {
    KeepsSelf(r);
  }

  /** The derived identities under which a Lineage and its roots are created. */
  datatype Identity = Identity(lineage: LineageId, key: CreationKey)

  function SeedIdentity(campaign: CampaignId, key: string): Identity {
    Identity(SeedOf(campaign, key), SeedKey(campaign, key))
  }

  /** Nothing appears under these identities unless it was there. */
  predicate Untouched(r: Reg, r': Reg, x: Identity) {
    && (KernelOf(x.lineage) in r'.kernels ==> KernelOf(x.lineage) in r.kernels)
    && (x.key in r'.keys ==> x.key in r.keys)
    && (AgentOf(x.lineage) in r'.agents ==> AgentOf(x.lineage) in r.agents)
    && (x.lineage in r'.lineages ==> x.lineage in r.lineages)
  }

  lemma EnrollLineageKeeps(r: Reg, id: LineageId, agent: AgentId, lineage: Lineage, crash: nat)
    requires WellFormed(r) && id !in r.lineages && lineage.bestKernel == KernelOf(id)
    ensures Keeps(r, EnrollLineage(r, id, agent, lineage, crash).0)
    ensures WellFormed(EnrollLineage(r, id, agent, lineage, crash).0)
  {
    KeepsSelf(r);
    LineageKeeps(r, id, lineage.(activeAgent := agent));
  }

  lemma EnrollAgentKeeps(r: Reg, id: LineageId, key: CreationKey, agent: Agent, lineage: Lineage, crash: nat)
    requires WellFormed(r) && id !in r.lineages && lineage.bestKernel == KernelOf(id)
    ensures Keeps(r, EnrollAgent(r, id, key, agent, lineage, crash).0)
    ensures WellFormed(EnrollAgent(r, id, key, agent, lineage, crash).0)
  {
    var after := EnrollAgent(r, id, key, agent, lineage, crash).0;
    var step := RegisterAgent(r, AgentOf(id), key, agent);
    if crash == 2 || step.Refused? {
      KeepsSelf(r);
      assert after == r;
    } else {
      AgentKeeps(r, AgentOf(id), key, agent);
      assert id !in step.reg.lineages;
      EnrollLineageKeeps(step.reg, id, step.value, lineage, crash);
      var last := EnrollLineage(step.reg, id, step.value, lineage, crash).0;
      KeepsTrans(r, step.reg, last);
      assert after == last;
    }
  }

  lemma EnrollKeeps(r: Reg, id: LineageId, key: CreationKey, kernel: Kernel, agent: Agent, lineage: Lineage, crash: nat)
    requires WellFormed(r) && id !in r.lineages && lineage.bestKernel == KernelOf(id) && kernel.attempt.None?
    ensures Keeps(r, Enroll(r, id, key, kernel, agent, lineage, crash).0)
    ensures WellFormed(Enroll(r, id, key, kernel, agent, lineage, crash).0)
  {
    var after := Enroll(r, id, key, kernel, agent, lineage, crash).0;
    var step := RegisterKernel(r, KernelOf(id), kernel);
    if crash == 1 || step.Refused? {
      KeepsSelf(r);
      assert after == r;
    } else {
      KernelKeeps(r, KernelOf(id), kernel);
      assert id !in step.reg.lineages;
      EnrollAgentKeeps(step.reg, id, key, agent, lineage, crash);
      var last := EnrollAgent(step.reg, id, key, agent, lineage, crash).0;
      KeepsTrans(r, step.reg, last);
      assert after == last;
    }
  }

  lemma BindKeeps(w: Site, r: Reg, campaign: CampaignId)
    requires WellFormed(r) && Bind(w, r, campaign).Did?
    ensures Keeps(r, Bind(w, r, campaign).reg) && WellFormed(Bind(w, r, campaign).reg)
    ensures Bind(w, r, campaign).reg == r.(campaigns := Bind(w, r, campaign).reg.campaigns)
  {
    KeepsSelf(r);
  }

  /** The tables after `Publish` are those of the enrolment, if it got that far. */
  lemma PublishEnrols(w: Site, r: Reg, campaign: CampaignId, spec: Spec, roots: Roots, o: Oracle)
    requires campaign in r.campaigns
    ensures
      var id := SeedOf(campaign, spec.creationKey);
      var kernel := KernelFor(w, r, id, roots, o);
      Publish(w, r, campaign, spec, roots, o).0 ==
        if kernel.None? then r
        else
          Enroll(r, id, SeedKey(campaign, spec.creationKey), kernel.value,
                 SeedAgent(campaign, spec, roots, kernel.value.createdAt),
                 SeedLineageRecord(r, campaign, spec, roots, AgentOf(id)), o.crash).0
  {
  }

  lemma PublishKeeps(w: Site, r: Reg, campaign: CampaignId, spec: Spec, roots: Roots, o: Oracle)
    requires WellFormed(r) && campaign in r.campaigns && SeedOf(campaign, spec.creationKey) !in r.lineages
    ensures Keeps(r, Publish(w, r, campaign, spec, roots, o).0) && WellFormed(Publish(w, r, campaign, spec, roots, o).0)
  {
    PublishEnrols(w, r, campaign, spec, roots, o);
    var id := SeedOf(campaign, spec.creationKey);
    var kernel := KernelFor(w, r, id, roots, o);
    KeepsSelf(r);
    if kernel.Some? {
      EnrollKeeps(r, id, SeedKey(campaign, spec.creationKey), kernel.value,
                  SeedAgent(campaign, spec, roots, kernel.value.createdAt),
                  SeedLineageRecord(r, campaign, spec, roots, AgentOf(id)), o.crash);
    }
  }

  lemma ProceedKeeps(w: Site, r: Reg, campaign: CampaignId, spec: Spec, roots: Option<Roots>, o: Oracle)
    requires WellFormed(r) && campaign in r.campaigns
    ensures Keeps(r, Proceed(w, r, campaign, spec, roots, o).0) && WellFormed(Proceed(w, r, campaign, spec, roots, o).0)
  {
    KeepsSelf(r);
    if roots.Some? && SeedOf(campaign, spec.creationKey) !in r.lineages {
      PublishKeeps(w, r, campaign, spec, roots.value, o);
    }
  }

  /** A call, whatever interrupts it, only adds records. */
  lemma SeedKeeps(w: Site, r: Reg, campaign: CampaignId, spec: Spec, o: Oracle)
    requires WellFormed(r)
    ensures Keeps(r, Seed(w, r, campaign, spec, o).0) && WellFormed(Seed(w, r, campaign, spec, o).0)
  {
    var after := Seed(w, r, campaign, spec, o).0;
    var bound := Bind(w, r, campaign);
    if bound.Refused? || campaign !in bound.reg.campaigns {
      KeepsSelf(r);
      assert after == r;
    } else {
      BindKeeps(w, r, campaign);
      var roots := Selected(w, bound.reg, spec);
      ProceedKeeps(w, bound.reg, campaign, spec, roots, o);
      var last := Proceed(w, bound.reg, campaign, spec, roots, o).0;
      KeepsTrans(r, bound.reg, last);
      assert after == bound.reg || after == last;
    }
  }

  lemma UntouchedTrans(a: Reg, b: Reg, c: Reg, x: Identity)
    requires Untouched(a, b, x) && Untouched(b, c, x)
    ensures Untouched(a, c, x)
  {
  }

  lemma KernelTouches(r: Reg, id: LineageId, kernel: Kernel, x: Identity)
    requires id != x.lineage
    ensures Untouched(r, r, x)
    ensures
      var step := RegisterKernel(r, KernelOf(id), kernel);
      step.Did? ==> Untouched(r, step.reg, x) && step.reg.campaigns == r.campaigns
  {
  }

  lemma AgentTouches(r: Reg, id: LineageId, key: CreationKey, agent: Agent, x: Identity)
    requires id != x.lineage && key != x.key
    ensures Untouched(r, r, x)
    ensures
      var step := RegisterAgent(r, AgentOf(id), key, agent);
      step.Did? ==> Untouched(r, step.reg, x) && step.reg.campaigns == r.campaigns
  {
    var step := RegisterAgent(r, AgentOf(id), key, agent);
    if step.Did? {
      if key in r.keys {
        assert step.reg == r;
      } else {
        assert step.reg.kernels == r.kernels && step.reg.lineages == r.lineages;
      }
    }
  }

  lemma InsertTouches(r: Reg, id: LineageId, l: Lineage, x: Identity)
    requires id != x.lineage
    ensures Untouched(r, r, x)
    ensures
      var step := InsertLineage(r, id, l);
      step.Did? ==> Untouched(r, step.reg, x) && step.reg.campaigns == r.campaigns
  {
  }

  lemma LineageTouches(r: Reg, id: LineageId, agent: AgentId, lineage: Lineage, crash: nat, x: Identity)
    requires id != x.lineage
    ensures Untouched(r, EnrollLineage(r, id, agent, lineage, crash).0, x)
    ensures EnrollLineage(r, id, agent, lineage, crash).0.campaigns == r.campaigns
  {
    InsertTouches(r, id, lineage.(activeAgent := agent), x);
    var after := EnrollLineage(r, id, agent, lineage, crash).0;
    assert after == r || after == InsertLineage(r, id, lineage.(activeAgent := agent)).reg;
  }

  lemma EnrollAgentTouches(r: Reg, id: LineageId, key: CreationKey, agent: Agent, lineage: Lineage, crash: nat,
                           x: Identity)
    requires id != x.lineage && key != x.key
    ensures Untouched(r, EnrollAgent(r, id, key, agent, lineage, crash).0, x)
    ensures EnrollAgent(r, id, key, agent, lineage, crash).0.campaigns == r.campaigns
  {
    AgentTouches(r, id, key, agent, x);
    var step := RegisterAgent(r, AgentOf(id), key, agent);
    if step.Did? {
      LineageTouches(step.reg, id, step.value, lineage, crash, x);
      UntouchedTrans(r, step.reg, EnrollLineage(step.reg, id, step.value, lineage, crash).0, x);
    }
  }

  lemma EnrollTouches(r: Reg, id: LineageId, key: CreationKey, kernel: Kernel, agent: Agent, lineage: Lineage,
                      crash: nat, x: Identity)
    requires id != x.lineage && key != x.key
    ensures Untouched(r, Enroll(r, id, key, kernel, agent, lineage, crash).0, x)
    ensures Enroll(r, id, key, kernel, agent, lineage, crash).0.campaigns == r.campaigns
  {
    KernelTouches(r, id, kernel, x);
    var step := RegisterKernel(r, KernelOf(id), kernel);
    if step.Did? {
      EnrollAgentTouches(step.reg, id, key, agent, lineage, crash, x);
      UntouchedTrans(r, step.reg, EnrollAgent(step.reg, id, key, agent, lineage, crash).0, x);
    }
  }

  lemma PublishTouches(w: Site, r: Reg, campaign: CampaignId, spec: Spec, roots: Roots, o: Oracle, x: Identity)
    requires campaign in r.campaigns
    requires SeedOf(campaign, spec.creationKey) != x.lineage && SeedKey(campaign, spec.creationKey) != x.key
    ensures Untouched(r, Publish(w, r, campaign, spec, roots, o).0, x)
    ensures Publish(w, r, campaign, spec, roots, o).0.campaigns == r.campaigns
  {
    PublishEnrols(w, r, campaign, spec, roots, o);
    var id, key := SeedOf(campaign, spec.creationKey), SeedKey(campaign, spec.creationKey);
    var kernel := KernelFor(w, r, id, roots, o);
    if kernel.Some? {
      var agent := SeedAgent(campaign, spec, roots, kernel.value.createdAt);
      var lineage := SeedLineageRecord(r, campaign, spec, roots, AgentOf(id));
      EnrollTouches(r, id, key, kernel.value, agent, lineage, o.crash, x);
    }
  }

  lemma ProceedTouches(w: Site, r: Reg, campaign: CampaignId, spec: Spec, roots: Option<Roots>, o: Oracle, x: Identity)
    requires campaign in r.campaigns
    requires SeedOf(campaign, spec.creationKey) != x.lineage && SeedKey(campaign, spec.creationKey) != x.key
    ensures Untouched(r, Proceed(w, r, campaign, spec, roots, o).0, x)
    ensures Proceed(w, r, campaign, spec, roots, o).0.campaigns == r.campaigns
  {
    if roots.Some? { PublishTouches(w, r, campaign, spec, roots.value, o, x); }
  }

  lemma BindTouches(w: Site, r: Reg, campaign: CampaignId, x: Identity)
    requires Bind(w, r, campaign).Did?
    ensures Untouched(r, Bind(w, r, campaign).reg, x)
    ensures Bind(w, r, campaign).reg.campaigns.Keys == r.campaigns.Keys
  {
  }

  /** ... and only its own; it creates no Campaign either. */
  lemma SeedTouchesOnlyItsOwn(w: Site, r: Reg, campaign: CampaignId, spec: Spec, o: Oracle, x: Identity)
    requires SeedOf(campaign, spec.creationKey) != x.lineage && SeedKey(campaign, spec.creationKey) != x.key
    ensures Untouched(r, Seed(w, r, campaign, spec, o).0, x)
    ensures Seed(w, r, campaign, spec, o).0.campaigns.Keys == r.campaigns.Keys
  {
    var bound := Bind(w, r, campaign);
    if bound.Did? && campaign in bound.reg.campaigns {
      var roots := Selected(w, bound.reg, spec);
      BindTouches(w, r, campaign, x);
      ProceedTouches(w, bound.reg, campaign, spec, roots, o, x);
      UntouchedTrans(r, bound.reg, Proceed(w, bound.reg, campaign, spec, roots, o).0, x);
    }
  }

  // ---- One durable root -------------------------------------------------------------------

  /** What the durable version-0 records of a seed say its result is. */
  function Durable(r: Reg, id: LineageId): Option<Result> {
    if id !in r.lineages || id !in r.baselines || r.baselines[id].0 !in r.agents || r.baselines[id].1 !in r.kernels
    then None
    else
      var l, ai, ki := r.lineages[id], r.baselines[id].0, r.baselines[id].1;
      var a, k := r.agents[ai], r.kernels[ki];
      if !a.receipt.SeedReceipt? || k.evaluation.latency.None? then None
      else
        var p := a.receipt.provenance;
        Some(Result(l.campaign, id, l.dsl, ai, ki, a.optimizer, k.artifact, k.evaluation.result,
                    k.evaluation.latency.value, p.evidence, p, p.sourceAgent, p.sourceKernel,
                    l.config.optimizer, l.config.evolver, k.createdAt))
  }

  lemma DurableStays(r: Reg, r': Reg, id: LineageId)
    requires WellFormed(r) && Keeps(r, r') && Durable(r, id).Some?
    ensures Durable(r', id) == Durable(r, id)
  {
    assert SameLineage(r.lineages[id], r'.lineages[id]);
  }

  lemma EnrollAgentDone(r: Reg, id: LineageId, key: CreationKey, agent: Agent, lineage: Lineage, crash: nat)
    requires id !in r.lineages && EnrollAgent(r, id, key, agent, lineage, crash).1.Complete?
    ensures
      var (after, enrolled) := EnrollAgent(r, id, key, agent, lineage, crash);
      && id in after.lineages && after.lineages[id] == lineage.(activeAgent := enrolled.agent)
      && id in after.baselines && after.baselines[id] == (enrolled.agent, lineage.bestKernel)
      && after.kernels == r.kernels
      && enrolled.agent in after.agents && after.agents[enrolled.agent].Content() == agent.Content()
  {
    var step := RegisterAgent(r, AgentOf(id), key, agent);
    assert step.Did? && id !in step.reg.lineages && step.reg.kernels == r.kernels;
  }

  /** What a completed enrolment leaves in the tables. */
  lemma EnrollDone(r: Reg, id: LineageId, key: CreationKey, kernel: Kernel, agent: Agent, lineage: Lineage, crash: nat)
    requires id !in r.lineages
    requires KernelOf(id) in r.kernels ==> r.kernels[KernelOf(id)] == kernel
    requires Enroll(r, id, key, kernel, agent, lineage, crash).1.Complete?
    ensures
      var (after, enrolled) := Enroll(r, id, key, kernel, agent, lineage, crash);
      && id in after.lineages && after.lineages[id] == lineage.(activeAgent := enrolled.agent)
      && id in after.baselines && after.baselines[id] == (enrolled.agent, lineage.bestKernel)
      && KernelOf(id) in after.kernels && after.kernels[KernelOf(id)] == kernel
      && enrolled.agent in after.agents && after.agents[enrolled.agent].Content() == agent.Content()
  {
    var step := RegisterKernel(r, KernelOf(id), kernel);
    assert step.Did? && KernelOf(id) in step.reg.kernels && step.reg.kernels[KernelOf(id)] == kernel;
    EnrollAgentDone(step.reg, id, key, agent, lineage, crash);
  }

  /** A successful call returns what the durable records say, in the registry it leaves behind. */
  lemma DoneIsDurable(w: Site, r: Reg, campaign: CampaignId, spec: Spec, o: Oracle)
    requires Seed(w, r, campaign, spec, o).1.Done?
    ensures Durable(Seed(w, r, campaign, spec, o).0, SeedOf(campaign, spec.creationKey))
      == Some(Seed(w, r, campaign, spec, o).1.result)
  {
    var bound := Bind(w, r, campaign);
    ProceedIsDurable(w, bound.reg, campaign, spec, Selected(w, bound.reg, spec), o);
  }

  lemma PublishIsDurable(w: Site, r: Reg, campaign: CampaignId, spec: Spec, roots: Roots, o: Oracle)
    requires campaign in r.campaigns && SeedOf(campaign, spec.creationKey) !in r.lineages
    requires Publish(w, r, campaign, spec, roots, o).1.Done?
    ensures Durable(Publish(w, r, campaign, spec, roots, o).0, SeedOf(campaign, spec.creationKey))
      == Some(Publish(w, r, campaign, spec, roots, o).1.result)
  {
    var id := SeedOf(campaign, spec.creationKey);
    var kernel := KernelFor(w, r, id, roots, o).value;
    EnrollDone(r, id, SeedKey(campaign, spec.creationKey), kernel,
               SeedAgent(campaign, spec, roots, kernel.createdAt),
               SeedLineageRecord(r, campaign, spec, roots, AgentOf(id)), o.crash);
  }

  lemma ProceedIsDurable(w: Site, r: Reg, campaign: CampaignId, spec: Spec, roots: Option<Roots>, o: Oracle)
    requires campaign in r.campaigns && Proceed(w, r, campaign, spec, roots, o).1.Done?
    ensures Durable(Proceed(w, r, campaign, spec, roots, o).0, SeedOf(campaign, spec.creationKey))
      == Some(Proceed(w, r, campaign, spec, roots, o).1.result)
  {
    if SeedOf(campaign, spec.creationKey) !in r.lineages { PublishIsDurable(w, r, campaign, spec, roots.value, o); }
  }

  lemma PublishSays(w: Site, r: Reg, campaign: CampaignId, spec: Spec, roots: Roots, o: Oracle)
    requires campaign in r.campaigns && SeedOf(campaign, spec.creationKey) !in r.lineages
    requires Publish(w, r, campaign, spec, roots, o).1.Done?
    ensures
      var (after, outcome) := Publish(w, r, campaign, spec, roots, o);
      var id := SeedOf(campaign, spec.creationKey);
      && id in after.lineages && after.lineages[id].config == ConfigOf(spec, roots)
      && outcome.result.provenance == ProvenanceOf(campaign, spec, roots)
  {
    var id := SeedOf(campaign, spec.creationKey);
    var kernel := KernelFor(w, r, id, roots, o).value;
    EnrollDone(r, id, SeedKey(campaign, spec.creationKey), kernel,
               SeedAgent(campaign, spec, roots, kernel.createdAt),
               SeedLineageRecord(r, campaign, spec, roots, AgentOf(id)), o.crash);
  }

  /** A success means the Lineage has the request's choices and the request's receipt. */
  lemma ProceedSays(w: Site, r: Reg, campaign: CampaignId, spec: Spec, roots: Option<Roots>, o: Oracle)
    requires campaign in r.campaigns && Proceed(w, r, campaign, spec, roots, o).1.Done?
    ensures
      var (after, outcome) := Proceed(w, r, campaign, spec, roots, o);
      var id := SeedOf(campaign, spec.creationKey);
      && roots.Some? && id in after.lineages && after.lineages[id].config == ConfigOf(spec, roots.value)
      && outcome.result.provenance == ProvenanceOf(campaign, spec, roots.value)
  {
    if SeedOf(campaign, spec.creationKey) !in r.lineages { PublishSays(w, r, campaign, spec, roots.value, o); }
  }

  lemma BaselineRoots(w: Site, r: Reg, spec: Spec)
    requires spec.source.Baseline? && Selected(w, r, spec).Some?
    ensures Selected(w, r, spec).value.sourceLineage == Some(spec.source.lineage)
  {
  }

  /** A Lineage cloned from another names it, in its choices and in its receipt. */
  lemma CloneNamesItsSource(w: Site, r: Reg, campaign: CampaignId, spec: Spec, o: Oracle)
    requires spec.source.Baseline? && Seed(w, r, campaign, spec, o).1.Done?
    ensures
      var (after, outcome) := Seed(w, r, campaign, spec, o);
      var id := SeedOf(campaign, spec.creationKey);
      && id in after.lineages && after.lineages[id].config.bootstrapSource == Some(spec.source.lineage)
      && outcome.result.provenance.sourceLineage == Some(spec.source.lineage)
  {
    var bound := Bind(w, r, campaign);
    ProceedSays(w, bound.reg, campaign, spec, Selected(w, bound.reg, spec), o);
    BaselineRoots(w, bound.reg, spec);
  }

  /** Anything else the system does: its own work on recorded Lineages and new records of its own. */
  datatype Move = Call(campaign: CampaignId, spec: Spec, oracle: Oracle) | Elsewhere

  ghost predicate Moves(w: Site, r: Reg, m: Move, r': Reg) {
    match m
    case Call(c, spec, o) => r' == Seed(w, r, c, spec, o).0
    case Elsewhere => Keeps(r, r') && WellFormed(r') && forall c, key :: Untouched(r, r', SeedIdentity(c, key))
  }

  ghost predicate IsRun(w: Site, rs: seq<Reg>, ms: seq<Move>) {
    && |rs| == |ms| + 1 && WellFormed(rs[0])
    && forall i :: 0 <= i < |ms| ==> Moves(w, rs[i], ms[i], rs[i + 1])
  }

  lemma {:induction false} RunKeeps(w: Site, rs: seq<Reg>, ms: seq<Move>, m: nat, n: nat)
    requires IsRun(w, rs, ms) && m <= n < |rs|
    ensures WellFormed(rs[n]) && WellFormed(rs[m]) && Keeps(rs[m], rs[n])
    decreases n
  {
    if n > 0 {
      RunKeeps(w, rs, ms, if m < n then m else n - 1, n - 1);
      MoveKeeps(w, rs[n - 1], ms[n - 1], rs[n]);
      if m < n { KeepsTrans(rs[m], rs[n - 1], rs[n]); }
    }
  }

  lemma MoveKeeps(w: Site, r: Reg, m: Move, r': Reg)
    requires WellFormed(r) && Moves(w, r, m, r')
    ensures WellFormed(r') && Keeps(r, r')
  {
    if m.Call? { SeedKeeps(w, r, m.campaign, m.spec, m.oracle); }
  }

  /** Replacing the provisional evaluation of an Attempt's Kernel, as every decided Attempt does, is part
      of that other activity. */
  lemma FinalizingIsElsewhere(w: Site, r: Reg, id: KernelId, evaluation: Evaluation, running: bool)
    requires WellFormed(r) && FinalizeKernel(r, id, evaluation, running).Did?
    ensures Moves(w, r, Elsewhere, FinalizeKernel(r, id, evaluation, running).reg)
  {
    KeepsSelf(r);
  }

  /** In every run, with crashes anywhere and any other activity in between, all successful calls under
      one creation key return the same result, even after the Lineage has evolved. */
  lemma AllResultsEqual(w: Site, rs: seq<Reg>, ms: seq<Move>, m: nat, n: nat)
    requires IsRun(w, rs, ms) && m < n < |ms| && ms[m].Call? && ms[n].Call?
    requires ms[m].campaign == ms[n].campaign && ms[m].spec.creationKey == ms[n].spec.creationKey
    requires Seed(w, rs[m], ms[m].campaign, ms[m].spec, ms[m].oracle).1.Done?
    requires Seed(w, rs[n], ms[n].campaign, ms[n].spec, ms[n].oracle).1.Done?
    ensures Seed(w, rs[m], ms[m].campaign, ms[m].spec, ms[m].oracle).1
         == Seed(w, rs[n], ms[n].campaign, ms[n].spec, ms[n].oracle).1
  {
    var id := SeedOf(ms[m].campaign, ms[m].spec.creationKey);
    assert Moves(w, rs[m], ms[m], rs[m + 1]);
    assert Moves(w, rs[n], ms[n], rs[n + 1]);
    DoneIsDurable(w, rs[m], ms[m].campaign, ms[m].spec, ms[m].oracle);
    DoneIsDurable(w, rs[n], ms[n].campaign, ms[n].spec, ms[n].oracle);
    RunKeeps(w, rs, ms, m + 1, n + 1);
    DurableStays(rs[m + 1], rs[n + 1], id);
  }

  /** Once the Kernel is registered the evaluator and the clock no longer matter: the seed is never
      re-evaluated. */
  lemma NeverReevaluated(w: Site, r: Reg, campaign: CampaignId, spec: Spec, o: Oracle, o': Oracle)
    requires KernelOf(SeedOf(campaign, spec.creationKey)) in r.kernels
    requires o'.crash == o.crash && o'.rebuilt == o.rebuilt
    ensures Seed(w, r, campaign, spec, o) == Seed(w, r, campaign, spec, o')
  {
    var bound := Bind(w, r, campaign);
    if bound.Did? && campaign in bound.reg.campaigns {
      ProceedIgnores(w, bound.reg, campaign, spec, Selected(w, bound.reg, spec), o, o');
    }
  }

  lemma ProceedIgnores(w: Site, r: Reg, campaign: CampaignId, spec: Spec, roots: Option<Roots>, o: Oracle, o': Oracle)
    requires campaign in r.campaigns && KernelOf(SeedOf(campaign, spec.creationKey)) in r.kernels
    requires o'.crash == o.crash && o'.rebuilt == o.rebuilt
    ensures Proceed(w, r, campaign, spec, roots, o) == Proceed(w, r, campaign, spec, roots, o')
  {
    if roots.Some? {
      assert KernelFor(w, r, SeedOf(campaign, spec.creationKey), roots.value, o)
          == KernelFor(w, r, SeedOf(campaign, spec.creationKey), roots.value, o');
    }
  }

  /** A recorded Lineage accepts a request exactly when it asks for what the records say. */
  lemma ExistingAcceptsSameContent(w: Site, r: Reg, campaign: CampaignId, spec: Spec, o: Oracle)
    requires campaign in r.campaigns && r.campaigns[campaign].active && Bind(w, r, campaign) == Did(r, ())
    requires o.crash != 0
    requires Durable(r, SeedOf(campaign, spec.creationKey)).Some? && Selected(w, r, spec).Some?
    ensures
      var id, roots := SeedOf(campaign, spec.creationKey), Selected(w, r, spec).value;
      var l, a, k := r.lineages[id], r.agents[r.baselines[id].0], r.kernels[r.baselines[id].1];
      var (after, outcome) := Seed(w, r, campaign, spec, o);
      && after == r
      && (outcome.Done? <==>
            && l.campaign == campaign && l.dsl == spec.dsl && l.config == ConfigOf(spec, roots)
            && a.optimizer == roots.agent && a.receipt == SeedReceipt(ProvenanceOf(campaign, spec, roots))
            && k.artifact == roots.kernel)
      && (!outcome.Done? ==> outcome.Raised?)
  {
  }

  // ---- Every interrupted run can be completed ---------------------------------------------

  /** Roots as far as a seed depends on them: of a cloned baseline's Evidence only Epoch 0 matters. */
  function Normal(roots: Roots): Roots {
    roots.(evidence := if roots.evidence.Some? then Some(roots.evidence.value.Root()) else None)
  }

  lemma {:induction false} RootOfRoot(c: Checkpoint)
    ensures c.Root().Root() == c.Root()
  {
    if c.Later? { RootOfRoot(c.previous); }
  }

  /** The records a seed is after. The Agent's timestamp is its Kernel's. */
  datatype Wanted = Wanted(id: LineageId, key: CreationKey, artifact: Digest, agent: Agent, campaign: CampaignId,
                           dsl: Dsl, config: Config)

  function WantedBy(campaign: CampaignId, spec: Spec, roots: Roots): Wanted {
    Wanted(SeedOf(campaign, spec.creationKey), SeedKey(campaign, spec.creationKey), roots.kernel,
           SeedAgent(campaign, spec, roots, ""), campaign, spec.dsl, ConfigOf(spec, roots))
  }

  lemma WantedIsNormal(campaign: CampaignId, spec: Spec, roots: Roots)
    ensures WantedBy(campaign, spec, Normal(roots)) == WantedBy(campaign, spec, roots)
  {
    if roots.evidence.Some? { RootOfRoot(roots.evidence.value); }
  }

  predicate RightKernel(k: Kernel, artifact: Digest) {
    k.artifact == artifact && k.evaluation.correct && k.evaluation.latency.Some? && k.attempt.None?
  }

  /** Whatever exists of the wanted records is right, and they exist in order: no Agent without its
      Kernel, no Lineage without its Agent; the Agent carries the Kernel's timestamp. */
  ghost predicate Partial(r: Reg, v: Wanted) {
    && (KernelOf(v.id) in r.kernels ==> RightKernel(r.kernels[KernelOf(v.id)], v.artifact))
    && (AgentOf(v.id) in r.agents ==> v.key in r.keys)
    && (v.key in r.keys ==>
         && r.keys[v.key] == AgentOf(v.id) && AgentOf(v.id) in r.agents && KernelOf(v.id) in r.kernels
         && r.agents[AgentOf(v.id)] == v.agent.(createdAt := r.kernels[KernelOf(v.id)].createdAt))
    && (v.id in r.lineages ==>
         && v.key in r.keys && v.id in r.baselines && r.baselines[v.id] == (AgentOf(v.id), KernelOf(v.id))
         && r.lineages[v.id].campaign == v.campaign && r.lineages[v.id].dsl == v.dsl
         && r.lineages[v.id].config == v.config)
  }

  lemma PartialStays(r: Reg, r': Reg, v: Wanted)
    requires Partial(r, v) && Keeps(r, r')
    requires KernelOf(v.id) in r'.kernels ==> KernelOf(v.id) in r.kernels
    requires AgentOf(v.id) in r'.agents ==> AgentOf(v.id) in r.agents
    requires v.key in r'.keys ==> v.key in r.keys
    requires v.id in r'.lineages ==> v.id in r.lineages
    ensures Partial(r', v)
  {
    if v.id in r.lineages { assert SameLineage(r.lineages[v.id], r'.lineages[v.id]); }
  }

  lemma KernelStep(r: Reg, v: Wanted, kernel: Kernel)
    requires Partial(r, v) && RightKernel(kernel, v.artifact)
    requires KernelOf(v.id) in r.kernels ==> r.kernels[KernelOf(v.id)] == kernel
    ensures
      var step := RegisterKernel(r, KernelOf(v.id), kernel);
      && step.Did? && Partial(step.reg, v) && KernelOf(v.id) in step.reg.kernels
      && step.reg.kernels[KernelOf(v.id)] == kernel
      && step.reg.lineages == r.lineages
  {
  }

  lemma AgentStep(r: Reg, v: Wanted, agent: Agent)
    requires Partial(r, v) && KernelOf(v.id) in r.kernels
    requires agent == v.agent.(createdAt := r.kernels[KernelOf(v.id)].createdAt)
    ensures
      var step := RegisterAgent(r, AgentOf(v.id), v.key, agent);
      && step.Did? && step.value == AgentOf(v.id) && Partial(step.reg, v) && v.key in step.reg.keys
      && step.reg.lineages == r.lineages
  {
  }

  lemma LineageStep(r: Reg, v: Wanted, lineage: Lineage, crash: nat)
    requires Partial(r, v) && v.key in r.keys && v.id !in r.lineages
    requires lineage.bestKernel == KernelOf(v.id) && lineage.campaign == v.campaign && lineage.dsl == v.dsl
    requires lineage.config == v.config
    ensures
      var (after, enrolled) := EnrollLineage(r, v.id, AgentOf(v.id), lineage, crash);
      Partial(after, v) && (crash > 4 ==> enrolled == Complete(AgentOf(v.id)))
  {
  }

  /** From any partial state an enrolment leaves a partial state, and completes if it is not interrupted. */
  lemma EnrollPartial(r: Reg, v: Wanted, kernel: Kernel, agent: Agent, lineage: Lineage, crash: nat)
    requires Partial(r, v) && RightKernel(kernel, v.artifact) && v.id !in r.lineages
    requires KernelOf(v.id) in r.kernels ==> r.kernels[KernelOf(v.id)] == kernel
    requires agent == v.agent.(createdAt := kernel.createdAt)
    requires lineage.bestKernel == KernelOf(v.id) && lineage.campaign == v.campaign && lineage.dsl == v.dsl
    requires lineage.config == v.config
    ensures Partial(Enroll(r, v.id, v.key, kernel, agent, lineage, crash).0, v)
    ensures crash > 4 ==> Enroll(r, v.id, v.key, kernel, agent, lineage, crash).1 == Complete(AgentOf(v.id))
  {
    KernelStep(r, v, kernel);
    var r1 := RegisterKernel(r, KernelOf(v.id), kernel).reg;
    AgentStep(r1, v, agent);
    var r2 := RegisterAgent(r1, AgentOf(v.id), v.key, agent).reg;
    LineageStep(r2, v, lineage, crash);
  }

  lemma PublishPartial(w: Site, r: Reg, campaign: CampaignId, spec: Spec, roots: Roots, o: Oracle)
    requires campaign in r.campaigns && SeedOf(campaign, spec.creationKey) !in r.lineages
    requires roots.baseline.Some? ==> roots.baseline.value.correct && roots.baseline.value.latency.Some?
    requires Partial(r, WantedBy(campaign, spec, roots))
    ensures Partial(Publish(w, r, campaign, spec, roots, o).0, WantedBy(campaign, spec, roots))
    ensures o.crash > 4 && KernelFor(w, r, SeedOf(campaign, spec.creationKey), roots, o).Some? ==>
      Publish(w, r, campaign, spec, roots, o).1.Done?
  {
    PublishEnrols(w, r, campaign, spec, roots, o);
    var v := WantedBy(campaign, spec, roots);
    var kernel := KernelFor(w, r, v.id, roots, o);
    if kernel.Some? {
      var agent := SeedAgent(campaign, spec, roots, kernel.value.createdAt);
      var lineage := SeedLineageRecord(r, campaign, spec, roots, AgentOf(v.id));
      EnrollPartial(r, v, kernel.value, agent, lineage, o.crash);
      if o.crash > 4 { EnrollDone(r, v.id, v.key, kernel.value, agent, lineage, o.crash); }
    }
  }

  lemma ProceedPartial(w: Site, r: Reg, campaign: CampaignId, spec: Spec, roots: Roots, o: Oracle)
    requires campaign in r.campaigns
    requires roots.baseline.Some? ==> roots.baseline.value.correct && roots.baseline.value.latency.Some?
    requires Partial(r, WantedBy(campaign, spec, roots))
    ensures Partial(Proceed(w, r, campaign, spec, Some(roots), o).0, WantedBy(campaign, spec, roots))
    ensures o.crash > 4 && Completable(w, r, campaign, spec, roots, o) ==>
      Proceed(w, r, campaign, spec, Some(roots), o).1.Done?
  {
    if SeedOf(campaign, spec.creationKey) !in r.lineages { PublishPartial(w, r, campaign, spec, roots, o); }
  }

  /** What an uninterrupted call still needs: nothing once the Lineage exists; otherwise the observer
      checks, an Agent that rebuilds to itself and, if the Kernel is not yet registered, a baseline
      evaluation or a good fresh one. */
  predicate Completable(w: Site, r: Reg, campaign: CampaignId, spec: Spec, roots: Roots, o: Oracle) {
    var id := SeedOf(campaign, spec.creationKey);
    id in r.lineages ||
    (ObserverOk(r, campaign, spec, roots) && o.rebuilt == roots.agent &&
     (KernelOf(id) in r.kernels || FreshKernel(w, roots, o).Some?))
  }

  lemma ResolveStays(w: Site, r: Reg, r': Reg, source: Source, dsl: Dsl)
    requires WellFormed(r) && Keeps(r, r') && Resolve(w, r, source, dsl).Some?
    ensures Resolve(w, r', source, dsl).Some?
    ensures Normal(Resolve(w, r', source, dsl).value) == Normal(Resolve(w, r, source, dsl).value)
  {
    if source.Baseline? { assert SameLineage(r.lineages[source.lineage], r'.lineages[source.lineage]); }
  }

  lemma BaselineIsMeasured(w: Site, r: Reg, spec: Spec)
    requires Selected(w, r, spec).Some?
    ensures
      var b := Selected(w, r, spec).value.baseline;
      b.Some? ==> b.value.correct && b.value.latency.Some?
  {
  }

  /** The roots of a seed never change once they can be resolved. */
  lemma SelectedStays(w: Site, r: Reg, r': Reg, spec: Spec)
    requires WellFormed(r) && Keeps(r, r') && Selected(w, r, spec).Some?
    ensures Selected(w, r', spec).Some?
    ensures Normal(Selected(w, r', spec).value) == Normal(Selected(w, r, spec).value)
  {
    ResolveStays(w, r, r', spec.source, spec.dsl);
  }

  /** Nothing has been created before the roots could be resolved; afterwards, only right records. */
  ghost predicate OnTheWay(w: Site, r: Reg, campaign: CampaignId, spec: Spec) {
    var id := SeedOf(campaign, spec.creationKey);
    match Selected(w, r, spec)
    case None =>
      && KernelOf(id) !in r.kernels && AgentOf(id) !in r.agents
      && SeedKey(campaign, spec.creationKey) !in r.keys && id !in r.lineages
    case Some(roots) => Partial(r, WantedBy(campaign, spec, roots))
  }

  lemma QuietKeepsOnTheWay(w: Site, r: Reg, r': Reg, campaign: CampaignId, spec: Spec)
    requires WellFormed(r) && OnTheWay(w, r, campaign, spec) && Keeps(r, r')
    requires Untouched(r, r', SeedIdentity(campaign, spec.creationKey))
    ensures OnTheWay(w, r', campaign, spec)
  {
    var now, next := Selected(w, r, spec), Selected(w, r', spec);
    if now.Some? {
      SelectedStays(w, r, r', spec);
      WantedIsNormal(campaign, spec, now.value);
      WantedIsNormal(campaign, spec, next.value);
      PartialStays(r, r', WantedBy(campaign, spec, now.value));
    }
  }

  /** Binding the Evolver commit touches no table a seed's roots are read from. */
  lemma BindKeepsOnTheWay(w: Site, r: Reg, campaign: CampaignId, spec: Spec)
    requires WellFormed(r) && OnTheWay(w, r, campaign, spec) && Bind(w, r, campaign).Did?
    ensures OnTheWay(w, Bind(w, r, campaign).reg, campaign, spec)
  {
    BindKeeps(w, r, campaign);
    QuietKeepsOnTheWay(w, r, Bind(w, r, campaign).reg, campaign, spec);
  }

  lemma SeedKeepsOnTheWay(w: Site, r: Reg, campaign: CampaignId, spec: Spec, o: Oracle)
    requires WellFormed(r) && OnTheWay(w, r, campaign, spec)
    ensures OnTheWay(w, Seed(w, r, campaign, spec, o).0, campaign, spec)
  {
    var bound := Bind(w, r, campaign);
    if bound.Did? && campaign in bound.reg.campaigns {
      BindKeepsOnTheWay(w, r, campaign, spec);
      BindKeeps(w, r, campaign);
      ProceedKeepsOnTheWay(w, bound.reg, campaign, spec, o);
    }
  }

  lemma ProceedKeepsOnTheWay(w: Site, r: Reg, campaign: CampaignId, spec: Spec, o: Oracle)
    requires WellFormed(r) && OnTheWay(w, r, campaign, spec) && campaign in r.campaigns
    ensures OnTheWay(w, Proceed(w, r, campaign, spec, Selected(w, r, spec), o).0, campaign, spec)
  {
    var roots := Selected(w, r, spec);
    if roots.Some? {
      var after := Proceed(w, r, campaign, spec, roots, o).0;
      BaselineIsMeasured(w, r, spec);
      ProceedPartial(w, r, campaign, spec, roots.value, o);
      ProceedKeeps(w, r, campaign, spec, roots, o);
      SelectedStays(w, r, after, spec);
      WantedIsNormal(campaign, spec, roots.value);
      WantedIsNormal(campaign, spec, Selected(w, after, spec).value);
    }
  }

  predicate SameKey(m: Move, campaign: CampaignId, key: string) {
    m.Call? && m.campaign == campaign && m.spec.creationKey == key
  }

  predicate UsedOnlyFor(ms: seq<Move>, campaign: CampaignId, spec: Spec) {
    forall i :: 0 <= i < |ms| && SameKey(ms[i], campaign, spec.creationKey) ==> ms[i].spec == spec
  }

  lemma MoveKeepsOnTheWay(w: Site, r: Reg, m: Move, r': Reg, campaign: CampaignId, spec: Spec)
    requires WellFormed(r) && OnTheWay(w, r, campaign, spec) && Moves(w, r, m, r')
    requires SameKey(m, campaign, spec.creationKey) ==> m.spec == spec
    ensures OnTheWay(w, r', campaign, spec)
  {
    if SameKey(m, campaign, spec.creationKey) {
      SeedKeepsOnTheWay(w, r, campaign, spec, m.oracle);
    } else {
      if m.Call? {
        SeedTouchesOnlyItsOwn(w, r, m.campaign, m.spec, m.oracle, SeedIdentity(campaign, spec.creationKey));
      }
      MoveKeeps(w, r, m, r');
      QuietKeepsOnTheWay(w, r, r', campaign, spec);
    }
  }

  /** In every run that starts without the seed and in which its creation key is only used with one
      request, the records created so far are right, at every moment and after every crash. */
  lemma {:induction false} RunStaysOnTheWay(w: Site, rs: seq<Reg>, ms: seq<Move>, n: nat, campaign: CampaignId,
                                            spec: Spec)
    requires IsRun(w, rs, ms) && n < |rs| && OnTheWay(w, rs[0], campaign, spec)
    requires UsedOnlyFor(ms, campaign, spec)
    ensures OnTheWay(w, rs[n], campaign, spec)
  {
    if n > 0 {
      RunStaysOnTheWay(w, rs, ms, n - 1, campaign, spec);
      OneMoveOnTheWay(w, rs, ms, n - 1, campaign, spec);
    }
  }

  lemma OneMoveOnTheWay(w: Site, rs: seq<Reg>, ms: seq<Move>, n: nat, campaign: CampaignId, spec: Spec)
    requires IsRun(w, rs, ms) && n < |ms| && OnTheWay(w, rs[n], campaign, spec) && UsedOnlyFor(ms, campaign, spec)
    ensures OnTheWay(w, rs[n + 1], campaign, spec)
  {
    RunKeeps(w, rs, ms, n, n);
    var r, m, r' := rs[n], ms[n], rs[n + 1];
    assert Moves(w, r, m, r');
    MoveKeepsOnTheWay(w, r, m, r', campaign, spec);
  }

  /** The Campaign is active, the roots can be resolved, and nothing else is missing. */
  predicate Ready(w: Site, r: Reg, campaign: CampaignId, spec: Spec, o: Oracle) {
    && campaign in r.campaigns && r.campaigns[campaign].active
    && Selected(w, r, spec).Some? && Completable(w, r, campaign, spec, Selected(w, r, spec).value, o)
  }

  /** From an existing seed or a partial one, an uninterrupted call succeeds exactly if nothing is
      missing. */
  lemma ProceedExactlyCompletes(w: Site, r: Reg, campaign: CampaignId, spec: Spec, roots: Roots, o: Oracle)
    requires campaign in r.campaigns && o.crash > 4
    requires roots.baseline.Some? ==> roots.baseline.value.correct && roots.baseline.value.latency.Some?
    requires Partial(r, WantedBy(campaign, spec, roots))
    ensures Proceed(w, r, campaign, spec, Some(roots), o).1.Done? <==> Completable(w, r, campaign, spec, roots, o)
  {
    if Completable(w, r, campaign, spec, roots, o) { ProceedPartial(w, r, campaign, spec, roots, o); }
  }

  /** Wherever earlier calls were interrupted, the next uninterrupted one completes the seed exactly if
      the Campaign can be bound and is active, the roots can be resolved, and nothing else is missing. */
  lemma NextCallCompletes(w: Site, rs: seq<Reg>, ms: seq<Move>, n: nat, campaign: CampaignId, spec: Spec, o: Oracle)
    requires IsRun(w, rs, ms) && n < |rs| && OnTheWay(w, rs[0], campaign, spec)
    requires UsedOnlyFor(ms, campaign, spec) && o.crash > 4
    ensures Seed(w, rs[n], campaign, spec, o).1.Done? <==>
      Bind(w, rs[n], campaign).Did? && Ready(w, Bind(w, rs[n], campaign).reg, campaign, spec, o)
  {
    RunStaysOnTheWay(w, rs, ms, n, campaign, spec);
    RunKeeps(w, rs, ms, n, n);
    if Bind(w, rs[n], campaign).Did? {
      BindKeepsOnTheWay(w, rs[n], campaign, spec);
      BoundCallCompletes(w, rs[n], campaign, spec, o);
    }
  }

  lemma BoundCallCompletes(w: Site, r: Reg, campaign: CampaignId, spec: Spec, o: Oracle)
    requires Bind(w, r, campaign).Did? && OnTheWay(w, Bind(w, r, campaign).reg, campaign, spec) && o.crash > 4
    ensures Seed(w, r, campaign, spec, o).1.Done? <==> Ready(w, Bind(w, r, campaign).reg, campaign, spec, o)
  {
    var bound := Bind(w, r, campaign).reg;
    if campaign in bound.campaigns && Selected(w, bound, spec).Some? {
      BaselineIsMeasured(w, bound, spec);
      ProceedExactlyCompletes(w, bound, campaign, spec, Selected(w, bound, spec).value, o);
    }
  }

  /** The Agent root carries the timestamp of the Kernel root, whichever call created it. */
  lemma AgentCarriesKernelTime(w: Site, rs: seq<Reg>, ms: seq<Move>, n: nat, campaign: CampaignId, spec: Spec)
    requires IsRun(w, rs, ms) && n < |rs| && OnTheWay(w, rs[0], campaign, spec)
    requires UsedOnlyFor(ms, campaign, spec)
    requires AgentOf(SeedOf(campaign, spec.creationKey)) in rs[n].agents
    ensures
      var id := SeedOf(campaign, spec.creationKey);
      KernelOf(id) in rs[n].kernels && rs[n].agents[AgentOf(id)].createdAt == rs[n].kernels[KernelOf(id)].createdAt
  {
    RunStaysOnTheWay(w, rs, ms, n, campaign, spec);
  }
}
