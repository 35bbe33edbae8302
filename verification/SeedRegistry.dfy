/** The registry's tables and its transactions (`registry/sqlite.py`), as far as the creation of Campaigns,
    Lineages and their roots uses them. */
module SeedRegistry {
  import opened Wrappers

  type Digest = string          // content identity: equal digests, equal content
  type Dsl = string
  type Time = string

  /** Derived identities hash their parts, so different parts give different identities. */
  datatype CampaignId = ArmOf(source: CampaignId, creationKey: string) | BootOf(creationKey: string)

  datatype LineageId = SeedOf(campaign: CampaignId, creationKey: string) | BootLineage(creationKey: string, dsl: Dsl)

  datatype AgentId = AgentOf(lineage: LineageId) | OtherAgent(name: string)

  datatype KernelId = KernelOf(lineage: LineageId) | OtherKernel(name: string)

  /** An Agent's creation key; seeds use the Campaign and the seed's own key. */
  datatype CreationKey = SeedKey(campaign: CampaignId, creationKey: string) | BootKey(creationKey: string, dsl: Dsl)
    | OtherKey(name: string)

  datatype Campaign = Campaign(operator: string, hardware: string, contract: Digest, problem: Digest,
                               createdAt: Time, active: bool, problemModel: Option<string>,
                               evolverCommit: Option<string>)
  {
    /** The part two Campaigns must share to be comparable. */
    function Identity(): (string, string, Digest, Digest) { (operator, hardware, contract, problem) }
  }

  datatype Evaluation = Evaluation(correct: bool, latency: Option<nat>, result: Digest)

  /** `attempt` is the Attempt that produced the Kernel; the roots of Lineages have none. */
  datatype Kernel = Kernel(artifact: Digest, evaluation: Evaluation, attempt: Option<string>, createdAt: Time)

  /** An Evidence checkpoint and the Epoch-0 checkpoint at the end of its chain. */
  datatype Checkpoint = Initial(owner: LineageId, content: Option<string>)
    | Clone(owner: LineageId, root: Checkpoint)
    | Later(previous: Checkpoint, note: string)
  {
    function Root(): Checkpoint { if Later? then previous.Root() else this }
  }

  /** The choices a Lineage is created with; they never change afterwards. */
  datatype Config = Config(
    maxChallengers: nat, attemptBudget: nat, optimizer: Option<string>, evolver: Option<string>,
    bootstrapSource: Option<LineageId>, observer: Option<LineageId>, visibility: string,
    toolModules: Option<seq<string>>, readResults: bool, devOnly: bool, raw: bool)

  /** The sealed receipt of a seed. */
  datatype Provenance = Provenance(
    campaign: CampaignId, lineage: LineageId, creationKey: string, dsl: Dsl, agent: Digest, kernel: Digest,
    sourceAgent: Option<AgentId>, sourceKernel: Option<KernelId>, sourceLineage: Option<LineageId>,
    evidence: Checkpoint, observer: Option<LineageId>, workflow: Option<string>, visibility: string,
    raw: bool, devOnly: bool, readResults: bool, toolModules: Option<seq<string>>)

  /** Where an Agent comes from: a seed, the base revision of a bootstrap, or an evolution. */
  datatype Receipt = SeedReceipt(provenance: Provenance) | BaseReceipt(source: Digest) | OtherReceipt

  datatype Agent = Agent(dsl: Dsl, optimizer: Digest, receipt: Receipt, createdAt: Time)
  {
    /** What makes two Agents the same; the timestamp is not part of it. */
    function Content(): (Dsl, Digest, Receipt) { (dsl, optimizer, receipt) }
  }

  datatype Lineage = Lineage(campaign: CampaignId, dsl: Dsl, hardware: string, config: Config,
                             activeAgent: AgentId, bestKernel: KernelId, evidence: Checkpoint,
                             nextEpoch: nat, ready: bool)

  /** The registry's tables. `baselines` are the version-0 Agent and Kernel of each Lineage. */
  datatype Reg = Reg(
    campaigns: map<CampaignId, Campaign>, kernels: map<KernelId, Kernel>, agents: map<AgentId, Agent>,
    keys: map<CreationKey, AgentId>, lineages: map<LineageId, Lineage>,
    baselines: map<LineageId, (AgentId, KernelId)>, kernelDsl: map<KernelId, Dsl>)

  // Each registry call is one transaction.

  datatype Called<+T> = Did(reg: Reg, value: T) | Refused

  function EnsureCommit(r: Reg, id: CampaignId, commit: string): Called<()> {
    if id !in r.campaigns then Refused
    else
      var c := r.campaigns[id];
      if c.evolverCommit.None? then Did(r.(campaigns := r.campaigns[id := c.(evolverCommit := Some(commit))]), ())
      else if c.evolverCommit.value == commit then Did(r, ())
      else Refused
  }

  function RegisterKernel(r: Reg, id: KernelId, k: Kernel): Called<Kernel> {
    if id in r.kernels then
      var there := r.kernels[id];
      if there.artifact == k.artifact && there.evaluation == k.evaluation && there.attempt == k.attempt
      then Did(r, there)
      else Refused
    else Did(r.(kernels := r.kernels[id := k]), k)
  }

  /** Replaces the provisional evaluation of a running Attempt's Kernel. */
  function FinalizeKernel(r: Reg, id: KernelId, evaluation: Evaluation, running: bool): Called<Kernel> {
    if id !in r.kernels || r.kernels[id].attempt.None? then Refused
    else if r.kernels[id].evaluation == evaluation then Did(r, r.kernels[id])
    else if !running then Refused
    else
      var k := r.kernels[id].(evaluation := evaluation);
      Did(r.(kernels := r.kernels[id := k]), k)
  }

  function RegisterAgent(r: Reg, id: AgentId, key: CreationKey, a: Agent): (c: Called<AgentId>)
    ensures c.Did? ==> c.value in c.reg.agents && c.reg.agents[c.value].Content() == a.Content()
  {
    if key in r.keys then
      var there := r.keys[key];
      if there in r.agents && r.agents[there].Content() == a.Content() then Did(r, there) else Refused
    else if id in r.agents then Refused
    else Did(r.(agents := r.agents[id := a], keys := r.keys[key := id]), id)
  }

  function InsertLineage(r: Reg, id: LineageId, l: Lineage): Called<()> {
    if id in r.lineages then if r.lineages[id] == l then Did(r, ()) else Refused
    else
      Did(r.(lineages := r.lineages[id := l], baselines := r.baselines[id := (l.activeAgent, l.bestKernel)],
             kernelDsl := r.kernelDsl[l.bestKernel := l.dsl]), ())
  }

  /** A plain insert: the identity must be new. */
  function InsertCampaign(r: Reg, id: CampaignId, c: Campaign): Called<()> {
    if id in r.campaigns then Refused else Did(r.(campaigns := r.campaigns[id := c]), ())
  }

  /** The durable store: each method is one committed transaction, or raises and changes nothing. */
  class Registry {
    var tables: Reg

    constructor (tables: Reg)
      ensures this.tables == tables
    {
      this.tables := tables;
    }

    method BindCommit(id: CampaignId, commit: string) returns (ok: bool)
      modifies this
      ensures ok <==> EnsureCommit(old(tables), id, commit).Did?
      ensures tables == if ok then EnsureCommit(old(tables), id, commit).reg else old(tables)
    {
      if id !in tables.campaigns {
        return false;
      }
      var c := tables.campaigns[id];
      if c.evolverCommit.Some? {
        return c.evolverCommit.value == commit;
      }
      tables := tables.(campaigns := tables.campaigns[id := c.(evolverCommit := Some(commit))]);
      ok := true;
    }

    method AddKernel(id: KernelId, k: Kernel) returns (ok: bool)
      modifies this
      ensures ok <==> RegisterKernel(old(tables), id, k).Did?
      ensures tables == if ok then RegisterKernel(old(tables), id, k).reg else old(tables)
    {
      if id in tables.kernels {
        var there := tables.kernels[id];
        return there.artifact == k.artifact && there.evaluation == k.evaluation && there.attempt == k.attempt;
      }
      tables := tables.(kernels := tables.kernels[id := k]);
      ok := true;
    }

    method AddAgent(id: AgentId, key: CreationKey, a: Agent) returns (agent: Option<AgentId>)
      modifies this
      ensures
        var c := RegisterAgent(old(tables), id, key, a);
        agent == (if c.Did? then Some(c.value) else None) && tables == if c.Did? then c.reg else old(tables)
    {
      if key in tables.keys {
        var there := tables.keys[key];
        return if there in tables.agents && tables.agents[there].Content() == a.Content() then Some(there) else None;
      }
      if id in tables.agents {
        return None;
      }
      tables := tables.(agents := tables.agents[id := a], keys := tables.keys[key := id]);
      agent := Some(id);
    }

    method AddLineage(id: LineageId, l: Lineage) returns (ok: bool)
      modifies this
      ensures ok <==> InsertLineage(old(tables), id, l).Did?
      ensures tables == if ok then InsertLineage(old(tables), id, l).reg else old(tables)
    {
      if id in tables.lineages {
        return tables.lineages[id] == l;
      }
      tables := tables.(lineages := tables.lineages[id := l],
                        baselines := tables.baselines[id := (l.activeAgent, l.bestKernel)],
                        kernelDsl := tables.kernelDsl[l.bestKernel := l.dsl]);
      ok := true;
    }

    method AddCampaign(id: CampaignId, c: Campaign) returns (ok: bool)
      modifies this
      ensures ok <==> id !in old(tables).campaigns
      ensures tables == if ok then InsertCampaign(old(tables), id, c).reg else old(tables)
    {
      if id in tables.campaigns {
        return false;
      }
      tables := tables.(campaigns := tables.campaigns[id := c]);
      ok := true;
    }
  }

  // ---- What each transaction does, and all it does ----------------------------------------

  /** Nothing but the entry at `k` differs. */
  predicate OnlyAt<K, V(==)>(m: map<K, V>, m': map<K, V>, k: K) {
    m'.Keys == m.Keys + {k} && forall x :: x in m && x != k ==> m'[x] == m[x]
  }

  lemma RegisterKernelMeans(r: Reg, id: KernelId, k: Kernel)
    ensures
      var c := RegisterKernel(r, id, k);
      && (c.Did? <==> id in r.kernels ==>
            && r.kernels[id].artifact == k.artifact && r.kernels[id].evaluation == k.evaluation
            && r.kernels[id].attempt == k.attempt)
      && (c.Did? ==>
            && c.reg == r.(kernels := c.reg.kernels) && OnlyAt(r.kernels, c.reg.kernels, id)
            && c.value == c.reg.kernels[id] == if id in r.kernels then r.kernels[id] else k)
  {
  }

  lemma FinalizeKernelMeans(r: Reg, id: KernelId, evaluation: Evaluation, running: bool)
    ensures
      var c := FinalizeKernel(r, id, evaluation, running);
      && (c.Did? <==>
            && id in r.kernels && r.kernels[id].attempt.Some?
            && (running || r.kernels[id].evaluation == evaluation))
      && (c.Did? ==>
            && c.reg == r.(kernels := c.reg.kernels) && OnlyAt(r.kernels, c.reg.kernels, id)
            && c.value == c.reg.kernels[id] == r.kernels[id].(evaluation := evaluation))
  {
  }

  lemma RegisterAgentMeans(r: Reg, id: AgentId, key: CreationKey, a: Agent)
    ensures
      var c := RegisterAgent(r, id, key, a);
      && (c.Did? <==>
            if key in r.keys then
              var other := r.keys[key];
              other in r.agents && r.agents[other].dsl == a.dsl && r.agents[other].optimizer == a.optimizer
              && r.agents[other].receipt == a.receipt
            else id !in r.agents)
      && (c.Did? && key in r.keys ==> c.reg == r && c.value == r.keys[key])
      && (c.Did? && key !in r.keys ==>
            && c.reg == r.(agents := c.reg.agents, keys := c.reg.keys)
            && OnlyAt(r.agents, c.reg.agents, id) && OnlyAt(r.keys, c.reg.keys, key)
            && c.reg.agents[id] == a && c.reg.keys[key] == id == c.value)
  {
  }

  lemma InsertLineageMeans(r: Reg, id: LineageId, l: Lineage)
    ensures
      var c := InsertLineage(r, id, l);
      && (c.Did? <==> id in r.lineages ==> r.lineages[id] == l)
      && (id in r.lineages && c.Did? ==> c.reg == r)
      && (id !in r.lineages ==>
            && c.reg == r.(lineages := c.reg.lineages, baselines := c.reg.baselines, kernelDsl := c.reg.kernelDsl)
            && OnlyAt(r.lineages, c.reg.lineages, id) && c.reg.lineages[id] == l
            && OnlyAt(r.baselines, c.reg.baselines, id) && c.reg.baselines[id] == (l.activeAgent, l.bestKernel)
            && OnlyAt(r.kernelDsl, c.reg.kernelDsl, l.bestKernel) && c.reg.kernelDsl[l.bestKernel] == l.dsl)
  {
  }

  lemma InsertCampaignMeans(r: Reg, id: CampaignId, campaign: Campaign)
    ensures
      var c := InsertCampaign(r, id, campaign);
      && (c.Did? <==> id !in r.campaigns)
      && (c.Did? ==>
            && c.reg == r.(campaigns := c.reg.campaigns) && OnlyAt(r.campaigns, c.reg.campaigns, id)
            && c.reg.campaigns[id] == campaign)
  {
  }

  lemma EnsureCommitMeans(r: Reg, id: CampaignId, commit: string)
    ensures
      var c := EnsureCommit(r, id, commit);
      && (c.Did? <==> id in r.campaigns && r.campaigns[id].evolverCommit in {None, Some(commit)})
      && (c.Did? ==>
            && c.reg == r.(campaigns := c.reg.campaigns) && OnlyAt(r.campaigns, c.reg.campaigns, id)
            && c.reg.campaigns[id] == r.campaigns[id].(evolverCommit := Some(commit)))
  {
  }
}
