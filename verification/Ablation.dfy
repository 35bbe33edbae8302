/** Control arms (`ablation.py`): a Campaign of their own that copies the source's identity, and a seed
    that clones the source Lineage's baseline. */
module Ablation {
  import opened Wrappers
  import opened SeedRegistry
  import opened LineageSeed
  import opened SeedLaws

  datatype Arm = Arm(creationKey: string, source: LineageId, replacementAgent: Option<Digest>,
                     optimizer: Option<string>,
                     workflow: Option<string>, config: Config)

  /** The v0 receipt says the Lineage was seeded on its own, from no other Lineage. */
  predicate IndependentlySeeded(r: Reg, id: LineageId) {
    && id in r.lineages && id in r.baselines && r.baselines[id].0 in r.agents
    && r.agents[r.baselines[id].0].receipt.SeedReceipt?
    && var p := r.agents[r.baselines[id].0].receipt.provenance;
       p.lineage == id && p.campaign == r.lineages[id].campaign && p.sourceLineage.None?
  }

  /** Inserts the arm's Campaign, or accepts one of the same identity. */
  function EnsureCampaign(r: Reg, id: CampaignId, expected: Campaign): Called<()> {
    if id !in r.campaigns then InsertCampaign(r, id, expected)
    else if r.campaigns[id].Identity() == expected.Identity() then Did(r, ())
    else Refused
  }

  function ArmCampaign(source: Campaign, now: Time): Campaign { source.(createdAt := now, active := true) }

  function ArmSpec(source: Lineage, arm: Arm): Spec {
    Spec(arm.creationKey, source.dsl, Baseline(arm.source), arm.replacementAgent, None, arm.workflow,
         arm.config.(optimizer := if arm.optimizer.Some? then arm.optimizer else source.config.optimizer,
                     evolver := source.config.evolver))
  }

  predicate MayClone(r: Reg, arm: Arm) {
    && arm.source in r.lineages && r.lineages[arm.source].campaign in r.campaigns
    && (r.lineages[arm.source].config.bootstrapSource.Some? ==> IndependentlySeeded(r, arm.source))
  }

  /** One call of `seed_arm`; `cut` is a crash between the Campaign and the Lineage. */
  function SeedArm(w: Site, r: Reg, arm: Arm, cut: bool, o: Oracle): (Reg, Outcome) {
    if !MayClone(r, arm) then (r, Raised)
    else
      var source := r.lineages[arm.source];
      var id := ArmOf(source.campaign, arm.creationKey);
      var ensured := EnsureCampaign(r, id, ArmCampaign(r.campaigns[source.campaign], o.now));
      if ensured.Refused? then (r, Raised)
      else if cut then (ensured.reg, Crashed)
      else Seed(w, ensured.reg, id, ArmSpec(source, arm), o)
  }

  method SeedArmInto(registry: Registry, w: Site, arm: Arm, cut: bool, o: Oracle) returns (outcome: Outcome)
    modifies registry
    ensures (registry.tables, outcome) == SeedArm(w, old(registry.tables), arm, cut, o)
  {
    if !MayClone(registry.tables, arm) {
      return Raised;
    }
    var source := registry.tables.lineages[arm.source];
    var id := ArmOf(source.campaign, arm.creationKey);
    var expected := ArmCampaign(registry.tables.campaigns[source.campaign], o.now);
    if id in registry.tables.campaigns {
      if registry.tables.campaigns[id].Identity() != expected.Identity() {
        return Raised;
      }
    } else {
      var _ := registry.AddCampaign(id, expected);
    }
    if cut {
      return Crashed;
    }
    outcome := SeedLineage(registry, w, id, ArmSpec(source, arm), o);
  }

  /** Creating the arm's Campaign is a move like any other: it changes no record and touches no seed. */
  lemma EnsureCampaignMoves(w: Site, r: Reg, id: CampaignId, expected: Campaign)
    requires WellFormed(r) && EnsureCampaign(r, id, expected).Did?
    ensures Moves(w, r, Elsewhere, EnsureCampaign(r, id, expected).reg)
    ensures id in EnsureCampaign(r, id, expected).reg.campaigns
    ensures EnsureCampaign(r, id, expected).reg.campaigns[id].Identity() == expected.Identity()
    ensures id in r.campaigns ==> EnsureCampaign(r, id, expected).reg == r
  {
    KeepsSelf(r);
  }

  /** A call for an arm is two moves of a run: the Campaign, then the seed; or just the first if it is cut
      off in between, or none if the arm is refused. */
  lemma ArmIsMoves(w: Site, r: Reg, arm: Arm, cut: bool, o: Oracle)
    requires WellFormed(r) && SeedArm(w, r, arm, cut, o).0 != r
    ensures MayClone(r, arm)
    ensures
      var source := r.lineages[arm.source];
      var id := ArmOf(source.campaign, arm.creationKey);
      var ensured := EnsureCampaign(r, id, ArmCampaign(r.campaigns[source.campaign], o.now));
      && ensured.Did? && Moves(w, r, Elsewhere, ensured.reg)
      && (cut ==> SeedArm(w, r, arm, cut, o).0 == ensured.reg)
      && (!cut ==> Moves(w, ensured.reg, Call(id, ArmSpec(source, arm), o), SeedArm(w, r, arm, cut, o).0))
  {
    var source := r.lineages[arm.source];
    var id := ArmOf(source.campaign, arm.creationKey);
    EnsureCampaignMoves(w, r, id, ArmCampaign(r.campaigns[source.campaign], o.now));
  }

  /** A call for an arm changes no record, wherever it is interrupted. */
  lemma ArmKeeps(w: Site, r: Reg, arm: Arm, cut: bool, o: Oracle)
    requires WellFormed(r)
    ensures Keeps(r, SeedArm(w, r, arm, cut, o).0) && WellFormed(SeedArm(w, r, arm, cut, o).0)
  {
    KeepsSelf(r);
    if SeedArm(w, r, arm, cut, o).0 != r {
      ArmIsMoves(w, r, arm, cut, o);
      var source := r.lineages[arm.source];
      var id := ArmOf(source.campaign, arm.creationKey);
      var mid := EnsureCampaign(r, id, ArmCampaign(r.campaigns[source.campaign], o.now)).reg;
      if !cut {
        MoveKeeps(w, mid, Call(id, ArmSpec(source, arm), o), SeedArm(w, r, arm, cut, o).0);
        KeepsTrans(r, mid, SeedArm(w, r, arm, cut, o).0);
      }
    }
  }

  /** What a call for an arm needs: a source that may be cloned, a Campaign that can be ensured, and what
      the seed needs in it. */
  predicate ArmReady(w: Site, r: Reg, arm: Arm, o: Oracle) {
    && MayClone(r, arm)
    && var source := r.lineages[arm.source];
       var id := ArmOf(source.campaign, arm.creationKey);
       var ensured := EnsureCampaign(r, id, ArmCampaign(r.campaigns[source.campaign], o.now));
       && ensured.Did? && Bind(w, ensured.reg, id).Did?
       && Ready(w, Bind(w, ensured.reg, id).reg, id, ArmSpec(source, arm), o)
  }

  /** Wherever earlier calls for an arm were interrupted, the next uninterrupted one completes it exactly
      if nothing is missing. */
  lemma NextArmCompletes(w: Site, rs: seq<Reg>, ms: seq<Move>, arm: Arm, o: Oracle)
    requires IsRun(w, rs, ms) && o.crash > 4
    requires MayClone(rs[|ms|], arm) ==>
      var source := rs[|ms|].lineages[arm.source];
      var id := ArmOf(source.campaign, arm.creationKey);
      OnTheWay(w, rs[0], id, ArmSpec(source, arm)) && UsedOnlyFor(ms, id, ArmSpec(source, arm))
    ensures SeedArm(w, rs[|ms|], arm, false, o).1.Done? <==> ArmReady(w, rs[|ms|], arm, o)
  {
    var r := rs[|ms|];
    if MayClone(r, arm) {
      var source := r.lineages[arm.source];
      var id := ArmOf(source.campaign, arm.creationKey);
      var ensured := EnsureCampaign(r, id, ArmCampaign(r.campaigns[source.campaign], o.now));
      if ensured.Did? {
        RunKeeps(w, rs, ms, |ms|, |ms|);
        EnsureCampaignMoves(w, r, id, ArmCampaign(r.campaigns[source.campaign], o.now));
        AfterOneMore(w, rs, ms, ensured.reg, id, ArmSpec(source, arm), o);
      }
    }
  }

  lemma AfterOneMore(w: Site, rs: seq<Reg>, ms: seq<Move>, mid: Reg, id: CampaignId, spec: Spec, o: Oracle)
    requires IsRun(w, rs, ms) && Moves(w, rs[|ms|], Elsewhere, mid) && o.crash > 4
    requires OnTheWay(w, rs[0], id, spec) && UsedOnlyFor(ms, id, spec)
    ensures Seed(w, mid, id, spec, o).1.Done? <==>
      Bind(w, mid, id).Did? && Ready(w, Bind(w, mid, id).reg, id, spec, o)
  {
    var longer, moves := rs + [mid], ms + [Elsewhere];
    forall i | 0 <= i < |moves| ensures Moves(w, longer[i], moves[i], longer[i + 1]) {
      if i < |ms| { assert Moves(w, rs[i], ms[i], rs[i + 1]); }
    }
    assert longer[|moves|] == mid && longer[0] == rs[0];
    NextCallCompletes(w, longer, moves, |moves|, id, spec, o);
  }

  /** An arm's request depends only on what never changes in its source. */
  lemma ArmRequestStays(r: Reg, r': Reg, arm: Arm)
    requires Keeps(r, r') && arm.source in r.lineages
    ensures arm.source in r'.lineages && ArmSpec(r'.lineages[arm.source], arm) == ArmSpec(r.lineages[arm.source], arm)
    ensures r'.lineages[arm.source].campaign == r.lineages[arm.source].campaign
  {
    assert SameLineage(r.lineages[arm.source], r'.lineages[arm.source]);
  }

  /** What a successful arm leaves: a Campaign with the source's identity, and a durable root in it. */
  lemma ArmIsDurable(w: Site, r: Reg, arm: Arm, o: Oracle)
    requires WellFormed(r) && SeedArm(w, r, arm, false, o).1.Done?
    ensures
      var (after, outcome) := SeedArm(w, r, arm, false, o);
      var source := r.lineages[arm.source].campaign;
      var id := ArmOf(source, arm.creationKey);
      && Keeps(r, after) && WellFormed(after)
      && id in after.campaigns && after.campaigns[id].Identity() == r.campaigns[source].Identity()
      && Durable(after, SeedOf(id, arm.creationKey)) == Some(outcome.result)
  {
    var source := r.lineages[arm.source];
    var id := ArmOf(source.campaign, arm.creationKey);
    var expected := ArmCampaign(r.campaigns[source.campaign], o.now);
    var mid := EnsureCampaign(r, id, expected).reg;
    EnsureCampaignMoves(w, r, id, expected);
    SeedKeeps(w, mid, id, ArmSpec(source, arm), o);
    DoneIsDurable(w, mid, id, ArmSpec(source, arm), o);
    KeepsTrans(r, mid, Seed(w, mid, id, ArmSpec(source, arm), o).0);
  }

  /** Repeating an arm, after any activity in between, returns the same result. */
  lemma ArmResultsEqual(w: Site, r: Reg, r': Reg, arm: Arm, o: Oracle, o': Oracle)
    requires WellFormed(r) && WellFormed(r') && Keeps(SeedArm(w, r, arm, false, o).0, r')
    requires SeedArm(w, r, arm, false, o).1.Done? && SeedArm(w, r', arm, false, o').1.Done?
    ensures SeedArm(w, r, arm, false, o).1 == SeedArm(w, r', arm, false, o').1
  {
    ArmIsDurable(w, r, arm, o);
    ArmIsDurable(w, r', arm, o');
    var after, after' := SeedArm(w, r, arm, false, o).0, SeedArm(w, r', arm, false, o').0;
    KeepsTrans(r, after, r');
    ArmRequestStays(r, r', arm);
    KeepsTrans(after, r', after');
    DurableStays(after, after', SeedOf(ArmOf(r.lineages[arm.source].campaign, arm.creationKey), arm.creationKey));
  }

  /** The Lineage of an arm names its source as Bootstrap source, in its choices and in its receipt. */
  lemma ArmIsCloned(w: Site, r: Reg, arm: Arm, o: Oracle)
    requires SeedArm(w, r, arm, false, o).1.Done?
    ensures
      var (after, outcome) := SeedArm(w, r, arm, false, o);
      var id := SeedOf(ArmOf(r.lineages[arm.source].campaign, arm.creationKey), arm.creationKey);
      && id in after.lineages && after.lineages[id].config.bootstrapSource == Some(arm.source)
      && outcome.result.provenance.sourceLineage == Some(arm.source)
  {
    var source := r.lineages[arm.source];
    var id := ArmOf(source.campaign, arm.creationKey);
    var mid := EnsureCampaign(r, id, ArmCampaign(r.campaigns[source.campaign], o.now)).reg;
    CloneNamesItsSource(w, mid, id, ArmSpec(source, arm), o);
  }

  /** An arm is never cloned from another arm, at any later time. */
  lemma NoArmOfAnArm(w: Site, r: Reg, arm: Arm, o: Oracle, r': Reg, again: Arm, cut: bool, o': Oracle)
    requires WellFormed(r) && SeedArm(w, r, arm, false, o).1.Done? && Keeps(SeedArm(w, r, arm, false, o).0, r')
    requires again.source == SeedOf(ArmOf(r.lineages[arm.source].campaign, arm.creationKey), arm.creationKey)
    ensures SeedArm(w, r', again, cut, o') == (r', Raised)
  {
    ArmIsDurable(w, r, arm, o);
    ArmIsCloned(w, r, arm, o);
    var after := SeedArm(w, r, arm, false, o).0;
    DurableStays(after, r', again.source);
    assert SameLineage(after.lineages[again.source], r'.lineages[again.source]);
  }

  /** The Campaign a first call creates for an arm: the source's, under the arm's identity, active and new. */
  lemma ArmCampaignMeans(w: Site, r: Reg, arm: Arm, o: Oracle)
    requires MayClone(r, arm) && ArmOf(r.lineages[arm.source].campaign, arm.creationKey) !in r.campaigns
    ensures
      var (after, outcome) := SeedArm(w, r, arm, true, o);
      var source, id := r.lineages[arm.source].campaign, ArmOf(r.lineages[arm.source].campaign, arm.creationKey);
      && outcome == Crashed && after == r.(campaigns := after.campaigns)
      && after.campaigns.Keys == r.campaigns.Keys + {id}
      && (forall c :: c in r.campaigns ==> after.campaigns[c] == r.campaigns[c])
      && after.campaigns[id] == Campaign(r.campaigns[source].operator, r.campaigns[source].hardware,
                                         r.campaigns[source].contract, r.campaigns[source].problem, o.now, true,
                                         r.campaigns[source].problemModel, r.campaigns[source].evolverCommit)
  {
  }

  /** A Lineage can be the source of an arm iff it and its Campaign exist and it was not cloned, or its
      version-0 receipt says that it was seeded on its own, in its Campaign, from no other Lineage. */
  lemma MayCloneMeans(r: Reg, arm: Arm)
    ensures MayClone(r, arm) <==>
      && arm.source in r.lineages && r.lineages[arm.source].campaign in r.campaigns
      && (r.lineages[arm.source].config.bootstrapSource == None
          || (&& arm.source in r.baselines && r.baselines[arm.source].0 in r.agents
              && match r.agents[r.baselines[arm.source].0].receipt
                 case SeedReceipt(p) =>
                   p.lineage == arm.source && p.campaign == r.lineages[arm.source].campaign && p.sourceLineage == None
                 case _ => false))
  {
  }

  /** Only a Lineage that was not cloned, or was seeded on its own, can be the source of an arm. */
  lemma SourceMeans(w: Site, r: Reg, arm: Arm, cut: bool, o: Oracle)
    requires SeedArm(w, r, arm, cut, o).1 != Raised
    ensures arm.source in r.lineages && r.lineages[arm.source].campaign in r.campaigns
    ensures r.lineages[arm.source].config.bootstrapSource.Some? ==>
      && arm.source in r.baselines && r.baselines[arm.source].0 in r.agents
      && exists p :: r.agents[r.baselines[arm.source].0].receipt == SeedReceipt(p) && p.lineage == arm.source
                     && p.campaign == r.lineages[arm.source].campaign && p.sourceLineage == None
  {
    if r.lineages[arm.source].config.bootstrapSource.Some? {
      var p := r.agents[r.baselines[arm.source].0].receipt.provenance;
      assert r.agents[r.baselines[arm.source].0].receipt == SeedReceipt(p);
    }
  }

  /** A successful arm is the source's baseline with the arm's choices: the source's version-0 Kernel, its
      version-0 Agent or the replacement, with the selected workflow; the arm's optimizer or else the
      source's; always the source's Evolver and DSL. */
  lemma ArmMeans(w: Site, r: Reg, arm: Arm, o: Oracle)
    requires SeedArm(w, r, arm, false, o).1.Done?
    ensures
      var (after, outcome) := SeedArm(w, r, arm, false, o);
      var source, result := r.lineages[arm.source], outcome.result;
      var id := SeedOf(ArmOf(source.campaign, arm.creationKey), arm.creationKey);
      && arm.source in r.baselines && r.baselines[arm.source].0 in r.agents && r.baselines[arm.source].1 in r.kernels
      && result.kernel == r.kernels[r.baselines[arm.source].1].artifact
      && var base := if arm.replacementAgent.Some? then arm.replacementAgent.value
                     else r.agents[r.baselines[arm.source].0].optimizer;
         result.agent == if arm.workflow.Some? then w.selectWorkflow(base, source.dsl, arm.workflow.value) else base
    ensures
      var (after, outcome) := SeedArm(w, r, arm, false, o);
      var source, result := r.lineages[arm.source], outcome.result;
      var id := SeedOf(ArmOf(source.campaign, arm.creationKey), arm.creationKey);
      var optimizer := if arm.optimizer.Some? then arm.optimizer else source.config.optimizer;
      && result.lineage == id && result.dsl == source.dsl
      && id in after.lineages && after.lineages[id].dsl == source.dsl
      && after.lineages[id].config == arm.config.(optimizer := optimizer, evolver := source.config.evolver,
                                                  bootstrapSource := Some(arm.source))
      && result.evidence == Clone(id, source.evidence.Root())
  {
    var source := r.lineages[arm.source];
    var id := ArmOf(source.campaign, arm.creationKey);
    var mid := EnsureCampaign(r, id, ArmCampaign(r.campaigns[source.campaign], o.now)).reg;
    assert mid == r.(campaigns := mid.campaigns);
    var named, agent := DoneMeans(w, mid, id, ArmSpec(source, arm), o);
  }
}
