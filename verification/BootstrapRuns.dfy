/** Runs of bootstrap calls, interrupted anywhere, between anything else the system does. */
module BootstrapRuns {
  import opened Wrappers
  import opened SeedRegistry
  import opened LineageSeed
  import opened Bootstrap

  // ---- A call touches nothing of another Lineage ------------------------------------------

  lemma NewTouches(r: Reg, spec: BootSpec, agent: AgentId, g: Generated, now: Time, crash: nat, x: Identity)
    requires agent in r.agents && spec.Lineage() != x.lineage
    ensures Untouched(r, BootNew(r, spec, agent, g, now, crash).0, x)
    ensures BootNew(r, spec, agent, g, now, crash).0.campaigns == r.campaigns
  {
    var id, record := spec.Lineage(), BootLineageRecord(spec, agent, g);
    KernelTouches(r, id, BootKernel(g, now), x);
    var step := RegisterKernel(r, KernelOf(id), BootKernel(g, now));
    if step.Did? {
      InsertTouches(step.reg, id, record, x);
      var last := InsertLineage(step.reg, id, record);
      if last.Did? { UntouchedTrans(r, step.reg, last.reg, x); }
    }
  }

  lemma AfterTouches(r: Reg, was: Recorded, spec: BootSpec, agent: AgentId, o: BootOracle, x: Identity)
    requires agent in r.agents && spec.Lineage() != x.lineage
    ensures Untouched(r, BootAfter(r, was, spec, agent, o).0, x)
    ensures BootAfter(r, was, spec, agent, o).0.campaigns == r.campaigns
  {
    var g := Generate(was, o).1;
    if g.Some? { NewTouches(r, spec, agent, g.value, o.now, o.crash, x); }
  }

  lemma RestTouches(r: Reg, was: Recorded, spec: BootSpec, o: BootOracle, x: Identity)
    requires spec.Lineage() != x.lineage && spec.Key() != x.key
    ensures Untouched(r, BootRest(r, was, spec, o).0, x)
    ensures BootRest(r, was, spec, o).0.campaigns == r.campaigns
  {
    var id := spec.Lineage();
    AgentTouches(r, id, spec.Key(), BootAgent(spec, o.now), x);
    var step := RegisterAgent(r, AgentOf(id), spec.Key(), BootAgent(spec, o.now));
    if step.Did? {
      AfterTouches(step.reg, was, spec, step.value, o, x);
      UntouchedTrans(r, step.reg, BootAfter(step.reg, was, spec, step.value, o).0, x);
    }
  }

  lemma RestLeavesCampaigns(r: Reg, was: Recorded, spec: BootSpec, o: BootOracle)
    ensures BootRest(r, was, spec, o).0.campaigns == r.campaigns
  {
    var key := OtherKey("");
    RestTouches(r, was, spec, o, Identity(SeedOf(spec.Campaign(), ""), key));
  }

  /** A call for another Lineage creates no record of this one, wherever it is interrupted. */
  lemma BootTouchesOnlyItsOwn(r: Reg, was: Recorded, spec: BootSpec, o: BootOracle, x: Identity)
    requires spec.Lineage() != x.lineage && spec.Key() != x.key
    ensures Untouched(r, Boot(r, was, spec, o).0, x)
  {
    EnsuredCampaign(r, spec, o.now);
    var ensured := EnsureCampaign(r, spec, o.now).0;
    RestTouches(ensured, was, spec, o, x);
    UntouchedTrans(r, ensured, BootRest(ensured, was, spec, o).0, x);
  }

  /** The only Campaign a call can create is the requested one. */
  lemma BootCampaigns(r: Reg, was: Recorded, spec: BootSpec, o: BootOracle)
    ensures
      var after := Boot(r, was, spec, o).0;
      && after.campaigns.Keys == r.campaigns.Keys + {spec.Campaign()}
      && (spec.Campaign() !in r.campaigns ==> SameCampaign(after.campaigns[spec.Campaign()], spec))
  {
    EnsuredCampaign(r, spec, o.now);
    RestLeavesCampaigns(EnsureCampaign(r, spec, o.now).0, was, spec, o);
  }

  /** For the seeds' runs a bootstrap call is part of the activity elsewhere. */
  lemma BootIsElsewhere(w: Site, r: Reg, was: Recorded, spec: BootSpec, o: BootOracle)
    requires WellFormed(r)
    ensures Moves(w, r, Elsewhere, Boot(r, was, spec, o).0)
  {
    BootKeeps(r, was, spec, o);
    forall c, key ensures Untouched(r, Boot(r, was, spec, o).0, SeedIdentity(c, key)) {
      BootTouchesOnlyItsOwn(r, was, spec, o, SeedIdentity(c, key));
    }
  }

  // ---- How far a bootstrap has come -------------------------------------------------------

  /** The Campaign is the requested one, up to an Evolver commit where none is requested. */
  predicate RightCampaign(c: Campaign, spec: BootSpec) {
    && c.Identity() == (spec.operator, spec.hardware, spec.contract, spec.problem)
    && c.problemModel == spec.problemModel && (spec.commit.Some? ==> c.evolverCommit == spec.commit)
  }

  predicate RightAgent(r: Reg, spec: BootSpec) {
    && spec.Key() in r.keys && r.keys[spec.Key()] == AgentOf(spec.Lineage())
    && AgentOf(spec.Lineage()) in r.agents
    && r.agents[AgentOf(spec.Lineage())].Content() == BootAgent(spec, "").Content()
  }

  predicate RecordedKernel(r: Reg, was: Recorded, spec: BootSpec) {
    && was.Completed? && KernelOf(spec.Lineage()) in r.kernels
    && r.kernels[KernelOf(spec.Lineage())].(createdAt := "") == BootKernel(was.generated, "")
  }

  predicate RightLineage(l: Lineage, spec: BootSpec) {
    && l.campaign == spec.Campaign() && l.dsl == spec.dsl && l.hardware == spec.hardware
    && l.config == spec.Config()
    && (l.nextEpoch <= 1 ==> l.activeAgent == AgentOf(spec.Lineage()) && l.bestKernel == KernelOf(spec.Lineage()))
  }

  /** Whatever exists of a bootstrap is right, and nothing exists without what comes before it: no Kernel
      that the generator has not recorded, no Lineage without its Agent and Kernel. */
  predicate Underway(r: Reg, was: Recorded, spec: BootSpec) {
    var id := spec.Lineage();
    && (spec.Campaign() in r.campaigns ==> RightCampaign(r.campaigns[spec.Campaign()], spec))
    && (spec.Key() in r.keys || AgentOf(id) in r.agents ==> RightAgent(r, spec))
    && (KernelOf(id) in r.kernels ==> RecordedKernel(r, was, spec))
    && (id in r.lineages ==> RightAgent(r, spec) && RecordedKernel(r, was, spec) && RightLineage(r.lineages[id], spec))
  }

  /** Anything that keeps records and creates none of this bootstrap leaves it as far as it was. */
  lemma QuietStaysUnderway(r: Reg, r': Reg, was: Recorded, spec: BootSpec)
    requires Underway(r, was, spec) && Keeps(r, r') && Untouched(r, r', spec.Id())
    requires spec.Campaign() in r'.campaigns && spec.Campaign() !in r.campaigns ==>
      RightCampaign(r'.campaigns[spec.Campaign()], spec)
    ensures Underway(r', was, spec)
  {
    var id := spec.Lineage();
    if id in r.lineages { assert SameLineage(r.lineages[id], r'.lineages[id]); }
  }

  lemma KernelStaysUnderway(r: Reg, spec: BootSpec, g: Generated, now: Time)
    requires Underway(r, Completed(g), spec)
    ensures
      var step := RegisterKernel(r, KernelOf(spec.Lineage()), BootKernel(g, now));
      && step.Did? && Underway(step.reg, Completed(g), spec) && RecordedKernel(step.reg, Completed(g), spec)
      && step.reg == r.(kernels := step.reg.kernels)
  {
  }

  lemma LineageStaysUnderway(r: Reg, spec: BootSpec, g: Generated)
    requires Underway(r, Completed(g), spec) && RightAgent(r, spec) && RecordedKernel(r, Completed(g), spec)
    requires spec.Lineage() !in r.lineages
    ensures
      var step := InsertLineage(r, spec.Lineage(), BootLineageRecord(spec, AgentOf(spec.Lineage()), g));
      step.Did? && Underway(step.reg, Completed(g), spec)
  {
  }

  /** From the baseline on: a record of the generator's outcome is all that is needed. */
  lemma NewStaysUnderway(r: Reg, spec: BootSpec, g: Generated, now: Time, crash: nat)
    requires Underway(r, Completed(g), spec) && RightAgent(r, spec) && spec.Lineage() !in r.lineages
    ensures
      var (after, outcome) := BootNew(r, spec, AgentOf(spec.Lineage()), g, now, crash);
      Underway(after, Completed(g), spec) && (crash > 5 ==> outcome.Booted?)
  {
    KernelStaysUnderway(r, spec, g, now);
    var mid := RegisterKernel(r, KernelOf(spec.Lineage()), BootKernel(g, now)).reg;
    LineageStaysUnderway(mid, spec, g);
    var last := InsertLineage(mid, spec.Lineage(), BootLineageRecord(spec, AgentOf(spec.Lineage()), g)).reg;
    var after := BootNew(r, spec, AgentOf(spec.Lineage()), g, now, crash).0;
    assert after == r || after == mid || after == last;
  }

  lemma ExistingBoots(r: Reg, was: Recorded, spec: BootSpec)
    requires Underway(r, was, spec) && spec.Lineage() in r.lineages
    ensures AgentOf(spec.Lineage()) in r.agents && BootExisting(r, spec, AgentOf(spec.Lineage())).Booted?
  {
  }

  /** The generator has, or will now get, a completed outcome. */
  predicate Obtainable(was: Recorded, o: BootOracle) {
    was.Completed? || (was.Nothing? && o.generated.Some? && o.generated.value.Good())
  }

  lemma AfterStaysUnderway(r: Reg, was: Recorded, spec: BootSpec, o: BootOracle)
    requires Underway(r, was, spec) && RightAgent(r, spec)
    ensures
      var (after, now, outcome) := BootAfter(r, was, spec, AgentOf(spec.Lineage()), o);
      && Underway(after, now, spec)
      && (o.crash > 5 ==> (outcome.Booted? <==> spec.Lineage() in r.lineages || Obtainable(was, o)))
  {
    if o.crash != 1 {
      if spec.Lineage() in r.lineages {
        ExistingBoots(r, was, spec);
      } else {
        var (now, g) := Generate(was, o);
        if g.Some? { NewStaysUnderway(r, spec, g.value, o.now, o.crash); }
      }
    }
  }

  lemma AgentStaysUnderway(r: Reg, was: Recorded, spec: BootSpec, now: Time)
    requires Underway(r, was, spec)
    ensures
      var step := RegisterAgent(r, AgentOf(spec.Lineage()), spec.Key(), BootAgent(spec, now));
      && step.Did? && step.value == AgentOf(spec.Lineage()) && Underway(step.reg, was, spec)
      && RightAgent(step.reg, spec)
      && step.reg.lineages == r.lineages
  {
  }

  /** An existing Campaign is not bound to an Evolver commit where none is requested. */
  predicate CampaignFits(r: Reg, spec: BootSpec) {
    spec.Campaign() in r.campaigns && spec.commit.None? ==> r.campaigns[spec.Campaign()].evolverCommit.None?
  }

  lemma CampaignStaysUnderway(r: Reg, was: Recorded, spec: BootSpec, now: Time)
    requires Underway(r, was, spec)
    ensures
      var (after, same) := EnsureCampaign(r, spec, now);
      Underway(after, was, spec) && after.lineages == r.lineages && (same <==> CampaignFits(r, spec))
  {
    EnsuredCampaign(r, spec, now);
  }

  /** A call keeps what there is right. It succeeds, if it is not interrupted, exactly when the Campaign
      fits and the Lineage exists or the generator's outcome can be had. */
  lemma BootStaysUnderway(r: Reg, was: Recorded, spec: BootSpec, o: BootOracle)
    requires Underway(r, was, spec)
    ensures
      var (after, now, outcome) := Boot(r, was, spec, o);
      && Underway(after, now, spec)
      && (o.crash > 5 ==>
            (outcome.Booted? <==> CampaignFits(r, spec) && (spec.Lineage() in r.lineages || Obtainable(was, o))))
  {
    var (ensured, same) := EnsureCampaign(r, spec, o.now);
    CampaignStaysUnderway(r, was, spec, o.now);
    AgentStaysUnderway(ensured, was, spec, o.now);
    var step := RegisterAgent(ensured, AgentOf(spec.Lineage()), spec.Key(), BootAgent(spec, o.now));
    AfterStaysUnderway(step.reg, was, spec, o);
  }

  // ---- Runs -------------------------------------------------------------------------------

  /** The registry and the gateway's record of outcomes. */
  datatype World = World(reg: Reg, recorded: map<LineageId, Recorded>)
  {
    function Of(id: LineageId): Recorded { if id in recorded then recorded[id] else Nothing }
  }

  datatype BootMove = BootCall(spec: BootSpec, oracle: BootOracle) | Otherwise

  ghost predicate BootMoves(w: World, m: BootMove, w': World) {
    match m
    case BootCall(spec, o) =>
      var (reg, now, _) := Boot(w.reg, w.Of(spec.Lineage()), spec, o);
      w' == World(reg, w.recorded[spec.Lineage() := now])
    case Otherwise =>
      && Keeps(w.reg, w'.reg) && WellFormed(w'.reg) && w'.recorded == w.recorded
      && (forall key, dsl :: Untouched(w.reg, w'.reg, Identity(BootLineage(key, dsl), BootKey(key, dsl))))
      && (forall key :: BootOf(key) in w'.reg.campaigns ==> BootOf(key) in w.reg.campaigns)
  }

  ghost predicate IsBootRun(ws: seq<World>, ms: seq<BootMove>) {
    && |ws| == |ms| + 1 && WellFormed(ws[0].reg)
    && forall i :: 0 <= i < |ms| ==> BootMoves(ws[i], ms[i], ws[i + 1])
  }

  /** A creation key stands for one Campaign request, and with a DSL for one Lineage request. */
  predicate Agrees(m: BootMove, spec: BootSpec) {
    m.BootCall? && m.spec.creationKey == spec.creationKey ==>
      m.spec.Shared() == spec.Shared() && (m.spec.dsl == spec.dsl ==> m.spec == spec)
  }

  predicate AllAgree(ms: seq<BootMove>, spec: BootSpec) { forall i :: 0 <= i < |ms| ==> Agrees(ms[i], spec) }

  /** Every call of a seed or for an arm is such other activity. */
  lemma SeedIsOtherwise(site: Site, w: World, campaign: CampaignId, spec: Spec, o: Oracle)
    requires WellFormed(w.reg)
    ensures BootMoves(w, Otherwise, w.(reg := Seed(site, w.reg, campaign, spec, o).0))
  {
    var after := Seed(site, w.reg, campaign, spec, o).0;
    SeedKeeps(site, w.reg, campaign, spec, o);
    forall key, dsl ensures Untouched(w.reg, after, Identity(BootLineage(key, dsl), BootKey(key, dsl))) {
      SeedTouchesOnlyItsOwn(site, w.reg, campaign, spec, o, Identity(BootLineage(key, dsl), BootKey(key, dsl)));
    }
    SeedTouchesOnlyItsOwn(site, w.reg, campaign, spec, o, Identity(BootLineage("", ""), BootKey("", "")));
  }

  lemma MoveKeepsWorld(w: World, m: BootMove, w': World)
    requires WellFormed(w.reg) && BootMoves(w, m, w')
    ensures WellFormed(w'.reg) && Keeps(w.reg, w'.reg)
  {
    if m.BootCall? { BootKeeps(w.reg, w.Of(m.spec.Lineage()), m.spec, m.oracle); }
  }

  lemma MoveStaysUnderway(w: World, m: BootMove, w': World, spec: BootSpec)
    requires WellFormed(w.reg) && BootMoves(w, m, w') && Agrees(m, spec)
    requires Underway(w.reg, w.Of(spec.Lineage()), spec)
    ensures Underway(w'.reg, w'.Of(spec.Lineage()), spec)
  {
    if m.BootCall? && m.spec.creationKey == spec.creationKey && m.spec.dsl == spec.dsl {
      BootStaysUnderway(w.reg, w.Of(spec.Lineage()), spec, m.oracle);
    } else {
      MoveKeepsWorld(w, m, w');
      if m.BootCall? {
        BootTouchesOnlyItsOwn(w.reg, w.Of(m.spec.Lineage()), m.spec, m.oracle, spec.Id());
        BootCampaigns(w.reg, w.Of(m.spec.Lineage()), m.spec, m.oracle);
      }
      QuietStaysUnderway(w.reg, w'.reg, w.Of(spec.Lineage()), spec);
    }
  }

  /** In every run whatever exists of a bootstrap is right, at every moment and after every crash. */
  lemma {:induction false} RunStaysUnderway(ws: seq<World>, ms: seq<BootMove>, n: nat, spec: BootSpec)
    requires IsBootRun(ws, ms) && n < |ws| && AllAgree(ms, spec)
    requires Underway(ws[0].reg, ws[0].Of(spec.Lineage()), spec)
    ensures WellFormed(ws[n].reg) && Underway(ws[n].reg, ws[n].Of(spec.Lineage()), spec)
  {
    if n > 0 {
      RunStaysUnderway(ws, ms, n - 1, spec);
      assert BootMoves(ws[n - 1], ms[n - 1], ws[n]) && Agrees(ms[n - 1], spec);
      MoveKeepsWorld(ws[n - 1], ms[n - 1], ws[n]);
      MoveStaysUnderway(ws[n - 1], ms[n - 1], ws[n], spec);
    }
  }

  /** Wherever earlier calls were interrupted, the next uninterrupted one completes the bootstrap exactly
      when the Campaign fits and the Lineage exists or the generator's outcome can be had. */
  lemma NextBootCompletes(ws: seq<World>, ms: seq<BootMove>, n: nat, spec: BootSpec, o: BootOracle)
    requires IsBootRun(ws, ms) && n < |ws| && AllAgree(ms, spec) && o.crash > 5
    requires Underway(ws[0].reg, ws[0].Of(spec.Lineage()), spec)
    ensures
      var r, was := ws[n].reg, ws[n].Of(spec.Lineage());
      Boot(r, was, spec, o).2.Booted? <==> CampaignFits(r, spec) && (spec.Lineage() in r.lineages || Obtainable(was, o))
  {
    RunStaysUnderway(ws, ms, n, spec);
    BootStaysUnderway(ws[n].reg, ws[n].Of(spec.Lineage()), spec, o);
  }

  /** A recorded outcome never changes, and only the generator's own completion is ever added to it. */
  predicate RecordedStays(was: Recorded, now: Recorded) { was.Nothing? || now == was }

  lemma {:induction false} RecordsStay(ws: seq<World>, ms: seq<BootMove>, m: nat, n: nat, id: LineageId)
    requires IsBootRun(ws, ms) && m <= n < |ws|
    ensures RecordedStays(ws[m].Of(id), ws[n].Of(id))
    decreases n - m
  {
    if m < n {
      RecordsStay(ws, ms, m, n - 1, id);
      assert BootMoves(ws[n - 1], ms[n - 1], ws[n]);
    }
  }

  /** Once the generator's run is recorded as completed, no later interruption can keep the bootstrap from
      being completed: no further generation is needed. */
  lemma CompletedConverges(ws: seq<World>, ms: seq<BootMove>, m: nat, n: nat, spec: BootSpec, o: BootOracle)
    requires IsBootRun(ws, ms) && m <= n < |ws| && AllAgree(ms, spec) && o.crash > 5
    requires Underway(ws[0].reg, ws[0].Of(spec.Lineage()), spec)
    requires ws[m].Of(spec.Lineage()).Completed? && CampaignFits(ws[n].reg, spec)
    ensures Boot(ws[n].reg, ws[n].Of(spec.Lineage()), spec, o).2.Booted?
  {
    RecordsStay(ws, ms, m, n, spec.Lineage());
    NextBootCompletes(ws, ms, n, spec, o);
  }

  /** But a bootstrap caught between the generator's outcome and its completed run never completes. */
  lemma OutcomeAloneIsStuck(ws: seq<World>, ms: seq<BootMove>, m: nat, n: nat, spec: BootSpec, o: BootOracle)
    requires IsBootRun(ws, ms) && m <= n < |ws| && AllAgree(ms, spec)
    requires Underway(ws[0].reg, ws[0].Of(spec.Lineage()), spec)
    requires ws[m].Of(spec.Lineage()).Outcome?
    ensures !Boot(ws[n].reg, ws[n].Of(spec.Lineage()), spec, o).2.Booted?
    ensures spec.Lineage() !in ws[n].reg.lineages
  {
    RecordsStay(ws, ms, m, n, spec.Lineage());
    RunStaysUnderway(ws, ms, n, spec);
    var r, was := ws[n].reg, ws[n].Of(spec.Lineage());
    CampaignStaysUnderway(r, was, spec, o.now);
    AgentStaysUnderway(EnsureCampaign(r, spec, o.now).0, was, spec, o.now);
  }

  lemma {:induction false} BootRunFits(ws: seq<World>, ms: seq<BootMove>, n: nat)
    requires IsBootRun(ws, ms) && n < |ws|
    ensures WellFormed(ws[n].reg)
  {
    if n > 0 {
      BootRunFits(ws, ms, n - 1);
      assert BootMoves(ws[n - 1], ms[n - 1], ws[n]);
      MoveKeepsWorld(ws[n - 1], ms[n - 1], ws[n]);
    }
  }

  lemma OneMoveKeeps(ws: seq<World>, ms: seq<BootMove>, n: nat)
    requires IsBootRun(ws, ms) && n < |ms|
    ensures Keeps(ws[n].reg, ws[n + 1].reg)
  {
    BootRunFits(ws, ms, n);
    assert BootMoves(ws[n], ms[n], ws[n + 1]);
    MoveKeepsWorld(ws[n], ms[n], ws[n + 1]);
  }

  lemma {:induction false} BootRunKeeps(ws: seq<World>, ms: seq<BootMove>, m: nat, n: nat)
    requires IsBootRun(ws, ms) && m <= n < |ws|
    ensures Keeps(ws[m].reg, ws[n].reg)
    decreases n - m
  {
    if m == n {
      KeepsSelf(ws[n].reg);
    } else {
      BootRunKeeps(ws, ms, m, n - 1);
      OneMoveKeeps(ws, ms, n - 1);
      KeepsTrans(ws[m].reg, ws[n - 1].reg, ws[n].reg);
    }
  }

  /** All successful calls of a run for one Lineage agree, up to the Kernel's timestamp. */
  lemma AllBootsAgree(ws: seq<World>, ms: seq<BootMove>, m: nat, n: nat, spec: BootSpec, o: BootOracle, o': BootOracle)
    requires IsBootRun(ws, ms) && m < n < |ws| && ms[m] == BootCall(spec, o)
    requires Boot(ws[m].reg, ws[m].Of(spec.Lineage()), spec, o).2.Booted?
    requires Boot(ws[n].reg, ws[n].Of(spec.Lineage()), spec, o').2.Booted?
    ensures
      var first := Boot(ws[m].reg, ws[m].Of(spec.Lineage()), spec, o).2.result;
      var second := Boot(ws[n].reg, ws[n].Of(spec.Lineage()), spec, o').2.result;
      second.(kernelCreated := first.kernelCreated) == first
  {
    assert BootMoves(ws[m], ms[m], ws[m + 1]);
    BootRunFits(ws, ms, m);
    BootRunFits(ws, ms, n);
    BootRunKeeps(ws, ms, m + 1, n);
    BootResultsAgree(ws[m].reg, ws[m].Of(spec.Lineage()), ws[n].reg, ws[n].Of(spec.Lineage()), spec, o, o');
  }

  // ---- A generator that does not recover --------------------------------------------------

  /** If the generator had forgotten its outcome and answered anew, an interrupted bootstrap would complete
      exactly if its Kernel is not registered yet or the answer repeats the recorded outcome's Kernel
      and measurement. */
  lemma RetryNeedsTheSameBaseline(r: Reg, recorded: Generated, spec: BootSpec, o: BootOracle)
    requires Underway(r, Completed(recorded), spec) && CampaignFits(r, spec) && spec.Lineage() !in r.lineages
    requires o.crash > 5 && o.generated.Some? && o.generated.value.Good()
    ensures Boot(r, Nothing, spec, o).2.Booted? <==>
      KernelOf(spec.Lineage()) !in r.kernels
      || (o.generated.value.kernel, o.generated.value.evaluation) == (recorded.kernel, recorded.evaluation)
  {
    var was := Completed(recorded);
    var ensured := EnsureCampaign(r, spec, o.now).0;
    EnsuredCampaign(r, spec, o.now);
    CampaignStaysUnderway(r, was, spec, o.now);
    AgentStaysUnderway(ensured, was, spec, o.now);
    var step := RegisterAgent(ensured, AgentOf(spec.Lineage()), spec.Key(), BootAgent(spec, o.now));
    assert step.reg.kernels == r.kernels && step.reg.lineages == r.lineages;
    AnewCompletes(step.reg, recorded, spec, o.generated.value, o.now, o.crash);
  }

  lemma AnewCompletes(r: Reg, recorded: Generated, spec: BootSpec, g: Generated, now: Time, crash: nat)
    requires Underway(r, Completed(recorded), spec) && RightAgent(r, spec) && spec.Lineage() !in r.lineages
    requires crash > 5
    ensures BootNew(r, spec, AgentOf(spec.Lineage()), g, now, crash).1.Booted? <==>
      KernelOf(spec.Lineage()) !in r.kernels || (g.kernel, g.evaluation) == (recorded.kernel, recorded.evaluation)
  {
  }

  // ---- Two runs from an empty registry ----------------------------------------------------

  function EmptyReg(): Reg { Reg(map[], map[], map[], map[], map[], map[], map[]) }

  function SomeSpec(): BootSpec {
    BootSpec("key", "triton", "gdn", "sm120", None, None, "contract", "problem", "optimizer", "base", 1, 1, None, None)
  }

  function SomeBaseline(): Generated { Generated("kernel", Evaluation(true, Some(7), "result"), "report") }

  function FirstBoot(crash: nat): (Reg, Recorded, BootOutcome) {
    Boot(EmptyReg(), Nothing, SomeSpec(), BootOracle(crash, Some(SomeBaseline()), "monday"))
  }

  /** The registry a first call leaves that is interrupted right after the Kernel. */
  function HalfwayReg(): Reg {
    var spec := SomeSpec();
    var id := spec.Lineage();
    Reg(map[spec.Campaign() := BootCampaign(spec, "monday")], map[KernelOf(id) := BootKernel(SomeBaseline(), "monday")],
        map[AgentOf(id) := BootAgent(spec, "monday")], map[spec.Key() := AgentOf(id)], map[], map[], map[])
  }

  function CompletedReg(): Reg {
    InsertLineage(HalfwayReg(), SomeSpec().Lineage(),
                  BootLineageRecord(SomeSpec(), AgentOf(SomeSpec().Lineage()), SomeBaseline())).reg
  }

  function LaterBoot(r: Reg, day: Time): (Reg, Recorded, BootOutcome) {
    Boot(r, Completed(SomeBaseline()), SomeSpec(), BootOracle(6, None, day))
  }

  lemma HalfwayIsReached()
    ensures FirstBoot(4) == (HalfwayReg(), Completed(SomeBaseline()), Interrupted)
  {
  }

  /** The completing call reports its own time as the Kernel's; the next one reports the recorded time. */
  lemma CompletingCallReportsAnotherTime()
    ensures
      var second := LaterBoot(HalfwayReg(), "tuesday");
      && second.0 == CompletedReg() && second.1 == Completed(SomeBaseline())
      && second.2.Booted? && second.2.result.kernelCreated == "tuesday"
    ensures
      var third := LaterBoot(CompletedReg(), "wednesday");
      third.2.Booted? && third.2.result.kernelCreated == "monday"
  {
    SecondCall();
    ThirdCall();
  }

  lemma SecondCall()
    ensures
      var second := LaterBoot(HalfwayReg(), "tuesday");
      && second.0 == CompletedReg() && second.1 == Completed(SomeBaseline())
      && second.2.Booted? && second.2.result.kernelCreated == "tuesday"
  {
  }

  lemma ThirdCall()
    ensures
      var third := LaterBoot(CompletedReg(), "wednesday");
      third.2.Booted? && third.2.result.kernelCreated == "monday"
  {
  }

  /** A first call can leave an outcome without a completed run, by a crash or because the outcome is not
      good. */
  lemma StuckIsReached()
    ensures FirstBoot(2).1 == Outcome(SomeBaseline()) && FirstBoot(2).2 == Interrupted
    ensures Underway(EmptyReg(), Nothing, SomeSpec()) && WellFormed(EmptyReg())
  {
  }
}
