/** Which Evaluation Contract a new or resumed Campaign uses (`bootstrap.py`). */
module EvaluationContract {
  import opened Wrappers

  datatype Split = Split(population: string, agentIds: Option<string>)

  /** The fields the resolution looks at; `gate` stands for every other trusted field. Contracts are
      stored under content digests, so comparing digests is comparing contracts. */
  datatype Contract = Contract(gate: string, validationIds: Option<string>, split: Option<Split>,
                               accelerator: Option<string>, slug: Option<string>, roofline: Option<string>)

  /** What a Campaign's contract digest refers to. */
  datatype Stored = Sealed(contract: Contract) | WrongKind

  /** What the Roofline Builder does this time, if there is one. */
  datatype Build = NoBuilder | Fails(detail: string) | Builds(roofline: string)

  datatype Mode = SealedReuse | Explicit | Generated | ProfileFallback

  datatype Resolved = Use(contract: Contract, mode: Mode) | Refuse

  /** The sealed Campaign is too old for what the request asks. */
  predicate Predates(input: Contract, sealed: Contract) {
    || (input.validationIds.Some? && sealed.validationIds.None?)
    || (input.split.Some? && sealed.split.None?)
    || (input.split.Some? && input.split.value.agentIds.Some? && sealed.split.Some?
        && sealed.split.value.agentIds.None?)
  }

  /** The request asks for the sealed contract: accelerator fields a Campaign was sealed without do
      not count, nor does a sealed Roofline the request leaves open. */
  predicate AsksFor(input: Contract, sealed: Contract) {
    var comparable :=
      if sealed.accelerator.None? && sealed.slug.None? then input.(accelerator := None, slug := None) else input;
    comparable == if input.roofline.None? then sealed.(roofline := None) else sealed
  }

  function Fresh(input: Contract, build: Build): Resolved {
    if input.roofline.Some? then Use(input, Explicit)
    else if build.Builds? then Use(input.(roofline := Some(build.roofline)), Generated)
    else Use(input, ProfileFallback)
  }

  function Resolution(input: Contract, existing: Option<Stored>, build: Build): Resolved {
    match existing
    case None => Fresh(input, build)
    case Some(WrongKind) => Refuse
    case Some(Sealed(s)) =>
      if Predates(input, s) then Refuse
      else if AsksFor(input, s) then Use(s, if s.roofline.Some? then SealedReuse else ProfileFallback)
      else Fresh(input, build)
  }

  /** Resolution followed by the identity check of an existing Campaign. */
  function Resumed(input: Contract, existing: Option<Stored>, build: Build): Resolved {
    var r := Resolution(input, existing, build);
    if r.Use? && existing.Some? && existing.value.Sealed? && r.contract != existing.value.contract then Refuse else r
  }

  /** A call resolves its contract and then must find that of an existing Campaign. A resumed call goes on
      exactly if the sealed contract can be read, is not too old for the request and is what the request
      asks for, and then with that very contract. */
  method Resume(input: Contract, existing: Option<Stored>, build: Build) returns (r: Resolved)
    ensures existing.Some? ==>
      var s := existing.value;
      && (r.Use? <==> s.Sealed? && !Predates(input, s.contract) && AsksFor(input, s.contract))
      && (r.Use? ==> r.contract == s.contract && r.mode != Generated)
    ensures existing.None? ==>
      && r.Use? && r.contract.(roofline := input.roofline) == input
      && r.contract.roofline ==
           (if input.roofline.None? && build.Builds? then Some(build.roofline) else input.roofline)
      && (r.mode == Explicit <==> input.roofline.Some?)
      && (r.mode == Generated <==> input.roofline.None? && build.Builds?)
    ensures r == Resumed(input, existing, build)
  {
    if existing.Some? {
      if existing.value.WrongKind? {
        return Refuse;
      }
      var sealed := existing.value.contract;
      ResumeUsesSealed(input, sealed, build);
      if input.validationIds.Some? && sealed.validationIds.None? {
        return Refuse;
      }
      if input.split.Some? && sealed.split.None? {
        return Refuse;
      }
      if input.split.Some? && input.split.value.agentIds.Some? && sealed.split.Some?
         && sealed.split.value.agentIds.None? {
        return Refuse;
      }
      var comparable := input;
      if sealed.accelerator.None? && sealed.slug.None? {
        comparable := comparable.(accelerator := None, slug := None);
      }
      var expected := if input.roofline.None? then sealed.(roofline := None) else sealed;
      if comparable == expected {
        return Use(sealed, if sealed.roofline.Some? then SealedReuse else ProfileFallback);
      }
    }
    r := Use(input, if input.roofline.Some? then Explicit else ProfileFallback);
    if input.roofline.None? && build.Builds? {
      r := Use(input.(roofline := Some(build.roofline)), Generated);
    }
    if existing.Some? && r.contract != existing.value.contract {
      return Refuse;
    }
  }

  /** Resuming either raises or uses exactly the sealed contract, and which of the two does not depend
      on the Builder: a Builder that is nondeterministic, or only now recovers, changes nothing. */
  lemma ResumeUsesSealed(input: Contract, sealed: Contract, build: Build)
    ensures Resumed(input, Some(Sealed(sealed)), build).Use? <==> !Predates(input, sealed) && AsksFor(input, sealed)
    ensures Resumed(input, Some(Sealed(sealed)), build).Use? ==>
      Resumed(input, Some(Sealed(sealed)), build).contract == sealed
  {
    assert Fresh(input, build).contract == sealed && input.roofline.None? ==> sealed.(roofline := None) == input;
  }

  /** What a Campaign was sealed with can always be resumed by the same request, whatever the Builder
      answered when it was sealed and whatever it answers now. */
  lemma SameRequestResumes(input: Contract, first: Build, second: Build)
    requires Resolution(input, None, first).Use?
    ensures
      var sealed := Resolution(input, None, first).contract;
      var again := Resumed(input, Some(Sealed(sealed)), second);
      again.Use? && again.contract == sealed
  {
    ResumeUsesSealed(input, Resolution(input, None, first).contract, second);
  }

  /** The request asks for a sealed contract field by field: every trusted field is the same, except that
      the accelerator fields do not count if the Campaign was sealed without both, and the Roofline does
      not if the request leaves it open. */
  lemma AsksForMeans(input: Contract, sealed: Contract)
    ensures AsksFor(input, sealed) <==>
      && input.gate == sealed.gate && input.validationIds == sealed.validationIds && input.split == sealed.split
      && ((sealed.accelerator.None? && sealed.slug.None?)
          || (input.accelerator == sealed.accelerator && input.slug == sealed.slug))
      && (input.roofline.None? || input.roofline == sealed.roofline)
  {
  }

  /** The Campaign is too old if the request has a split of Valid and Test, a Shape archive or opaque
      Agent Shape ids that it was sealed without. */
  lemma PredatesMeans(input: Contract, sealed: Contract)
    ensures Predates(input, sealed) <==>
      || (input.validationIds != None && sealed.validationIds == None)
      || (input.split != None && sealed.split == None)
      || (exists was, now, ids :: input.split == Some(Split(now, Some(ids))) && sealed.split == Some(Split(was, None)))
  {
    if input.split.Some? && input.split.value.agentIds.Some? && sealed.split.Some?
       && sealed.split.value.agentIds.None? {
      var ids, was := input.split.value.agentIds.value, sealed.split.value.population;
      assert input.split == Some(Split(input.split.value.population, Some(ids)));
      assert sealed.split == Some(Split(was, None));
    }
  }
}
