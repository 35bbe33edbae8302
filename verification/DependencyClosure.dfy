/** The wheels a standalone gateway must vendor (`build_gateway_standalone.py`): everything reachable
    from the roots through requirements whose markers hold under the extras asked for so far. */
module DependencyClosure {
  import opened Wrappers

  type Name = string        // canonical project name
  type Extra = string
  type Marker = string
  type Specifier = string
  type Version = string

  datatype Requirement = Requirement(name: Name, extras: set<Extra>, url: bool, specifier: Specifier,
                                     marker: Option<Marker>)

  datatype Wheel = Wheel(version: Version, requires_: seq<Requirement>, extras: set<Extra>)

  /** The wheelhouse, the roots, and the two judgements of the packaging library: whether a marker
      holds in the target environment for one extra, and whether a specifier admits a version. */
  datatype House = House(wheels: map<Name, Wheel>, roots: seq<Name>,
                         evaluate: (Marker, Extra) -> bool, admits: (Specifier, Version) -> bool)
  {
    predicate Active(r: Requirement, extras: set<Extra>) {
      r.marker.None? || exists e :: e in extras && evaluate(r.marker.value, e)
    }

    /** The requirement can be vendored. */
    predicate Usable(r: Requirement) {
      !r.url && r.name in wheels && admits(r.specifier, wheels[r.name].version)
    }
  }

  /** Which names are asked for, each with which extras; `""` stands for the plain project. */
  type Requests = map<Name, set<Extra>>

  predicate Has(m: Requests, n: Name, extras: set<Extra>) { n in m && extras <= m[n] }

  predicate Below(m: Requests, m': Requests) { forall n :: n in m ==> Has(m', n, m[n]) }

  function Asked(r: Requirement): set<Extra> { {""} + r.extras }

  /** The requirements of `n` that are active under `extras` are answered in `m`. */
  predicate Answered(h: House, n: Name, extras: set<Extra>, m: Requests) {
    n in h.wheels ==>
      forall r :: r in h.wheels[n].requires_ && h.Active(r, extras) ==> Has(m, r.name, Asked(r))
  }

  /** `m` contains the roots and whatever the members of `m` ask for, with all their extras. */
  predicate Closed(h: House, m: Requests) {
    && (forall n :: n in h.roots ==> Has(m, n, {""}))
    && (forall n :: n in m ==> Answered(h, n, m[n], m))
  }

  /** The wheel of `n` exists, offers the extras and asks for nothing unusable under them. */
  predicate Sound(h: House, n: Name, extras: set<Extra>) {
    && n in h.wheels && extras - {""} <= h.wheels[n].extras
    && forall r :: r in h.wheels[n].requires_ && h.Active(r, extras) ==> h.Usable(r)
  }

  predicate Good(h: House, m: Requests) { forall n :: n in m ==> Sound(h, n, m[n]) }

  ghost predicate Least(h: House, m: Requests) {
    Closed(h, m) && forall m' :: Closed(h, m') ==> Below(m, m')
  }

  datatype Error =
    | MissingWheel(name: Name)
    | UnknownExtras(name: Name)
    | DirectUrl(name: Name, requirement: Requirement)
    | MissingDependency(name: Name, requirement: Requirement)
    | Unsatisfied(name: Name, requirement: Requirement)

  datatype Result = Ok(names: set<Name>) | Err(error: Error)

  /** What the error says is wrong is wrong in `m`. */
  predicate Blames(h: House, e: Error, m: Requests) {
    && e.name in m
    && match e
       case MissingWheel(n) => n !in h.wheels
       case UnknownExtras(n) => n in h.wheels && !(m[n] - {""} <= h.wheels[n].extras)
       case DirectUrl(n, r) => n in h.wheels && r in h.wheels[n].requires_ && h.Active(r, m[n]) && r.url
       case MissingDependency(n, r) =>
         n in h.wheels && r in h.wheels[n].requires_ && h.Active(r, m[n]) && r.name !in h.wheels
       case Unsatisfied(n, r) =>
         && n in h.wheels && r in h.wheels[n].requires_ && h.Active(r, m[n]) && r.name in h.wheels
         && !h.admits(r.specifier, h.wheels[r.name].version)
  }

  /** A fault stays a fault when more is asked for. */
  lemma BlameGrows(h: House, e: Error, m: Requests, m': Requests)
    requires Blames(h, e, m) && Below(m, m')
    ensures Blames(h, e, m')
  {
    assert Has(m', e.name, m[e.name]);
  }

  lemma BlameAll(h: House, e: Error, m: Requests)
    requires Blames(h, e, m) && forall m' :: Closed(h, m') ==> Below(m, m')
    ensures forall m' :: Closed(h, m') ==> Blames(h, e, m')
  {
    forall m' | Closed(h, m') ensures Blames(h, e, m') { BlameGrows(h, e, m, m'); }
  }

  lemma BlamedIsNotGood(h: House, e: Error, m: Requests)
    requires Blames(h, e, m)
    ensures !Good(h, m)
  {
  }

  /** There is only one least closed set, whatever order it is computed in. */
  lemma LeastIsUnique(h: House, m: Requests, m': Requests)
    requires Least(h, m) && Least(h, m')
    ensures m == m'
  {
    forall n | n in m ensures n in m' && m[n] == m'[n] {
      assert Has(m', n, m[n]);
      assert Has(m, n, m'[n]);
    }
    forall n | n in m' ensures n in m {
      assert Has(m, n, m'[n]);
    }
  }

  // ---- What closed, least and good sets are, requirement by requirement -------------------

  /** A member's requirement whose marker holds, for one of the extras the member is asked for with, is a
      member itself, asked for plainly and with the extras it names. */
  lemma ClosedMeans(h: House, m: Requests, n: Name, r: Requirement)
    requires Closed(h, m)
    ensures forall root :: root in h.roots ==> root in m && "" in m[root]
    ensures
      n in m && n in h.wheels && r in h.wheels[n].requires_
      && (r.marker.None? || exists e :: e in m[n] && h.evaluate(r.marker.value, e)) ==>
        r.name in m && "" in m[r.name] && r.extras <= m[r.name]
  {
    forall root | root in h.roots ensures root in m && "" in m[root] { assert Has(m, root, {""}); }
    if n in m && n in h.wheels && r in h.wheels[n].requires_ && h.Active(r, m[n]) {
      assert Answered(h, n, m[n], m);
      assert Has(m, r.name, Asked(r));
      assert "" in Asked(r);
    }
  }

  /** Some member of `m` requires `r`, with a marker that holds. */
  predicate RequiredIn(h: House, m: Requests, n: Name, r: Requirement) {
    && n in m && n in h.wheels && r in h.wheels[n].requires_
    && (r.marker.None? || exists e :: e in m[n] && h.evaluate(r.marker.value, e))
  }

  ghost predicate NameNeeded(h: House, m: Requests, name: Name) {
    name in h.roots || exists n, r :: RequiredIn(h, m, n, r) && r.name == name
  }

  ghost predicate ExtraNeeded(h: House, m: Requests, name: Name, e: Extra) {
    e == "" || exists n, r :: RequiredIn(h, m, n, r) && r.name == name && e in r.extras
  }

  ghost function Needed(h: House, m: Requests): Requests {
    map n | n in m && NameNeeded(h, m, n) :: set e | e in m[n] && ExtraNeeded(h, m, n, e)
  }

  lemma NeededIsClosed(h: House, m: Requests)
    requires Closed(h, m)
    ensures Closed(h, Needed(h, m))
  {
    var needed := Needed(h, m);
    forall n | n in h.roots ensures Has(needed, n, {""}) { assert Has(m, n, {""}); }
    forall n, r | n in needed && n in h.wheels && r in h.wheels[n].requires_ && h.Active(r, needed[n])
      ensures Has(needed, r.name, Asked(r))
    {
      assert h.Active(r, m[n]) && RequiredIn(h, m, n, r);
      assert Answered(h, n, m[n], m);
      assert Has(m, r.name, Asked(r));
    }
  }

  /** Nothing else is in the least closed set: every name is a root or required by a member, and every
      extra is asked for by such a requirement. */
  lemma LeastMeans(h: House, m: Requests, name: Name)
    requires Least(h, m) && name in m
    ensures NameNeeded(h, m, name) && forall e :: e in m[name] ==> ExtraNeeded(h, m, name, e)
  {
    NeededIsClosed(h, m);
    assert Has(Needed(h, m), name, m[name]);
  }

  /** A set is good iff each member has a wheel that offers its extras, and each of its requirements whose
      marker holds is no URL and names a wheel whose version it admits. */
  lemma GoodMeans(h: House, m: Requests)
    ensures Good(h, m) <==>
      && (forall n :: n in m ==> n in h.wheels && forall e :: e in m[n] && e != "" ==> e in h.wheels[n].extras)
      && forall n, r :: RequiredIn(h, m, n, r) ==>
           !r.url && r.name in h.wheels && h.admits(r.specifier, h.wheels[r.name].version)
  {
    if Good(h, m) {
      forall n | n in m
        ensures n in h.wheels && forall e :: e in m[n] && e != "" ==> e in h.wheels[n].extras
      {
        assert Sound(h, n, m[n]);
        forall e | e in m[n] && e != "" ensures e in h.wheels[n].extras { assert e in m[n] - {""}; }
      }
      forall n, r | RequiredIn(h, m, n, r)
        ensures !r.url && r.name in h.wheels && h.admits(r.specifier, h.wheels[r.name].version)
      {
        assert Sound(h, n, m[n]) && h.Active(r, m[n]) && h.Usable(r);
      }
    }
    var usable := forall n, r :: RequiredIn(h, m, n, r) ==>
      !r.url && r.name in h.wheels && h.admits(r.specifier, h.wheels[r.name].version);
    if usable {
      forall n, r | n in m && n in h.wheels && r in h.wheels[n].requires_ && h.Active(r, m[n]) ensures h.Usable(r) {
        assert RequiredIn(h, m, n, r);
      }
    }
  }

  function AllNames(h: House): set<Name> {
    (set n | n in h.roots) + (set n, r | n in h.wheels && r in h.wheels[n].requires_ :: r.name)
  }

  function AllExtras(h: House): set<Extra> {
    {""} + (set n, r, e | n in h.wheels && r in h.wheels[n].requires_ && e in r.extras :: e)
  }

  /** Asking for every mentioned project with every mentioned extra is closed. */
  lemma SomeClosed(h: House)
    ensures exists m :: Closed(h, m)
  {
    var m: Requests := map n | n in AllNames(h) :: AllExtras(h);
    forall n | n in m && n in h.wheels ensures Answered(h, n, m[n], m) {
      forall r | r in h.wheels[n].requires_ ensures Has(m, r.name, Asked(r)) {
        assert forall e :: e in r.extras ==> e in AllExtras(h);
      }
    }
    assert Closed(h, m);
  }

  /** Every closed set asks for this. */
  ghost predicate Forced(h: House, n: Name, extras: set<Extra>) { forall m :: Closed(h, m) ==> Has(m, n, extras) }

  /** What every closed set asks for. */
  ghost function Meet(h: House, top: Requests): Requests {
    map n | n in top && Forced(h, n, {}) :: set e | e in top[n] && Forced(h, n, {e})
  }

  lemma MeetHas(h: House, top: Requests, n: Name, extras: set<Extra>)
    requires Closed(h, top)
    ensures Has(Meet(h, top), n, extras) <==> Forced(h, n, extras)
  {
    if Forced(h, n, extras) {
      assert Has(top, n, extras);
      assert Forced(h, n, {}) by {
        forall m | Closed(h, m) ensures Has(m, n, {}) { assert Has(m, n, extras); }
      }
      forall e | e in extras ensures Forced(h, n, {e}) {
        forall m | Closed(h, m) ensures Has(m, n, {e}) { assert Has(m, n, extras); }
      }
    }
    if Has(Meet(h, top), n, extras) {
      forall m | Closed(h, m) ensures Has(m, n, extras) {
        assert Has(m, n, {});
        forall e | e in extras ensures e in m[n] {
          assert e in Meet(h, top)[n];
          assert Has(m, n, {e});
        }
      }
    }
  }

  lemma MeetClosed(h: House, top: Requests)
    requires Closed(h, top)
    ensures Closed(h, Meet(h, top))
  {
    var least := Meet(h, top);
    forall n | n in h.roots ensures Has(least, n, {""}) { MeetHas(h, top, n, {""}); }
    forall n, r | n in least && n in h.wheels && r in h.wheels[n].requires_ && h.Active(r, least[n])
      ensures Has(least, r.name, Asked(r))
    {
      MeetHas(h, top, n, least[n]);
      forall m | Closed(h, m) ensures Has(m, r.name, Asked(r)) {
        assert Has(m, n, least[n]);
        assert Answered(h, n, m[n], m);
        assert h.Active(r, m[n]);
      }
      MeetHas(h, top, r.name, Asked(r));
    }
  }

  /** The least closed set always exists. */
  lemma LeastExists(h: House)
    ensures exists m :: Least(h, m)
  {
    SomeClosed(h);
    var top :| Closed(h, top);
    MeetClosed(h, top);
    forall m | Closed(h, m) ensures Below(Meet(h, top), m) {
      forall n | n in Meet(h, top) ensures Has(m, n, Meet(h, top)[n]) {
        MeetHas(h, top, n, Meet(h, top)[n]);
      }
    }
    assert Least(h, Meet(h, top));
  }

  // ---- The worklist -----------------------------------------------------------------------

  function Pairs(m: Requests): set<(Name, Extra)> { set n, e | n in m && e in m[n] :: (n, e) }

  /** Everything that can ever be marked processed. */
  function Universe(h: House): set<(Name, Extra)> {
    set n, e | n in h.wheels && e in h.wheels[n].extras + {""} :: (n, e)
  }

  function Get(m: Requests, n: Name): set<Extra> { if n in m then m[n] else {} }

  /** What the loop keeps: every request contains the plain project, lies below every closed set,
      and is either waiting or processed with exactly its present extras; what has been processed
      was sound and has been answered. `busy` is a name whose requirements are being walked. */
  ghost predicate Inv(h: House, requested: Requests, processed: Requests, pending: seq<Name>, busy: Option<Name>) {
    && (forall n :: n in h.roots ==> Has(requested, n, {""}))
    && (forall n :: n in requested ==> "" in requested[n])
    && (forall n :: n in requested ==> n in pending || (n in processed && processed[n] == requested[n]))
    && (forall n :: n in pending ==> n in requested)
    && Below(processed, requested)
    && Pairs(processed) <= Universe(h)
    && (forall n :: n in processed && busy != Some(n) ==>
          Sound(h, n, processed[n]) && Answered(h, n, processed[n], requested))
    && (forall m :: Closed(h, m) ==> Below(requested, m))
  }

  lemma BelowTrans(a: Requests, b: Requests, c: Requests)
    requires Below(a, b) && Below(b, c)
    ensures Below(a, c)
  {
    forall n | n in a ensures Has(c, n, a[n]) {
      assert Has(b, n, a[n]);
      assert Has(c, n, b[n]);
    }
  }

  /** With nothing pending, what was requested is the least closed set and it is good. */
  lemma DoneIsLeast(h: House, requested: Requests, processed: Requests)
    requires Inv(h, requested, processed, [], None)
    ensures Least(h, requested) && Good(h, requested)
  {
  }

  /** Asking for one more requirement keeps the requests below every closed set. */
  lemma AskStaysBelow(h: House, requested: Requests, n: Name, r: Requirement, after: Requests)
    requires n in requested && n in h.wheels && r in h.wheels[n].requires_ && h.Active(r, requested[n])
    requires after == requested[r.name := Get(requested, r.name) + Asked(r)]
    requires forall m :: Closed(h, m) ==> Below(requested, m)
    ensures forall m :: Closed(h, m) ==> Below(after, m)
  {
    forall m | Closed(h, m) ensures Below(after, m) {
      assert Has(m, n, requested[n]);
      assert Answered(h, n, m[n], m);
      assert h.Active(r, m[n]);
      assert Has(m, r.name, Asked(r));
      assert forall k :: k in requested ==> Has(m, k, requested[k]);
    }
  }

  lemma AnsweredGrows(h: House, n: Name, extras: set<Extra>, m: Requests, m': Requests)
    requires Answered(h, n, extras, m) && Below(m, m')
    ensures Answered(h, n, extras, m')
  {
    if n in h.wheels {
      forall r | r in h.wheels[n].requires_ && h.Active(r, extras) ensures Has(m', r.name, Asked(r)) {
        assert Has(m, r.name, Asked(r));
        assert Has(m', r.name, m[r.name]);
      }
    }
  }

  /** One requirement of `name` has been asked for, and its owner queued again if it is new or now
      asks for more: the invariant is kept. */
  lemma AskKeepsInv(h: House, requested: Requests, processed: Requests, pending: seq<Name>, name: Name, r: Requirement,
                    after: Requests, queue: seq<Name>)
    requires Inv(h, requested, processed, pending, Some(name))
    requires name in requested && name in h.wheels && r in h.wheels[name].requires_ && h.Active(r, requested[name])
    requires after == requested[r.name := Get(requested, r.name) + Asked(r)]
    requires
      queue == if r.name !in processed || Get(requested, r.name) != after[r.name] then pending + [r.name] else pending
    ensures Inv(h, after, processed, queue, Some(name))
    ensures Below(requested, after)
  {
    AskStaysBelow(h, requested, name, r, after);
    assert Below(requested, after);
    BelowTrans(processed, requested, after);
    forall n | n in processed && n != name ensures Answered(h, n, processed[n], after) {
      AnsweredGrows(h, n, processed[n], requested, after);
    }
    forall n | n in after ensures n in queue || (n in processed && processed[n] == after[n]) {
      if n == r.name && queue == pending { assert requested[n] == after[n]; }
    }
  }

  lemma InUniverse(h: House, n: Name, e: Extra)
    ensures (n, e) in Universe(h) <==> n in h.wheels && e in h.wheels[n].extras + {""}
  {
  }

  lemma InPairs(m: Requests, n: Name, e: Extra)
    ensures (n, e) in Pairs(m) <==> n in m && e in m[n]
  {
  }

  lemma SubsetSmaller(u: set<(Name, Extra)>, s: set<(Name, Extra)>, t: set<(Name, Extra)>, p: (Name, Extra))
    requires s <= t && p in t && p !in s && p in u
    ensures |u - t| < |u - s|
  {
    assert u - s == (u - t) + ((u - s) - (u - t));
    assert p in (u - s) - (u - t);
  }

  /** Processing a name with new extras makes the processed pairs strictly grow, within the universe. */
  lemma MarkGrows(h: House, processed: Requests, name: Name, extras: set<Extra>)
    requires name in h.wheels && extras - {""} <= h.wheels[name].extras && "" in extras
    requires Get(processed, name) <= extras && (name in processed ==> processed[name] != extras)
    requires Pairs(processed) <= Universe(h)
    ensures Pairs(processed[name := extras]) <= Universe(h)
    ensures |Universe(h) - Pairs(processed[name := extras])| < |Universe(h) - Pairs(processed)|
  {
    var after := processed[name := extras];
    var added := extras - Get(processed, name);
    assert added != {};
    var e :| e in added;
    forall p | p in Pairs(after) ensures p in Universe(h) {
      InPairs(after, p.0, p.1);
      InPairs(processed, p.0, p.1);
      InUniverse(h, p.0, p.1);
    }
    forall p | p in Pairs(processed) ensures p in Pairs(after) {
      InPairs(after, p.0, p.1);
      InPairs(processed, p.0, p.1);
    }
    InPairs(after, name, e);
    InPairs(processed, name, e);
    SubsetSmaller(Universe(h), Pairs(processed), Pairs(after), (name, e));
  }

  lemma InitInv(h: House)
    ensures Inv(h, map n | n in h.roots :: {""}, map[], h.roots, None)
  {
  }

  /** Popping a name that is processed with its present extras, or marking the popped name processed. */
  lemma PopKeepsInv(h: House, requested: Requests, processed: Requests, rest: seq<Name>, name: Name)
    requires Inv(h, requested, processed, rest + [name], None)
    ensures name in requested && Get(processed, name) <= requested[name] && "" in requested[name]
    ensures Get(processed, name) == requested[name] ==> Inv(h, requested, processed, rest, None)
    ensures Pairs(processed[name := requested[name]]) <= Universe(h) ==>
      Inv(h, requested, processed[name := requested[name]], rest, Some(name))
  {
    assert name in rest + [name];
    if name in processed { assert Has(requested, name, processed[name]); }
    assert forall n :: n in rest + [name] <==> n in rest || n == name;
    var after := processed[name := requested[name]];
    assert forall n :: n in after && n != name ==> n in processed && after[n] == processed[n];
    forall n | n in after ensures Has(requested, n, after[n]) {
      if n != name { assert Has(requested, n, processed[n]); }
    }
  }

  /** Walks the requirements of one popped name. The extras tested by the markers are the live ones:
      a requirement on the project itself can add to them on the way. */
  method Walk(h: House, requested: Requests, processed: Requests, pending: seq<Name>, name: Name)
    returns (requested': Requests, pending': seq<Name>, error: Option<Error>)
    requires name in processed && name in h.wheels && name in requested && processed[name] <= requested[name]
    requires processed[name] - {""} <= h.wheels[name].extras
    requires Inv(h, requested, processed, pending, Some(name))
    ensures error.None? ==> Inv(h, requested', processed, pending', None)
    ensures error.Some? ==> forall m :: Closed(h, m) ==> Blames(h, error.value, m)
  {
    requested', pending', error := requested, pending, None;
    var asks := h.wheels[name].requires_;
    var i := 0;
    while i < |asks|
      invariant 0 <= i <= |asks|
      invariant name in requested' && processed[name] <= requested'[name]
      invariant Inv(h, requested', processed, pending', Some(name))
      invariant forall k :: 0 <= k < i && h.Active(asks[k], processed[name]) ==>
        h.Usable(asks[k]) && Has(requested', asks[k].name, Asked(asks[k]))
    {
      var r := asks[i];
      if h.Active(r, requested'[name]) {
        if !h.Usable(r) {
          error := Some(
            if r.url then DirectUrl(name, r)
            else if r.name !in h.wheels then MissingDependency(name, r)
            else Unsatisfied(name, r));
          BlameAll(h, error.value, requested');
          return;
        }
        var previous := Get(requested', r.name);
        ghost var before, queue := requested', pending';
        requested' := requested'[r.name := previous + Asked(r)];
        if r.name !in processed || previous != requested'[r.name] {
          pending' := pending' + [r.name];
        }
        AskKeepsInv(h, before, processed, queue, name, r, requested', pending');
        assert Has(requested', name, before[name]);
        forall k | 0 <= k < i && h.Active(asks[k], processed[name])
          ensures Has(requested', asks[k].name, Asked(asks[k]))
        {
          assert Has(requested', asks[k].name, before[asks[k].name]);
        }
      }
      i := i + 1;
    }
  }

  /** Pops names until none is left. It returns the names of the least closed set, which is then
      good; or an error that is true of every closed set. */
  method Closure(h: House) returns (result: Result)
    ensures result.Ok? ==> exists m :: Least(h, m) && Good(h, m) && result.names == m.Keys
    ensures result.Err? ==> forall m :: Closed(h, m) ==> Blames(h, result.error, m)
  {
    var requested: Requests := map n | n in h.roots :: {""};
    var processed: Requests := map[];
    var pending := h.roots;
    InitInv(h);
    while pending != []
      invariant Inv(h, requested, processed, pending, None)
      decreases |Universe(h) - Pairs(processed)|, |pending|
    {
      var name, rest := pending[|pending| - 1], pending[..|pending| - 1];
      assert pending == rest + [name];
      PopKeepsInv(h, requested, processed, rest, name);
      pending := rest;
      if name !in h.wheels {
        BlameAll(h, MissingWheel(name), requested);
        return Err(MissingWheel(name));
      }
      if !(requested[name] - {""} <= h.wheels[name].extras) {
        BlameAll(h, UnknownExtras(name), requested);
        return Err(UnknownExtras(name));
      }
      if name in processed && processed[name] == requested[name] {
        continue;
      }
      MarkGrows(h, processed, name, requested[name]);
      processed := processed[name := requested[name]];
      var error;
      requested, pending, error := Walk(h, requested, processed, pending, name);
      if error.Some? {
        return Err(error.value);
      }
    }
    DoneIsLeast(h, requested, processed);
    result := Ok(requested.Keys);
  }

  /** The closure succeeds iff the least closed set is good; by the contract of `Closure` its answer
      `r` decides which. */
  lemma SucceedsWhenGood(h: House, least: Requests, r: Result)
    requires Least(h, least)
    requires r.Ok? ==> exists m :: Least(h, m) && Good(h, m) && r.names == m.Keys
    requires r.Err? ==> forall m :: Closed(h, m) ==> Blames(h, r.error, m)
    ensures r.Ok? <==> Good(h, least)
    ensures r.Ok? ==> r.names == least.Keys
  {
    if r.Ok? {
      var m :| Least(h, m) && Good(h, m) && r.names == m.Keys;
      LeastIsUnique(h, m, least);
    } else {
      BlamedIsNotGood(h, r.error, least);
    }
  }
}
