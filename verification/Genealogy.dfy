/** Append-only Direction ancestry (`direction_genealogy.py`): what the validator accepts, and why
    the history it guards stays free of cycles. */
module Genealogy {
  import opened Wrappers

  type DirectionId = string
  type ExperimentId = string

  /** An entry of an id list as the Agent wrote it. */
  datatype Item = Id(id: string) | Malformed

  datatype RawList = NotAList | Items(items: seq<Item>)

  datatype Kind =
    Absent | Unknown | Retry | Refinement | Reimplementation | Correction | Port | Combination | Adoption

  datatype Status = Suggested | OtherStatus

  datatype Value = Value(kind: Kind, parents: RawList, evidence: RawList, supersedes: Option<Item>)

  datatype Ancestry = NoAncestry
    | Ancestry(kind: Kind, parents: seq<DirectionId>, evidence: seq<ExperimentId>, supersedes: Option<DirectionId>)

  datatype Direction = Direction(status: Status, parents: seq<DirectionId>, evidence: seq<ExperimentId>,
                                 supersedes: Option<DirectionId>)

  /** A history, or the part of it a caller may see: Directions, and the owner of each Experiment. */
  datatype Graph = Graph(directions: map<DirectionId, Direction>, owners: map<ExperimentId, DirectionId>)

  datatype Error =
    | BadList | BadId | DuplicateId
    | BadKind
    | HiddenParent(direction: DirectionId)
    | BadAdoption | NotSuggested
    | HiddenExperiment(experiment: ExperimentId) | HiddenOwner(experiment: ExperimentId)
    | NoParent | LonelyCombination | BadSupersession
    | Cycle

  datatype Checked<+T> = Ok(value: T) | Err(error: Error)

  // ---- Graphs -----------------------------------------------------------------------------

  function Elements(s: seq<DirectionId>): set<DirectionId> { set b | b in s }

  predicate Cites(g: Graph, evidence: seq<ExperimentId>, b: DirectionId) {
    exists e :: e in evidence && e in g.owners && g.owners[e] == b
  }

  /** `b` is a direct parent of `a` or owns an Experiment that `a` cites. */
  predicate Edge(g: Graph, a: DirectionId, b: DirectionId) {
    a in g.directions && (b in g.directions[a].parents || Cites(g, g.directions[a].evidence, b))
  }

  predicate Walk(g: Graph, p: seq<DirectionId>) {
    |p| > 0 && forall i :: 0 <= i < |p| - 1 ==> Edge(g, p[i], p[i + 1])
  }

  ghost predicate Reaches(g: Graph, from: set<DirectionId>, d: DirectionId) {
    exists p :: Walk(g, p) && p[0] in from && p[|p| - 1] == d
  }

  ghost predicate Acyclic(g: Graph) {
    forall p :: Walk(g, p) && |p| > 1 ==> p[0] != p[|p| - 1]
  }

  lemma WalkMore(g: Graph, p: seq<DirectionId>, b: DirectionId)
    requires Walk(g, p) && Edge(g, p[|p| - 1], b)
    ensures Walk(g, p + [b])
  {
  }

  lemma WalkEdges(g: Graph, k: nat)
    ensures forall p :: Walk(g, p) && |p| > k + 1 ==> Edge(g, p[k], p[k + 1])
  {
  }

  /** A set closed under edges keeps every walk that starts in it. */
  lemma {:induction false} StaysInside(g: Graph, inside: set<DirectionId>, p: seq<DirectionId>)
    requires Walk(g, p) && p[0] in inside
    requires forall a, b :: a in inside && Edge(g, a, b) ==> b in inside
    ensures forall i :: 0 <= i < |p| ==> p[i] in inside
  {
    if |p| > 1 {
      assert Edge(g, p[0], p[1]);
      StaysInside(g, inside, p[1..]);
      assert forall i :: 0 < i < |p| ==> p[i] == p[1..][i - 1];
    }
  }

  // ---- The depth-first search -------------------------------------------------------------

  function Owned(g: Graph, evidence: seq<ExperimentId>): seq<DirectionId> {
    if evidence == [] then []
    else
      var e := evidence[|evidence| - 1];
      Owned(g, evidence[..|evidence| - 1]) + if e in g.owners then [g.owners[e]] else []
  }

  lemma {:induction false} OwnedAreCited(g: Graph, evidence: seq<ExperimentId>)
    ensures forall b :: b in Owned(g, evidence) <==> Cites(g, evidence, b)
  {
    if evidence != [] {
      var n := |evidence| - 1;
      OwnedAreCited(g, evidence[..n]);
      assert evidence == evidence[..n] + [evidence[n]];
      forall b ensures b in Owned(g, evidence) <==> Cites(g, evidence, b) {
        if b in Owned(g, evidence[..n]) {
          var e :| e in evidence[..n] && e in g.owners && g.owners[e] == b;
          assert e in evidence;
        }
      }
    }
  }

  /** What the search pushes for one Direction. */
  function Pushed(g: Graph, a: DirectionId): seq<DirectionId> {
    if a in g.directions then g.directions[a].parents + Owned(g, g.directions[a].evidence) else []
  }

  lemma PushedAreEdges(g: Graph, a: DirectionId)
    ensures forall b :: b in Pushed(g, a) <==> Edge(g, a, b)
  {
    if a in g.directions { OwnedAreCited(g, g.directions[a].evidence); }
  }

  function Universe(g: Graph, from: set<DirectionId>): set<DirectionId> {
    from + (set a, b | a in g.directions && b in g.directions[a].parents :: b) + g.owners.Values
  }

  lemma EdgeInUniverse(g: Graph, from: set<DirectionId>, a: DirectionId, b: DirectionId)
    requires Edge(g, a, b)
    ensures b in Universe(g, from)
  {
    if b !in g.directions[a].parents {
      var e :| e in g.directions[a].evidence && e in g.owners && g.owners[e] == b;
      assert g.owners[e] in g.owners.Values;
    }
  }

  ghost predicate SearchInv(g: Graph, from: set<DirectionId>, d: DirectionId, pending: seq<DirectionId>,
                            visited: set<DirectionId>) {
    && d !in visited && visited <= Universe(g, from)
    && (forall b :: b in pending ==> Reaches(g, from, b) && b in Universe(g, from))
    && (forall b :: b in visited ==> Reaches(g, from, b))
    && (forall b :: b in from ==> b in visited || b in pending)
    && (forall a, b :: a in visited && Edge(g, a, b) ==> b in visited || b in pending)
  }

  lemma SearchStarts(g: Graph, from: set<DirectionId>, d: DirectionId, pending: seq<DirectionId>)
    requires forall b :: b in pending <==> b in from
    ensures SearchInv(g, from, d, pending, {})
  {
    forall b | b in pending ensures Reaches(g, from, b) {
      assert Walk(g, [b]);
    }
  }

  lemma SearchSteps(g: Graph, from: set<DirectionId>, d: DirectionId, rest: seq<DirectionId>, a: DirectionId,
                    visited: set<DirectionId>)
    requires SearchInv(g, from, d, rest + [a], visited)
    ensures Reaches(g, from, a) && a in Universe(g, from)
    ensures a in visited ==> SearchInv(g, from, d, rest, visited)
    ensures a != d ==> SearchInv(g, from, d, rest + Pushed(g, a), visited + {a})
  {
    assert a in rest + [a];
    assert forall b :: b in rest + [a] <==> b in rest || b == a;
    PushedAreEdges(g, a);
    var p :| Walk(g, p) && p[0] in from && p[|p| - 1] == a;
    forall b | Edge(g, a, b) ensures Reaches(g, from, b) && b in Universe(g, from) {
      WalkMore(g, p, b);
      EdgeInUniverse(g, from, a, b);
    }
    assert forall b :: b in rest + Pushed(g, a) <==> b in rest || Edge(g, a, b);
  }

  lemma SearchEnds(g: Graph, from: set<DirectionId>, d: DirectionId, visited: set<DirectionId>)
    requires SearchInv(g, from, d, [], visited)
    ensures !Reaches(g, from, d)
  {
    forall p | Walk(g, p) && p[0] in from ensures p[|p| - 1] != d {
      StaysInside(g, visited, p);
    }
  }

  lemma FewerLeft(u: set<DirectionId>, visited: set<DirectionId>, a: DirectionId)
    requires a in u && a !in visited
    ensures |u - (visited + {a})| < |u - visited|
  {
    assert u - visited == (u - (visited + {a})) + {a};
  }

  method Push(g: Graph, a: DirectionId, rest: seq<DirectionId>) returns (pending: seq<DirectionId>)
    ensures pending == rest + Pushed(g, a)
  {
    pending := rest;
    if a in g.directions {
      pending := pending + g.directions[a].parents;
      var evidence, i := g.directions[a].evidence, 0;
      while i < |evidence|
        invariant 0 <= i <= |evidence|
        invariant pending == rest + (g.directions[a].parents + Owned(g, evidence[..i]))
      {
        assert evidence[..i + 1][..i] == evidence[..i];
        if evidence[i] in g.owners {
          pending := pending + [g.owners[evidence[i]]];
        }
        i := i + 1;
      }
      assert evidence[..i] == evidence;
    }
  }

  method Pop(pending: seq<DirectionId>) returns (a: DirectionId, rest: seq<DirectionId>)
    requires pending != []
    ensures pending == rest + [a]
  {
    a, rest := pending[|pending| - 1], pending[..|pending| - 1];
  }

  /** Whether `d` is reachable from the parents of a new record, on any visible graph, cyclic or not.
      The order in which the parents are listed does not matter. */
  method Search(g: Graph, parents: seq<DirectionId>, d: DirectionId) returns (cycle: bool)
    ensures cycle <==> Reaches(g, Elements(parents), d)
  {
    ghost var from := Elements(parents);
    var pending, visited: set<DirectionId> := parents, {};
    SearchStarts(g, from, d, pending);
    while pending != []
      invariant SearchInv(g, from, d, pending, visited)
      decreases |Universe(g, from) - visited|, |pending|
    {
      var a, rest := Pop(pending);
      SearchSteps(g, from, d, rest, a, visited);
      pending := rest;
      if a == d {
        return true;
      }
      if a in visited {
        continue;
      }
      FewerLeft(Universe(g, from), visited, a);
      visited := visited + {a};
      pending := Push(g, a, rest);
    }
    SearchEnds(g, from, d, visited);
    cycle := false;
  }

  // ---- The validator ----------------------------------------------------------------------

  predicate Unique(s: seq<string>) { forall i, j :: 0 <= i < j < |s| ==> s[i] != s[j] }

  /** At most 32 well-formed, distinct ids. */
  function Ids(raw: RawList): (r: Checked<seq<string>>)
    ensures r.Ok? <==>
      && raw.Items? && |raw.items| <= 32 && (forall x :: x in raw.items ==> x.Id?)
      && forall i, j :: 0 <= i < j < |raw.items| ==> raw.items[i] != raw.items[j]
    ensures r.Ok? ==> |r.value| == |raw.items| && forall i :: 0 <= i < |r.value| ==> raw.items[i] == Id(r.value[i])
  {
    if raw.NotAList? || |raw.items| > 32 then Err(BadList)
    else if exists x :: x in raw.items && x.Malformed? then Err(BadId)
    else
      var values := seq(|raw.items|, i requires 0 <= i < |raw.items| && raw.items[i].Id? => raw.items[i].id);
      assert forall i :: 0 <= i < |values| ==> raw.items[i] in raw.items && raw.items[i] == Id(values[i]);
      if Unique(values) then Ok(values) else Err(DuplicateId)
  }

  function FirstHidden(parents: seq<DirectionId>, view: Graph): Option<Error> {
    if parents == [] then None
    else if parents[0] !in view.directions then Some(HiddenParent(parents[0]))
    else FirstHidden(parents[1..], view)
  }

  function FirstUnowned(evidence: seq<ExperimentId>, view: Graph): Option<Error> {
    if evidence == [] then None
    else if evidence[0] !in view.owners then Some(HiddenExperiment(evidence[0]))
    else if view.owners[evidence[0]] !in view.directions then Some(HiddenOwner(evidence[0]))
    else FirstUnowned(evidence[1..], view)
  }

  /** Direct parents and the owners of cited Experiments. */
  function Effective(parents: seq<DirectionId>, evidence: seq<ExperimentId>, view: Graph): set<DirectionId> {
    Elements(parents) + (set e | e in evidence && e in view.owners :: view.owners[e])
  }

  /** The error raised before the search, if any: the first that applies, in this order. */
  function EarlyError(a: Ancestry, view: Graph): Option<Error>
    requires a.Ancestry?
  {
    if a.kind in {Absent, Unknown} then Some(BadKind)
    else if FirstHidden(a.parents, view).Some? then FirstHidden(a.parents, view)
    else if a.kind.Adoption? && (|a.parents| != 1 || a.evidence != [] || a.supersedes.Some?) then Some(BadAdoption)
    else if a.kind.Adoption? && a.parents[0] in view.directions && !view.directions[a.parents[0]].status.Suggested? then
      Some(NotSuggested)
    else if FirstUnowned(a.evidence, view).Some? then FirstUnowned(a.evidence, view)
    else
      var effective := Effective(a.parents, a.evidence, view);
      if effective == {} then Some(NoParent)
      else if a.kind.Combination? && |effective| < 2 then Some(LonelyCombination)
      else if a.supersedes.Some? && (!a.kind.Correction? || a.supersedes.value !in effective) then Some(BadSupersession)
      else None
  }

  /** The record the validator would return, once the three id fields have been read. */
  function Parsed(v: Value): Checked<Ancestry> {
    var parents := Ids(v.parents);
    if parents.Err? then Err(parents.error)
    else
      var evidence := Ids(v.evidence);
      if evidence.Err? then Err(evidence.error)
      else if v.supersedes.Some? && v.supersedes.value.Malformed? then Err(BadId)
      else
        var supersedes := if v.supersedes.Some? then Some(v.supersedes.value.id) else None;
        if v.kind.Absent? && parents.value == [] && evidence.value == [] && supersedes.None? then Ok(NoAncestry)
        else Ok(Ancestry(v.kind, parents.value, evidence.value, supersedes))
  }

  method CheckParents(parents: seq<DirectionId>, view: Graph) returns (error: Option<Error>)
    ensures error == FirstHidden(parents, view)
  {
    var i := 0;
    while i < |parents|
      invariant 0 <= i <= |parents|
      invariant FirstHidden(parents, view) == FirstHidden(parents[i..], view)
    {
      if parents[i] !in view.directions {
        return Some(HiddenParent(parents[i]));
      }
      i := i + 1;
    }
    error := None;
  }

  lemma EffectiveMore(parents: seq<DirectionId>, evidence: seq<ExperimentId>, e: ExperimentId, view: Graph,
                      effective: seq<DirectionId>)
    requires e in view.owners && Elements(effective) == Effective(parents, evidence, view)
    ensures Elements(effective + [view.owners[e]]) == Effective(parents, evidence + [e], view)
  {
    var owner := view.owners[e];
    assert Elements(effective + [owner]) == Elements(effective) + {owner};
    forall b ensures b in Effective(parents, evidence + [e], view) <==> b in Elements(effective) || b == owner {
      assert e in evidence + [e];
      assert forall x :: x in evidence + [e] <==> x in evidence || x == e;
    }
  }

  /** Adds the owner of every cited Experiment to the parents. */
  method CheckEvidence(parents: seq<DirectionId>, evidence: seq<ExperimentId>, view: Graph)
    returns (error: Option<Error>, effective: seq<DirectionId>)
    ensures error == FirstUnowned(evidence, view)
    ensures error.None? ==> Elements(effective) == Effective(parents, evidence, view)
  {
    effective := parents;
    var i := 0;
    while i < |evidence|
      invariant 0 <= i <= |evidence|
      invariant FirstUnowned(evidence, view) == FirstUnowned(evidence[i..], view)
      invariant Elements(effective) == Effective(parents, evidence[..i], view)
    {
      var e := evidence[i];
      if e !in view.owners {
        return Some(HiddenExperiment(e)), effective;
      }
      if view.owners[e] !in view.directions {
        return Some(HiddenOwner(e)), effective;
      }
      assert evidence[..i + 1] == evidence[..i] + [e];
      EffectiveMore(parents, evidence[..i], e, view, effective);
      effective := effective + [view.owners[e]];
      i := i + 1;
    }
    assert evidence[..i] == evidence;
    error := None;
  }

  /** Everything after the three id fields have been read: errors in their order, the search last. It
      reports a cycle exactly when the Direction is reachable from its own effective parents in the
      visible history. */
  method ValidateAncestry(d: DirectionId, a: Ancestry, view: Graph) returns (error: Option<Error>)
    requires a.Ancestry?
    ensures EarlyError(a, view).Some? ==> error == EarlyError(a, view)
    ensures EarlyError(a, view).None? ==>
      error == if Reaches(view, Effective(a.parents, a.evidence, view), d) then Some(Cycle) else None
  {
    if a.kind in {Absent, Unknown} {
      return Some(BadKind);
    }
    error := CheckParents(a.parents, view);
    if error.Some? {
      return;
    }
    if a.kind.Adoption? {
      if |a.parents| != 1 || a.evidence != [] || a.supersedes.Some? {
        return Some(BadAdoption);
      }
      HiddenMeans(a.parents, view);
      if !view.directions[a.parents[0]].status.Suggested? {
        return Some(NotSuggested);
      }
    }
    var effective;
    error, effective := CheckEvidence(a.parents, a.evidence, view);
    if error.Some? {
      return;
    }
    var all := Elements(effective);
    if all == {} {
      return Some(NoParent);
    }
    if a.kind.Combination? && |all| < 2 {
      return Some(LonelyCombination);
    }
    if a.supersedes.Some? && (!a.kind.Correction? || a.supersedes.value !in all) {
      return Some(BadSupersession);
    }
    var cycle := Search(view, effective, d);
    error := if cycle then Some(Cycle) else None;
  }

  method Validate(d: DirectionId, v: Value, view: Graph) returns (r: Checked<Ancestry>)
    ensures r.Ok? <==> Accepted(d, v, view)
    ensures r.Ok? ==> r == Parsed(v)
    ensures Parsed(v).Err? ==> r == Parsed(v)
    ensures Parsed(v).Ok? && Parsed(v).value.Ancestry? && EarlyError(Parsed(v).value, view).Some? ==>
      r == Err(EarlyError(Parsed(v).value, view).value)
    ensures Parsed(v).Ok? && Parsed(v).value.Ancestry? && EarlyError(Parsed(v).value, view).None? && r.Err? ==>
      r.error == Cycle
  {
    r := Parsed(v);
    if r.Ok? && r.value.Ancestry? {
      var error := ValidateAncestry(d, r.value, view);
      if error.Some? {
        r := Err(error.value);
      }
    }
  }

  /** The validator accepts: the fields can be read, no earlier error applies and the Direction is not
      reachable from its own effective parents. */
  ghost predicate Accepted(d: DirectionId, v: Value, view: Graph) {
    && Parsed(v).Ok?
    && (Parsed(v).value.Ancestry? ==>
          var a := Parsed(v).value;
          EarlyError(a, view).None? && !Reaches(view, Effective(a.parents, a.evidence, view), d))
  }

  lemma {:induction false} HiddenMeans(parents: seq<DirectionId>, view: Graph)
    ensures FirstHidden(parents, view).None? <==> forall b :: b in parents ==> b in view.directions
  {
    if parents != [] {
      HiddenMeans(parents[1..], view);
      assert parents == [parents[0]] + parents[1..];
    }
  }

  lemma {:induction false} UnownedMeans(evidence: seq<ExperimentId>, view: Graph)
    ensures FirstUnowned(evidence, view).None? <==>
      forall e :: e in evidence ==> e in view.owners && view.owners[e] in view.directions
  {
    if evidence != [] {
      UnownedMeans(evidence[1..], view);
      assert evidence == [evidence[0]] + evidence[1..];
    }
  }

  /** What an accepted record looks like: everything it names is visible and it does not reach itself. */
  lemma AcceptedMeans(a: Ancestry, view: Graph)
    requires a.Ancestry? && EarlyError(a, view) == None
    ensures forall b :: b in a.parents ==> b in view.directions
    ensures forall e :: e in a.evidence ==> e in view.owners && view.owners[e] in view.directions
    ensures a.supersedes.Some? ==> a.supersedes.value in Effective(a.parents, a.evidence, view)
    ensures Effective(a.parents, a.evidence, view) != {}
  {
    HiddenMeans(a.parents, view);
    UnownedMeans(a.evidence, view);
  }

  // ---- The history ------------------------------------------------------------------------

  /** A view that shows nothing but what is recorded. It may leave out Directions and Experiments. */
  ghost predicate Truthful(v: Graph, h: Graph) {
    && (forall a :: a in v.directions ==>
          && a in h.directions && v.directions[a].parents == h.directions[a].parents
          && v.directions[a].evidence == h.directions[a].evidence)
    && (forall e :: e in v.owners ==> e in h.owners && v.owners[e] == h.owners[e])
  }

  /** Whatever leads from a shown Direction to `d` in the history also does in the view. */
  ghost predicate ShowsWay(v: Graph, h: Graph, d: DirectionId) {
    forall a :: a in v.directions && Reaches(h, {a}, d) ==> Reaches(v, {a}, d)
  }

  /** A view that shows all parents of everything it shows. */
  ghost predicate ClosedView(v: Graph, h: Graph) {
    && Truthful(v, h)
    && forall a, b :: a in v.directions && Edge(h, a, b) ==> Edge(v, a, b) && b in v.directions
  }

  function Record(a: Ancestry, status: Status): Direction {
    if a.NoAncestry? then Direction(status, [], [], None) else Direction(status, a.parents, a.evidence, a.supersedes)
  }

  function Extend(h: Graph, d: DirectionId, a: Ancestry, status: Status): Graph {
    h.(directions := h.directions[d := Record(a, status)])
  }

  lemma TruthfulEdge(v: Graph, h: Graph, a: DirectionId, b: DirectionId)
    requires Truthful(v, h) && Edge(v, a, b)
    ensures Edge(h, a, b)
  {
    if b !in v.directions[a].parents {
      var e :| e in v.directions[a].evidence && e in v.owners && v.owners[e] == b;
      assert e in h.owners && h.owners[e] == b;
    }
  }

  lemma TruthfulReach(v: Graph, h: Graph, from: set<DirectionId>, d: DirectionId)
    requires Truthful(v, h) && Reaches(v, from, d)
    ensures Reaches(h, from, d)
  {
    var p :| Walk(v, p) && p[0] in from && p[|p| - 1] == d;
    forall i | 0 <= i < |p| - 1 ensures Edge(h, p[i], p[i + 1]) { TruthfulEdge(v, h, p[i], p[i + 1]); }
    assert Walk(h, p);
  }

  lemma ReachesFromOne(g: Graph, from: set<DirectionId>, d: DirectionId)
    ensures Reaches(g, from, d) <==> exists a :: a in from && Reaches(g, {a}, d)
  {
    if Reaches(g, from, d) {
      var p :| Walk(g, p) && p[0] in from && p[|p| - 1] == d;
      assert p[0] in {p[0]};
      assert Reaches(g, {p[0]}, d);
    }
  }

  /** If the view shows the way to `d`, its Directions reach `d` in it exactly when they do at all. */
  lemma ViewReach(v: Graph, h: Graph, from: set<DirectionId>, d: DirectionId)
    requires Truthful(v, h) && ShowsWay(v, h, d) && forall a :: a in from ==> a in v.directions
    ensures Reaches(v, from, d) <==> Reaches(h, from, d)
  {
    ReachesFromOne(v, from, d);
    ReachesFromOne(h, from, d);
    forall a | a in from ensures Reaches(v, {a}, d) <==> Reaches(h, {a}, d) {
      if Reaches(v, {a}, d) { TruthfulReach(v, h, {a}, d); }
    }
  }

  /** A view that shows every ancestor shows the way to every Direction. */
  lemma ClosedViewShowsWay(v: Graph, h: Graph, d: DirectionId)
    requires ClosedView(v, h)
    ensures ShowsWay(v, h, d)
  {
    forall a | a in v.directions && Reaches(h, {a}, d) ensures Reaches(v, {a}, d) {
      var p :| Walk(h, p) && p[0] in {a} && p[|p| - 1] == d;
      StaysInside(h, v.directions.Keys, p);
      assert Walk(v, p);
    }
  }

  /** For a Direction that nothing refers to yet, every truthful view shows the way: there is none. */
  lemma FreshShowsWay(v: Graph, h: Graph, d: DirectionId)
    requires Truthful(v, h) && d !in h.directions && forall a :: !Edge(h, a, d)
    ensures ShowsWay(v, h, d)
  {
    forall a | a in v.directions ensures !Reaches(h, {a}, d) {
      forall p | Walk(h, p) && p[0] in {a} ensures p[|p| - 1] != d {
        if |p| > 1 { WalkEdges(h, |p| - 2); }
      }
    }
  }

  /** Before its record is written a Direction has no edges; afterwards, those to its effective parents. */
  ghost predicate Adds(h: Graph, d: DirectionId, parents: set<DirectionId>, h': Graph) {
    && (forall a, b :: a != d ==> (Edge(h', a, b) <==> Edge(h, a, b)))
    && (forall b :: Edge(h', d, b) <==> b in parents)
    && (forall b :: !Edge(h, d, b))
  }

  lemma {:induction false} FirstArrival(h: Graph, d: DirectionId, parents: set<DirectionId>, h': Graph,
                                        q: seq<DirectionId>)
    requires Adds(h, d, parents, h') && Walk(h', q) && q[|q| - 1] == d
    ensures exists r :: Walk(h, r) && r[0] == q[0] && r[|r| - 1] == d
  {
    if q[0] == d {
      assert Walk(h, [d]);
    } else {
      FirstArrival(h, d, parents, h', q[1..]);
      var r :| Walk(h, r) && r[0] == q[1] && r[|r| - 1] == d;
      assert Edge(h', q[0], q[1]);
      assert Walk(h, [q[0]] + r);
    }
  }

  /** A cycle of the extended history through `d`, turned to start right after `d`. */
  lemma Turn(g: Graph, p: seq<DirectionId>, i: nat)
    requires Walk(g, p) && i < |p| - 1 && p[0] == p[|p| - 1]
    ensures exists q :: Walk(g, q) && q[0] == p[i + 1] && q[|q| - 1] == p[i]
  {
    var q := p[i + 1..] + p[1..i + 1];
    forall k | 0 <= k < |q| - 1 ensures Edge(g, q[k], q[k + 1]) {
      if k < |p| - i - 1 - 1 {
        assert Edge(g, p[i + 1 + k], p[i + 2 + k]);
      } else {
        var j := k - (|p| - i - 1);
        if j == -1 { assert Edge(g, p[0], p[1]); } else { assert Edge(g, p[1 + j], p[2 + j]); }
      }
    }
    assert Walk(g, q);
  }

  lemma WalkAvoids(h: Graph, d: DirectionId, parents: set<DirectionId>, h': Graph, p: seq<DirectionId>)
    requires Adds(h, d, parents, h') && Walk(h', p) && forall i :: 0 <= i < |p| - 1 ==> p[i] != d
    ensures Walk(h, p)
  {
    assert forall i :: 0 <= i < |p| - 1 ==> Edge(h', p[i], p[i + 1]);
  }

  /** A cycle that the new record closes leads from the record's parents back to `d`. */
  lemma CycleReaches(h: Graph, d: DirectionId, parents: set<DirectionId>, h': Graph, p: seq<DirectionId>)
    requires Acyclic(h) && Adds(h, d, parents, h')
    requires Walk(h', p) && |p| > 1 && p[0] == p[|p| - 1]
    ensures Reaches(h, parents, d)
  {
    if forall i :: 0 <= i < |p| - 1 ==> p[i] != d {
      WalkAvoids(h, d, parents, h', p);
      assert false;
    }
    var i :| 0 <= i < |p| - 1 && p[i] == d;
    assert Edge(h', d, p[i + 1]);
    Turn(h', p, i);
    var q :| Walk(h', q) && q[0] == p[i + 1] && q[|q| - 1] == d;
    FirstArrival(h, d, parents, h', q);
  }

  /** Writing a record keeps the history acyclic exactly when `d` is not reachable from its parents. */
  lemma AcyclicWhenUnreachable(h: Graph, d: DirectionId, parents: set<DirectionId>, h': Graph)
    requires Acyclic(h) && Adds(h, d, parents, h')
    ensures Acyclic(h') <==> !Reaches(h, parents, d)
  {
    if Reaches(h, parents, d) {
      var r :| Walk(h, r) && r[0] in parents && r[|r| - 1] == d;
      assert Walk(h', [d] + r);
    }
    if !Acyclic(h') {
      var p :| Walk(h', p) && |p| > 1 && p[0] == p[|p| - 1];
      CycleReaches(h, d, parents, h', p);
    }
  }

  /** What the append-only history keeps. */
  ghost predicate Sound(h: Graph) {
    && Acyclic(h)
    && (forall a, e :: a in h.directions && e in h.directions[a].evidence ==> e in h.owners)
    && (forall a :: a in h.directions && h.directions[a].supersedes.Some? ==>
          Edge(h, a, h.directions[a].supersedes.value))
    && (forall a, b :: Edge(h, a, b) ==> b in h.directions)
  }

  lemma AcceptedAdds(h: Graph, view: Graph, d: DirectionId, a: Ancestry, status: Status)
    requires Truthful(view, h) && forall b :: !Edge(h, d, b)
    requires a.Ancestry? && EarlyError(a, view).None?
    ensures Adds(h, d, Effective(a.parents, a.evidence, view), Extend(h, d, a, status))
    ensures forall b :: b in Effective(a.parents, a.evidence, view) ==> b in view.directions
  {
    AcceptedMeans(a, view);
    var h' := Extend(h, d, a, status);
    forall x, b | x != d ensures Edge(h', x, b) <==> Edge(h, x, b) {
      if x in h.directions { assert h'.directions[x] == h.directions[x]; }
    }
    forall b ensures Edge(h', d, b) <==> b in Effective(a.parents, a.evidence, view) {
      if Cites(h', a.evidence, b) {
        var e :| e in a.evidence && e in h'.owners && h'.owners[e] == b;
        assert view.owners[e] == b;
      }
      if b in Effective(a.parents, a.evidence, view) && b !in a.parents {
        var e :| e in a.evidence && e in view.owners && view.owners[e] == b;
        assert h'.owners[e] == b;
      }
    }
  }

  /** If the view shows the way to `d`, a readable proposal without an earlier error is accepted exactly
      when writing it keeps the whole history acyclic. */
  lemma AcceptedExactlyWhenAcyclic(h: Graph, view: Graph, d: DirectionId, v: Value, status: Status)
    requires Acyclic(h) && Truthful(view, h) && ShowsWay(view, h, d) && forall b :: !Edge(h, d, b)
    requires Parsed(v).Ok? && Parsed(v).value.Ancestry? && EarlyError(Parsed(v).value, view).None?
    ensures Accepted(d, v, view) <==> Acyclic(Extend(h, d, Parsed(v).value, status))
  {
    var a := Parsed(v).value;
    var parents := Effective(a.parents, a.evidence, view);
    AcceptedAdds(h, view, d, a, status);
    ViewReach(view, h, parents, d);
    AcyclicWhenUnreachable(h, d, parents, Extend(h, d, a, status));
  }

  function RetryOf(a: DirectionId): Value { Value(Retry, Items([Id(a)]), Items([]), None) }

  lemma RetryParsed(a: DirectionId)
    ensures Parsed(RetryOf(a)) == Ok(Ancestry(Retry, [a], [], None))
  {
    assert Items([Id(a)]).items[0] == Id(a);
    assert Ids(RetryOf(a).parents).value == [a];
  }

  lemma RetryEffective(a: DirectionId, view: Graph)
    requires a in view.directions
    ensures EarlyError(Ancestry(Retry, [a], [], None), view) == None
    ensures Effective([a], [], view) == {a}
  {
    HiddenMeans([a], view);
    UnownedMeans([], view);
    assert a in Effective([a], [], view);
  }

  /** If the view hides the way from a shown Direction to `d`, a plain retry of that Direction is
      accepted and closes a cycle. */
  lemma HiddenWayClosesCycle(h: Graph, view: Graph, d: DirectionId, a: DirectionId, status: Status)
    requires Acyclic(h) && Truthful(view, h) && forall b :: !Edge(h, d, b)
    requires a in view.directions && Reaches(h, {a}, d) && !Reaches(view, {a}, d)
    ensures Parsed(RetryOf(a)).Ok? && Accepted(d, RetryOf(a), view)
    ensures !Acyclic(Extend(h, d, Parsed(RetryOf(a)).value, status))
  {
    RetryParsed(a);
    RetryEffective(a, view);
    var record := Parsed(RetryOf(a)).value;
    AcceptedAdds(h, view, d, record, status);
    AcyclicWhenUnreachable(h, d, {a}, Extend(h, d, record, status));
  }

  /** No proposal that the validator accepts on this view closes a cycle in the history. */
  ghost predicate Guards(view: Graph, h: Graph, d: DirectionId) {
    forall v, status ::
      Accepted(d, v, view) && Parsed(v).value.Ancestry? ==> Acyclic(Extend(h, d, Parsed(v).value, status))
  }

  /** The guard works on a truthful view exactly when the view shows the way to the new Direction. */
  lemma GuardsExactlyWhenWayShown(view: Graph, h: Graph, d: DirectionId)
    requires Acyclic(h) && Truthful(view, h) && forall b :: !Edge(h, d, b)
    ensures Guards(view, h, d) <==> ShowsWay(view, h, d)
  {
    if ShowsWay(view, h, d) {
      forall v, status | Accepted(d, v, view) && Parsed(v).value.Ancestry?
        ensures Acyclic(Extend(h, d, Parsed(v).value, status))
      {
        AcceptedExactlyWhenAcyclic(h, view, d, v, status);
      }
    } else {
      var a :| a in view.directions && Reaches(h, {a}, d) && !Reaches(view, {a}, d);
      HiddenWayClosesCycle(h, view, d, a, OtherStatus);
      assert Accepted(d, RetryOf(a), view);
    }
  }

  datatype Event =
    | Propose(direction: DirectionId, value: Value, view: Graph, status: Status)
    | Run(experiment: ExperimentId, owner: DirectionId)     // a new Experiment of a Direction
    | Close(direction: DirectionId, status: Status)         // a lifecycle update; ancestry never changes

  /** What a caller may propose: a new id, or one without ancestry to which the view shows the way. */
  ghost predicate Proposable(view: Graph, h: Graph, d: DirectionId) {
    d !in h.directions || (ShowsWay(view, h, d) && forall b :: !Edge(h, d, b))
  }

  lemma ProposableShowsWay(view: Graph, h: Graph, d: DirectionId)
    requires Sound(h) && Truthful(view, h) && Proposable(view, h, d)
    ensures ShowsWay(view, h, d) && forall b :: !Edge(h, d, b)
  {
    if d !in h.directions { FreshShowsWay(view, h, d); }
  }

  ghost predicate Allowed(h: Graph, e: Event) {
    match e
    case Propose(d, v, view, _) => Truthful(view, h) && Proposable(view, h, d) && Accepted(d, v, view)
    case Run(x, owner) => x !in h.owners && owner in h.directions
    case Close(d, _) => d in h.directions
  }

  function Apply(h: Graph, e: Event): Graph
    requires e.Propose? ==> Parsed(e.value).Ok?
    requires e.Close? ==> e.direction in h.directions
  {
    match e
    case Propose(d, v, _, status) => Extend(h, d, Parsed(v).value, status)
    case Run(x, owner) => h.(owners := h.owners[x := owner])
    case Close(d, status) => h.(directions := h.directions[d := h.directions[d].(status := status)])
  }

  lemma SameEdges(h: Graph, h': Graph)
    requires Acyclic(h) && forall a, b :: Edge(h', a, b) ==> Edge(h, a, b)
    ensures Acyclic(h')
  {
    forall p | Walk(h', p) && |p| > 1 ensures p[0] != p[|p| - 1] {
      assert forall i :: 0 <= i < |p| - 1 ==> Edge(h', p[i], p[i + 1]);
      assert Walk(h, p);
    }
  }

  lemma ProposeKeepsSound(h: Graph, e: Event)
    requires e.Propose? && Sound(h) && Allowed(h, e)
    ensures Sound(Apply(h, e))
  {
    var h', a := Apply(h, e), Parsed(e.value).value;
    ProposableShowsWay(e.view, h, e.direction);
    if a.NoAncestry? {
      forall x, b ensures Edge(h', x, b) ==> Edge(h, x, b) {
        if x != e.direction && x in h.directions { assert h'.directions[x] == h.directions[x]; }
      }
      SameEdges(h, h');
      forall x | x in h'.directions && h'.directions[x].supersedes.Some?
        ensures Edge(h', x, h'.directions[x].supersedes.value)
      {
        assert x != e.direction && h'.directions[x] == h.directions[x];
        assert Edge(h, x, h.directions[x].supersedes.value);
      }
    } else {
      AcceptedExactlyWhenAcyclic(h, e.view, e.direction, e.value, e.status);
      AcceptedAdds(h, e.view, e.direction, a, e.status);
      AcceptedMeans(a, e.view);
      forall x | x in h'.directions && h'.directions[x].supersedes.Some?
        ensures Edge(h', x, h'.directions[x].supersedes.value)
      {
        if x != e.direction { assert Edge(h, x, h.directions[x].supersedes.value); }
      }
    }
  }

  lemma ApplyKeepsSound(h: Graph, e: Event)
    requires Sound(h) && Allowed(h, e)
    ensures Sound(Apply(h, e))
  {
    var h' := Apply(h, e);
    match e
    case Propose(_, _, _, _) => ProposeKeepsSound(h, e);
    case _ =>
      forall a, b ensures Edge(h', a, b) <==> Edge(h, a, b) {
        if a in h.directions {
          assert h'.directions[a].parents == h.directions[a].parents;
          assert h'.directions[a].evidence == h.directions[a].evidence;
          if Cites(h', h.directions[a].evidence, b) {
            var x :| x in h.directions[a].evidence && x in h'.owners && h'.owners[x] == b;
            assert x in h.owners && h.owners[x] == b;
          }
          if Cites(h, h.directions[a].evidence, b) {
            var x :| x in h.directions[a].evidence && x in h.owners && h.owners[x] == b;
            assert x in h'.owners && h'.owners[x] == b;
          }
        }
      }
      SameEdges(h, h');
      forall x | x in h'.directions && h'.directions[x].supersedes.Some?
        ensures Edge(h', x, h'.directions[x].supersedes.value)
      {
        assert h'.directions[x].supersedes == h.directions[x].supersedes;
        assert Edge(h, x, h.directions[x].supersedes.value);
      }
  }

  ghost predicate IsHistory(hs: seq<Graph>, events: seq<Event>) {
    && |hs| == |events| + 1 && hs[0] == Graph(map[], map[])
    && forall i :: 0 <= i < |events| ==> Allowed(hs[i], events[i]) && hs[i + 1] == Apply(hs[i], events[i])
  }

  /** Every history written through the validator is acyclic. */
  lemma {:induction false} HistoryIsSound(hs: seq<Graph>, events: seq<Event>, n: nat)
    requires IsHistory(hs, events) && n < |hs|
    ensures Sound(hs[n])
  {
    if n == 0 {
      WalkEdges(hs[0], 0);
    } else {
      HistoryIsSound(hs, events, n - 1);
      ApplyKeepsSound(hs[n - 1], events[n - 1]);
    }
  }

  predicate Supersedes(h: Graph, p: seq<DirectionId>) {
    forall i :: 0 <= i < |p| - 1 ==> p[i] in h.directions && h.directions[p[i]].supersedes == Some(p[i + 1])
  }

  lemma {:induction false} Pigeonhole(p: seq<DirectionId>, s: set<DirectionId>)
    requires Unique(p) && forall i :: 0 <= i < |p| ==> p[i] in s
    ensures |p| <= |s|
  {
    if p != [] {
      var last := p[|p| - 1];
      Pigeonhole(p[..|p| - 1], s - {last});
    }
  }

  lemma WalkIsUnique(h: Graph, p: seq<DirectionId>)
    requires Acyclic(h) && Walk(h, p)
    ensures Unique(p)
  {
    forall i, j | 0 <= i < j < |p| ensures p[i] != p[j] {
      var q := p[i..j + 1];
      forall k | 0 <= k < |q| - 1 ensures Edge(h, q[k], q[k + 1]) {
        assert Edge(h, p[i + k], p[i + k + 1]);
      }
      assert Walk(h, q);
    }
  }

  /** Chains of supersession are finite: none is longer than the history. */
  lemma SupersessionIsFinite(hs: seq<Graph>, events: seq<Event>, n: nat, p: seq<DirectionId>)
    requires IsHistory(hs, events) && n < |hs| && Supersedes(hs[n], p)
    ensures Unique(p) && |p| <= |hs[n].directions| + 1
  {
    var h := hs[n];
    HistoryIsSound(hs, events, n);
    assert forall i :: 0 <= i < |p| - 1 ==> Edge(h, p[i], p[i + 1]);
    if p != [] {
      assert Walk(h, p);
      WalkIsUnique(h, p);
    }
    if p != [] { Pigeonhole(p[..|p| - 1], h.directions.Keys); }
  }

  // A truthful view that hides the way: `a` cites an Experiment of `c`, the view shows `a` but not that
  // Experiment, and `c`, recorded without ancestry, is proposed again as a retry of `a`.

  function Cut(): Graph {
    Graph(map["a" := Direction(OtherStatus, [], ["x"], None), "c" := Direction(OtherStatus, [], [], None)],
          map["x" := "c"])
  }

  function CutView(): Graph { Graph(map["a" := Direction(OtherStatus, [], ["x"], None)], map[]) }

  lemma CutSound()
    ensures Sound(Cut()) && Truthful(CutView(), Cut()) && forall b :: !Edge(Cut(), "c", b)
  {
    forall x, b ensures Edge(Cut(), x, b) ==> x == "a" && b == "c" {}
    WalkEdges(Cut(), 0);
    WalkEdges(Cut(), 1);
  }

  lemma CutHidesWay()
    ensures Reaches(Cut(), {"a"}, "c") && !Reaches(CutView(), {"a"}, "c")
  {
    assert "x" in Cut().directions["a"].evidence;
    assert Walk(Cut(), ["a", "c"]);
    forall x, b ensures !Edge(CutView(), x, b) {}
    WalkEdges(CutView(), 0);
  }

  /** The condition can fail: a caller that proposes an existing id can be let through by such a view. */
  lemma HiddenAncestorBreaksIt()
    ensures Sound(Cut()) && Truthful(CutView(), Cut()) && (forall b :: !Edge(Cut(), "c", b))
    ensures !ShowsWay(CutView(), Cut(), "c") && !Guards(CutView(), Cut(), "c")
  {
    CutSound();
    CutHidesWay();
    assert "a" in CutView().directions;
    GuardsExactlyWhenWayShown(CutView(), Cut(), "c");
  }

  // ---- What the validator demands, clause by clause ---------------------------------------

  lemma EffectiveMeans(a: Ancestry, view: Graph, b: DirectionId)
    requires a.Ancestry?
    ensures b in Effective(a.parents, a.evidence, view) <==>
      b in a.parents || exists e :: e in a.evidence && e in view.owners && view.owners[e] == b
  {
  }

  /** A readable request passes everything before the search iff its kind is known; all it names is
      visible; an adoption names one suggested Direction and nothing else; some Direction is named or
      owns a cited Experiment, and for a combination two; and only a correction supersedes, one of
      those. */
  lemma NoEarlyErrorMeans(a: Ancestry, view: Graph)
    requires a.Ancestry?
    ensures EarlyError(a, view).None? <==>
      var effective := Effective(a.parents, a.evidence, view);
      && a.kind != Absent && a.kind != Unknown
      && (forall b :: b in a.parents ==> b in view.directions)
      && (forall e :: e in a.evidence ==> e in view.owners && view.owners[e] in view.directions)
      && (a.kind == Adoption ==>
            && |a.parents| == 1 && a.evidence == [] && a.supersedes == None
            && view.directions[a.parents[0]].status == Suggested)
      && effective != {} && (a.kind == Combination ==> |effective| >= 2)
      && (a.supersedes.Some? ==> a.kind == Correction && a.supersedes.value in effective)
  {
    HiddenMeans(a.parents, view);
    UnownedMeans(a.evidence, view);
  }

  lemma {:induction false} FirstHiddenMeans(parents: seq<DirectionId>, view: Graph) returns (i: nat)
    requires FirstHidden(parents, view).Some?
    ensures i < |parents| && parents[i] !in view.directions && forall j :: 0 <= j < i ==> parents[j] in view.directions
    ensures FirstHidden(parents, view) == Some(HiddenParent(parents[i]))
  {
    i := 0;
    if parents[0] in view.directions {
      i := FirstHiddenMeans(parents[1..], view);
      i := i + 1;
    }
  }

  lemma {:induction false} FirstUnownedMeans(evidence: seq<ExperimentId>, view: Graph) returns (i: nat)
    requires FirstUnowned(evidence, view).Some?
    ensures i < |evidence|
    ensures forall j :: 0 <= j < i ==> evidence[j] in view.owners && view.owners[evidence[j]] in view.directions
    ensures
      if evidence[i] !in view.owners then FirstUnowned(evidence, view) == Some(HiddenExperiment(evidence[i]))
      else
        && view.owners[evidence[i]] !in view.directions
        && FirstUnowned(evidence, view) == Some(HiddenOwner(evidence[i]))
  {
    i := 0;
    if evidence[0] in view.owners && view.owners[evidence[0]] in view.directions {
      i := FirstUnownedMeans(evidence[1..], view);
      i := i + 1;
    }
  }

  /** The error raised is that of the first clause that fails. */
  lemma EarlyErrorMeans(a: Ancestry, view: Graph)
    requires a.Ancestry?
    ensures
      var error, effective := EarlyError(a, view), Effective(a.parents, a.evidence, view);
      var visible := forall b :: b in a.parents ==> b in view.directions;
      var known := a.kind != Absent && a.kind != Unknown;
      var adopts := a.kind == Adoption;
      var owned := forall e :: e in a.evidence ==> e in view.owners && view.owners[e] in view.directions;
      var alone := |a.parents| == 1 && a.evidence == [] && a.supersedes == None;
      && (error == Some(BadKind) <==> !known)
      && (known && !visible ==> error.Some? && error.value.HiddenParent?)
      && (known && visible && adopts && !alone ==> error == Some(BadAdoption))
      && (known && visible && adopts && alone && view.directions[a.parents[0]].status != Suggested ==>
            error == Some(NotSuggested))
      && (known && visible && !adopts && !owned ==>
            error.Some? && (error.value.HiddenExperiment? || error.value.HiddenOwner?))
      && (known && visible && !adopts && owned && effective == {} ==> error == Some(NoParent))
      && (known && visible && a.kind == Combination && owned && |effective| == 1 ==> error == Some(LonelyCombination))
      && (known && visible && !adopts && owned && effective != {} && (a.kind == Combination ==> |effective| >= 2)
          && a.supersedes.Some? && (a.kind != Correction || a.supersedes.value !in effective) ==>
            error == Some(BadSupersession))
  {
    HiddenMeans(a.parents, view);
    UnownedMeans(a.evidence, view);
    if FirstHidden(a.parents, view).Some? { var _ := FirstHiddenMeans(a.parents, view); }
    if FirstUnowned(a.evidence, view).Some? { var _ := FirstUnownedMeans(a.evidence, view); }
  }

  /** A request can be read iff its id lists are acceptable and what it supersedes is an id; without a kind
      and without any id it asks for no ancestry, and otherwise for exactly what it says. */
  lemma ParsedMeans(v: Value)
    ensures Parsed(v).Ok? <==> Ids(v.parents).Ok? && Ids(v.evidence).Ok? && v.supersedes != Some(Malformed)
    ensures Parsed(v).Ok? ==>
      if v.kind == Absent && v.parents.items == [] && v.evidence.items == [] && v.supersedes == None then
        Parsed(v).value == NoAncestry
      else
        && Parsed(v).value.Ancestry? && Parsed(v).value.kind == v.kind
        && Ids(v.parents) == Ok(Parsed(v).value.parents) && Ids(v.evidence) == Ok(Parsed(v).value.evidence)
        && (v.supersedes.None? <==> Parsed(v).value.supersedes.None?)
        && (v.supersedes.Some? ==> v.supersedes == Some(Id(Parsed(v).value.supersedes.value)))
  {
  }

  /** Writing a record adds exactly it: its parents, evidence and supersession as accepted, none of them
      without ancestry. */
  lemma ExtendMeans(h: Graph, d: DirectionId, a: Ancestry, status: Status)
    ensures
      var h' := Extend(h, d, a, status);
      && h'.owners == h.owners && h'.directions.Keys == h.directions.Keys + {d}
      && (forall x :: x in h.directions && x != d ==> h'.directions[x] == h.directions[x])
      && h'.directions[d].status == status
      && (a.Ancestry? ==>
            && h'.directions[d].parents == a.parents && h'.directions[d].evidence == a.evidence
            && h'.directions[d].supersedes == a.supersedes)
      && (a.NoAncestry? ==>
            h'.directions[d].parents == [] && h'.directions[d].evidence == [] && h'.directions[d].supersedes == None)
  {
  }

  /** The other events add one Experiment's owner, or change one Direction's status. */
  lemma ApplyMeans(h: Graph, e: Event)
    requires e.Close? ==> e.direction in h.directions
    ensures e.Run? ==>
      && Apply(h, e).directions == h.directions && Apply(h, e).owners.Keys == h.owners.Keys + {e.experiment}
      && Apply(h, e).owners[e.experiment] == e.owner
      && forall x :: x in h.owners && x != e.experiment ==> Apply(h, e).owners[x] == h.owners[x]
    ensures e.Close? ==>
      && Apply(h, e).owners == h.owners && Apply(h, e).directions.Keys == h.directions.Keys
      && Apply(h, e).directions[e.direction].status == e.status
      && Apply(h, e).directions[e.direction].(status := h.directions[e.direction].status) == h.directions[e.direction]
      && forall x :: x in h.directions && x != e.direction ==> Apply(h, e).directions[x] == h.directions[x]
  {
  }
}
