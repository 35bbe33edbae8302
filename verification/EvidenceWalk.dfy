/** The walk from a cumulative Evidence checkpoint back to Epoch 0. */
module EvidenceWalk {
  import opened Wrappers

  type Digest = string

  datatype Artifact = Checkpoint(throughEpoch: nat, previous: Option<Digest>) | OtherArtifact

  type Store = map<Digest, Artifact>

  datatype Result = Found(digest: Digest) | Missing | WrongKind | NoEpochZero | Cycle

  predicate IsEpochZero(s: Store, d: Digest) { d in s && s[d].Checkpoint? && s[d].throughEpoch == 0 }

  /** The checkpoint before `d`, where the walk goes on. */
  function Before(s: Store, d: Digest): Option<Digest> {
    if d in s && s[d].Checkpoint? && s[d].throughEpoch != 0 then s[d].previous else None
  }

  predicate Chain(s: Store, p: seq<Digest>) {
    |p| > 0 && forall i :: 0 <= i < |p| - 1 ==> Before(s, p[i]) == Some(p[i + 1])
  }

  ghost predicate Reaches(s: Store, from: Digest, d: Digest) {
    exists p :: Chain(s, p) && p[0] == from && p[|p| - 1] == d
  }

  /** A set closed under the walk keeps every chain that starts in it. */
  lemma {:induction false} ChainStays(s: Store, inside: set<Digest>, p: seq<Digest>)
    requires Chain(s, p) && p[0] in inside
    requires forall d :: d in inside && Before(s, d).Some? ==> Before(s, d).value in inside
    ensures p[|p| - 1] in inside
  {
    if |p| > 1 {
      assert Before(s, p[0]) == Some(p[1]);
      ChainStays(s, inside, p[1..]);
    }
  }

  lemma NothingReached(s: Store, inside: set<Digest>, from: Digest)
    requires from in inside && forall d :: d in inside ==> !IsEpochZero(s, d)
    requires forall d :: d in inside && Before(s, d).Some? ==> Before(s, d).value in inside
    ensures forall d :: Reaches(s, from, d) ==> !IsEpochZero(s, d)
  {
    forall d | Reaches(s, from, d) ensures !IsEpochZero(s, d) {
      var p :| Chain(s, p) && p[0] == from && p[|p| - 1] == d;
      ChainStays(s, inside, p);
    }
  }

  lemma AlwaysBefore(s: Store, inside: set<Digest>, from: Digest)
    requires from in inside && forall d :: d in inside ==> Before(s, d).Some? && Before(s, d).value in inside
    ensures forall d :: Reaches(s, from, d) ==> Before(s, d).Some?
  {
    forall d | Reaches(s, from, d) ensures Before(s, d).Some? {
      var p :| Chain(s, p) && p[0] == from && p[|p| - 1] == d;
      ChainStays(s, inside, p);
    }
  }

  lemma ReachMore(s: Store, from: Digest, d: Digest)
    requires Reaches(s, from, d) && Before(s, d).Some?
    ensures Reaches(s, from, Before(s, d).value)
  {
    var p :| Chain(s, p) && p[0] == from && p[|p| - 1] == d;
    var q := p + [Before(s, d).value];
    assert Chain(s, q);
  }

  lemma VisitedGrows(keys: set<Digest>, visited: set<Digest>, d: Digest)
    requires d in keys && d !in visited
    ensures |keys - (visited + {d})| < |keys - visited|
  {
    assert keys - visited == (keys - (visited + {d})) + {d};
  }

  /** Follows the chain on every finite store, cyclic or not. It finds an Epoch-0 checkpoint exactly
      when one is reachable, and then returns a reachable one; otherwise it says what stopped it. */
  method InitialCheckpoint(s: Store, digest: Digest) returns (r: Result)
    ensures r.Found? <==> exists d :: Reaches(s, digest, d) && IsEpochZero(s, d)
    ensures r.Found? ==> Reaches(s, digest, r.digest) && IsEpochZero(s, r.digest)
    ensures r.Missing? ==> exists d :: Reaches(s, digest, d) && d !in s
    ensures r.WrongKind? ==> exists d :: Reaches(s, digest, d) && d in s && s[d].OtherArtifact?
    ensures r.NoEpochZero? ==>
      exists d :: Reaches(s, digest, d) && d in s && s[d].Checkpoint? && s[d].throughEpoch > 0 && s[d].previous.None?
    ensures r.Cycle? ==> forall d :: Reaches(s, digest, d) ==> Before(s, d).Some?
  {
    var visited: set<Digest> := {};
    var current := digest;
    assert Chain(s, [digest]);
    while current !in visited
      invariant Reaches(s, digest, current)
      invariant digest in visited + {current}
      invariant visited <= s.Keys
      invariant forall d :: d in visited ==> !IsEpochZero(s, d) && Before(s, d).Some?
      invariant forall d :: d in visited && Before(s, d).Some? ==> Before(s, d).value in visited + {current}
      decreases |s.Keys - visited|
    {
      ghost var before := visited;
      visited := visited + {current};
      if current !in s {
        NothingReached(s, visited, digest);
        return Missing;
      }
      VisitedGrows(s.Keys, before, current);
      if !s[current].Checkpoint? {
        NothingReached(s, visited, digest);
        return WrongKind;
      }
      if s[current].throughEpoch == 0 {
        return Found(current);
      }
      if s[current].previous.None? {
        NothingReached(s, visited, digest);
        return NoEpochZero;
      }
      ReachMore(s, digest, current);
      current := s[current].previous.value;
    }
    NothingReached(s, visited, digest);
    AlwaysBefore(s, visited, digest);
    r := Cycle;
  }

  /** An intact chain, each checkpoint one epoch after the one before it, always leads to Epoch 0. */
  lemma {:induction false} IntactChainLeadsToEpochZero(s: Store, d: Digest, n: nat)
    requires d in s && s[d].Checkpoint? && s[d].throughEpoch == n
    requires forall c :: c in s && s[c].Checkpoint? && s[c].throughEpoch > 0 ==>
      && s[c].previous.Some? && s[c].previous.value in s && s[s[c].previous.value].Checkpoint?
      && s[s[c].previous.value].throughEpoch == s[c].throughEpoch - 1
    ensures exists e :: Reaches(s, d, e) && IsEpochZero(s, e)
    decreases n
  {
    if n == 0 {
      assert Chain(s, [d]);
      assert Reaches(s, d, d);
    } else {
      var c := s[d].previous.value;
      IntactChainLeadsToEpochZero(s, c, n - 1);
      var e :| Reaches(s, c, e) && IsEpochZero(s, e);
      var p :| Chain(s, p) && p[0] == c && p[|p| - 1] == e;
      var q := [d] + p;
      assert Chain(s, q);
    }
  }
}
