/** Which Bash calls a thinking block is adjacent to, and how its tokens are shared among them
    (`bash_adjacent_thinking.py`). */
module AdjacentThinking {
  import opened Wrappers

  type ToolId = string
  type MessageId = string

  datatype Kind = Thinking | Text | ToolUse | ToolResult | Barrier

  /** One block of a chain. A result carries the response id of the call that produced it; a barrier
      carries its assistant message's id, or none. */
  datatype Node = Node(kind: Kind, mid: Option<MessageId>, tool: ToolId)

  /** `nodes[q]` may lie between a thought and a later call of the same response. */
  predicate SameResponse(nodes: seq<Node>, pos: nat, q: nat)
    requires pos < |nodes| && q < |nodes|
  {
    nodes[q].mid == nodes[pos].mid && !nodes[q].kind.Barrier?
  }

  /** The call at `p` follows the thought with nothing but its own response in between. */
  predicate Follows(nodes: seq<Node>, pos: nat, p: int)
    requires pos < |nodes|
  {
    && pos < p < |nodes| && nodes[p].kind.ToolUse?
    && forall q :: pos < q <= p ==> SameResponse(nodes, pos, q)
  }

  /** `nodes[q]` is an earlier part of the same thinking or text. */
  predicate SameThought(nodes: seq<Node>, pos: nat, q: nat)
    requires pos < |nodes| && q < |nodes|
  {
    nodes[q].kind in {Text, Thinking} && nodes[q].mid == nodes[pos].mid
  }

  /** `nodes[q]` belongs to the batch of calls that produced the result at `last`. */
  predicate SameBatch(nodes: seq<Node>, last: nat, q: nat)
    requires last < |nodes| && q < |nodes|
  {
    nodes[q].mid == nodes[last].mid && nodes[q].kind in {ToolUse, ToolResult, Text}
  }

  /** The result at `p` is in the batch that ends, at `last`, right before the thought. */
  predicate Precedes(nodes: seq<Node>, pos: nat, last: int, p: int)
    requires pos < |nodes|
  {
    && 0 <= p <= last < pos && nodes[p].kind.ToolResult? && nodes[last].kind.ToolResult?
    && (forall q :: last < q < pos ==> SameThought(nodes, pos, q))
    && (forall q :: p <= q <= last ==> SameBatch(nodes, last, q))
  }

  /** The calls the thought comes before: scans forward while the response lasts. */
  method Before(nodes: seq<Node>, pos: nat) returns (before: set<ToolId>)
    requires pos < |nodes|
    ensures forall t :: t in before <==> exists p :: Follows(nodes, pos, p) && nodes[p].tool == t
  {
    before := {};
    var p := pos + 1;
    while p < |nodes|
      invariant pos < p <= |nodes|
      invariant forall q :: pos < q < p ==> SameResponse(nodes, pos, q)
      invariant forall t :: t in before <==> exists q :: q < p && Follows(nodes, pos, q) && nodes[q].tool == t
    {
      if nodes[p].mid != nodes[pos].mid {
        break;
      }
      if nodes[p].kind.ToolUse? {
        assert Follows(nodes, pos, p);
        before := before + {nodes[p].tool};
      } else if nodes[p].kind !in {Text, Thinking, ToolResult} {
        break;
      }
      p := p + 1;
    }
    forall q ensures Follows(nodes, pos, q) ==> q < p {
      assert Follows(nodes, pos, q) && p <= q ==> SameResponse(nodes, pos, p);
    }
  }

  /** The calls whose results the thought comes after: skips back over the thought itself, then
      collects one batch of results. */
  method After(nodes: seq<Node>, pos: nat) returns (after: set<ToolId>)
    requires pos < |nodes|
    ensures forall t :: t in after <==> exists last, p :: Precedes(nodes, pos, last, p) && nodes[p].tool == t
  {
    after := {};
    var preceding := pos - 1;
    while preceding >= 0
      invariant -1 <= preceding < pos
      invariant forall q :: preceding < q < pos ==> SameThought(nodes, pos, q)
      invariant forall q :: preceding < q < pos ==> !nodes[q].kind.ToolResult?
    {
      var previous := nodes[preceding];
      if previous.kind in {Text, Thinking} && previous.mid == nodes[pos].mid {
        preceding := preceding - 1;
      } else {
        break;
      }
    }
    forall last, p ensures Precedes(nodes, pos, last, p) ==> last == preceding {
      assert Precedes(nodes, pos, last, p) && last < preceding ==> SameThought(nodes, pos, preceding);
    }
    if preceding >= 0 && nodes[preceding].kind.ToolResult? {
      var last, batch := preceding, nodes[preceding].mid;
      while preceding >= 0
        invariant -1 <= preceding <= last
        invariant forall q :: preceding < q <= last ==> SameBatch(nodes, last, q)
        invariant forall t :: t in after <==>
          exists p :: preceding < p && Precedes(nodes, pos, last, p) && nodes[p].tool == t
      {
        var previous := nodes[preceding];
        if previous.mid != batch || previous.kind !in {ToolUse, ToolResult, Text} {
          break;
        }
        if previous.kind.ToolResult? {
          assert Precedes(nodes, pos, last, preceding);
          after := after + {previous.tool};
        }
        preceding := preceding - 1;
      }
      forall p ensures Precedes(nodes, pos, last, p) ==> preceding < p {
        assert Precedes(nodes, pos, last, p) && p <= preceding ==> SameBatch(nodes, last, preceding);
      }
      assert forall t :: t in after <==> exists p :: Precedes(nodes, pos, last, p) && nodes[p].tool == t;
    } else {
      assert forall last, p :: !Precedes(nodes, pos, last, p);
    }
  }

  /** No neighbour is taken across a barrier, on either side. */
  lemma NothingAcrossBarrier(nodes: seq<Node>, pos: nat, b: nat)
    requires pos < |nodes| && b < |nodes| && nodes[b].kind.Barrier?
    ensures b > pos ==> forall p :: Follows(nodes, pos, p) ==> p < b
    ensures b < pos ==> forall last, p :: Precedes(nodes, pos, last, p) ==> b < p
  {
    forall p ensures Follows(nodes, pos, p) && b > pos ==> p < b {
      assert Follows(nodes, pos, p) && pos < b <= p ==> SameResponse(nodes, pos, b);
    }
    forall last, p ensures Precedes(nodes, pos, last, p) && b < pos ==> b < p {
      assert Precedes(nodes, pos, last, p) && p <= b <= last ==> SameBatch(nodes, last, b);
      assert Precedes(nodes, pos, last, p) && last < b < pos ==> SameThought(nodes, pos, b);
    }
  }

  /** Field by field: a call follows a thought across text, thinking, calls and results of its response. */
  lemma FollowsMeans(nodes: seq<Node>, pos: nat, p: int)
    requires pos < |nodes|
    ensures Follows(nodes, pos, p) <==>
      && pos < p < |nodes| && nodes[p].kind == ToolUse
      && forall q :: pos < q <= p ==>
           nodes[q].mid == nodes[pos].mid && nodes[q].kind in {Thinking, Text, ToolUse, ToolResult}
  {
    if Follows(nodes, pos, p) {
      forall q | pos < q <= p
        ensures nodes[q].mid == nodes[pos].mid && nodes[q].kind in {Thinking, Text, ToolUse, ToolResult}
      {
        assert SameResponse(nodes, pos, q);
      }
    }
  }

  /** Field by field: between a thought and the batch before it lies only the same response's text and
      thinking; within the batch only calls, results and text of one response. */
  lemma PrecedesMeans(nodes: seq<Node>, pos: nat, last: int, p: int)
    requires pos < |nodes|
    ensures Precedes(nodes, pos, last, p) <==>
      && 0 <= p <= last < pos && nodes[p].kind == ToolResult && nodes[last].kind == ToolResult
      && (forall q :: last < q < pos ==> nodes[q].mid == nodes[pos].mid && nodes[q].kind in {Thinking, Text})
      && forall q :: p <= q <= last ==> nodes[q].mid == nodes[last].mid && nodes[q].kind in {ToolUse, ToolResult, Text}
  {
    if Precedes(nodes, pos, last, p) {
      forall q | last < q < pos ensures nodes[q].mid == nodes[pos].mid && nodes[q].kind in {Thinking, Text} {
        assert SameThought(nodes, pos, q);
      }
      forall q | p <= q <= last
        ensures nodes[q].mid == nodes[last].mid && nodes[q].kind in {ToolUse, ToolResult, Text}
      {
        assert SameBatch(nodes, last, q);
      }
    }
  }

  // ---- Equal shares -----------------------------------------------------------------------

  function Sum(s: seq<real>): real { if s == [] then 0.0 else Sum(s[..|s| - 1]) + s[|s| - 1] }

  lemma {:induction false} SumUpdate(s: seq<real>, i: nat, d: real)
    requires i < |s|
    ensures Sum(s[i := s[i] + d]) == Sum(s) + d
  {
    var t := s[i := s[i] + d];
    if i == |s| - 1 {
      assert t[..|t| - 1] == s[..|s| - 1];
    } else {
      SumUpdate(s[..|s| - 1], i, d);
      assert t[..|t| - 1] == s[..|s| - 1][i := s[i] + d];
    }
  }

  /** A thought with something to share among at least one distinct Bash call. */
  datatype Thought = Thought(value: real, neighbours: seq<ToolId>)

  function Values(thoughts: seq<Thought>): real {
    if thoughts == [] then 0.0 else Values(thoughts[..|thoughts| - 1]) + thoughts[|thoughts| - 1].value
  }

  /** What bucket `b` is owed: one share of every thought for each adjacent call in `b`. */
  function Owed(thoughts: seq<Thought>, bucket: map<ToolId, nat>, b: nat): real
    requires forall t :: t in thoughts ==> t.neighbours != []
  {
    if thoughts == [] then 0.0
    else
      var last := thoughts[|thoughts| - 1];
      Owed(thoughts[..|thoughts| - 1], bucket, b) +
      OwedBy(last, bucket, b, |last.neighbours|)
  }

  function OwedBy(t: Thought, bucket: map<ToolId, nat>, b: nat, n: nat): real
    requires t.neighbours != [] && n <= |t.neighbours|
  {
    if n == 0 then 0.0
    else
      var id := t.neighbours[n - 1];
      OwedBy(t, bucket, b, n - 1) +
      if id in bucket && bucket[id] == b then t.value / |t.neighbours| as real else 0.0
  }

  function Part(value: real, weight: nat, k: nat): real
    requires weight > 0
  {
    k as real * (value / weight as real)
  }

  lemma AllParts(value: real, weight: nat)
    requires weight > 0
    ensures Part(value, weight, weight) == value
  {
  }

  lemma OnePart(value: real, weight: nat, k: nat)
    requires weight > 0
    ensures Part(value, weight, k + 1) == Part(value, weight, k) + value / weight as real
  {
    assert (k + 1) as real == k as real + 1.0;
  }

  /** The adjacent calls of a thought, among the first `n`, that lie in bucket `b`. */
  function CallsIn(t: Thought, bucket: map<ToolId, nat>, b: nat, n: nat): set<nat>
    requires n <= |t.neighbours|
  {
    set i: nat | i < n && t.neighbours[i] in bucket && bucket[t.neighbours[i]] == b
  }

  lemma {:induction false} OwedPerCall(t: Thought, bucket: map<ToolId, nat>, b: nat, n: nat)
    requires t.neighbours != [] && n <= |t.neighbours|
    ensures OwedBy(t, bucket, b, n) == Part(t.value, |t.neighbours|, |CallsIn(t, bucket, b, n)|)
  {
    if n == 0 {
      assert CallsIn(t, bucket, b, 0) == {};
    } else {
      OwedPerCall(t, bucket, b, n - 1);
      var id := t.neighbours[n - 1];
      var before := CallsIn(t, bucket, b, n - 1);
      OnePart(t.value, |t.neighbours|, |before|);
      if id in bucket && bucket[id] == b {
        assert CallsIn(t, bucket, b, n) == before + {n - 1};
      } else {
        assert CallsIn(t, bucket, b, n) == before;
      }
    }
  }

  /** What a bucket is owed: for one thought its value, split equally over its adjacent calls, as often as
      a call of it lies in the bucket; for more thoughts, what they owe one by one. */
  lemma OwedMeans(thoughts: seq<Thought>, t: Thought, bucket: map<ToolId, nat>, b: nat)
    requires t.neighbours != [] && forall u :: u in thoughts ==> u.neighbours != []
    ensures Owed([], bucket, b) == 0.0
    ensures forall u :: u in thoughts + [t] ==> u.neighbours != []
    ensures Owed(thoughts + [t], bucket, b) == Owed(thoughts, bucket, b)
      + |set i: nat | i < |t.neighbours| && t.neighbours[i] in bucket && bucket[t.neighbours[i]] == b| as real
        * (t.value / |t.neighbours| as real)
  {
    OwedPerCall(t, bucket, b, |t.neighbours|);
    assert (thoughts + [t])[..|thoughts|] == thoughts;
    assert CallsIn(t, bucket, b, |t.neighbours|)
        == set i: nat | i < |t.neighbours| && t.neighbours[i] in bucket && bucket[t.neighbours[i]] == b;
  }

  /** Each thought gives every adjacent call's bucket an equal share. However the calls are
      spread over the buckets, the buckets together receive exactly what was shared. */
  method Share(thoughts: seq<Thought>, bucket: map<ToolId, nat>, shares: array<real>)
    requires forall t :: t in thoughts ==> t.neighbours != []
    requires forall t, id :: t in thoughts && id in t.neighbours ==> id in bucket && bucket[id] < shares.Length
    modifies shares
    ensures Sum(shares[..]) == old(Sum(shares[..])) + Values(thoughts)
    ensures forall b :: 0 <= b < shares.Length ==> shares[b] == old(shares[b]) + Owed(thoughts, bucket, b)
  {
    var i := 0;
    while i < |thoughts|
      invariant 0 <= i <= |thoughts|
      invariant Sum(shares[..]) == old(Sum(shares[..])) + Values(thoughts[..i])
      invariant forall b :: 0 <= b < shares.Length ==> shares[b] == old(shares[b]) + Owed(thoughts[..i], bucket, b)
    {
      var t := thoughts[i];
      ShareOne(t, bucket, shares);
      assert thoughts[..i + 1][..i] == thoughts[..i];
      i := i + 1;
    }
    assert thoughts[..i] == thoughts;
  }

  method ShareOne(t: Thought, bucket: map<ToolId, nat>, shares: array<real>)
    requires t.neighbours != []
    requires forall id :: id in t.neighbours ==> id in bucket && bucket[id] < shares.Length
    modifies shares
    ensures Sum(shares[..]) == old(Sum(shares[..])) + t.value
    ensures forall b :: 0 <= b < shares.Length ==>
      shares[b] == old(shares[b]) + OwedBy(t, bucket, b, |t.neighbours|)
  {
    var weight := |t.neighbours|;
    var k := 0;
    while k < weight
      invariant 0 <= k <= weight
      invariant Sum(shares[..]) == old(Sum(shares[..])) + Part(t.value, weight, k)
      invariant forall b :: 0 <= b < shares.Length ==> shares[b] == old(shares[b]) + OwedBy(t, bucket, b, k)
    {
      var b := bucket[t.neighbours[k]];
      var share := t.value / weight as real;
      SumUpdate(shares[..], b, share);
      OnePart(t.value, weight, k);
      assert shares[..][b := shares[b] + share] == shares[..b] + [shares[b] + share] + shares[b + 1..];
      ghost var was := shares[..];
      shares[b] := shares[b] + share;
      assert shares[..] == was[b := was[b] + share];
      k := k + 1;
    }
    AllParts(t.value, weight);
  }
}
