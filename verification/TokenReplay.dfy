/** Text exposure over an event trace (`bash_context_tokens.py`): which requests carry which Bash
    fragment in their context, under three rules for what a compaction keeps. */
module TokenReplay {
  import opened Wrappers

  type Chain = string
  type Uuid = string
  type MessageId = string

  /** What a `compact_boundary` event says: no metadata, metadata without a list, or the list. */
  datatype Compaction = NoMetadata | NoList | Keep(uuids: set<Uuid>)

  type Usage = string

  /** One trace event; `message` is the response id of an assistant event, if it has one, and `usage` the
      snapshot it brings, if it is not empty. */
  datatype Event = Event(line: nat, chain: Chain, compaction: Option<Compaction>, message: Option<MessageId>,
                         usage: Option<Usage>)

  /** A piece of Bash text, visible from the event on its line, with its length in tokens. */
  datatype Fragment = Fragment(line: nat, uuid: Uuid, chain: Chain, tokens: nat, command: bool)

  datatype Scenario = Preserved | Reset | Ignore

  datatype Error = MissingMetadata(line: nat) | MissingList(line: nat)

  datatype Request = Request(chain: Chain, message: MessageId, line: nat, footprint: nat)

  // ---- What the replay means --------------------------------------------------------------

  predicate Malformed(e: Event) { e.compaction.Some? && !e.compaction.value.Keep? }

  /** The compaction `e` drops fragment `f` from its chain's context. */
  predicate Cuts(s: Scenario, f: Fragment, e: Event) {
    && e.compaction.Some? && e.compaction.value.Keep? && e.chain == f.chain
    && (s == Reset || (s == Preserved && f.uuid !in e.compaction.value.uuids))
  }

  /** After the first `k` events `f` is in context: it has appeared and nothing has dropped it since. */
  predicate InContext(events: seq<Event>, f: Fragment, s: Scenario, k: nat)
    requires k <= |events|
  {
    exists b :: 0 <= b < k && events[b].line == f.line && forall c :: b < c < k ==> !Cuts(s, f, events[c])
  }

  /** Event `j` is the first one to carry its chain's response id. */
  predicate IsRequest(events: seq<Event>, j: nat)
    requires j < |events|
  {
    && events[j].message.Some?
    && forall i :: 0 <= i < j ==> events[i].message != events[j].message || events[i].chain != events[j].chain
  }

  /** Event `j` brings a usage snapshot for this response. */
  predicate BringsUsage(events: seq<Event>, chain: Chain, id: MessageId, j: nat)
    requires j < |events|
  {
    events[j].chain == chain && events[j].message == Some(id) && events[j].usage.Some?
  }

  /** The last usage snapshot of a response among the first `k` events. */
  function LastUsage(events: seq<Event>, chain: Chain, id: MessageId, k: nat): Option<Usage>
    requires k <= |events|
  {
    if k == 0 then None
    else if BringsUsage(events, chain, id, k - 1) then events[k - 1].usage
    else LastUsage(events, chain, id, k - 1)
  }

  /** It is the snapshot of the latest event that brings one, and there is none iff no event does. */
  lemma {:induction false} LastUsageIsLatest(events: seq<Event>, chain: Chain, id: MessageId, k: nat) returns (j: nat)
    requires k <= |events|
    ensures LastUsage(events, chain, id, k).None? ==> forall i :: 0 <= i < k ==> !BringsUsage(events, chain, id, i)
    ensures LastUsage(events, chain, id, k).Some? ==>
      && j < k && BringsUsage(events, chain, id, j) && LastUsage(events, chain, id, k) == events[j].usage
      && forall i :: j < i < k ==> !BringsUsage(events, chain, id, i)
  {
    j := 0;
    if k > 0 {
      if BringsUsage(events, chain, id, k - 1) {
        j := k - 1;
      } else {
        j := LastUsageIsLatest(events, chain, id, k - 1);
      }
    }
  }

  /** The request at event `j` reads `f`: it appeared before, and no compaction up to and including
      event `j` has dropped it. */
  predicate Carries(events: seq<Event>, f: Fragment, s: Scenario, j: nat)
    requires j < |events|
  {
    && IsRequest(events, j) && events[j].chain == f.chain
    && exists b :: 0 <= b < j && events[b].line == f.line && forall c :: b < c <= j ==> !Cuts(s, f, events[c])
  }

  function Among(p: nat -> bool, k: nat): set<nat> { set j | 0 <= j < k && p(j) }

  lemma AmongStep(p: nat -> bool, k: nat)
    ensures |Among(p, k + 1)| == |Among(p, k)| + if p(k) then 1 else 0
  {
    assert Among(p, k + 1) == Among(p, k) + if p(k) then {k} else {};
  }

  /** The requests among the first `k` events that read `f`. */
  function Readers(events: seq<Event>, f: Fragment, s: Scenario, k: nat): set<nat>
    requires k <= |events|
  {
    Among(CarriedBy(events, f, s), k)
  }

  function CarriedBy(events: seq<Event>, f: Fragment, s: Scenario): nat -> bool {
    (j: nat) => j < |events| && Carries(events, f, s, j)
  }

  function Reads(events: seq<Event>, f: Fragment, s: Scenario, k: nat): nat
    requires k <= |events|
  {
    |Readers(events, f, s, k)|
  }

  /** The compactions of `f`'s chain that found `f` in context. */
  function PassedBy(events: seq<Event>, f: Fragment): nat -> bool {
    (c: nat) =>
      c < |events| && events[c].compaction.Some? && events[c].chain == f.chain && InContext(events, f, Preserved, c)
  }

  function Passes(events: seq<Event>, f: Fragment, k: nat): nat
    requires k <= |events|
  {
    |Among(PassedBy(events, f), k)|
  }

  /** The tokens of the fragments in `chosen` among the first `n`. */
  function TokensOf(fragments: seq<Fragment>, chosen: set<nat>, n: nat): nat
    requires n <= |fragments|
  {
    if n == 0 then 0
    else TokensOf(fragments, chosen, n - 1) + if n - 1 in chosen then fragments[n - 1].tokens else 0
  }

  /** Tokens times reads, over the first `n` fragments. */
  function Weighted(fragments: seq<Fragment>, counts: seq<nat>, n: nat): nat
    requires n <= |fragments| && n <= |counts|
  {
    if n == 0 then 0 else Weighted(fragments, counts, n - 1) + fragments[n - 1].tokens * counts[n - 1]
  }

  function Footprints(requests: seq<Request>): nat {
    if requests == [] then 0 else Footprints(requests[..|requests| - 1]) + requests[|requests| - 1].footprint
  }

  // ---- One event at a time ----------------------------------------------------------------

  lemma InContextStep(events: seq<Event>, f: Fragment, s: Scenario, k: nat)
    requires k < |events|
    ensures InContext(events, f, s, k + 1) <==>
      events[k].line == f.line || (InContext(events, f, s, k) && !Cuts(s, f, events[k]))
    ensures Carries(events, f, s, k) <==>
      IsRequest(events, k) && events[k].chain == f.chain && InContext(events, f, s, k) && !Cuts(s, f, events[k])
  {
    if InContext(events, f, s, k) && !Cuts(s, f, events[k]) {
      var b :| 0 <= b < k && events[b].line == f.line && forall c :: b < c < k ==> !Cuts(s, f, events[c]);
      assert forall c :: b < c < k + 1 ==> !Cuts(s, f, events[c]);
    }
  }

  lemma ReadsStep(events: seq<Event>, f: Fragment, s: Scenario, k: nat)
    requires k < |events|
    ensures Reads(events, f, s, k + 1) == Reads(events, f, s, k) + if Carries(events, f, s, k) then 1 else 0
  {
    AmongStep(CarriedBy(events, f, s), k);
  }

  lemma PassesStep(events: seq<Event>, f: Fragment, k: nat)
    requires k < |events|
    ensures
      var passed := events[k].compaction.Some? && events[k].chain == f.chain && InContext(events, f, Preserved, k);
      Passes(events, f, k + 1) == Passes(events, f, k) + if passed then 1 else 0
  {
    AmongStep(PassedBy(events, f), k);
  }

  lemma {:induction false} TokensWithout(fragments: seq<Fragment>, chosen: set<nat>, i: nat, n: nat)
    requires n <= |fragments| && i in chosen && i < |fragments|
    ensures TokensOf(fragments, chosen, n) ==
      TokensOf(fragments, chosen - {i}, n) + if i < n then fragments[i].tokens else 0
  {
    if n > 0 { TokensWithout(fragments, chosen, i, n - 1); }
  }

  lemma {:induction false} NoTokens(fragments: seq<Fragment>, n: nat)
    requires n <= |fragments|
    ensures TokensOf(fragments, {}, n) == 0
  {
    if n > 0 { NoTokens(fragments, n - 1); }
  }

  /** Giving one more read to each chosen fragment adds exactly the chosen fragments' tokens. */
  lemma {:induction false} OneMoreRead(fragments: seq<Fragment>, was: seq<nat>, now: seq<nat>, chosen: set<nat>, n: nat)
    requires n <= |fragments| && n <= |was| && n <= |now|
    requires forall i :: 0 <= i < n ==> now[i] == was[i] + if i in chosen then 1 else 0
    ensures Weighted(fragments, now, n) == Weighted(fragments, was, n) + TokensOf(fragments, chosen, n)
  {
    if n > 0 {
      OneMoreRead(fragments, was, now, chosen, n - 1);
      var t := fragments[n - 1].tokens;
      assert n - 1 in chosen ==> t * now[n - 1] == t * was[n - 1] + t;
    }
  }

  // ---- The replay -------------------------------------------------------------------------

  function Get(active: map<Chain, set<nat>>, chain: Chain): set<nat> {
    if chain in active then active[chain] else {}
  }

  predicate OnLine(fragments: seq<Fragment>, line: nat, i: nat) { i < |fragments| && fragments[i].line == line }

  method IndexByLine(fragments: seq<Fragment>) returns (byLine: map<nat, seq<nat>>)
    ensures forall line :: line in byLine ==>
      forall i: nat :: i in byLine[line] <==> OnLine(fragments, line, i)
    ensures forall line: nat, i: nat :: OnLine(fragments, line, i) ==> line in byLine
  {
    byLine := map[];
    var n: nat := 0;
    while n < |fragments|
      invariant 0 <= n <= |fragments|
      invariant forall line :: line in byLine ==>
        forall i: nat :: i in byLine[line] <==> i < n && OnLine(fragments, line, i)
      invariant forall line: nat, i: nat :: i < n && OnLine(fragments, line, i) ==> line in byLine
    {
      var line := fragments[n].line;
      var there := if line in byLine then byLine[line] else [];
      assert forall i: nat :: i in there <==> i < n && OnLine(fragments, line, i);
      assert forall i: nat :: i in there + [n] <==> i in there || i == n;
      byLine := byLine[line := there + [n]];
      n := n + 1;
    }
  }

  /** The counters of exactly the chosen fragments have grown, by one. */
  predicate Bumped(was: seq<nat>, now: seq<nat>, chosen: set<nat>) {
    |was| == |now| && forall i :: 0 <= i < |now| ==> now[i] == was[i] + if i in chosen then 1 else 0
  }

  /** Adds one to the counter of every chosen fragment, and adds up their tokens. */
  method CountEach(fragments: seq<Fragment>, chosen: set<nat>, counter: array<nat>) returns (tokens: nat)
    requires counter.Length == |fragments|
    requires forall i :: i in chosen ==> i < |fragments|
    modifies counter
    ensures Bumped(old(counter[..]), counter[..], chosen)
    ensures tokens == TokensOf(fragments, chosen, |fragments|)
  {
    tokens := 0;
    var todo := chosen;
    while todo != {}
      invariant todo <= chosen
      invariant forall i :: 0 <= i < |fragments| ==>
        counter[i] == old(counter[i]) + if i in chosen && i !in todo then 1 else 0
      invariant tokens + TokensOf(fragments, todo, |fragments|) == TokensOf(fragments, chosen, |fragments|)
      decreases |todo|
    {
      var i :| i in todo;
      TokensWithout(fragments, todo, i, |fragments|);
      counter[i] := counter[i] + 1;
      tokens := tokens + fragments[i].tokens;
      todo := todo - {i};
    }
    NoTokens(fragments, |fragments|);
  }

  /** Puts the fragments of one event into the context of their own chains. */
  method Append(fragments: seq<Fragment>, added: seq<nat>, active: map<Chain, set<nat>>)
    returns (after: map<Chain, set<nat>>)
    requires forall i :: i in added ==> i < |fragments|
    ensures forall chain, i: nat :: i in Get(after, chain) <==>
      i in Get(active, chain) || (i in added && fragments[i].chain == chain)
  {
    after := active;
    var k := 0;
    while k < |added|
      invariant 0 <= k <= |added|
      invariant forall chain, i: nat :: i in Get(after, chain) <==>
        i in Get(active, chain) || (i in added && fragments[i].chain == chain && i in added[..k])
    {
      assert added[k] in added;
      assert added[..k + 1] == added[..k] + [added[k]];
      var chain := fragments[added[k]].chain;
      after := after[chain := Get(after, chain) + {added[k]}];
      k := k + 1;
    }
    assert added[..k] == added;
  }

  ghost predicate SeenSoFar(events: seq<Event>, k: nat, seen: set<(Chain, MessageId)>)
    requires k <= |events|
  {
    forall chain, id :: (chain, id) in seen <==>
      exists j :: 0 <= j < k && events[j].chain == chain && events[j].message == Some(id)
  }

  ghost predicate UsageSoFar(events: seq<Event>, k: nat, usage: map<(Chain, MessageId), Usage>)
    requires k <= |events|
  {
    forall chain, id ::
      LastUsage(events, chain, id, k) == if (chain, id) in usage then Some(usage[(chain, id)]) else None
  }

  function ReadCounts(events: seq<Event>, fragments: seq<Fragment>, s: Scenario, k: nat): seq<nat>
    requires k <= |events|
  {
    seq(|fragments|, i requires 0 <= i < |fragments| => Reads(events, fragments[i], s, k))
  }

  function Carried(events: seq<Event>, fragments: seq<Fragment>, j: nat): set<nat>
    requires j < |events|
  {
    set i | 0 <= i < |fragments| && Carries(events, fragments[i], Preserved, j)
  }

  /** The requests of the first `k` events, each with the tokens of the fragments it carries. */
  function RequestList(events: seq<Event>, fragments: seq<Fragment>, k: nat): seq<Request>
    requires k <= |events|
  {
    if k == 0 then []
    else
      RequestList(events, fragments, k - 1) +
      if IsRequest(events, k - 1) then
        [Request(events[k - 1].chain, events[k - 1].message.value, events[k - 1].line,
                 TokensOf(fragments, Carried(events, fragments, k - 1), |fragments|))]
      else []
  }

  lemma {:induction false} FootprintsMore(requests: seq<Request>, r: Request)
    ensures Footprints(requests + [r]) == Footprints(requests) + r.footprint
  {
    assert (requests + [r])[..|requests|] == requests;
  }

  /** Counted by requests or counted by fragments, the exposure is the same: the footprints of all
      requests sum to tokens times preserved reads over all fragments. */
  lemma {:induction false} DoubleCounting(events: seq<Event>, fragments: seq<Fragment>, k: nat)
    requires k <= |events|
    ensures Footprints(RequestList(events, fragments, k)) ==
      Weighted(fragments, ReadCounts(events, fragments, Preserved, k), |fragments|)
  {
    var now := ReadCounts(events, fragments, Preserved, k);
    if k == 0 {
      forall i | 0 <= i < |fragments| ensures now[i] == 0 {
        assert Readers(events, fragments[i], Preserved, 0) == {};
      }
      NothingRead(fragments, now, |fragments|);
    } else {
      DoubleCounting(events, fragments, k - 1);
      var was := ReadCounts(events, fragments, Preserved, k - 1);
      var carried := Carried(events, fragments, k - 1);
      forall i | 0 <= i < |fragments| ensures now[i] == was[i] + if i in carried then 1 else 0 {
        ReadsStep(events, fragments[i], Preserved, k - 1);
      }
      OneMoreRead(fragments, was, now, carried, |fragments|);
      if IsRequest(events, k - 1) {
        FootprintsMore(RequestList(events, fragments, k - 1),
                       Request(events[k - 1].chain, events[k - 1].message.value, events[k - 1].line,
                               TokensOf(fragments, carried, |fragments|)));
      } else {
        assert carried == {};
        assert RequestList(events, fragments, k) == RequestList(events, fragments, k - 1);
        NoTokens(fragments, |fragments|);
      }
    }
  }

  lemma {:induction false} NothingRead(fragments: seq<Fragment>, counts: seq<nat>, n: nat)
    requires n <= |fragments| && n <= |counts| && forall i :: 0 <= i < n ==> counts[i] == 0
    ensures Weighted(fragments, counts, n) == 0
  {
    if n > 0 {
      NothingRead(fragments, counts, n - 1);
      assert fragments[n - 1].tokens * counts[n - 1] == 0;
    }
  }

  /** What a run of the replay has in hand: the contexts under the three rules, the response ids seen,
      and the requests recorded. */
  datatype State = State(kept: map<Chain, set<nat>>, recent: map<Chain, set<nat>>, all: map<Chain, set<nat>>,
                         seen: set<(Chain, MessageId)>, requests: seq<Request>,
                         usage: map<(Chain, MessageId), Usage>)
  {
    function Context(s: Scenario): map<Chain, set<nat>> {
      match s case Preserved => kept case Reset => recent case Ignore => all
    }
  }

  datatype Counts = Counts(preserved: seq<nat>, reset: seq<nat>, ignore: seq<nat>, passes: seq<nat>) {
    function Of(s: Scenario): seq<nat> {
      match s case Preserved => preserved case Reset => reset case Ignore => ignore
    }

    predicate Fit(n: nat) { |preserved| == n && |reset| == n && |ignore| == n && |passes| == n }
  }

  /** A context holds fragments of its own chain. */
  ghost predicate Placed(fragments: seq<Fragment>, active: map<Chain, set<nat>>) {
    forall chain, i: nat {:trigger i in Get(active, chain)} :: i in Get(active, chain) ==>
      i < |fragments| && fragments[i].chain == chain
  }

  ghost predicate AllPlaced(fragments: seq<Fragment>, st: State) {
    Placed(fragments, st.kept) && Placed(fragments, st.recent) && Placed(fragments, st.all)
  }

  ghost predicate Agrees(events: seq<Event>, fragments: seq<Fragment>, s: Scenario, k: nat,
                         active: map<Chain, set<nat>>)
    requires k <= |events|
  {
    forall chain, i: nat {:trigger i in Get(active, chain)} :: i in Get(active, chain) <==>
      0 <= i < |fragments| && fragments[i].chain == chain && InContext(events, fragments[i], s, k)
  }

  /** As `Agrees`, but after the compaction, if any, of event `k`. */
  ghost predicate AgreesAt(events: seq<Event>, fragments: seq<Fragment>, s: Scenario, k: nat,
                           active: map<Chain, set<nat>>)
    requires k < |events|
  {
    forall chain, i: nat {:trigger i in Get(active, chain)} :: i in Get(active, chain) <==>
      && 0 <= i < |fragments| && fragments[i].chain == chain
      && InContext(events, fragments[i], s, k) && !Cuts(s, fragments[i], events[k])
  }

  /** A counter holds what it started with plus the reads of the first `k` events. */
  ghost predicate Counted(events: seq<Event>, fragments: seq<Fragment>, s: Scenario, k: nat, was: seq<nat>,
                          now: seq<nat>)
    requires k <= |events| && |was| == |fragments| == |now|
  {
    forall i :: 0 <= i < |fragments| ==> now[i] == was[i] + Reads(events, fragments[i], s, k)
  }

  ghost predicate PassCounted(events: seq<Event>, fragments: seq<Fragment>, k: nat, was: seq<nat>, now: seq<nat>)
    requires k <= |events| && |was| == |fragments| == |now|
  {
    forall i :: 0 <= i < |fragments| ==> now[i] == was[i] + Passes(events, fragments[i], k)
  }

  /** The replay's state and counters after the first `k` events are what the declarations say. */
  ghost predicate Replayed(events: seq<Event>, fragments: seq<Fragment>, k: nat, st: State, was: Counts, now: Counts)
    requires k <= |events| && was.Fit(|fragments|) && now.Fit(|fragments|)
  {
    && (forall s: Scenario :: Agrees(events, fragments, s, k, st.Context(s)))
    && (forall s: Scenario :: Counted(events, fragments, s, k, was.Of(s), now.Of(s)))
    && PassCounted(events, fragments, k, was.passes, now.passes)
    && SeenSoFar(events, k, st.seen)
    && st.requests == RequestList(events, fragments, k)
    && UsageSoFar(events, k, st.usage)
  }

  // What each part of one event does to the state, with no reference to the rest of the trace.

  ghost predicate Compacted(fragments: seq<Fragment>, e: Event, st: State, st': State, c: Counts, c': Counts)
    requires c.Fit(|fragments|) && c'.Fit(|fragments|)
  {
    && (forall s: Scenario, chain, i: nat {:trigger i in Get(st'.Context(s), chain)} ::
          i in Get(st'.Context(s), chain) <==>
            i in Get(st.Context(s), chain) && i < |fragments| && !Cuts(s, fragments[i], e))
    && c' == c.(passes := c'.passes)
    && Bumped(c.passes, c'.passes, if e.compaction.Some? then Get(st.kept, e.chain) else {})
    && st'.seen == st.seen && st'.requests == st.requests && st'.usage == st.usage
  }

  /** An event's usage snapshot replaces the response's earlier one. */
  function Noted(e: Event, usage: map<(Chain, MessageId), Usage>): map<(Chain, MessageId), Usage> {
    if e.message.Some? && e.usage.Some? then usage[(e.chain, e.message.value) := e.usage.value] else usage
  }

  predicate Fresh(e: Event, st: State) { e.message.Some? && (e.chain, e.message.value) !in st.seen }

  ghost predicate Observed(fragments: seq<Fragment>, e: Event, st: State, st': State, c: Counts, c': Counts)
    requires c.Fit(|fragments|) && c'.Fit(|fragments|)
  {
    && (forall s: Scenario :: st'.Context(s) == st.Context(s))
    && (forall s: Scenario :: Bumped(c.Of(s), c'.Of(s), if Fresh(e, st) then Get(st.Context(s), e.chain) else {}))
    && c'.passes == c.passes && st'.usage == Noted(e, st.usage)
    && st'.seen == (if Fresh(e, st) then st.seen + {(e.chain, e.message.value)} else st.seen)
    && st'.requests == st.requests +
         if Fresh(e, st) then
           [Request(e.chain, e.message.value, e.line, TokensOf(fragments, Get(st.kept, e.chain), |fragments|))]
         else []
  }

  ghost predicate Appended(fragments: seq<Fragment>, e: Event, st: State, st': State) {
    && (forall s: Scenario, chain, i: nat {:trigger i in Get(st'.Context(s), chain)} ::
          i in Get(st'.Context(s), chain) <==>
            i in Get(st.Context(s), chain) || (OnLine(fragments, e.line, i) && fragments[i].chain == chain))
    && st'.seen == st.seen && st'.requests == st.requests && st'.usage == st.usage
  }

  lemma AfterCompact(events: seq<Event>, fragments: seq<Fragment>, k: nat, st: State, st': State, c: Counts, c': Counts)
    requires k < |events| && c.Fit(|fragments|) && c'.Fit(|fragments|)
    requires forall s: Scenario :: Agrees(events, fragments, s, k, st.Context(s))
    requires Compacted(fragments, events[k], st, st', c, c')
    ensures forall s: Scenario :: AgreesAt(events, fragments, s, k, st'.Context(s))
    ensures forall i :: 0 <= i < |fragments| ==>
      c'.passes[i] - c.passes[i] == Passes(events, fragments[i], k + 1) - Passes(events, fragments[i], k)
  {
    assert Agrees(events, fragments, Preserved, k, st.Context(Preserved));
    forall i | 0 <= i < |fragments|
      ensures c'.passes[i] - c.passes[i] == Passes(events, fragments[i], k + 1) - Passes(events, fragments[i], k)
    {
      PassesStep(events, fragments[i], k);
    }
  }

  lemma SeenStep(events: seq<Event>, k: nat, seen: set<(Chain, MessageId)>)
    requires k < |events| && SeenSoFar(events, k, seen)
    ensures
      var key := if events[k].message.Some? then {(events[k].chain, events[k].message.value)} else {};
      (IsRequest(events, k) <==> key != {} && key !! seen) && SeenSoFar(events, k + 1, seen + key)
  {
    if events[k].message.Some? && !IsRequest(events, k) {
      var j :| 0 <= j < k && events[j].message == events[k].message && events[j].chain == events[k].chain;
    }
  }

  /** Reading the chain's context counts one read for exactly the fragments the request carries. */
  lemma AfterObserve(events: seq<Event>, fragments: seq<Fragment>, s: Scenario, k: nat, active: map<Chain, set<nat>>,
                     was: seq<nat>, before: seq<nat>, after: seq<nat>)
    requires k < |events| && AgreesAt(events, fragments, s, k, active)
    requires |was| == |before| == |after| == |fragments|
    requires Counted(events, fragments, s, k, was, before)
    requires Bumped(before, after, if IsRequest(events, k) then Get(active, events[k].chain) else {})
    ensures Counted(events, fragments, s, k + 1, was, after)
  {
    forall i: nat | i < |fragments| ensures after[i] == was[i] + Reads(events, fragments[i], s, k + 1) {
      ReadsStep(events, fragments[i], s, k);
      InContextStep(events, fragments[i], s, k);
    }
  }

  lemma CarriedContext(events: seq<Event>, fragments: seq<Fragment>, k: nat, kept: map<Chain, set<nat>>)
    requires k < |events| && AgreesAt(events, fragments, Preserved, k, kept) && IsRequest(events, k)
    ensures Get(kept, events[k].chain) == Carried(events, fragments, k)
  {
    forall i: nat ensures i in Get(kept, events[k].chain) <==> i in Carried(events, fragments, k) {
      if i < |fragments| { InContextStep(events, fragments[i], Preserved, k); }
    }
  }

  lemma AfterAppend(events: seq<Event>, fragments: seq<Fragment>, s: Scenario, k: nat,
                    before: map<Chain, set<nat>>, after: map<Chain, set<nat>>)
    requires k < |events| && AgreesAt(events, fragments, s, k, before)
    requires forall chain, i: nat {:trigger i in Get(after, chain)} :: i in Get(after, chain) <==>
      i in Get(before, chain) || (OnLine(fragments, events[k].line, i) && fragments[i].chain == chain)
    ensures Agrees(events, fragments, s, k + 1, after)
  {
    forall i: nat | i < |fragments|
      ensures InContext(events, fragments[i], s, k + 1) <==>
        OnLine(fragments, events[k].line, i) ||
        (InContext(events, fragments[i], s, k) && !Cuts(s, fragments[i], events[k]))
    {
      InContextStep(events, fragments[i], s, k);
    }
  }

  lemma UsageStep(events: seq<Event>, k: nat, was: map<(Chain, MessageId), Usage>, now: map<(Chain, MessageId), Usage>)
    requires k < |events| && UsageSoFar(events, k, was) && now == Noted(events[k], was)
    ensures UsageSoFar(events, k + 1, now)
  {
  }

  /** Compaction, then the request, then the event's own fragments: one event of the replay. */
  lemma ReplayStep(events: seq<Event>, fragments: seq<Fragment>, k: nat, was: Counts,
                   st: State, c: Counts, st': State, c': Counts, st'': State, c'': Counts, next: State)
    requires k < |events|
    requires was.Fit(|fragments|) && c.Fit(|fragments|) && c'.Fit(|fragments|) && c''.Fit(|fragments|)
    requires Replayed(events, fragments, k, st, was, c)
    requires Compacted(fragments, events[k], st, st', c, c')
    requires Observed(fragments, events[k], st', st'', c', c'')
    requires Appended(fragments, events[k], st'', next)
    ensures Replayed(events, fragments, k + 1, next, was, c'')
  {
    AfterCompact(events, fragments, k, st, st', c, c');
    SeenStep(events, k, st.seen);
    UsageStep(events, k, st.usage, next.usage);
    assert Fresh(events[k], st') <==> IsRequest(events, k);
    forall s: Scenario
      ensures Counted(events, fragments, s, k + 1, was.Of(s), c''.Of(s))
      ensures Agrees(events, fragments, s, k + 1, next.Context(s))
    {
      AfterObserve(events, fragments, s, k, st'.Context(s), was.Of(s), c.Of(s), c''.Of(s));
      AfterAppend(events, fragments, s, k, st''.Context(s), next.Context(s));
    }
    if IsRequest(events, k) { CarriedContext(events, fragments, k, st'.Context(Preserved)); }
    assert next.seen == st.seen + if events[k].message.Some? then {(events[k].chain, events[k].message.value)} else {};
  }

  /** The first malformed compaction among the first `k` events. */
  function FirstError(events: seq<Event>, k: nat): Option<Error>
    requires k <= |events|
  {
    if k == 0 then None
    else if FirstError(events, k - 1).Some? || !Malformed(events[k - 1]) then FirstError(events, k - 1)
    else if events[k - 1].compaction.value.NoMetadata? then Some(MissingMetadata(events[k - 1].line))
    else Some(MissingList(events[k - 1].line))
  }

  lemma {:induction false} FirstErrorStays(events: seq<Event>, k: nat)
    requires k <= |events| && FirstError(events, k).Some?
    ensures FirstError(events, |events|) == FirstError(events, k)
    decreases |events| - k
  {
    if k < |events| { FirstErrorStays(events, k + 1); }
  }

  /** The replay fails iff some compaction lacks its list of preserved messages. */
  lemma {:induction false} FailsWhenMalformed(events: seq<Event>, k: nat)
    requires k <= |events|
    ensures FirstError(events, k).Some? <==> exists j :: 0 <= j < k && Malformed(events[j])
  {
    if k > 0 { FailsWhenMalformed(events, k - 1); }
  }

  lemma NothingYet(events: seq<Event>, fragments: seq<Fragment>)
    ensures forall s: Scenario :: Agrees(events, fragments, s, 0, map[])
    ensures forall i, s: Scenario :: 0 <= i < |fragments| ==> Reads(events, fragments[i], s, 0) == 0
    ensures forall i :: 0 <= i < |fragments| ==> Passes(events, fragments[i], 0) == 0
  {
    forall i, s: Scenario | 0 <= i < |fragments| ensures Reads(events, fragments[i], s, 0) == 0 {
      assert Readers(events, fragments[i], s, 0) == {};
    }
    forall i | 0 <= i < |fragments| ensures Passes(events, fragments[i], 0) == 0 {
      assert Among(PassedBy(events, fragments[i]), 0) == {};
    }
  }

  /** The compaction part of one event: only what it keeps stays in the chain's context, nothing
      stays under the reset rule, and every fragment that was in context has passed through it. */
  method Compact(fragments: seq<Fragment>, event: Event, st: State, passes: array<nat>, ghost c: Counts)
    returns (st': State)
    requires !Malformed(event) && passes.Length == |fragments| && c.Fit(|fragments|) && c.passes == passes[..]
    requires AllPlaced(fragments, st)
    modifies passes
    ensures Compacted(fragments, event, st, st', c, c.(passes := passes[..]))
  {
    st' := st;
    if event.compaction.Some? {
      var before, uuids := Get(st.kept, event.chain), event.compaction.value.uuids;
      var _ := CountEach(fragments, before, passes);
      var after := set i | i in before && fragments[i].uuid in uuids;
      st' := st.(kept := st.kept[event.chain := after], recent := st.recent[event.chain := {}]);
      CompactedContexts(fragments, event, st, after, st');
    }
  }

  lemma CompactedContexts(fragments: seq<Fragment>, e: Event, st: State, after: set<nat>, st': State)
    requires e.compaction.Some? && e.compaction.value.Keep?
    requires forall i :: i in after <==>
      i in Get(st.kept, e.chain) && i < |fragments| && fragments[i].uuid in e.compaction.value.uuids
    requires AllPlaced(fragments, st)
    requires st' == st.(kept := st.kept[e.chain := after], recent := st.recent[e.chain := {}])
    ensures forall s: Scenario, chain, i: nat {:trigger i in Get(st'.Context(s), chain)} ::
      i in Get(st'.Context(s), chain) <==>
        i in Get(st.Context(s), chain) && i < |fragments| && !Cuts(s, fragments[i], e)
  {
    forall s: Scenario, chain, i: nat
      ensures i in Get(st'.Context(s), chain) <==>
        i in Get(st.Context(s), chain) && i < |fragments| && !Cuts(s, fragments[i], e)
    {
      match s
      case Preserved =>
        if chain != e.chain { assert Get(st'.kept, chain) == Get(st.kept, chain); }
      case Reset =>
        if chain != e.chain { assert Get(st'.recent, chain) == Get(st.recent, chain); }
      case Ignore =>
    }
  }

  /** One read, under each rule, of everything in a chain's context. */
  method ReadContexts(fragments: seq<Fragment>, chain: Chain, st: State,
                      preserved: array<nat>, reset: array<nat>, ignore: array<nat>) returns (footprint: nat)
    requires AllPlaced(fragments, st)
    requires preserved.Length == reset.Length == ignore.Length == |fragments|
    requires preserved != reset && preserved != ignore && reset != ignore
    modifies preserved, reset, ignore
    ensures Bumped(old(preserved[..]), preserved[..], Get(st.kept, chain))
    ensures Bumped(old(reset[..]), reset[..], Get(st.recent, chain))
    ensures Bumped(old(ignore[..]), ignore[..], Get(st.all, chain))
    ensures footprint == TokensOf(fragments, Get(st.kept, chain), |fragments|)
  {
    footprint := CountEach(fragments, Get(st.kept, chain), preserved);
    var _ := CountEach(fragments, Get(st.recent, chain), reset);
    var _ := CountEach(fragments, Get(st.all, chain), ignore);
  }

  /** The request part of one event: the first event of a response reads its chain's context once; every
      event replaces the response's usage snapshot by its own. */
  method Observe(fragments: seq<Fragment>, event: Event, st: State,
                 preserved: array<nat>, reset: array<nat>, ignore: array<nat>, ghost c: Counts)
    returns (st': State)
    requires AllPlaced(fragments, st) && c.Fit(|fragments|)
    requires preserved.Length == reset.Length == ignore.Length == |fragments|
    requires preserved != reset && preserved != ignore && reset != ignore
    requires c.preserved == preserved[..] && c.reset == reset[..] && c.ignore == ignore[..]
    modifies preserved, reset, ignore
    ensures Observed(fragments, event, st, st', c, Counts(preserved[..], reset[..], ignore[..], c.passes))
  {
    st' := st;
    if event.message.Some? && (event.chain, event.message.value) !in st.seen {
      var footprint := ReadContexts(fragments, event.chain, st, preserved, reset, ignore);
      var request := Request(event.chain, event.message.value, event.line, footprint);
      st' := st.(seen := st.seen + {(event.chain, event.message.value)}, requests := st.requests + [request]);
    }
    if event.message.Some? && event.usage.Some? {
      st' := st'.(usage := st'.usage[(event.chain, event.message.value) := event.usage.value]);
    }
  }

  /** The last part of one event: its own fragments join the contexts of their chains. */
  method AppendAll(fragments: seq<Fragment>, event: Event, byLine: map<nat, seq<nat>>, st: State) returns (st': State)
    requires forall line :: line in byLine ==> forall i: nat :: i in byLine[line] <==> OnLine(fragments, line, i)
    requires forall line: nat, i: nat :: OnLine(fragments, line, i) ==> line in byLine
    ensures Appended(fragments, event, st, st')
  {
    var added := if event.line in byLine then byLine[event.line] else [];
    assert forall i: nat :: i in added <==> OnLine(fragments, event.line, i);
    var kept := Append(fragments, added, st.kept);
    var recent := Append(fragments, added, st.recent);
    var all := Append(fragments, added, st.all);
    st' := st.(kept := kept, recent := recent, all := all);
    assert forall i: nat :: i in added ==> i < |fragments|;
    AppendedContexts(fragments, event, st, st');
  }

  lemma AppendedContexts(fragments: seq<Fragment>, e: Event, st: State, st': State)
    requires forall chain, i: nat {:trigger i in Get(st'.kept, chain)} :: i in Get(st'.kept, chain) <==>
      i in Get(st.kept, chain) || (OnLine(fragments, e.line, i) && fragments[i].chain == chain)
    requires forall chain, i: nat {:trigger i in Get(st'.recent, chain)} :: i in Get(st'.recent, chain) <==>
      i in Get(st.recent, chain) || (OnLine(fragments, e.line, i) && fragments[i].chain == chain)
    requires forall chain, i: nat {:trigger i in Get(st'.all, chain)} :: i in Get(st'.all, chain) <==>
      i in Get(st.all, chain) || (OnLine(fragments, e.line, i) && fragments[i].chain == chain)
    requires st'.seen == st.seen && st'.requests == st.requests && st'.usage == st.usage
    ensures Appended(fragments, e, st, st')
  {
    forall s: Scenario, chain, i: nat
      ensures i in Get(st'.Context(s), chain) <==>
        i in Get(st.Context(s), chain) || (OnLine(fragments, e.line, i) && fragments[i].chain == chain)
    {
      match s
      case Preserved => assert st'.Context(s) == st'.kept && st.Context(s) == st.kept;
      case Reset => assert st'.Context(s) == st'.recent && st.Context(s) == st.recent;
      case Ignore => assert st'.Context(s) == st'.all && st.Context(s) == st.all;
    }
  }

  lemma ReplayedPlaced(events: seq<Event>, fragments: seq<Fragment>, k: nat, st: State, was: Counts, now: Counts)
    requires k <= |events| && was.Fit(|fragments|) && now.Fit(|fragments|)
    requires Replayed(events, fragments, k, st, was, now)
    ensures AllPlaced(fragments, st)
  {
    assert Agrees(events, fragments, Preserved, k, st.Context(Preserved));
    assert Agrees(events, fragments, Reset, k, st.Context(Reset));
    assert Agrees(events, fragments, Ignore, k, st.Context(Ignore));
  }

  lemma CompactedPlaced(fragments: seq<Fragment>, e: Event, st: State, st': State, c: Counts, c': Counts)
    requires c.Fit(|fragments|) && c'.Fit(|fragments|)
    requires AllPlaced(fragments, st) && Compacted(fragments, e, st, st', c, c')
    ensures AllPlaced(fragments, st')
  {
    forall chain, i: nat
      ensures i in Get(st'.kept, chain) ==> i in Get(st.kept, chain)
      ensures i in Get(st'.recent, chain) ==> i in Get(st.recent, chain)
      ensures i in Get(st'.all, chain) ==> i in Get(st.all, chain)
    {
      assert i in Get(st'.Context(Preserved), chain) ==> i in Get(st.Context(Preserved), chain);
      assert i in Get(st'.Context(Reset), chain) ==> i in Get(st.Context(Reset), chain);
      assert i in Get(st'.Context(Ignore), chain) ==> i in Get(st.Context(Ignore), chain);
    }
  }

  lemma NothingReplayed(events: seq<Event>, fragments: seq<Fragment>, was: Counts)
    requires was.Fit(|fragments|)
    ensures Replayed(events, fragments, 0, State(map[], map[], map[], {}, [], map[]), was, was)
  {
    NothingYet(events, fragments);
  }

  /** Replays the trace, adding to each rule's counters and to the compaction passes in place. It
      fails at the first compaction without a list of preserved messages. */
  method Replay(events: seq<Event>, fragments: seq<Fragment>,
                preserved: array<nat>, reset: array<nat>, ignore: array<nat>, passes: array<nat>)
    returns (error: Option<Error>, st: State)
    requires preserved.Length == reset.Length == ignore.Length == passes.Length == |fragments|
    requires preserved != reset && preserved != ignore && reset != ignore
    requires passes != preserved && passes != reset && passes != ignore
    modifies preserved, reset, ignore, passes
    ensures error == FirstError(events, |events|)
    ensures error.None? ==>
      Replayed(events, fragments, |events|, st,
               old(Counts(preserved[..], reset[..], ignore[..], passes[..])),
               Counts(preserved[..], reset[..], ignore[..], passes[..]))
  {
    ghost var was := Counts(preserved[..], reset[..], ignore[..], passes[..]);
    var byLine := IndexByLine(fragments);
    error, st := None, State(map[], map[], map[], {}, [], map[]);
    NothingReplayed(events, fragments, was);
    var k: nat := 0;
    while k < |events|
      invariant k <= |events| && FirstError(events, k) == None
      invariant Replayed(events, fragments, k, st, was, Counts(preserved[..], reset[..], ignore[..], passes[..]))
    {
      if Malformed(events[k]) {
        FirstErrorStays(events, k + 1);
        var line := events[k].line;
        return Some(if events[k].compaction.value.NoMetadata? then MissingMetadata(line) else MissingList(line)), st;
      }
      ghost var c, before := Counts(preserved[..], reset[..], ignore[..], passes[..]), st;
      ReplayedPlaced(events, fragments, k, st, was, c);
      st := Compact(fragments, events[k], st, passes, c);
      ghost var c', compacted := Counts(preserved[..], reset[..], ignore[..], passes[..]), st;
      CompactedPlaced(fragments, events[k], before, st, c, c');
      st := Observe(fragments, events[k], st, preserved, reset, ignore, c');
      ghost var c'', observed := Counts(preserved[..], reset[..], ignore[..], passes[..]), st;
      st := AppendAll(fragments, events[k], byLine, st);
      ReplayStep(events, fragments, k, was, before, c, compacted, c', observed, c'', st);
      k := k + 1;
    }
  }

  // ---- Consequences -----------------------------------------------------------------------

  /** A request that reads a fragment under a stricter rule reads it under a laxer one. */
  lemma RulesNest(events: seq<Event>, f: Fragment, k: nat)
    requires k <= |events|
    ensures Readers(events, f, Reset, k) <= Readers(events, f, Preserved, k) <= Readers(events, f, Ignore, k)
    ensures Reads(events, f, Reset, k) <= Reads(events, f, Preserved, k) <= Reads(events, f, Ignore, k)
  {
    forall j | 0 <= j < k
      ensures Carries(events, f, Reset, j) ==> Carries(events, f, Preserved, j)
      ensures Carries(events, f, Preserved, j) ==> Carries(events, f, Ignore, j)
    {
      if Carries(events, f, Reset, j) {
        var b :| 0 <= b < j && events[b].line == f.line && forall c :: b < c <= j ==> !Cuts(Reset, f, events[c]);
        assert forall c :: b < c <= j ==> !Cuts(Preserved, f, events[c]);
      }
      if Carries(events, f, Preserved, j) {
        var b :| 0 <= b < j && events[b].line == f.line && forall c :: b < c <= j ==> !Cuts(Preserved, f, events[c]);
        assert forall c :: b < c <= j ==> !Cuts(Ignore, f, events[c]);
      }
    }
    Smaller(Readers(events, f, Reset, k), Readers(events, f, Preserved, k));
    Smaller(Readers(events, f, Preserved, k), Readers(events, f, Ignore, k));
  }

  lemma {:induction false} Smaller(s: set<nat>, t: set<nat>)
    requires s <= t
    ensures |s| <= |t|
  {
    if s != {} {
      var x: nat :| x in s;
      Smaller(s - {x}, t - {x});
    }
  }

  /** The report's total under one rule: input of every read, plus one generation of each command. */
  function Total(events: seq<Event>, fragments: seq<Fragment>, s: Scenario, n: nat): nat
    requires n <= |fragments|
  {
    if n == 0 then 0
    else
      var f := fragments[n - 1];
      Total(events, fragments, s, n - 1) + f.tokens * Reads(events, f, s, |events|) + if f.command then f.tokens else 0
  }

  /** The assertion at the end of the measurement: the three totals nest for every trace. */
  lemma {:induction false} TotalsNest(events: seq<Event>, fragments: seq<Fragment>, n: nat)
    requires n <= |fragments|
    ensures Total(events, fragments, Reset, n) <= Total(events, fragments, Preserved, n)
    ensures Total(events, fragments, Preserved, n) <= Total(events, fragments, Ignore, n)
  {
    if n > 0 {
      TotalsNest(events, fragments, n - 1);
      var f := fragments[n - 1];
      RulesNest(events, f, |events|);
      Times(f.tokens, Reads(events, f, Reset, |events|), Reads(events, f, Preserved, |events|));
      Times(f.tokens, Reads(events, f, Preserved, |events|), Reads(events, f, Ignore, |events|));
    }
  }

  lemma Times(t: nat, a: nat, b: nat)
    requires a <= b
    ensures t * a <= t * b
  {
  }

  /** The error is that of the first malformed compaction, by its kind and line. */
  lemma {:induction false} FirstErrorMeans(events: seq<Event>, k: nat) returns (j: nat)
    requires k <= |events| && FirstError(events, k).Some?
    ensures j < k && Malformed(events[j]) && forall i :: 0 <= i < j ==> !Malformed(events[i])
    ensures events[j].compaction == Some(NoMetadata) ==> FirstError(events, k) == Some(MissingMetadata(events[j].line))
    ensures events[j].compaction == Some(NoList) ==> FirstError(events, k) == Some(MissingList(events[j].line))
  {
    if FirstError(events, k - 1).Some? {
      j := FirstErrorMeans(events, k - 1);
    } else {
      j := k - 1;
      FailsWhenMalformed(events, k - 1);
    }
  }

  /** A total is the input of every read, tokens times reads, plus the tokens of the commands, each
      generated once. */
  lemma {:induction false} TotalMeans(events: seq<Event>, fragments: seq<Fragment>, s: Scenario, n: nat)
    requires n <= |fragments|
    ensures Total(events, fragments, s, n)
         == Weighted(fragments, ReadCounts(events, fragments, s, |events|), n)
            + TokensOf(fragments, (set i: nat | i < |fragments| && fragments[i].command), n)
  {
    if n > 0 { TotalMeans(events, fragments, s, n - 1); }
  }

  /** The request list has one entry for each first event of a response, in order ... */
  lemma {:induction false} RequestCount(events: seq<Event>, fragments: seq<Fragment>, k: nat)
    requires k <= |events|
    ensures |RequestList(events, fragments, k)| == |set j: nat | j < k && IsRequest(events, j)|
  {
    var all := set j: nat | j < k && IsRequest(events, j);
    if k == 0 {
      assert all == {};
    } else {
      RequestCount(events, fragments, k - 1);
      var js := set j: nat | j < k - 1 && IsRequest(events, j);
      assert all == if IsRequest(events, k - 1) then js + {k - 1} else js;
    }
  }

  /** ... with its chain, response and line, and the tokens of the fragments it carries. */
  lemma {:induction false} RequestEntry(events: seq<Event>, fragments: seq<Fragment>, j: nat, k: nat)
    requires j < k <= |events| && IsRequest(events, j)
    ensures
      var i, carried := |RequestList(events, fragments, j)|,
                        (set n | 0 <= n < |fragments| && Carries(events, fragments[n], Preserved, j));
      && i < |RequestList(events, fragments, k)|
      && RequestList(events, fragments, k)[i].chain == events[j].chain
      && Some(RequestList(events, fragments, k)[i].message) == events[j].message
      && RequestList(events, fragments, k)[i].line == events[j].line
      && RequestList(events, fragments, k)[i].footprint == TokensOf(fragments, carried, |fragments|)
    decreases k
  {
    if j < k - 1 { RequestEntry(events, fragments, j, k - 1); }
  }
}
