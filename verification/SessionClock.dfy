/** Active-time accounting of one Session (`session_clock.py`): one state file, one state lock and
    one lease lock per Runtime request. The file operations are given as functions and as the methods
    of a class; `ClockRuns` puts them into a state machine over every interleaving. */
module SessionClock {
  import opened Wrappers

  type Call = nat       // a request's random identity, also the name of its lease
  type SessionId = nat

  /** The contents of the state file. Time is counted in whole clock ticks. */
  datatype File = File(session: SessionId, waited: int, paused: Option<int>, calls: seq<Call>)

  function Max(a: int, b: int): int { if a < b then b else a }

  function Started(session: SessionId): File { File(session, 0, None, []) }

  /** The calls whose lease was still held when it was probed; `held[i]` is the set of leases held
      at the moment the i-th call's lease is probed. */
  function Live(calls: seq<Call>, held: seq<set<Call>>): seq<Call>
    requires |calls| <= |held|
  {
    if calls == [] then []
    else
      var last := |calls| - 1;
      Live(calls[..last], held) + if calls[last] in held[last] then [calls[last]] else []
  }

  /** Closing the current pause at `t`. */
  function Unpause(f: File, t: int): File
    requires f.paused.Some?
  {
    f.(waited := f.waited + Max(0, t - f.paused.value), paused := None)
  }

  function Reaped(f: File, live: seq<Call>, t: int): File {
    if live == f.calls then f
    else if live == [] && f.paused.Some? then Unpause(f.(calls := live), t)
    else f.(calls := live)
  }

  function Reading(f: File, t: int): int {
    (if f.paused.None? then t else f.paused.value) - f.waited
  }

  /** Recording a new call after the reap; `t` is the second clock reading, made only when no call
      is left. */
  function Recorded(f: File, call: Call, t: int): File {
    f.(calls := f.calls + [call], paused := if f.calls == [] then Some(t) else f.paused)
  }

  function Remove(calls: seq<Call>, call: Call): seq<Call>
    requires call in calls
  {
    if calls[0] == call then calls[1..] else [calls[0]] + Remove(calls[1..], call)
  }

  /** The last recorded call completes on a file without a pause start: the subtraction raises. */
  predicate NoPauseStart(f: File, session: SessionId, call: Call) {
    f.session == session && call in f.calls && Remove(f.calls, call) == [] && f.paused.None?
  }

  /** The `finally` part of a call that was recorded under `session`; raising writes nothing. */
  function Completed(f: File, session: SessionId, call: Call, t: int): File {
    if f.session != session || call !in f.calls || NoPauseStart(f, session, call) then f
    else
      var rest := f.(calls := Remove(f.calls, call));
      if rest.calls == [] then Unpause(rest, t) else rest
  }

  /** A pause counts what the clock advanced in it, and nothing if the clock went back. */
  lemma ReapMeans(f: File, live: seq<Call>, t: int)
    ensures
      var after, ends := Reaped(f, live, t), live != f.calls && live == [] && f.paused.Some?;
      && after.session == f.session && after.calls == live
      && (if ends then after.paused == None else after.paused == f.paused)
      && (ends && t > f.paused.value ==> after.waited - f.waited == t - f.paused.value)
      && (!ends || t <= f.paused.value ==> after.waited == f.waited)
  {
  }

  /** A completion removes its own call, if the session is still the one it was recorded under; the last
      one ends the pause. */
  lemma CompletedMeans(f: File, session: SessionId, call: Call, t: int)
    requires Distinct(f.calls) && (f.calls != [] ==> f.paused.Some?)
    ensures
      var after, own := Completed(f, session, call, t), f.session == session && call in f.calls;
      && after.session == f.session && (!own ==> after == f)
      && (own ==> forall c :: c in after.calls <==> c in f.calls && c != call)
      && (own && |f.calls| > 1 ==> after.paused == f.paused && after.waited == f.waited)
      && (own && |f.calls| == 1 ==>
            && after.paused == None
            && after.waited - f.waited == if t > f.paused.value then t - f.paused.value else 0)
  {
    if call in f.calls { RemoveExactly(f.calls, call); }
  }

  /** The state file. Every method below runs under the state lock; lease probes and clock readings
      are parameters. */
  class Clock {
    var session: SessionId
    var waited: int
    var paused: Option<int>
    var calls: seq<Call>

    function Contents(): File reads this { File(session, waited, paused, calls) }

    constructor (launch: SessionId)
      ensures Contents() == Started(launch)
    {
      session, waited, paused, calls := launch, 0, None, [];
    }

    method Write(state: File)
      modifies this
      ensures Contents() == state
    {
      session, waited, paused, calls := state.session, state.waited, state.paused, state.calls;
    }

    method Start(launch: SessionId)
      modifies this
      ensures Contents() == Started(launch)
    {
      Write(File(launch, 0, None, []));
    }

    /** Drops the calls whose lease is free, on a copy of the file's contents. */
    static method Reap(state: File, now: int, held: seq<set<Call>>) returns (after: File, changed: bool)
      requires |held| == |state.calls|
      ensures after == Reaped(state, Live(state.calls, held), now)
      ensures changed <==> after.calls != state.calls
    {
      var live: seq<Call>, i := [], 0;
      while i < |state.calls|
        invariant 0 <= i <= |state.calls|
        invariant live == Live(state.calls[..i], held)
      {
        assert state.calls[..i + 1][..i] == state.calls[..i];
        if state.calls[i] in held[i] {
          live := live + [state.calls[i]];
        }
        i := i + 1;
      }
      assert state.calls[..i] == state.calls;
      if live == state.calls {
        return state, false;
      }
      after, changed := state.(calls := live), true;
      if live == [] && state.paused.Some? {
        after := after.(waited := state.waited + Max(0, now - state.paused.value), paused := None);
      }
    }

    method Now(now: int, held: seq<set<Call>>) returns (active: int)
      requires |held| == |calls|
      modifies this
      ensures Contents() == Reaped(old(Contents()), Live(old(calls), held), now)
      ensures active == Reading(Contents(), now)
    {
      var state, changed := Reap(Contents(), now, held);
      if changed {
        Write(state);
      }
      active := (if state.paused.None? then now else state.paused.value) - state.waited;
    }

    /** The first half of `waiting`: reap with one reading of the clock, then record the call with
        another. */
    method Enter(call: Call, first: int, second: int, held: seq<set<Call>>) returns (entered: SessionId)
      requires |held| == |calls|
      modifies this
      ensures Contents() == Recorded(Reaped(old(Contents()), Live(old(calls), held), first), call, second)
      ensures entered == old(session)
    {
      var state, _ := Reap(Contents(), first, held);
      entered := state.session;
      if state.calls == [] {
        state := state.(paused := Some(second));
      }
      state := state.(calls := state.calls + [call]);
      Write(state);
    }

    /** The second half of `waiting`. */
    method Leave(call: Call, entered: SessionId, now: int) returns (raised: bool)
      modifies this
      ensures Contents() == Completed(old(Contents()), entered, call, now)
      ensures raised <==> old(NoPauseStart(Contents(), entered, call))
    {
      raised := false;
      if session == entered && call in calls {
        var state := Contents();
        state := state.(calls := Remove(state.calls, call));
        if state.calls == [] {
          if state.paused.None? {
            return true;
          }
          state := state.(waited := state.waited + Max(0, now - state.paused.value), paused := None);
        }
        Write(state);
      }
    }
  }

  predicate Distinct(s: seq<Call>) { forall i, j :: 0 <= i < j < |s| ==> s[i] != s[j] }

  /** A reap keeps exactly the calls found holding their lease, in their order. */
  lemma {:induction false} LiveExactly(calls: seq<Call>, held: seq<set<Call>>)
    requires |calls| <= |held| && Distinct(calls)
    ensures Distinct(Live(calls, held))
    ensures forall i :: 0 <= i < |calls| ==> (calls[i] in Live(calls, held) <==> calls[i] in held[i])
    ensures forall c :: c in Live(calls, held) ==> c in calls
  {
    if calls != [] {
      var last := |calls| - 1;
      LiveExactly(calls[..last], held);
      assert calls == calls[..last] + [calls[last]];
      assert calls[last] !in calls[..last];
      forall i | 0 <= i < last ensures calls[i] in Live(calls, held) <==> calls[i] in held[i] {
        assert calls[..last][i] == calls[i];
      }
    }
  }

  lemma {:induction false} NoneLive(calls: seq<Call>, held: seq<set<Call>>)
    requires |calls| <= |held| && forall i :: 0 <= i < |calls| ==> calls[i] !in held[i]
    ensures Live(calls, held) == []
  {
    if calls != [] { NoneLive(calls[..|calls| - 1], held); }
  }

  lemma {:induction false} RemoveExactly(calls: seq<Call>, call: Call)
    requires Distinct(calls) && call in calls
    ensures Distinct(Remove(calls, call)) && |Remove(calls, call)| == |calls| - 1
    ensures forall c :: c in Remove(calls, call) <==> c in calls && c != call
  {
    var rest := calls[1..];
    assert calls == [calls[0]] + rest;
    assert calls[0] !in rest;
    if calls[0] != call {
      RemoveExactly(rest, call);
      var kept := Remove(rest, call);
      forall i, j | 0 <= i < j < |kept| + 1 ensures ([calls[0]] + kept)[i] != ([calls[0]] + kept)[j] {
        assert kept[j - 1] in rest;
      }
    }
  }
}

/** Every interleaving of callers, readers, launches, crashes and the clock. */
module ClockRuns {
  import opened Wrappers
  import opened SessionClock

  datatype Interval = Interval(since: int, until: Option<int>)

  type History = map<Call, Interval>

  predicate Covers(i: Interval, x: int) { i.since <= x && (i.until.Some? ==> x < i.until.value) }

  /** Some call of the session was in progress during tick `x`. */
  predicate Covered(h: History, x: int) { exists c :: c in h && Covers(h[c], x) }

  function Ticks(h: History, a: int, b: int): set<int> { set x | a <= x < b && Covered(h, x) }

  /** The measure of the union of the call intervals within `[a, b)`. */
  function Measure(h: History, a: int, b: int): nat { |Ticks(h, a, b)| }

  lemma MeasureSplit(h: History, a: int, b: int, c: int)
    requires a <= b <= c
    ensures Measure(h, a, c) == Measure(h, a, b) + Measure(h, b, c)
  {
    assert Ticks(h, a, c) == Ticks(h, a, b) + Ticks(h, b, c);
    assert Ticks(h, a, b) !! Ticks(h, b, c);
  }

  lemma MeasureSame(h: History, h': History, a: int, b: int)
    requires forall x :: a <= x < b ==> (Covered(h, x) <==> Covered(h', x))
    ensures Measure(h, a, b) == Measure(h', a, b)
  {
    assert Ticks(h, a, b) == Ticks(h', a, b);
  }

  lemma MeasureNone(h: History, a: int, b: int)
    requires forall x :: a <= x < b ==> !Covered(h, x)
    ensures Measure(h, a, b) == 0
  {
    assert Ticks(h, a, b) == {};
  }

  lemma {:induction false} MeasureAll(h: History, a: int, b: int)
    requires a <= b
    requires forall x :: a <= x < b ==> Covered(h, x)
    ensures Measure(h, a, b) == b - a
    decreases b - a
  {
    if a < b {
      MeasureAll(h, a, b - 1);
      assert Ticks(h, a, b) == Ticks(h, a, b - 1) + {b - 1};
    } else {
      assert Ticks(h, a, b) == {};
    }
  }

  lemma {:induction false} MeasureAtMost(h: History, a: int, b: int)
    requires a <= b
    ensures Measure(h, a, b) <= b - a
    decreases b - a
  {
    if a < b {
      MeasureAtMost(h, a, b - 1);
      assert Ticks(h, a, b) == Ticks(h, a, b - 1) + if Covered(h, b - 1) then {b - 1} else {};
    } else {
      assert Ticks(h, a, b) == {};
    }
  }

  /** Where a call is in its own program: it has its lease, is inside the first critical section, is
      being served, or has completed. */
  datatype Phase = Leased | Entering | Inside(session: SessionId) | Left

  /** Who holds the state lock across lease probes: nobody; or a reader (`None`) or an entering
      call, with its clock reading and the leases held at each probe so far. */
  datatype Section = Idle | Scanning(who: Option<Call>, first: int, seen: seq<set<Call>>)

  datatype World = World(
    file: File, clock: int, held: set<Call>, phase: map<Call, Phase>, section: Section,
    sessions: set<SessionId>, history: History, base: int)
  {
    /** Up to here the history can no longer change. */
    function Horizon(): int { if section.Idle? then clock else section.first }
  }

  /** Ends the interval of every call missing from `live`. */
  function CloseDead(h: History, live: seq<Call>, t: int): History {
    map c | c in h :: if h[c].until.None? && c !in live then Interval(h[c].since, Some(t)) else h[c]
  }

  function Survivors(w: World): seq<Call>
    requires w.section.Scanning? && |w.section.seen| == |w.file.calls|
  {
    Live(w.file.calls, w.section.seen)
  }

  function AfterReap(w: World): World
    requires w.section.Scanning? && |w.section.seen| == |w.file.calls|
  {
    w.(file := Reaped(w.file, Survivors(w), w.section.first),
       history := CloseDead(w.history, Survivors(w), w.section.first),
       section := Idle)
  }

  datatype Step =
    | Tick(ticks: nat)                       // time passes
    | Launch(session: SessionId)             // start() of a new session
    | TakeLease(call: Call)
    | BeginScan(who: Option<Call>)           // take the state lock, read the file and the clock
    | Probe                                  // test the next call's lease
    | FinishNow                              // write back and return the reading
    | FinishEnter(call: Call)                // second clock reading, write back
    | Leave(call: Call)
    | Release(call: Call)
    | Crash(call: Call)                      // the kernel drops the lease, and the state lock if held
    | CrashReader

  predicate Enabled(w: World, s: Step) {
    match s
    case Tick(_) => true
    case Launch(id) => w.section.Idle? && id !in w.sessions
    case TakeLease(c) => c !in w.phase
    case BeginScan(None) => w.section.Idle?
    case BeginScan(Some(c)) => w.section.Idle? && c in w.held && c in w.phase && w.phase[c] == Leased
    case Probe => w.section.Scanning? && |w.section.seen| < |w.file.calls|
    case FinishNow => w.section.Scanning? && |w.section.seen| == |w.file.calls| && w.section.who == None
    case FinishEnter(c) =>
      w.section.Scanning? && |w.section.seen| == |w.file.calls| && w.section.who == Some(c) && c in w.phase
    case Leave(c) => w.section.Idle? && c in w.held && c in w.phase && w.phase[c].Inside?
    case Release(c) => c in w.held && c in w.phase && w.phase[c] in {Leased, Left}
    case Crash(c) => c in w.held
    case CrashReader => w.section.Scanning? && w.section.who == None
  }

  function Do(w: World, s: Step): World
    requires Enabled(w, s)
  {
    match s
    case Tick(n) => w.(clock := w.clock + n)
    case Launch(id) =>
      w.(file := Started(id), sessions := w.sessions + {id}, history := map[], base := w.clock)
    case TakeLease(c) => w.(held := w.held + {c}, phase := w.phase[c := Leased])
    case BeginScan(None) => w.(section := Scanning(None, w.clock, []))
    case BeginScan(Some(c)) => w.(section := Scanning(Some(c), w.clock, []), phase := w.phase[c := Entering])
    case Probe => w.(section := w.section.(seen := w.section.seen + [w.held]))
    case FinishNow => AfterReap(w)
    case FinishEnter(c) =>
      var r := AfterReap(w);
      r.(file := Recorded(r.file, c, w.clock), phase := w.phase[c := Inside(w.file.session)],
         history := r.history[c := Interval(w.clock, None)])
    case Leave(c) =>
      var done := Completed(w.file, w.phase[c].session, c, w.clock);
      w.(file := done, phase := w.phase[c := Left],
         history := if done == w.file then w.history else CloseDead(w.history, done.calls, w.clock))
    case Release(c) => w.(held := w.held - {c})
    case Crash(c) =>
      w.(held := w.held - {c},
         section := if w.section.Scanning? && w.section.who == Some(c) then Idle else w.section)
    case CrashReader => w.(section := Idle)
  }

  predicate Init(w: World) {
    && w.file == Started(w.file.session) && w.sessions == {w.file.session}
    && w.held == {} && w.phase == map[] && w.section == Idle && w.history == map[] && w.base == w.clock
  }

  /** What the file charges the session with by time `t`: closed pauses and the running one. */
  function Charged(f: File, t: int): int { f.waited + if f.paused.Some? then t - f.paused.value else 0 }

  /** The file is paused exactly while calls are recorded, and a recorded call is an open interval. */
  ghost predicate FileOk(w: World) {
    && (w.file.paused.Some? <==> w.file.calls != [])
    && Distinct(w.file.calls)
    && (w.file.paused.Some? ==> w.file.paused.value <= w.Horizon())
    && (forall c :: c in w.file.calls ==> c in w.phase && w.phase[c] == Inside(w.file.session))
    && (forall c :: c in w.file.calls <==> c in w.history && w.history[c].until.None?)
  }

  ghost predicate HistoryOk(w: World) {
    && w.base <= w.Horizon() <= w.clock
    && (forall c :: c in w.history ==>
         && w.base <= w.history[c].since <= w.Horizon()
         && (w.history[c].until.Some? ==> w.history[c].until.value <= w.Horizon())
         && c in w.phase && !w.phase[c].Leased? && !w.phase[c].Entering?)
  }

  /** A caller that holds its lease while being served under the current session is recorded. */
  ghost predicate LiveRecorded(w: World) {
    forall c :: c in w.held && c in w.phase && w.phase[c] == Inside(w.file.session) ==> c in w.file.calls
  }

  /** A lease that is held now was held at its probe: leases are never taken back. */
  ghost predicate ScanOk(w: World) {
    w.section.Scanning? ==>
      && |w.section.seen| <= |w.file.calls|
      && (forall i :: 0 <= i < |w.section.seen| && w.file.calls[i] in w.held ==>
            w.file.calls[i] in w.section.seen[i])
      && (w.section.who.Some? ==> w.section.who.value in w.phase && w.phase[w.section.who.value] == Entering)
  }

  ghost predicate SessionsOk(w: World) {
    && w.file.session in w.sessions
    && (forall c :: c in w.phase && w.phase[c].Inside? ==> w.phase[c].session in w.sessions)
    && (forall c :: c in w.held ==> c in w.phase)
  }

  /** What the file charges is the measure of the union of the session's call intervals. */
  ghost predicate Exact(w: World) {
    forall t :: t >= w.Horizon() ==> Charged(w.file, t) == Measure(w.history, w.base, t)
  }

  ghost predicate Inv(w: World) {
    FileOk(w) && HistoryOk(w) && LiveRecorded(w) && ScanOk(w) && SessionsOk(w) && Exact(w)
  }

  /** If two histories agree from `base` up to `t` and the file accounts for the rest, the accounting
      stays exact. */
  lemma ExactFrom(h: History, f: File, base: int, t: int)
    requires base <= t && (f.paused.Some? ==> f.paused.value <= t)
    requires Charged(f, t) == Measure(h, base, t)
    requires f.paused.Some? ==> forall x :: t <= x ==> Covered(h, x)
    requires f.paused.None? ==> forall x :: t <= x ==> !Covered(h, x)
    ensures forall u :: u >= t ==> Charged(f, u) == Measure(h, base, u)
  {
    forall u | u >= t ensures Charged(f, u) == Measure(h, base, u) {
      MeasureSplit(h, base, t, u);
      if f.paused.Some? { MeasureAll(h, t, u); } else { MeasureNone(h, t, u); }
    }
  }

  /** Beyond the horizon a tick is covered iff a call is recorded. */
  lemma CoveredBeyond(w: World, x: int)
    requires FileOk(w) && HistoryOk(w) && x >= w.Horizon()
    ensures Covered(w.history, x) <==> w.file.calls != []
  {
    if w.file.calls != [] {
      assert w.file.calls[0] in w.file.calls;
      assert Covers(w.history[w.file.calls[0]], x);
    }
  }

  /** Closing intervals at the horizon changes nothing before it. */
  lemma ClosedBefore(h: History, live: seq<Call>, t: int, x: int)
    requires x < t
    ensures Covered(CloseDead(h, live, t), x) <==> Covered(h, x)
  {
    var d := CloseDead(h, live, t);
    forall c | c in h ensures Covers(d[c], x) <==> Covers(h[c], x) {}
  }

  /** A reap changes no tick before its reading of the clock, and leaves the later ones covered iff
      a call survives. */
  lemma ReapCoverage(w: World, x: int)
    requires FileOk(w) && HistoryOk(w) && w.section.Scanning? && |w.section.seen| == |w.file.calls|
    ensures x < w.section.first ==> (Covered(AfterReap(w).history, x) <==> Covered(w.history, x))
    ensures x >= w.section.first ==> (Covered(AfterReap(w).history, x) <==> Survivors(w) != [])
  {
    var h, live := AfterReap(w).history, Survivors(w);
    LiveExactly(w.file.calls, w.section.seen);
    if x < w.section.first {
      ClosedBefore(w.history, live, w.section.first, x);
    } else if live != [] {
      assert live[0] in live;
      assert Covers(h[live[0]], x);
    }
  }

  lemma ReapKeepsInv(w: World)
    requires Inv(w) && w.section.Scanning? && |w.section.seen| == |w.file.calls|
    ensures Inv(AfterReap(w))
  {
    var v, t, live := AfterReap(w), w.section.first, Survivors(w);
    LiveExactly(w.file.calls, w.section.seen);
    assert v.file.calls == live;
    assert FileOk(v);
    assert HistoryOk(v);
    assert LiveRecorded(v) by {
      forall c | c in w.file.calls && c in w.held ensures c in live {
        var i :| 0 <= i < |w.file.calls| && w.file.calls[i] == c;
      }
    }
    assert Exact(v) by {
      forall x ensures x < t ==> (Covered(v.history, x) <==> Covered(w.history, x))
               ensures x >= t ==> (Covered(v.history, x) <==> live != [])
      {
        ReapCoverage(w, x);
      }
      MeasureSame(w.history, v.history, w.base, t);
      assert Charged(w.file, t) == Measure(w.history, w.base, t);
      ExactFrom(v.history, v.file, w.base, t);
    }
  }

  /** A call that opens at `t` covers everything from `t` on. */
  lemma CoveredByNew(h: History, c: Call, t: int, x: int)
    requires c !in h
    ensures Covered(h[c := Interval(t, None)], x) <==> Covered(h, x) || x >= t
  {
    var g := h[c := Interval(t, None)];
    if x >= t { assert Covers(g[c], x); }
    if Covered(h, x) {
      var d :| d in h && Covers(h[d], x);
      assert Covers(g[d], x);
    }
  }

  lemma EnterKeepsInv(w: World, c: Call)
    requires Inv(w) && Enabled(w, FinishEnter(c))
    ensures Inv(Do(w, FinishEnter(c)))
  {
    var r, v, t := AfterReap(w), Do(w, FinishEnter(c)), w.clock;
    ReapKeepsInv(w);
    assert c !in r.file.calls && c !in r.history;
    assert forall d :: d in v.file.calls <==> d in r.file.calls || d == c;
    assert FileOk(v);
    assert HistoryOk(v);
    forall x ensures Covered(v.history, x) <==> Covered(r.history, x) || x >= t {
      CoveredByNew(r.history, c, t, x);
    }
    MeasureSame(r.history, v.history, w.base, t);
    assert Charged(r.file, t) == Measure(r.history, w.base, t);
    ExactFrom(v.history, v.file, w.base, t);
  }

  lemma LeaveKeepsInv(w: World, c: Call)
    requires Inv(w) && Enabled(w, Leave(c))
    ensures Inv(Do(w, Leave(c)))
  {
    var v, t := Do(w, Leave(c)), w.clock;
    if w.file.session == w.phase[c].session && c in w.file.calls {
      RemoveExactly(w.file.calls, c);
      assert v.file.calls == Remove(w.file.calls, c);
      assert FileOk(v);
      assert HistoryOk(v);
      forall x | x < t ensures Covered(v.history, x) <==> Covered(w.history, x) {
        ClosedBefore(w.history, v.file.calls, t, x);
      }
      MeasureSame(w.history, v.history, w.base, t);
      assert Charged(w.file, t) == Measure(w.history, w.base, t);
      forall x | x >= t ensures Covered(v.history, x) <==> v.file.calls != [] {
        CoveredBeyond(v, x);
      }
      ExactFrom(v.history, v.file, w.base, t);
    } else {
      assert v.file == w.file && v.history == w.history;
      assert FileOk(v);
    }
  }

  lemma LaunchKeepsInv(w: World, id: SessionId)
    requires Inv(w) && Enabled(w, Launch(id))
    ensures Inv(Do(w, Launch(id)))
  {
    var v := Do(w, Launch(id));
    forall t | t >= v.base ensures Measure(v.history, v.base, t) == 0 {
      MeasureNone(v.history, v.base, t);
    }
  }

  lemma StepKeepsInv(w: World, s: Step)
    requires Inv(w) && Enabled(w, s)
    ensures Inv(Do(w, s))
  {
    match s
    case FinishNow => ReapKeepsInv(w);
    case FinishEnter(c) => EnterKeepsInv(w, c);
    case Leave(c) => LeaveKeepsInv(w, c);
    case Launch(id) => LaunchKeepsInv(w, id);
    case _ => QuietStepKeepsInv(w, s);
  }

  /** The steps that write neither file nor history. */
  lemma QuietStepKeepsInv(w: World, s: Step)
    requires Inv(w) && Enabled(w, s)
    requires s.Tick? || s.TakeLease? || s.BeginScan? || s.Probe? || s.Release? || s.Crash? || s.CrashReader?
    ensures Inv(Do(w, s))
  {
    var v := Do(w, s);
    assert v.Horizon() >= w.Horizon();
    assert v.file == w.file && v.history == w.history && v.base == w.base;
    assert FileOk(v);
    assert HistoryOk(v);
    assert Exact(v);
  }

  ghost predicate IsRun(run: seq<World>, steps: seq<Step>) {
    && |run| == |steps| + 1
    && forall i :: 0 <= i < |steps| ==> Enabled(run[i], steps[i]) && run[i + 1] == Do(run[i], steps[i])
  }

  lemma {:induction false} RunKeepsInv(run: seq<World>, steps: seq<Step>, n: nat)
    requires IsRun(run, steps) && Init(run[0]) && n < |run|
    ensures Inv(run[n])
  {
    if n == 0 {
      forall t | t >= run[0].base ensures Measure(run[0].history, run[0].base, t) == 0 {
        MeasureNone(run[0].history, run[0].base, t);
      }
    } else {
      RunKeepsInv(run, steps, n - 1);
      StepKeepsInv(run[n - 1], steps[n - 1]);
    }
  }

  /** In every reachable state, crashes included: the file is paused exactly while calls are recorded,
      and every call still holding its lease and being served in this session is recorded. */
  lemma PausedWhileCalls(run: seq<World>, steps: seq<Step>, n: nat)
    requires IsRun(run, steps) && Init(run[0]) && n < |run|
    ensures run[n].file.paused.Some? <==> run[n].file.calls != []
    ensures LiveRecorded(run[n])
  {
    RunKeepsInv(run, steps, n);
  }

  /** The float that `now()` returns when the n-th step finishes it. */
  function Returned(w: World): int
    requires w.section.Scanning? && |w.section.seen| == |w.file.calls|
  {
    Reading(AfterReap(w).file, w.section.first)
  }

  /** In every interleaving `now()` is the clock minus the measure of the union of the session's call
      intervals, an interrupted call's interval ending when it is reaped. */
  lemma NowIsClockMinusWaiting(run: seq<World>, steps: seq<Step>, n: nat)
    requires IsRun(run, steps) && Init(run[0]) && n < |steps| && steps[n] == FinishNow
    ensures
      var w := run[n];
      Returned(w) == w.section.first - Measure(run[n + 1].history, w.base, w.section.first)
  {
    RunKeepsInv(run, steps, n);
    var w := run[n];
    var v, t := AfterReap(w), w.section.first;
    forall x | w.base <= x < t ensures Covered(v.history, x) <==> Covered(w.history, x) {
      ReapCoverage(w, x);
    }
    MeasureSame(w.history, v.history, w.base, t);
    assert Charged(w.file, t) == Measure(w.history, w.base, t);
    LiveExactly(w.file.calls, w.section.seen);
  }

  /** As long as no new session is launched, the past is never rewritten. */
  lemma StepKeepsPast(w: World, s: Step, x: int)
    requires Inv(w) && Enabled(w, s) && !s.Launch? && x < w.Horizon()
    ensures Do(w, s).base == w.base && Do(w, s).Horizon() >= w.Horizon()
    ensures Covered(Do(w, s).history, x) <==> Covered(w.history, x)
  {
    var v := Do(w, s);
    match s
    case FinishNow => ReapCoverage(w, x);
    case FinishEnter(c) =>
      ReapCoverage(w, x);
      assert c !in w.history;
      CoveredByNew(AfterReap(w).history, c, w.clock, x);
    case Leave(c) =>
      if v.file != w.file { ClosedBefore(w.history, v.file.calls, w.clock, x); }
    case _ =>
  }

  lemma {:induction false} RunKeepsPast(run: seq<World>, steps: seq<Step>, m: nat, n: nat, x: int)
    requires IsRun(run, steps) && Init(run[0]) && m <= n < |run| && x < run[m].Horizon()
    requires forall i :: m <= i < n ==> !steps[i].Launch?
    ensures run[n].base == run[m].base && run[n].Horizon() >= run[m].Horizon()
    ensures Covered(run[n].history, x) <==> Covered(run[m].history, x)
    decreases n
  {
    if m < n {
      RunKeepsPast(run, steps, m, n - 1, x);
      RunKeepsInv(run, steps, n - 1);
      StepKeepsPast(run[n - 1], steps[n - 1], x);
    }
  }

  /** A session that has been replaced never comes back. */
  lemma {:induction false} SessionGone(run: seq<World>, steps: seq<Step>, m: nat, n: nat, id: SessionId)
    requires IsRun(run, steps) && Init(run[0]) && m <= n < |run|
    requires id in run[m].sessions && run[m].file.session != id
    ensures id in run[n].sessions && run[n].file.session != id
    decreases n
  {
    if m < n { SessionGone(run, steps, m, n - 1, id); }
  }

  lemma SameSession(run: seq<World>, steps: seq<Step>, m: nat, n: nat)
    requires IsRun(run, steps) && Init(run[0]) && m <= n < |run|
    requires run[m].file.session == run[n].file.session
    ensures forall i :: m <= i < n ==> !steps[i].Launch?
    decreases n - m
  {
    if m < n {
      RunKeepsInv(run, steps, m);
      if run[m + 1].file.session != run[m].file.session {
        SessionGone(run, steps, m + 1, n, run[m].file.session);
        assert false;
      }
      SameSession(run, steps, m + 1, n);
    }
  }

  /** Two readings of one session, `m` before `n`, differ by no less than nothing and by no more
      than the clock: overlapping waits are charged once and nothing is charged twice. */
  lemma ReadingsAdvance(run: seq<World>, steps: seq<Step>, m: nat, n: nat)
    requires IsRun(run, steps) && Init(run[0]) && m < n < |steps|
    requires steps[m] == FinishNow && steps[n] == FinishNow
    requires run[m].file.session == run[n].file.session
    ensures 0 <= Returned(run[n]) - Returned(run[m]) <= run[n].section.first - run[m].section.first
  {
    SameSession(run, steps, m, n);
    NowIsClockMinusWaiting(run, steps, m);
    NowIsClockMinusWaiting(run, steps, n);
    RunKeepsInv(run, steps, m);
    RunKeepsInv(run, steps, n);
    var h, h', b := run[m + 1].history, run[n + 1].history, run[m].base;
    var t, t' := run[m].section.first, run[n].section.first;
    assert run[m + 1].Horizon() >= t;
    RunKeepsPast(run, steps, m + 1, n, t - 1);
    RunKeepsPast(run, steps, m, n, t - 1);
    forall x | b <= x < t ensures Covered(h, x) <==> Covered(h', x) {
      RunKeepsPast(run, steps, m + 1, n + 1, x);
    }
    MeasureSame(h, h', b, t);
    MeasureSplit(h', b, t, t');
    MeasureAtMost(h', t, t');
  }

  lemma {:induction false} DeadStayDead(run: seq<World>, steps: seq<Step>, m: nat, n: nat, c: Call)
    requires IsRun(run, steps) && m <= n < |run|
    requires c in run[m].phase && c !in run[m].held
    ensures c in run[n].phase && c !in run[n].held
    decreases n
  {
    if m < n { DeadStayDead(run, steps, m, n - 1, c); }
  }

  /** During one scan no probe finds the lease of a call that was dead when the scan began. */
  lemma {:induction false} DeadNotSeen(run: seq<World>, steps: seq<Step>, m: nat, n: nat, c: Call)
    requires IsRun(run, steps) && m < n < |run| && steps[m].BeginScan?
    requires forall i :: m < i <= n ==> run[i].section.Scanning?
    requires c in run[m].phase && c !in run[m].held
    ensures run[n].file == run[m].file && run[n].section.first == run[m].clock
    ensures forall k :: 0 <= k < |run[n].section.seen| ==> c !in run[n].section.seen[k]
    decreases n
  {
    if m + 1 < n {
      DeadNotSeen(run, steps, m, n - 1, c);
      DeadStayDead(run, steps, m, n - 1, c);
      assert run[n - 1].section.Scanning?;
    }
  }

  /** Once every recorded caller is dead, the next `now()` unpauses the session. */
  lemma DeadCallersUnpause(run: seq<World>, steps: seq<Step>, m: nat, n: nat)
    requires IsRun(run, steps) && Init(run[0]) && m < n < |steps|
    requires steps[m] == BeginScan(None) && steps[n] == FinishNow
    requires forall i :: m < i <= n ==> run[i].section.Scanning?
    requires run[m].file.calls != []
    requires forall c :: c in run[m].file.calls ==> c !in run[m].held
    ensures run[n + 1].file.calls == [] && run[n + 1].file.paused == None && run[m].file.paused.Some?
    ensures run[n + 1].file.waited == run[m].file.waited + run[m].clock - run[m].file.paused.value
  {
    RunKeepsInv(run, steps, m);
    assert run[m].file.calls[0] in run[m].file.calls;
    DeadNotSeen(run, steps, m, n, run[m].file.calls[0]);
    forall i | 0 <= i < |run[m].file.calls| ensures run[n].file.calls[i] !in run[n].section.seen[i] {
      assert run[m].file.calls[i] in run[m].file.calls;
      DeadNotSeen(run, steps, m, n, run[m].file.calls[i]);
    }
    NoneLive(run[n].file.calls, run[n].section.seen);
    assert run[m].file.paused.value <= run[m].clock;
  }

  lemma InsideStep(w: World, s: Step, c: Call, id: SessionId)
    requires ScanOk(w) && Enabled(w, s) && c in w.phase && w.phase[c] in {Inside(id), Left}
    ensures c in Do(w, s).phase && Do(w, s).phase[c] in {Inside(id), Left}
  {
  }

  lemma {:induction false} InsideUntilLeave(run: seq<World>, steps: seq<Step>, m: nat, n: nat, c: Call, id: SessionId)
    requires IsRun(run, steps) && Init(run[0]) && m <= n < |run|
    requires c in run[m].phase && run[m].phase[c] == Inside(id)
    ensures c in run[n].phase && run[n].phase[c] in {Inside(id), Left}
    decreases n
  {
    if m < n {
      InsideUntilLeave(run, steps, m, n - 1, c, id);
      RunKeepsInv(run, steps, n - 1);
      InsideStep(run[n - 1], steps[n - 1], c, id);
    }
  }

  /** A call recorded before a later `start()` leaves the new session's file and intervals alone,
      whenever it completes. */
  lemma StaleCompletion(run: seq<World>, steps: seq<Step>, m: nat, n: nat, c: Call)
    requires IsRun(run, steps) && Init(run[0]) && m < n < |steps|
    requires c in run[m].phase && run[m].phase[c].Inside? && run[m].phase[c].session == run[m].file.session
    requires exists k :: m <= k < n && steps[k].Launch?
    requires steps[n] == Leave(c)
    ensures run[n + 1].file == run[n].file && run[n + 1].history == run[n].history
  {
    var id := run[m].file.session;
    var k :| m <= k < n && steps[k].Launch?;
    RunKeepsInv(run, steps, m);
    RunKeepsInv(run, steps, k);
    InsideUntilLeave(run, steps, m, n, c, id);
    if run[n].file.session == id {
      SameSession(run, steps, m, n);
      assert false;
    }
  }
}
