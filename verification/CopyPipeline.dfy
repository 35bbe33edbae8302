/** The `cp.async` copy pipeline of `fa_main`: group counting for one thread, and the safety of the
    tile loop when the threads of a block interleave arbitrarily between barriers. */
module CopyPipeline {

  datatype Dst = DstQ | DstK | DstV

  datatype Group<T> = Empty | Copy(dst: Dst, tile: T)

  /** What one thread may assume of its share of a shared-memory buffer. While a copy is in
      flight the bytes may be old, new or mixed. */
  datatype Buffer<T> = Torn | Holds(tile: T)

  /** One thread's view: the three buffers and its committed groups, oldest first. */
  datatype Copies<T> = Copies(q: Buffer<T>, k: Buffer<T>, v: Buffer<T>, flight: seq<Group<T>>) {
    function Set(dst: Dst, b: Buffer<T>): Copies<T> {
      match dst
      case DstQ => this.(q := b)
      case DstK => this.(k := b)
      case DstV => this.(v := b)
    }

    /** `cp16` to `dst` for a whole tile, then `cp_commit`. */
    function Issue(dst: Dst, tile: T): Copies<T> {
      var c := Set(dst, Torn);
      c.(flight := c.flight + [Copy(dst, tile)])
    }

    /** A bare `cp_commit`: an empty group that keeps the counting aligned. */
    function Commit(): Copies<T> { this.(flight := flight + [Empty]) }

    function CompleteOldest(): Copies<T>
      requires flight != []
    {
      var c := if flight[0].Copy? then Set(flight[0].dst, Holds(flight[0].tile)) else this;
      c.(flight := flight[1..])
    }

    /** `cp.async.wait_group 1`: all groups but the newest have landed. */
    function Wait1(): Copies<T>
      decreases |flight|
    {
      if |flight| <= 1 then this else CompleteOldest().Wait1()
    }
  }

  function Start<T>(): Copies<T> { Copies(Torn, Torn, Torn, []) }

  // ------------------------------------------------------------ one thread's program

  datatype Instr = Issue(dst: Dst, t: nat) | Commit | Wait | Sync | ReadK(t: nat) | ReadV(t: nat)

  /** Instruction `pc` of a thread whose block visits `n >= 1` tiles: a prologue of three copies,
      then ten instructions per tile. */
  function InstrAt(n: nat, pc: nat): Instr
    requires pc < Length(n)
  {
    if pc == 0 then Issue(DstQ, 0)
    else if pc == 1 then Issue(DstK, 0)
    else if pc == 2 then Issue(DstV, 0)
    else
      var t := (pc - 3) / 10;
      var s := (pc - 3) % 10;
      if s == 2 then ReadK(t)
      else if s == 4 then if t + 1 < n then Issue(DstK, t + 1) else Commit
      else if s == 7 then ReadV(t)
      else if s == 9 then if t + 1 < n then Issue(DstV, t + 1) else Commit
      else if s == 0 || s == 5 then Wait
      else Sync
  }

  function Length(n: nat): nat { 3 + 10 * n }

  function Execute(c: Copies<nat>, i: Instr): Copies<nat> {
    match i
    case Issue(dst, t) => c.Issue(dst, t)
    case Commit => c.Commit()
    case Wait => c.Wait1()
    case _ => c
  }

  /** What the first `pc` instructions leave. */
  function After(n: nat, pc: nat): Copies<nat>
    requires pc <= Length(n)
  {
    if pc == 0 then Start() else Execute(After(n, pc - 1), InstrAt(n, pc - 1))
  }

  function NextGroup(n: nat, dst: Dst, t: nat): Group<nat> {
    if t + 1 < n then Copy(dst, t + 1) else Empty
  }

  /** The state at step `s` of iteration `t`, in closed form. */
  ghost predicate AtStep(n: nat, t: nat, s: nat, c: Copies<nat>) {
    if s == 0 then
      if t == 0 then c.flight == [Copy(DstQ, 0), Copy(DstK, 0), Copy(DstV, 0)]
      else c.flight == [Copy(DstK, t), Copy(DstV, t)] && c.q == Holds(0)
    else if s <= 4 then c.flight == [Copy(DstV, t)] && c.q == Holds(0) && c.k == Holds(t)
    else if s == 5 then c.flight == [Copy(DstV, t), NextGroup(n, DstK, t)] && c.q == Holds(0)
    else c.flight == [NextGroup(n, DstK, t)] && c.q == Holds(0) && c.v == Holds(t)
  }

  lemma WaitTwo<T>(c: Copies<T>)
    requires |c.flight| == 2
    ensures c.Wait1() == c.CompleteOldest()
  {
    assert |c.CompleteOldest().flight| == 1;
  }

  lemma WaitThree<T>(c: Copies<T>)
    requires |c.flight| == 3
    ensures c.Wait1() == c.CompleteOldest().CompleteOldest()
  {
    WaitTwo(c.CompleteOldest());
  }

  /** One instruction of the tile loop moves the closed form to the next step. */
  lemma StepForm(n: nat, t: nat, s: nat, c: Copies<nat>)
    requires t < n && s < 9 && AtStep(n, t, s, c)
    ensures AtStep(n, t, s + 1, Execute(c, InstrAt(n, 3 + 10 * t + s)))
  {
    var pc := 3 + 10 * t + s;
    assert (pc - 3) / 10 == t && (pc - 3) % 10 == s;
    if s == 0 {
      if t == 0 { WaitThree(c); } else { WaitTwo(c); }
    } else if s == 5 {
      WaitTwo(c);
    }
  }

  lemma LastForm(n: nat, t: nat, c: Copies<nat>)
    requires t + 1 < n && AtStep(n, t, 9, c)
    ensures AtStep(n, t + 1, 0, Execute(c, InstrAt(n, 3 + 10 * t + 9)))
  {
    var pc := 3 + 10 * t + 9;
    assert (pc - 3) / 10 == t && (pc - 3) % 10 == 9;
  }

  lemma FirstInstructions(n: nat)
    requires n >= 1
    ensures InstrAt(n, 0) == Issue(DstQ, 0) && InstrAt(n, 1) == Issue(DstK, 0) && InstrAt(n, 2) == Issue(DstV, 0)
  {
  }

  lemma NextAfter(n: nat, pc: nat)
    requires pc < Length(n)
    ensures After(n, pc + 1) == Execute(After(n, pc), InstrAt(n, pc))
  {
  }

  /** The three copies before the loop. */
  lemma ProloguePrefix(n: nat)
    requires n >= 1
    ensures After(n, 0) == Start<nat>()
    ensures After(n, 1) == Start<nat>().Issue(DstQ, 0)
    ensures After(n, 2) == Start<nat>().Issue(DstQ, 0).Issue(DstK, 0)
    ensures After(n, 3) == Start<nat>().Issue(DstQ, 0).Issue(DstK, 0).Issue(DstV, 0)
  {
    FirstInstructions(n);
    NextAfter(n, 0);
    NextAfter(n, 1);
    NextAfter(n, 2);
  }

  lemma Prologue(n: nat)
    requires n >= 1
    ensures AtStep(n, 0, 0, After(n, 3))
  {
    ProloguePrefix(n);
  }

  ghost predicate Form(n: nat, t: nat, s: nat)
    requires t < n && s < 10
  {
    AtStep(n, t, s, After(n, 3 + 10 * t + s))
  }

  lemma Advance(n: nat, t: nat, s: nat)
    requires t < n && s < 9 && Form(n, t, s)
    ensures Form(n, t, s + 1)
  {
    StepForm(n, t, s, After(n, 3 + 10 * t + s));
  }

  lemma AdvanceTile(n: nat, t: nat)
    requires t + 1 < n && Form(n, t, 9)
    ensures Form(n, t + 1, 0)
  {
    LastForm(n, t, After(n, 3 + 10 * t + 9));
  }

  /** Running the program reaches exactly the closed form: in particular the empty commits keep
      `wait_group 1` meaning the same thing up to the last tile. */
  lemma {:induction false} RunReaches(n: nat, t: nat, s: nat)
    requires t < n && s < 10
    ensures Form(n, t, s)
    decreases t, s
  {
    if s > 0 {
      RunReaches(n, t, s - 1);
      Advance(n, t, s - 1);
    } else if t > 0 {
      RunReaches(n, t - 1, 9);
      AdvanceTile(n, t - 1);
    } else {
      Prologue(n);
    }
  }

  // ------------------------------------------------------------ the program, iteration by iteration

  /** A prefetch: the next tile if there is one, else an empty commit. */
  function Fetch<T>(c: Copies<T>, dst: Dst, next: Group<T>): Copies<T> {
    if next.Copy? then c.Issue(dst, next.tile) else c.Commit()
  }

  lemma InstrIs(n: nat, t: nat, s: nat)
    requires t < n && s < 10
    ensures
      InstrAt(n, 3 + 10 * t + s) ==
        match s
        case 2 => ReadK(t)
        case 4 => Fetching(DstK, NextGroup(n, DstK, t))
        case 7 => ReadV(t)
        case 9 => Fetching(DstV, NextGroup(n, DstV, t))
        case _ => if s == 0 || s == 5 then Wait else Sync
  {
    var pc := 3 + 10 * t + s;
    assert (pc - 3) / 10 == t && (pc - 3) % 10 == s;
  }

  function Fetching(dst: Dst, next: Group<nat>): Instr { if next.Copy? then Issue(dst, next.tile) else Commit }

  lemma WaitSync(n: nat, pc: nat)
    requires pc + 2 <= Length(n) && InstrAt(n, pc) == Wait && InstrAt(n, pc + 1) == Sync
    ensures After(n, pc + 2) == After(n, pc).Wait1()
  {
    assert After(n, pc + 1) == After(n, pc).Wait1();
  }

  lemma ReadSync(n: nat, pc: nat)
    requires pc + 2 <= Length(n) && (InstrAt(n, pc).ReadK? || InstrAt(n, pc).ReadV?) && InstrAt(n, pc + 1) == Sync
    ensures After(n, pc + 2) == After(n, pc)
  {
    assert After(n, pc + 1) == After(n, pc);
  }

  lemma FetchStep(n: nat, pc: nat, dst: Dst, next: Group<nat>)
    requires pc < Length(n) && InstrAt(n, pc) == Fetching(dst, next)
    ensures After(n, pc + 1) == Fetch(After(n, pc), dst, next)
  {
  }

  /** From the head of an iteration to where K is read: a wait. */
  lemma HeadSteps(n: nat, t: nat)
    requires t < n
    ensures After(n, 3 + 10 * t + 2) == After(n, 3 + 10 * t).Wait1()
  {
    InstrIs(n, t, 0);
    InstrIs(n, t, 1);
    WaitSync(n, 3 + 10 * t);
  }

  lemma MiddleAt(n: nat, pc: nat, next: Group<nat>)
    requires pc + 5 <= Length(n) && InstrAt(n, pc).ReadK? && InstrAt(n, pc + 1) == Sync
    requires InstrAt(n, pc + 2) == Fetching(DstK, next) && InstrAt(n, pc + 3) == Wait && InstrAt(n, pc + 4) == Sync
    ensures After(n, pc + 5) == Fetch(After(n, pc), DstK, next).Wait1()
  {
    ReadSync(n, pc);
    FetchStep(n, pc + 2, DstK, next);
    WaitSync(n, pc + 3);
  }

  /** From there to where V is read: the prefetch of K and a wait. */
  lemma MiddleSteps(n: nat, t: nat)
    requires t < n
    ensures After(n, 3 + 10 * t + 7) == Fetch(After(n, 3 + 10 * t + 2), DstK, NextGroup(n, DstK, t)).Wait1()
  {
    InstrIs(n, t, 2);
    InstrIs(n, t, 3);
    InstrIs(n, t, 4);
    InstrIs(n, t, 5);
    InstrIs(n, t, 6);
    MiddleAt(n, 3 + 10 * t + 2, NextGroup(n, DstK, t));
  }

  /** From there to the next iteration: the prefetch of V. */
  lemma TailSteps(n: nat, t: nat)
    requires t < n
    ensures After(n, 3 + 10 * (t + 1)) == Fetch(After(n, 3 + 10 * t + 7), DstV, NextGroup(n, DstV, t))
  {
    InstrIs(n, t, 7);
    InstrIs(n, t, 8);
    InstrIs(n, t, 9);
    ReadSync(n, 3 + 10 * t + 7);
    FetchStep(n, 3 + 10 * t + 9, DstV, NextGroup(n, DstV, t));
  }

  // ------------------------------------------------------------ all threads, any interleaving

  /** A thread may take its next instruction unless it is a barrier some thread has not reached. */
  ghost predicate Enabled(n: nat, pcs: seq<nat>, w: nat) {
    && w < |pcs| && pcs[w] < Length(n)
    && (InstrAt(n, pcs[w]) == Sync ==> forall u :: 0 <= u < |pcs| ==> pcs[u] >= pcs[w])
  }

  ghost predicate Step(n: nat, pcs: seq<nat>, pcs': seq<nat>) {
    exists w: nat :: Enabled(n, pcs, w) && pcs' == pcs[w := pcs[w] + 1]
  }

  /** A run of a block of `threads` threads: any schedule, stopped anywhere. */
  ghost predicate IsRun(n: nat, threads: nat, run: seq<seq<nat>>) {
    && |run| > 0
    && run[0] == seq(threads, _ => 0)
    && forall i :: 0 <= i < |run| - 1 ==> Step(n, run[i], run[i + 1])
  }

  /** Nobody is past a barrier that someone has not reached. */
  ghost predicate Synchronised(n: nat, pcs: seq<nat>) {
    && (forall u :: 0 <= u < |pcs| ==> pcs[u] <= Length(n))
    && forall u, w, p {:trigger pcs[u], pcs[w], InstrAt(n, p)} ::
      0 <= u < |pcs| && 0 <= w < |pcs| && 0 <= p < pcs[w] && InstrAt(n, p) == Sync ==> pcs[u] >= p
  }

  lemma {:induction false} RunSynchronised(n: nat, threads: nat, run: seq<seq<nat>>)
    requires IsRun(n, threads, run)
    ensures |run[|run| - 1]| == threads && Synchronised(n, run[|run| - 1])
    decreases |run|
  {
    if |run| > 1 {
      var k := |run| - 1;
      RunSynchronised(n, threads, run[..k]);
      assert Step(n, run[k - 1], run[k - 1 + 1]);
    }
  }

  lemma Window(n: nat, pcs: seq<nat>, w: nat, u: nat, t: nat, before: nat, after: nat)
    requires Synchronised(n, pcs) && w < |pcs| && u < |pcs|
    requires before < pcs[w] < after < Length(n)
    requires InstrAt(n, before) == Sync && InstrAt(n, after) == Sync
    ensures before <= pcs[u] <= after
  {
    assert pcs[u] >= before;
    if pcs[u] > after { assert false; }
  }

  /** In every reachable state of every schedule, when some thread multiplies with the K tile of
      iteration `t`, every thread's share of `sK` holds tile `t` and every share of `sQ` holds the
      query tile, and no copy into either is in flight. */
  lemma ReadKSafe(n: nat, threads: nat, run: seq<seq<nat>>, w: nat, u: nat, t: nat)
    requires IsRun(n, threads, run) && w < threads && u < threads && t < n
    requires |run[|run| - 1]| == threads && run[|run| - 1][w] == 3 + 10 * t + 2
    ensures
      var pc := run[|run| - 1][u];
      && pc <= Length(n)
      && After(n, pc).q == Holds(0) && After(n, pc).k == Holds(t)
      && forall g :: g in After(n, pc).flight && g.Copy? ==> g.dst == DstV
  {
    RunSynchronised(n, threads, run);
    var pcs := run[|run| - 1];
    Window(n, pcs, w, u, t, 3 + 10 * t + 1, 3 + 10 * t + 3);
    RunReaches(n, t, pcs[u] - (3 + 10 * t));
  }

  /** The same for the V tile: the only copy that may be in flight then targets `sK`. */
  lemma ReadVSafe(n: nat, threads: nat, run: seq<seq<nat>>, w: nat, u: nat, t: nat)
    requires IsRun(n, threads, run) && w < threads && u < threads && t < n
    requires |run[|run| - 1]| == threads && run[|run| - 1][w] == 3 + 10 * t + 7
    ensures
      var pc := run[|run| - 1][u];
      && pc <= Length(n)
      && After(n, pc).v == Holds(t)
      && forall g :: g in After(n, pc).flight && g.Copy? ==> g.dst == DstK
  {
    RunSynchronised(n, threads, run);
    var pcs := run[|run| - 1];
    Window(n, pcs, w, u, t, 3 + 10 * t + 6, 3 + 10 * t + 8);
    RunReaches(n, t, pcs[u] - (3 + 10 * t));
  }

  /** The barriers never deadlock: while some thread is unfinished, some thread can move. */
  lemma {:induction false} NoDeadlock(n: nat, pcs: seq<nat>, w: nat)
    requires w < |pcs| && pcs[w] < Length(n)
    ensures exists u: nat :: Enabled(n, pcs, u)
    decreases pcs[w]
  {
    if !Enabled(n, pcs, w) {
      var u: nat :| u < |pcs| && pcs[u] < pcs[w];
      NoDeadlock(n, pcs, u);
    }
  }
}
