/** The scheduler takes and releases its locks section by section
    (backend/app/repository/queue_manager.go), so several goroutines may be between two sections at
    once.  This module runs additions, the processing of queues, starts, removals, cancellations and
    completions, with the calls a completion makes on the other repositories, in every interleaving of
    those sections.  All operations are heavy.  A launch is one step with the setting of the state
    before it, and an addition is in the queue in one step. */
module StartRace {
  import opened Prelude

  /** What a repository shows. */
  datatype Face = Idle | Queued | Busy | Failed

  /** The transition table, as far as heavy operations go. */
  predicate Allowed(from: Face, to: Face, hasQueued: bool) {
    match from
    case Idle => to != Idle
    case Queued => to != Queued
    case Busy => to == Idle || to == Failed || (to == Queued && hasQueued)
    case Failed => to == Idle
  }

  /** Where a goroutine is; the comment names the section that comes next. */
  datatype PC =
    // processQueue
    | Begin                                  // is there an active operation?
    | NoActive                               // GetNext
    | Got(op: int)                           // CanStartOperation
    // StartOperation
    | Finding(op: int)                       // GetOperationByID
    | Willing(op: int)                       // CanStartOperation again
    | Passed(op: int)                        // MoveToActive
    | Moved(op: int)                         // the entry in activeHeavy
    | Entered(op: int)                       // GetRepositoryState, and the transition table
    | Setting(op: int)                       // setRepositoryState, and the launch
    // RemoveOperation, after a failed start (own) or for a cancellation
    | Undo(op: int, own: bool)               // GetOperationByID
    | Undo1(op: int, own: bool)              // GetActive
    | Undo2(op: int, own: bool)              // the entry in activeHeavy is deleted
    | Undo3(op: int, own: bool)              // the queue's RemoveOperation
    | Clearing                               // is there an active operation?
    | Clearing1                              // GetQueueLength
    | Clearing2                              // GetRepositoryState
    | Clearing3                              // setRepositoryState
    // the end of AddOperation
    | Show                                   // is there an active operation?
    | Show1                                  // HasQueuedOperations
    | Show2                                  // GetRepositoryState
    | Show3(face: Face)                      // GetNext
    | Show4(face: Face)                      // the transition table, whose guard looks at the queue
    | Show5                                  // setRepositoryState
    // CompleteOperation
    | End(op: int, error: bool)              // GetActive
    | End1(error: bool)                      // the entry in activeHeavy is deleted
    | End2(error: bool)                      // CompleteActive
    | End3(error: bool)                      // GetRepositoryState
    | End4(error: bool, face: Face)          // HasQueuedOperations
    | End5(face: Face)                       // GetNext
    | End6(face: Face, target: Face)         // the transition table, whose guard looks at the queue
    | End7(target: Face)                     // setRepositoryState
    // CancelOperation
    | Cancel(op: int)                        // GetActive
    | Cancel1(op: int)                       // GetRepositoryState: is there a context to cancel?
    | CancelEnd(op: int)                     // no: CompleteOperation
    | Done

  /** A goroutine at work on `repo`.  One that adds an operation goes on to show the result; one that
      completes an operation goes on to process the repositories in `rest`. */
  datatype Thread = Thread(repo: int, pc: PC, adding: bool, rest: seq<int>)

  datatype World = World(
    max: nat,
    waiting: map<int, seq<int>>,
    active: map<int, int>,
    heavy: set<int>,             // repositories entered in activeHeavy
    faces: map<int, Face>,
    executing: set<(int, int)>,  // operations whose goroutine is running borg
    threads: seq<Thread>)

  function Queue(w: World, r: int): seq<int> {
    if r in w.waiting then w.waiting[r] else []
  }

  function FaceOf(w: World, r: int): Face {
    if r in w.faces then w.faces[r] else Idle
  }

  predicate IsActive(w: World, r: int, o: int) {
    r in w.active && w.active[r] == o
  }

  /** GetOperationByID finds `o`. */
  predicate Knows(w: World, r: int, o: int) {
    IsActive(w, r, o) || o in Queue(w, r)
  }

  predicate MayStart(w: World, r: int) {
    r !in w.heavy && |w.heavy| < w.max
  }

  function Drop(ops: seq<int>, o: int): seq<int> {
    if ops == [] then [] else if ops[0] == o then ops[1..] else [ops[0]] + Drop(ops[1..], o)
  }

  function Go(w: World, t: nat, pc: PC): World
    requires t < |w.threads|
  {
    w.(threads := w.threads[t := w.threads[t].(pc := pc)])
  }

  function PutFace(w: World, r: int, f: Face): World {
    w.(faces := w.faces[r := f])
  }

  /** processQueue has returned without an error. */
  function Returned(w: World, t: nat): World
    requires t < |w.threads|
  {
    var th := w.threads[t];
    if th.adding then Go(w, t, Show)
    else if th.rest != [] then w.(threads := w.threads[t := Thread(th.rest[0], Begin, false, th.rest[1..])])
    else Go(w, t, Done)
  }

  /** The next section of processQueue and StartOperation. */
  function Process(w: World, t: nat): World
    requires t < |w.threads|
  {
    var r := w.threads[t].repo;
    match w.threads[t].pc
    case Begin => if r in w.active then Returned(w, t) else Go(w, t, NoActive)
    case NoActive => if Queue(w, r) == [] then Returned(w, t) else Go(w, t, Got(Queue(w, r)[0]))
    case Got(o) => if MayStart(w, r) then Go(w, t, Finding(o)) else Returned(w, t)
    case Finding(o) => Go(w, t, if Knows(w, r, o) then Willing(o) else Undo(o, true))
    case Willing(o) => Go(w, t, if MayStart(w, r) then Passed(o) else Undo(o, true))
    case Passed(o) =>
      if o in Queue(w, r) then
        Go(w, t, Moved(o)).(waiting := w.waiting[r := Drop(Queue(w, r), o)], active := w.active[r := o])
      else Go(w, t, Undo(o, true))
    case Moved(o) => Go(w, t, Entered(o)).(heavy := w.heavy + {r})
    case Entered(o) => Go(w, t, if Allowed(FaceOf(w, r), Busy, true) then Setting(o) else Undo(o, true))
    case Setting(o) => Returned(PutFace(w, r, Busy).(executing := w.executing + {(r, o)}), t)
    case _ => w
  }

  /** The next section of RemoveOperation; a start that failed is given up with it. */
  function Remove(w: World, t: nat): World
    requires t < |w.threads|
  {
    var r := w.threads[t].repo;
    match w.threads[t].pc
    case Undo(o, own) => Go(w, t, if Knows(w, r, o) then Undo1(o, own) else Done)
    case Undo1(o, own) => Go(w, t, if IsActive(w, r, o) then Undo2(o, own) else Undo3(o, own))
    case Undo2(o, own) => Go(w, t, Undo3(o, own)).(heavy := w.heavy - {r})
    case Undo3(o, own) =>
      if IsActive(w, r, o) then Go(w, t, Clearing).(active := w.active - {r})
      else if o in Queue(w, r) then Go(w, t, Clearing).(waiting := w.waiting[r := Drop(Queue(w, r), o)])
      else Go(w, t, Done)
    case Clearing => Go(w, t, if r in w.active then Done else Clearing1)
    case Clearing1 => Go(w, t, if Queue(w, r) == [] then Clearing2 else Done)
    case Clearing2 => Go(w, t, if FaceOf(w, r) == Queued then Clearing3 else Done)
    case Clearing3 => PutFace(Go(w, t, Done), r, Idle)
    case _ => w
  }

  /** The next section of the end of AddOperation. */
  function Display(w: World, t: nat): World
    requires t < |w.threads|
  {
    var r := w.threads[t].repo;
    match w.threads[t].pc
    case Show => Go(w, t, if r in w.active then Done else Show1)
    case Show1 => Go(w, t, if Queue(w, r) == [] then Done else Show2)
    case Show2 => Go(w, t, if FaceOf(w, r) == Queued then Done else Show3(FaceOf(w, r)))
    case Show3(f) => Go(w, t, if Queue(w, r) == [] then Done else Show4(f))
    case Show4(f) => Go(w, t, if Allowed(f, Queued, Queue(w, r) != []) then Show5 else Done)
    case Show5 => PutFace(Go(w, t, Done), r, Queued)
    case _ => w
  }

  /** The next section of CompleteOperation or CancelOperation. */
  function Complete(w: World, t: nat): World
    requires t < |w.threads|
  {
    var r := w.threads[t].repo;
    match w.threads[t].pc
    case End(o, e) => Go(w, t, if IsActive(w, r, o) then End1(e) else Done)
    case End1(e) => Go(w, t, End2(e)).(heavy := w.heavy - {r})
    case End2(e) => if r in w.active then Go(w, t, End3(e)).(active := w.active - {r}) else Go(w, t, Done)
    case End3(e) => Go(w, t, End4(e, FaceOf(w, r)))
    case End4(e, f) => Go(w, t, if e then End6(f, Failed) else if Queue(w, r) == [] then End6(f, Idle) else End5(f))
    case End5(f) => Go(w, t, End6(f, if Queue(w, r) == [] then Idle else Queued))
    case End6(f, g) => Go(w, t, if f == g || Allowed(f, g, Queue(w, r) != []) then End7(g) else Done)
    case End7(g) => PutFace(Go(w, t, Begin), r, g)
    case Cancel(o) => Go(w, t, if IsActive(w, r, o) then Cancel1(o) else Undo(o, false))
    case Cancel1(o) => Go(w, t, if FaceOf(w, r) == Busy then Done else CancelEnd(o))
    case CancelEnd(o) => Go(w, t, if IsActive(w, r, o) then End1(false) else Done)
    case _ => w
  }

  predicate InProcess(pc: PC) {
    match pc
    case Begin | NoActive | Got(_) | Finding(_) | Willing(_) | Passed(_) | Moved(_) | Entered(_) | Setting(_) => true
    case _ => false
  }

  predicate InRemove(pc: PC) {
    match pc
    case Undo(_, _) | Undo1(_, _) | Undo2(_, _) | Undo3(_, _) => true
    case Clearing | Clearing1 | Clearing2 | Clearing3 => true
    case _ => false
  }

  predicate InDisplay(pc: PC) {
    match pc
    case Show | Show1 | Show2 | Show3(_) | Show4(_) | Show5 => true
    case _ => false
  }

  predicate InComplete(pc: PC) {
    !InProcess(pc) && !InRemove(pc) && !InDisplay(pc)
  }

  /** The next section of goroutine `t`. */
  function Advance(w: World, t: nat): World
    requires t < |w.threads|
  {
    var pc := w.threads[t].pc;
    if InProcess(pc) then Process(w, t)
    else if InRemove(pc) then Remove(w, t)
    else if InDisplay(pc) then Display(w, t)
    else Complete(w, t)
  }

  datatype Action =
    | ThreadStep(thread: nat)
    | NewRequest(repo: int, op: int)                             // AddOperation puts it into the queue
    | FinishOp(repo: int, op: int, error: bool, rest: seq<int>)  // borg returns; `rest` are the other queues
    | CancelRequest(repo: int, op: int, rest: seq<int>)
    | ClearError(repo: int)

  predicate CanAct(w: World, a: Action) {
    match a
    case ThreadStep(t) => t < |w.threads|
    case FinishOp(r, o, _, rest) => (r, o) in w.executing && r !in rest
    case CancelRequest(r, _, rest) => r !in rest
    case ClearError(r) => FaceOf(w, r) == Failed
    case _ => true
  }

  function Spawn(w: World, th: Thread): World {
    w.(threads := w.threads + [th])
  }

  function Act(w: World, a: Action): World
    requires CanAct(w, a)
  {
    match a
    case ThreadStep(t) => Advance(w, t)
    case NewRequest(r, o) =>
      Spawn(w.(waiting := w.waiting[r := Queue(w, r) + [o]]), Thread(r, Begin, true, []))
    case FinishOp(r, o, e, rest) => Spawn(w.(executing := w.executing - {(r, o)}), Thread(r, End(o, e), false, rest))
    case CancelRequest(r, o, rest) => Spawn(w, Thread(r, Cancel(o), false, rest))
    case ClearError(r) => PutFace(w, r, Idle)
  }

  predicate Does(w: World, a: Action, w': World) {
    CanAct(w, a) && w' == Act(w, a)
  }

  ghost predicate StepAt(trace: seq<World>, i: nat)
    requires 0 < i < |trace|
  {
    Next(trace[i - 1], trace[i])
  }

  ghost predicate Next(w: World, w': World) {
    exists a :: Does(w, a, w')
  }

  /** `trace` lists the worlds passed through, one action apart. */
  ghost predicate IsTrace(trace: seq<World>) {
    && trace != []
    && forall i :: 0 < i < |trace| ==> StepAt(trace, i)
  }

  function Start(max: nat): World {
    World(max, map[], map[], {}, map[], {}, [])
  }

  ghost predicate Passing(trace: seq<World>, v: World, w: World, p: World -> bool) {
    && IsTrace(trace) && trace[0] == v && trace[|trace| - 1] == w
    && forall i :: 0 <= i < |trace| ==> p(trace[i])
  }

  /** Some run goes from `v` to `w`, and `p` holds all along. */
  ghost predicate Leads(v: World, w: World, p: World -> bool) {
    exists trace :: Passing(trace, v, w, p)
  }

  // ---------------------------------------------------------------- the limit on entries

  predicate InWindow(pc: PC) {
    pc.Passed? || pc.Moved?
  }

  /** Goroutines that have passed the check and not yet made their entry. */
  function Window(threads: seq<Thread>): nat {
    if threads == [] then 0
    else (if InWindow(threads[0].pc) then 1 else 0) + Window(threads[1..])
  }

  lemma {:induction false} WindowUpdate(threads: seq<Thread>, t: nat, n: Thread)
    requires t < |threads|
    ensures Window(threads[t := n]) ==
            Window(threads) - (if InWindow(threads[t].pc) then 1 else 0) + (if InWindow(n.pc) then 1 else 0)
  {
    if t == 0 {
      assert threads[0 := n][1..] == threads[1..];
    } else {
      WindowUpdate(threads[1..], t - 1, n);
      assert threads[t := n][1..] == threads[1..][t - 1 := n];
    }
  }

  lemma {:induction false} WindowAppend(threads: seq<Thread>, n: Thread)
    ensures Window(threads + [n]) == Window(threads) + if InWindow(n.pc) then 1 else 0
  {
    if threads == [] {
      assert threads + [n] == [n] && [n][1..] == [];
    } else {
      WindowAppend(threads[1..], n);
      assert (threads + [n])[1..] == threads[1..] + [n];
    }
  }

  lemma SubsetSize(a: set<int>, b: set<int>)
    requires a <= b
    ensures |a| <= |b|
  {
    assert b == a + (b - a);
  }

  /** A step changes its own goroutine only; three kinds of steps change the table, one launches. */
  predicate Framed(w: World, w': World, t: nat)
    requires t < |w.threads|
  {
    var pc, r := w.threads[t].pc, w.threads[t].repo;
    && |w'.threads| == |w.threads| && w'.threads == w.threads[t := w'.threads[t]] && w'.max == w.max
    && w'.heavy == (if pc.Moved? then w.heavy + {r} else if pc.Undo2? || pc.End1? then w.heavy - {r} else w.heavy)
    && w'.executing == (if pc.Setting? then w.executing + {(r, pc.op)} else w.executing)
    && (w.threads[t].rest == [] ==> w'.threads[t].repo == r && w'.threads[t].rest == [])
    && (InWindow(w'.threads[t].pc) <==>
          (pc.Passed? && pc.op in Queue(w, r)) || (pc.Willing? && MayStart(w, r)))
  }

  lemma ProcessFrame(w: World, t: nat)
    requires t < |w.threads| && InProcess(w.threads[t].pc)
    ensures Framed(w, Process(w, t), t)
  {
    match w.threads[t].pc
    case Begin =>
    case NoActive =>
    case Got(o) =>
    case Finding(o) =>
    case Willing(o) =>
    case Passed(o) =>
    case Moved(o) =>
    case Entered(o) =>
    case Setting(o) =>
  }

  lemma RemoveFrame(w: World, t: nat)
    requires t < |w.threads| && InRemove(w.threads[t].pc)
    ensures Framed(w, Remove(w, t), t)
  {
  }

  lemma DisplayFrame(w: World, t: nat)
    requires t < |w.threads| && InDisplay(w.threads[t].pc)
    ensures Framed(w, Display(w, t), t)
  {
  }

  lemma CompleteFrame(w: World, t: nat)
    requires t < |w.threads| && InComplete(w.threads[t].pc)
    ensures Framed(w, Complete(w, t), t)
  {
    match w.threads[t].pc
    case End(o, e) =>
    case End1(e) =>
    case End2(e) =>
    case End3(e) =>
    case End4(e, f) =>
    case End5(f) =>
    case End6(f, g) =>
    case End7(g) =>
    case Cancel(o) =>
    case Cancel1(o) =>
    case CancelEnd(o) =>
    case Done =>
  }

  lemma AdvanceFrame(w: World, t: nat)
    requires t < |w.threads|
    ensures Framed(w, Advance(w, t), t)
  {
    hide Process;
    hide Remove;
    hide Display;
    hide Complete;
    hide Framed;
    var pc := w.threads[t].pc;
    if InProcess(pc) {
      ProcessFrame(w, t);
    } else if InRemove(pc) {
      RemoveFrame(w, t);
    } else if InDisplay(pc) {
      DisplayFrame(w, t);
    } else {
      CompleteFrame(w, t);
    }
  }

  lemma AdvanceKeepsLimit(w: World, t: nat, width: nat)
    requires t < |w.threads|
    requires |w.heavy| + Window(w.threads) <= w.max + width
    requires Window(Advance(w, t).threads) <= width + 1
    ensures var w' := Advance(w, t); w'.max == w.max && |w'.heavy| + Window(w'.threads) <= w.max + width
  {
    var r := w.threads[t].repo;
    hide Advance;
    AdvanceFrame(w, t);
    WindowUpdate(w.threads, t, Advance(w, t).threads[t]);
    if w.threads[t].pc.Moved? {
      assert r !in w.heavy ==> |w.heavy + {r}| == |w.heavy| + 1;
      assert r in w.heavy ==> w.heavy + {r} == w.heavy;
    } else {
      SubsetSize(Advance(w, t).heavy, w.heavy);
    }
  }

  lemma ActKeepsLimit(w: World, a: Action, width: nat)
    requires CanAct(w, a)
    requires |w.heavy| + Window(w.threads) <= w.max + width
    requires Window(Act(w, a).threads) <= width + 1
    ensures var w' := Act(w, a); w'.max == w.max && |w'.heavy| + Window(w'.threads) <= w.max + width
  {
    match a
    case ThreadStep(t) => AdvanceKeepsLimit(w, t, width);
    case NewRequest(r, o) => WindowAppend(w.threads, Thread(r, Begin, true, []));
    case FinishOp(r, o, e, rest) => WindowAppend(w.threads, Thread(r, End(o, e), false, rest));
    case CancelRequest(r, o, rest) => WindowAppend(w.threads, Thread(r, Cancel(o), false, rest));
    case ClearError(r) =>
  }

  /** Every window in the trace is shared by no more than `width + 1` goroutines. */
  ghost predicate Narrow(trace: seq<World>, width: nat) {
    forall i :: 0 <= i < |trace| ==> Window(trace[i].threads) <= width + 1
  }

  /** The entries can exceed the limit, but only by the goroutines that share the window: when no more
      than `width + 1` of them are ever in it together, there are never more than `max + width` entries.
      This bounds the entries, not what runs: an operation can run on after its entry is gone. */
  lemma {:induction false} HeavyIsBounded(trace: seq<World>, max: nat, width: nat, n: nat)
    requires IsTrace(trace) && trace[0] == Start(max) && n < |trace|
    requires Narrow(trace, width)
    ensures trace[n].max == max && |trace[n].heavy| + Window(trace[n].threads) <= max + width
  {
    if n > 0 {
      HeavyIsBounded(trace, max, width, n - 1);
      assert StepAt(trace, n);
      var a :| Does(trace[n - 1], a, trace[n]);
      ActKeepsLimit(trace[n - 1], a, width);
    }
  }
}
