/** What holds between the lock sections of the scheduler when each repository is in the hands of one
    goroutine at a time: what a goroutine may rely on at each section, and what it has to leave behind. */
module SectionClaims {
  import opened Prelude
  import opened StartRace

  /** No two goroutines are at work on the same repository.  Adding, processing, completing, cancelling
      and displaying all count as work. */
  ghost predicate Serial(w: World) {
    forall t, u :: 0 <= t < u < |w.threads| && w.threads[t].repo == w.threads[u].repo ==>
      w.threads[t].pc.Done? || w.threads[u].pc.Done?
  }

  // ---------------------------------------------------------------- what holds at each section

  predicate NoneRuns(executing: set<(int, int)>, r: int) {
    forall e <- executing :: e.0 != r
  }

  predicate OnlyRuns(executing: set<(int, int)>, r: int, o: int) {
    (r, o) in executing && forall e <- executing :: e.0 == r ==> e.1 == o
  }

  /** Nothing is active, entered or running, and none of it is shown. */
  predicate Calm(w: World, r: int) {
    r !in w.active && r !in w.heavy && FaceOf(w, r) != Busy && NoneRuns(w.executing, r)
  }

  /** `o` has been moved to active but is neither launched nor shown. */
  predicate Holds(w: World, r: int, o: int, entered: bool) {
    IsActive(w, r, o) && (r in w.heavy <==> entered) && FaceOf(w, r) != Busy && NoneRuns(w.executing, r)
  }

  /** The operation has returned; what is active and entered is still to be given up. */
  predicate Ending(w: World, r: int, active: bool, entered: bool) {
    (r in w.active <==> active) && (r in w.heavy <==> entered) && FaceOf(w, r) == Busy && NoneRuns(w.executing, r)
  }

  /** Either nothing is active, or what is active is entered, shown and running, and nothing else runs. */
  predicate Steady(w: World, r: int) {
    if r in w.active then r in w.heavy && FaceOf(w, r) == Busy && OnlyRuns(w.executing, r, w.active[r])
    else Calm(w, r)
  }

  /** A goroutine at `pc` may have left its repository in a state that is not steady. */
  predicate Owning(pc: PC) {
    match pc
    case Moved(_) | Entered(_) | Setting(_) => true
    case Undo(_, _) | Undo1(_, _) | Undo2(_, _) | Undo3(_, _) => pc.own
    case End(_, _) | End1(_) | End2(_) | End3(_) | End4(_, _) | End5(_) | End6(_, _) | End7(_) => true
    case _ => false
  }

  /** What a goroutine may rely on between two sections. */
  datatype Promise =
    | Nothing
    | Quiet
    | QuietWith(next: int)                                    // calm, and `next` is waiting
    | Held(op: int, entered: bool)
    | QuietOrHeld(op: int, entered: bool)
    | NotActive(op: int)
    | Leaving(last: Option<int>, active: bool, entered: bool)   // ending, and `last` is the active operation
    | Choosing(sound: bool, queued: bool)                     // ending, and the goroutine has chosen a sound state
    | Never

  /** The promise at each section. */
  function PromiseAt(pc: PC): Promise {
    match pc
    case NoActive => Quiet
    case Got(_) | Finding(_) | Willing(_) | Passed(_) => QuietWith(pc.op)
    case Moved(o) => Held(o, false)
    case Entered(_) | Setting(_) => Held(pc.op, true)
    case Undo(_, _) | Undo1(_, _) => if pc.own then QuietOrHeld(pc.op, true) else NotActive(pc.op)
    case Undo2(o, own) => if own then Held(o, true) else Never
    case Undo3(o, own) => if own then QuietOrHeld(o, false) else NotActive(o)
    case Clearing1 | Clearing2 | Clearing3 => Quiet
    case Show1 | Show2 | Show3(_) | Show4(_) | Show5 => Quiet
    case End(o, _) => Leaving(Some(o), true, true)
    case End1(_) => Leaving(None, true, true)
    case End2(_) => Leaving(None, true, false)
    case End3(_) => Leaving(None, false, false)
    case End4(_, _) | End5(_) => Choosing(pc.face == Busy, false)
    case End6(f, g) => Choosing(f == Busy && g != Busy, g == Queued)
    case End7(g) => Choosing(g != Busy, false)
    case CancelEnd(o) => NotActive(o)
    case _ => Nothing
  }

  predicate Kept(w: World, r: int, p: Promise) {
    match p
    case Nothing => true
    case Quiet => Calm(w, r)
    case QuietWith(next) => Calm(w, r) && next in Queue(w, r)
    case Held(o, entered) => Holds(w, r, o, entered)
    case QuietOrHeld(o, entered) => Calm(w, r) || Holds(w, r, o, entered)
    case NotActive(o) => !IsActive(w, r, o)
    case Leaving(o, active, entered) => Ending(w, r, active, entered) && (o.Some? ==> IsActive(w, r, o.value))
    case Choosing(sound, queued) => Ending(w, r, false, false) && sound && (queued ==> Queue(w, r) != [])
    case Never => false
  }

  /** What a goroutine at `pc` may rely on. */
  predicate Claim(w: World, r: int, pc: PC) {
    Kept(w, r, PromiseAt(pc))
  }

  predicate Owns(w: World, r: int, t: nat) {
    t < |w.threads| && w.threads[t].repo == r && Owning(w.threads[t].pc)
  }

  ghost predicate Settled(w: World, r: int) {
    Steady(w, r) || exists t :: Owns(w, r, t)
  }

  ghost predicate Orderly(w: World) {
    && (forall r :: Settled(w, r))
    && (forall t :: 0 <= t < |w.threads| ==> Claim(w, w.threads[t].repo, w.threads[t].pc))
  }

  // ---------------------------------------------------------------- one step

  /** Nothing about `r` differs, except that its queue may have grown. */
  predicate SameLocal(w: World, w': World, r: int) {
    && |Queue(w, r)| <= |Queue(w', r)| && (forall o <- Queue(w, r) :: o in Queue(w', r))
    && (r in w.active <==> r in w'.active) && (r in w.active ==> w.active[r] == w'.active[r])
    && (r in w.heavy <==> r in w'.heavy) && FaceOf(w, r) == FaceOf(w', r)
    && (forall e <- w.executing :: e.0 == r ==> e in w'.executing)
    && (forall e <- w'.executing :: e.0 == r ==> e in w.executing)
  }

  /** What a step of goroutine `t`, alone on its repository, has to establish. */
  predicate Passes(w: World, w': World, t: nat)
    requires t < |w.threads| == |w'.threads|
  {
    var r, n := w.threads[t].repo, w'.threads[t];
    && Claim(w', n.repo, n.pc)
    && (Steady(w', r) || (n.repo == r && Owning(n.pc)))
  }

  /** What it starts from. */
  predicate Ready(w: World, t: nat)
    requires t < |w.threads|
  {
    var r, pc := w.threads[t].repo, w.threads[t].pc;
    Claim(w, r, pc) && (Steady(w, r) || Owning(pc))
  }

  predicate InEnd(pc: PC) {
    pc.End? || pc.End1? || pc.End2? || pc.End3? || pc.End4? || pc.End5? || pc.End6? || pc.End7?
  }

  /** The repository is shown as working although nothing runs there and nothing is being completed. */
  ghost predicate Stuck(w: World, r: int) {
    && FaceOf(w, r) == Busy && NoneRuns(w.executing, r)
    && forall t :: 0 <= t < |w.threads| && w.threads[t].repo == r ==> !InEnd(w.threads[t].pc)
  }
}
