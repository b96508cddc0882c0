/** What can go wrong between two lock sections of the scheduler, run by run
    (backend/app/repository/queue_manager.go). */
module RaceWitnesses {
  import opened Prelude
  import opened StartRace
  import opened SectionClaims
  import opened RaceRuns

  // ---------------------------------------------------------------- two goroutines on one repository

  ghost function Anything(): World -> bool {
    (w: World) => true
  }

  lemma AnySteps(u: World, v: World, t: nat, n: nat, w: World)
    requires Leads(u, v, Anything()) && t < |v.threads| && w == Steps(v, t, n)
    ensures Leads(u, w, Anything())
  {
    StepsLead(v, t, n, Anything());
    hide Leads;
    Joined(u, v, w, Anything());
  }

  function Adding(r: int, pc: PC): Thread {
    Thread(r, pc, true, [])
  }

  function Finisher(r: int, pc: PC): Thread {
    Thread(r, pc, false, [])
  }

  /** Two additions to repository 1 are in the queue. */
  function TwoAdded(one: PC, two: PC): World {
    World(2, map[1 := [10, 11]], map[], {}, map[], {}, [Adding(1, one), Adding(1, two)])
  }

  /** The goroutine of the first one has launched it. */
  function FirstRuns(active: map<int, int>, heavy: set<int>, one: PC, two: PC): World {
    World(2, map[1 := [11]], active, heavy, map[1 := Busy], {(1, 10)}, [Adding(1, one), Adding(1, two)])
  }

  /** Its operation has been removed and ends, and nobody recognises it. */
  function Abandoned(three: PC): World {
    World(2, map[1 := [11]], map[], {}, map[1 := Busy], {}, [Adding(1, Done), Adding(1, Done), Finisher(1, three)])
  }

  lemma TwoAreAdded()
    ensures Leads(Start(2), TwoAdded(Begin, Begin), Anything())
  {
    hide Leads;
    var s, p := Start(2), Anything();
    LeadsToItself(s, p);
    var w := World(2, map[1 := [10]], map[], {}, map[], {}, [Adding(1, Begin)]);
    assert [] + [10] == [10];
    GoOn(s, s, NewRequest(1, 10), w, p);
    assert [10] + [11] == [10, 11] && map[1 := [10]][1 := [10, 11]] == map[1 := [10, 11]];
    GoOn(s, w, NewRequest(1, 11), TwoAdded(Begin, Begin), p);
  }

  lemma BothPass()
    ensures Steps(TwoAdded(Begin, Begin), 0, 5) == TwoAdded(Passed(10), Begin)
    ensures Steps(TwoAdded(Passed(10), Begin), 1, 5) == TwoAdded(Passed(10), Passed(10))
  {
    hide Steps;
    hide Advance;
    LooksAround(TwoAdded(Begin, Begin), 0, 10);
    LooksAround(TwoAdded(Passed(10), Begin), 1, 10);
  }

  lemma StartIsAllowed()
    ensures Allowed(Idle, Busy, true)
  {
  }

  lemma FirstLaunched()
    ensures Steps(TwoAdded(Passed(10), Passed(10)), 0, 4) == FirstRuns(map[1 := 10], {1}, Show, Passed(10))
  {
    hide Steps;
    hide Advance;
    hide Allowed;
    StartIsAllowed();
    Starts(TwoAdded(Passed(10), Passed(10)), 0, 10);
    assert Drop([10, 11], 10) == [11];
    var w := TwoAdded(Passed(10), Passed(10));
    assert w.waiting[1 := [11]] == map[1 := [11]] && w.heavy + {1} == {1} && w.executing + {(1, 10)} == {(1, 10)};
  }

  lemma FirstReturns()
    ensures Steps(FirstRuns(map[1 := 10], {1}, Show, Passed(10)), 0, 1) == FirstRuns(map[1 := 10], {1}, Done, Passed(10))
  {
  }

  /** The second goroutine cannot move the operation the first one has launched, and removes it. */
  lemma SecondTurnsBack()
    ensures Steps(FirstRuns(map[1 := 10], {1}, Done, Passed(10)), 1, 2) ==
            FirstRuns(map[1 := 10], {1}, Done, Undo1(10, true))
  {
    hide Display;
    hide Complete;
  }

  lemma SecondUnenters()
    ensures Steps(FirstRuns(map[1 := 10], {1}, Done, Undo1(10, true)), 1, 2) ==
            FirstRuns(map[1 := 10], {}, Done, Undo3(10, true))
  {
    hide Process;
    hide Display;
    hide Complete;
  }

  lemma SecondRemoves()
    ensures Steps(FirstRuns(map[1 := 10], {}, Done, Undo3(10, true)), 1, 3) == FirstRuns(map[], {}, Done, Done)
  {
  }

  lemma EndIsIgnored()
    ensures CanAct(FirstRuns(map[], {}, Done, Done), FinishOp(1, 10, false, []))
    ensures Act(FirstRuns(map[], {}, Done, Done), FinishOp(1, 10, false, [])) == Abandoned(End(10, false))
    ensures Steps(Abandoned(End(10, false)), 2, 1) == Abandoned(Done)
  {
  }

  predicate WillShow(pc: PC) {
    pc.Setting? || pc.Clearing3? || pc.Show3? || pc.Show4? || pc.Show5? || pc.CancelEnd? || InEnd(pc)
  }

  /** No goroutine is on its way to change what the repository shows. */
  ghost predicate NobodyShows(w: World, r: int) {
    forall t :: 0 <= t < |w.threads| && w.threads[t].repo == r ==> !WillShow(w.threads[t].pc)
  }

  /** One repository, two goroutines: the second one, failing to move the operation the first one has
      already launched, removes it; when that operation ends nobody recognises it, and the repository
      goes on being shown as working. */
  lemma RunningOperationIsLost() returns (trace: seq<World>)
    ensures IsTrace(trace) && trace[0] == Start(2)
    ensures Stuck(trace[|trace| - 1], 1) && NobodyShows(trace[|trace| - 1], 1)
  {
    hide Leads;
    hide Steps;
    hide Act;
    var s := Start(2);
    TwoAreAdded();
    BothPass();
    AnySteps(s, TwoAdded(Begin, Begin), 0, 5, TwoAdded(Passed(10), Begin));
    AnySteps(s, TwoAdded(Passed(10), Begin), 1, 5, TwoAdded(Passed(10), Passed(10)));
    FirstLaunched();
    AnySteps(s, TwoAdded(Passed(10), Passed(10)), 0, 4, FirstRuns(map[1 := 10], {1}, Show, Passed(10)));
    FirstReturns();
    AnySteps(s, FirstRuns(map[1 := 10], {1}, Show, Passed(10)), 0, 1, FirstRuns(map[1 := 10], {1}, Done, Passed(10)));
    SecondTurnsBack();
    AnySteps(s, FirstRuns(map[1 := 10], {1}, Done, Passed(10)), 1, 2, FirstRuns(map[1 := 10], {1}, Done, Undo1(10, true)));
    SecondUnenters();
    AnySteps(s, FirstRuns(map[1 := 10], {1}, Done, Undo1(10, true)), 1, 2,
             FirstRuns(map[1 := 10], {}, Done, Undo3(10, true)));
    SecondRemoves();
    AnySteps(s, FirstRuns(map[1 := 10], {}, Done, Undo3(10, true)), 1, 3, FirstRuns(map[], {}, Done, Done));
    EndIsIgnored();
    GoOn(s, FirstRuns(map[], {}, Done, Done), FinishOp(1, 10, false, []), Abandoned(End(10, false)), Anything());
    AnySteps(s, Abandoned(End(10, false)), 2, 1, Abandoned(Done));
    trace := TraceOf(s, Abandoned(Done), Anything());
  }

  // ---------------------------------------------------------------- what becomes of a stuck repository

  /** A step on `r` leaves what `r` shows and runs alone. */
  predicate Unmoved(w: World, w': World, t: nat, r: int)
    requires t < |w.threads| == |w'.threads|
  {
    && FaceOf(w', r) == FaceOf(w, r) && (NoneRuns(w.executing, r) ==> NoneRuns(w'.executing, r))
    && (w'.threads[t].repo == r ==> !WillShow(w'.threads[t].pc))
  }

  lemma ProcessUnmoved(w: World, t: nat, r: int)
    requires t < |w.threads| && InProcess(w.threads[t].pc) && FaceOf(w, r) == Busy
    requires w.threads[t].repo == r ==> !WillShow(w.threads[t].pc)
    ensures |Process(w, t).threads| == |w.threads| && Unmoved(w, Process(w, t), t, r)
  {
    if w.threads[t].pc.Setting? {
      LaunchUnmoved(w, t, r);
    } else {
      var pc := w.threads[t].pc;
      if pc.Passed? || pc.Moved? || pc.Entered? {
        MoveUnmoved(w, t, r);
      } else {
        hide NoneRuns;
      }
    }
  }

  lemma MoveUnmoved(w: World, t: nat, r: int)
    requires t < |w.threads| && FaceOf(w, r) == Busy
    requires w.threads[t].pc.Passed? || w.threads[t].pc.Moved? || w.threads[t].pc.Entered?
    ensures |Process(w, t).threads| == |w.threads| && Unmoved(w, Process(w, t), t, r)
  {
    hide NoneRuns;
  }

  lemma LaunchUnmoved(w: World, t: nat, r: int)
    requires t < |w.threads| && w.threads[t].pc.Setting? && w.threads[t].repo != r
    ensures |Process(w, t).threads| == |w.threads| && Unmoved(w, Process(w, t), t, r)
  {
  }

  lemma RemoveUnmoved(w: World, t: nat, r: int)
    requires t < |w.threads| && InRemove(w.threads[t].pc) && FaceOf(w, r) == Busy
    requires w.threads[t].repo == r ==> !WillShow(w.threads[t].pc)
    ensures |Remove(w, t).threads| == |w.threads| && Unmoved(w, Remove(w, t), t, r)
  {
    hide NoneRuns;
    var pc := w.threads[t].pc;
    if pc.Clearing? || pc.Clearing1? || pc.Clearing2? || pc.Clearing3? {
      ClearingUnmoved(w, t, r);
    } else {
      match pc
      case Undo(o, own) =>
      case Undo1(o, own) =>
      case Undo2(o, own) =>
      case Undo3(o, own) =>
    }
  }

  lemma ClearingUnmoved(w: World, t: nat, r: int)
    requires t < |w.threads| && FaceOf(w, r) == Busy && (w.threads[t].repo == r ==> !WillShow(w.threads[t].pc))
    requires var pc := w.threads[t].pc; pc.Clearing? || pc.Clearing1? || pc.Clearing2? || pc.Clearing3?
    ensures |Remove(w, t).threads| == |w.threads| && Unmoved(w, Remove(w, t), t, r)
  {
    hide NoneRuns;
  }

  lemma DisplayUnmoved(w: World, t: nat, r: int)
    requires t < |w.threads| && InDisplay(w.threads[t].pc) && FaceOf(w, r) == Busy
    requires w.threads[t].repo == r ==> !WillShow(w.threads[t].pc) && !w.threads[t].pc.Show2?
    ensures |Display(w, t).threads| == |w.threads| && Unmoved(w, Display(w, t), t, r)
  {
    hide NoneRuns;
  }

  lemma CompleteUnmoved(w: World, t: nat, r: int)
    requires t < |w.threads| && InComplete(w.threads[t].pc) && FaceOf(w, r) == Busy
    requires w.threads[t].repo == r ==> !WillShow(w.threads[t].pc)
    ensures |Complete(w, t).threads| == |w.threads| && Unmoved(w, Complete(w, t), t, r)
  {
    hide NoneRuns;
    match w.threads[t].pc
    case End(o, e) =>
    case End1(e) =>
    case End2(e) =>
    case End3(e) =>
    case End4(e, f) =>
    case End5(f) =>
    case End6(f, g) =>
    case End7(g) =>
    case Cancel(o) =>
    case Cancel1(o) =>
    case CancelEnd(o) =>
    case Done =>
  }

  lemma AdvanceUnmoved(w: World, t: nat, r: int)
    requires t < |w.threads| && FaceOf(w, r) == Busy
    requires w.threads[t].repo == r ==> !WillShow(w.threads[t].pc) && !w.threads[t].pc.Show2?
    ensures |Advance(w, t).threads| == |w.threads| && Unmoved(w, Advance(w, t), t, r)
  {
    hide Unmoved;
    hide Process;
    hide Remove;
    hide Display;
    hide Complete;
    var pc := w.threads[t].pc;
    if InProcess(pc) {
      ProcessUnmoved(w, t, r);
    } else if InRemove(pc) {
      RemoveUnmoved(w, t, r);
    } else if InDisplay(pc) {
      DisplayUnmoved(w, t, r);
    } else {
      CompleteUnmoved(w, t, r);
    }
  }

  /** Goroutine `t` is at the end of an addition to `r` and about to look at the state. */
  predicate LooksAtState(w: World, a: Action, r: int) {
    a.ThreadStep? && a.thread < |w.threads| && w.threads[a.thread].repo == r && w.threads[a.thread].pc.Show2?
  }

  /** A stuck repository stays stuck, whatever is added, started, cancelled or completed, until the end
      of an addition that found the limit reached looks at its state. */
  lemma StuckUntilShown(w: World, a: Action, r: int)
    requires Stuck(w, r) && NobodyShows(w, r) && CanAct(w, a) && !LooksAtState(w, a, r)
    ensures Stuck(Act(w, a), r) && NobodyShows(Act(w, a), r)
  {
    match a
    case ThreadStep(t) =>
      AdvanceUnmoved(w, t, r);
      AdvanceFrame(w, t);
      var w' := Advance(w, t);
      hide Advance;
      forall u | 0 <= u < |w'.threads| && w'.threads[u].repo == r ensures !WillShow(w'.threads[u].pc) {
        assert u != t ==> w'.threads[u] == w.threads[u];
      }
    case NewRequest(k, o) =>
    case FinishOp(k, o, e, rest) =>
    case CancelRequest(k, o, rest) =>
    case ClearError(k) =>
  }

  /** What a stuck repository starts it gives up again: the table refuses it. */
  lemma StuckRefusesStarts(w: World, t: nat, r: int)
    requires Stuck(w, r) && t < |w.threads| && w.threads[t].repo == r && w.threads[t].pc.Entered?
    ensures Advance(w, t) == Go(w, t, Undo(w.threads[t].pc.op, true))
  {
  }

  /** The end of an addition to a repository shown as working, where nothing is active but something
      waits. */
  lemma ShowsQueued(w: World, t: nat, r: int)
    requires t < |w.threads| && w.threads[t].pc == Show && w.threads[t].repo == r
    requires r !in w.active && Queue(w, r) != [] && FaceOf(w, r) == Busy
    ensures Steps(w, t, 3) == Go(w, t, Show3(Busy))
    ensures Steps(Go(w, t, Show3(Busy)), t, 3) == PutFace(Go(w, t, Done), r, Queued)
  {
    SeesWork(w, t, r);
    ChoosesQueued(w, t, r);
  }

  lemma SeesWork(w: World, t: nat, r: int)
    requires t < |w.threads| && w.threads[t].pc == Show && w.threads[t].repo == r
    requires r !in w.active && Queue(w, r) != [] && FaceOf(w, r) == Busy
    ensures Steps(w, t, 3) == Go(w, t, Show3(Busy))
  {
    DisplayReads(w, t, r);
    hide Advance;
    assert Steps(w, t, 1) == Go(w, t, Show1);
    assert Steps(w, t, 2) == Go(w, t, Show2);
  }

  lemma DisplayReads(w: World, t: nat, r: int)
    requires t < |w.threads| && w.threads[t].pc == Show && w.threads[t].repo == r
    requires r !in w.active && Queue(w, r) != [] && FaceOf(w, r) == Busy
    ensures Advance(w, t) == Go(w, t, Show1) && Advance(Go(w, t, Show1), t) == Go(w, t, Show2)
    ensures Advance(Go(w, t, Show2), t) == Go(w, t, Show3(Busy))
  {
    hide Process;
    hide Remove;
    hide Complete;
  }

  lemma ChoosesQueued(w: World, t: nat, r: int)
    requires t < |w.threads| && w.threads[t].repo == r && Queue(w, r) != []
    ensures Steps(Go(w, t, Show3(Busy)), t, 3) == PutFace(Go(w, t, Done), r, Queued)
  {
    DisplayChooses(w, t, r);
    hide Advance;
    var v := Go(w, t, Show3(Busy));
    assert Steps(v, t, 1) == Go(w, t, Show4(Busy));
    assert Steps(v, t, 2) == Go(w, t, Show5);
  }

  lemma DisplayChooses(w: World, t: nat, r: int)
    requires t < |w.threads| && w.threads[t].repo == r && Queue(w, r) != []
    ensures Advance(Go(w, t, Show3(Busy)), t) == Go(w, t, Show4(Busy))
    ensures Advance(Go(w, t, Show4(Busy)), t) == Go(w, t, Show5)
    ensures Advance(Go(w, t, Show5), t) == PutFace(Go(w, t, Done), r, Queued)
  {
    hide Process;
    hide Remove;
    hide Complete;
  }

  lemma TurnedAway(w: World, t: nat, r: int)
    requires t < |w.threads| && w.threads[t] == Thread(r, Begin, true, [])
    requires r !in w.active && Queue(w, r) != [] && !MayStart(w, r)
    ensures Steps(w, t, 3) == Go(w, t, Show)
  {
    hide Remove;
    hide Display;
    hide Complete;
    assert Steps(w, t, 1) == Go(w, t, NoActive);
    assert Steps(w, t, 2) == Go(w, t, Got(Queue(w, r)[0]));
  }

  /** That addition does correct it: when one comes while the limit is reached, the repository shows
      itself as queued, and from there its next operation can start. */
  lemma StuckIsShown(w: World, r: int, o: int) returns (v: World)
    requires Stuck(w, r) && r !in w.active && !MayStart(w, r)
    ensures Leads(w, v, Anything()) && FaceOf(v, r) == Queued
  {
    hide Leads;
    hide Steps;
    var t, u := |w.threads|, Act(w, NewRequest(r, o));
    assert u.threads[t] == Thread(r, Begin, true, []) && Queue(u, r) == Queue(w, r) + [o];
    LeadsToItself(w, Anything());
    GoOn(w, w, NewRequest(r, o), u, Anything());
    TurnedAway(u, t, r);
    AnySteps(w, u, t, 3, Go(u, t, Show));
    v := PutFace(Go(u, t, Done), r, Queued);
    ShowsQueued(Go(u, t, Show), t, r);
    AnySteps(w, Go(u, t, Show), t, 3, Go(u, t, Show3(Busy)));
    AnySteps(w, Go(u, t, Show3(Busy)), t, 3, v);
  }

  // ---------------------------------------------------------------- requests that disappear

  predicate Inside(pc: PC) {
    InProcess(pc) || InRemove(pc)
  }

  /** No repository has two goroutines inside processQueue, and the operation never runs. */
  ghost predicate OneInside(w: World, r: int, o: int) {
    && (r, o) !in w.executing
    && forall t, u :: 0 <= t < u < |w.threads| && w.threads[t].repo == w.threads[u].repo ==>
         !Inside(w.threads[t].pc) || !Inside(w.threads[u].pc)
  }

  ghost function Undisturbed(r: int, o: int): World -> bool {
    (w: World) => OneInside(w, r, o)
  }

  /** Every goroutine has come to its end, and `o` is neither waiting nor active nor running. */
  predicate Gone(w: World, r: int, o: int) {
    && !Knows(w, r, o) && (r, o) !in w.executing
    && forall th <- w.threads :: th.repo == r ==> th.pc == Done
  }

  /** Goroutine `t` takes `n` sections; no other one is inside processQueue. */
  lemma QuietSteps(u: World, v: World, t: nat, n: nat, w: World)
    requires Leads(u, v, Undisturbed(1, 11)) && t < |v.threads| && v.threads[t].rest == [] && w == Steps(v, t, n)
    requires (1, 11) !in w.executing
    requires forall i :: 0 <= i < |v.threads| && i != t ==> !Inside(v.threads[i].pc)
    ensures Leads(u, w, Undisturbed(1, 11))
  {
    hide Leads;
    hide Inside;
    forall k: nat | k <= n ensures OneInside(Steps(v, t, k), 1, 11) {
      StepsFrame(v, t, k);
      StepsMore(v, t, k, n);
    }
    hide OneInside;
    StepsLead(v, t, n, Undisturbed(1, 11));
    Joined(u, v, w, Undisturbed(1, 11));
  }

  /** Repository 1 adds operation 10 and runs it. */
  function Alone(waiting: seq<int>, pc: PC): World {
    World(1, map[1 := waiting], map[], {}, map[], {}, [Adding(1, pc)])
  }

  function Running(pc: PC): World {
    World(1, map[1 := []], map[1 := 10], {1}, map[1 := Busy], {(1, 10)}, [Adding(1, pc)])
  }

  /** It has returned; its goroutine is at `end`. */
  function Returning(heavy: set<int>, active: map<int, int>, end: PC): World {
    World(1, map[1 := []], active, heavy, map[1 := Busy], {}, [Adding(1, Done), Finisher(1, end)])
  }

  /** A request for operation 11 is at `pc` while the completion is at `end`. */
  function Crowd(heavy: set<int>, active: map<int, int>, waiting: seq<int>, face: Face, pc: PC, end: PC): World {
    World(1, map[1 := waiting], active, heavy, map[1 := face], {}, [Adding(1, Done), Finisher(1, end), Adding(1, pc)])
  }

  function Asking(pc: PC): World {
    Crowd({}, map[], [11], Busy, pc, End3(false))
  }

  function Moving(heavy: set<int>, active: map<int, int>, pc: PC): World {
    Crowd(heavy, active, [], Busy, pc, End3(false))
  }

  function Ended(face: Face, end: PC): World {
    Crowd({}, map[], [], face, Done, end)
  }

  lemma FirstStarts()
    ensures Act(Start(1), NewRequest(1, 10)) == Alone([10], Begin)
    ensures Steps(Alone([10], Begin), 0, 5) == Alone([10], Passed(10))
  {
    hide Steps;
    hide Advance;
    assert [] + [10] == [10];
    LooksAround(Alone([10], Begin), 0, 10);
  }

  lemma FirstIsLaunched()
    ensures Steps(Alone([10], Passed(10)), 0, 4) == Running(Show)
  {
    hide Steps;
    hide Advance;
    hide Allowed;
    StartIsAllowed();
    Starts(Alone([10], Passed(10)), 0, 10);
    assert Drop([10], 10) == [];
    var w := Alone([10], Passed(10));
    assert w.waiting[1 := []] == map[1 := []] && w.heavy + {1} == {1} && w.executing + {(1, 10)} == {(1, 10)};
  }

  lemma FirstIsDisplayed()
    ensures Steps(Running(Show), 0, 1) == Running(Done)
  {
  }

  lemma OperationReturns()
    ensures CanAct(Running(Done), FinishOp(1, 10, false, []))
    ensures Act(Running(Done), FinishOp(1, 10, false, [])) == Returning({1}, map[1 := 10], End(10, false))
  {
  }

  /** The goroutine of operation 10 empties the active slot. */
  lemma ActiveIsEmptied()
    ensures Steps(Returning({1}, map[1 := 10], End(10, false)), 1, 3) == Returning({}, map[], End3(false))
  {
    hide Process;
    hide Remove;
    hide Display;
  }

  lemma RequestComes()
    ensures Act(Returning({}, map[], End3(false)), NewRequest(1, 11)) == Asking(Begin)
  {
    assert [] + [11] == [11] && map[1 := []][1 := [11]] == map[1 := [11]];
  }

  lemma RequestPasses()
    ensures Steps(Asking(Begin), 2, 5) == Asking(Passed(11))
  {
    hide Remove;
    hide Display;
    hide Complete;
  }

  /** It is moved to active and entered, and finds the repository still shown as working. */
  lemma RequestIsRefused()
    ensures Steps(Asking(Passed(11)), 2, 3) == Moving({1}, map[1 := 11], Undo(11, true))
  {
    hide Remove;
    hide Display;
    hide Complete;
  }

  lemma RequestTurnsBack()
    ensures Steps(Moving({1}, map[1 := 11], Undo(11, true)), 2, 3) == Moving({}, map[1 := 11], Undo3(11, true))
  {
    hide Process;
    hide Display;
    hide Complete;
  }

  lemma RequestIsTakenBack()
    ensures Steps(Moving({}, map[1 := 11], Undo3(11, true)), 2, 4) == Moving({}, map[], Done)
  {
    hide Process;
    hide Display;
    hide Complete;
  }

  lemma CompletionChooses()
    ensures Steps(Ended(Busy, End3(false)), 1, 3) == Ended(Busy, End7(Idle))
  {
    hide Process;
    hide Remove;
    hide Display;
  }

  lemma CompletionGoesOn()
    ensures Steps(Ended(Busy, End7(Idle)), 1, 3) == Ended(Idle, Done)
  {
    hide Remove;
    hide Display;
  }

  lemma FirstOperation()
    ensures Leads(Start(1), Returning({}, map[], End3(false)), Undisturbed(1, 11))
  {
    hide Leads;
    hide Steps;
    hide Act;
    var s, p := Start(1), Undisturbed(1, 11);
    FirstStarts();
    LeadsToItself(s, p);
    GoOn(s, s, NewRequest(1, 10), Alone([10], Begin), p);
    QuietSteps(s, Alone([10], Begin), 0, 5, Alone([10], Passed(10)));
    FirstIsLaunched();
    QuietSteps(s, Alone([10], Passed(10)), 0, 4, Running(Show));
    FirstIsDisplayed();
    QuietSteps(s, Running(Show), 0, 1, Running(Done));
    OperationReturns();
    GoOn(s, Running(Done), FinishOp(1, 10, false, []), Returning({1}, map[1 := 10], End(10, false)), p);
    ActiveIsEmptied();
    QuietSteps(s, Returning({1}, map[1 := 10], End(10, false)), 1, 3, Returning({}, map[], End3(false)));
  }

  /** A request that is processed while a completion stands between emptying the active slot and setting
      the state is started, refused by the table and removed, although no repository ever has two
      goroutines inside processQueue; the repository ends idle. */
  lemma RequestIsLost() returns (asked: World, end: World)
    ensures Leads(Start(1), asked, Undisturbed(1, 11)) && Leads(asked, end, Undisturbed(1, 11))
    ensures 11 in Queue(asked, 1)
    ensures Gone(end, 1, 11) && FaceOf(end, 1) == Idle
  {
    hide Leads;
    hide Steps;
    hide Act;
    var p := Undisturbed(1, 11);
    asked, end := Asking(Begin), Ended(Idle, Done);
    FirstOperation();
    RequestComes();
    GoOn(Start(1), Returning({}, map[], End3(false)), NewRequest(1, 11), asked, p);
    LeadsToItself(asked, p);
    RequestPasses();
    QuietSteps(asked, asked, 2, 5, Asking(Passed(11)));
    RequestIsRefused();
    QuietSteps(asked, Asking(Passed(11)), 2, 3, Moving({1}, map[1 := 11], Undo(11, true)));
    RequestTurnsBack();
    QuietSteps(asked, Moving({1}, map[1 := 11], Undo(11, true)), 2, 3, Moving({}, map[1 := 11], Undo3(11, true)));
    RequestIsTakenBack();
    QuietSteps(asked, Moving({}, map[1 := 11], Undo3(11, true)), 2, 4, Ended(Busy, End3(false)));
    CompletionChooses();
    QuietSteps(asked, Ended(Busy, End3(false)), 1, 3, Ended(Busy, End7(Idle)));
    CompletionGoesOn();
    QuietSteps(asked, Ended(Busy, End7(Idle)), 1, 3, end);
  }

  /** No repository has two goroutines at work, and the operation never runs. */
  ghost function Apart(r: int, o: int): World -> bool {
    (w: World) => Serial(w) && (r, o) !in w.executing
  }

  /** Goroutine `t` takes `n` sections; the other one is on another repository. */
  lemma ApartSteps(u: World, v: World, t: nat, n: nat, w: World)
    requires Leads(u, v, Apart(2, 20)) && t < |v.threads| && v.threads[t].rest == [] && w == Steps(v, t, n)
    requires (2, 20) !in w.executing && |v.threads| == 2 && v.threads[0].repo != v.threads[1].repo
    ensures Leads(u, w, Apart(2, 20))
  {
    hide Leads;
    hide Steps;
    hide Serial;
    forall k: nat | k <= n ensures Apart(2, 20)(Steps(v, t, k)) {
      StepsFrame(v, t, k);
      StepsMore(v, t, k, n);
      PairIsSerial(Steps(v, t, k));
    }
    StepsLead(v, t, n, Apart(2, 20));
    Joined(u, v, w, Apart(2, 20));
  }

  lemma FewAreSerial(w: World)
    requires |w.threads| <= 1
    ensures Serial(w)
  {
  }

  lemma PairIsSerial(w: World)
    requires |w.threads| == 2 && w.threads[0].repo != w.threads[1].repo
    ensures Serial(w)
  {
  }

  /** Two repositories ask for the only place. */
  function Rivals(heavy: set<int>, active: map<int, int>, mine: seq<int>, yours: seq<int>, one: PC, two: PC): World {
    World(1, map[1 := mine, 2 := yours], active, heavy, map[], {}, [Adding(1, one), Adding(2, two)])
  }

  function Choice(one: PC, two: PC): World {
    Rivals({}, map[], [10], [20], one, two)
  }

  function Taken(yours: seq<int>, two: PC): World {
    Rivals({1}, map[1 := 10], [], yours, Entered(10), two)
  }

  lemma BothAsk()
    ensures Leads(Start(1), Choice(Begin, Begin), Apart(2, 20))
  {
    hide Leads;
    hide Advance;
    hide Serial;
    var s, w, p := Start(1), Alone([10], Begin), Apart(2, 20);
    FewAreSerial(s);
    FewAreSerial(w);
    PairIsSerial(Choice(Begin, Begin));
    LeadsToItself(s, p);
    assert [] + [10] == [10] && [] + [20] == [20];
    GoOn(s, s, NewRequest(1, 10), w, p);
    assert map[1 := [10]][2 := [20]] == map[1 := [10], 2 := [20]];
    GoOn(s, w, NewRequest(2, 20), Choice(Begin, Begin), p);
  }

  lemma BothSeeRoom()
    ensures Steps(Choice(Begin, Begin), 0, 5) == Choice(Passed(10), Begin)
    ensures Steps(Choice(Passed(10), Begin), 1, 4) == Choice(Passed(10), Willing(20))
  {
    hide Steps;
    hide Advance;
    LooksAround(Choice(Begin, Begin), 0, 10);
    LooksAround(Choice(Passed(10), Begin), 1, 20);
  }

  lemma WinnerEnters()
    ensures Steps(Choice(Passed(10), Willing(20)), 0, 2) == Taken([20], Willing(20))
  {
  }

  lemma LoserTurnsBack()
    ensures Steps(Taken([20], Willing(20)), 1, 3) == Taken([20], Undo3(20, true))
  {
  }

  lemma LoserUnqueued()
    ensures Steps(Taken([20], Undo3(20, true)), 1, 1) == Taken([], Clearing)
  {
    hide Process;
    hide Display;
    hide Complete;
    assert Drop([20], 20) == [];
  }

  lemma LoserReturns()
    ensures Steps(Taken([], Clearing), 1, 3) == Taken([], Done)
  {
    hide Process;
    hide Display;
    hide Complete;
  }

  /** Two repositories, one goroutine each, a limit of one: the second look at the limit fails for the
      loser, and its operation, which had only to wait, is removed. */
  lemma LoserIsDropped() returns (asked: World, end: World)
    ensures Leads(Start(1), asked, Apart(2, 20)) && Leads(asked, end, Apart(2, 20))
    ensures 20 in Queue(asked, 2) && Gone(end, 2, 20)
  {
    hide Leads;
    hide Steps;
    hide Serial;
    asked, end := Choice(Begin, Begin), Taken([], Done);
    BothAsk();
    PairIsSerial(asked);
    LeadsToItself(asked, Apart(2, 20));
    BothSeeRoom();
    ApartSteps(asked, asked, 0, 5, Choice(Passed(10), Begin));
    ApartSteps(asked, Choice(Passed(10), Begin), 1, 4, Choice(Passed(10), Willing(20)));
    WinnerEnters();
    ApartSteps(asked, Choice(Passed(10), Willing(20)), 0, 2, Taken([20], Willing(20)));
    LoserTurnsBack();
    ApartSteps(asked, Taken([20], Willing(20)), 1, 3, Taken([20], Undo3(20, true)));
    LoserUnqueued();
    ApartSteps(asked, Taken([20], Undo3(20, true)), 1, 1, Taken([], Clearing));
    LoserReturns();
    ApartSteps(asked, Taken([], Clearing), 1, 3, end);
  }
}
