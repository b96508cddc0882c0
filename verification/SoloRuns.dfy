/** What the calls of the scheduler come to when no other goroutine takes a section in between
    (backend/app/repository/queue_manager.go): the sections of one goroutine, one after the other, are one
    step, which the predicates here describe as a whole. */
module SoloRuns {
  import opened StartRace
  import opened RaceRuns

  /** Nothing but the goroutines may differ. */
  predicate SameSystem(v: World, w: World) {
    v == w.(threads := v.threads)
  }

  /** Goroutine `t`, left alone, comes from `w` to `v`. */
  ghost predicate Alone(w: World, t: nat, v: World) {
    t < |w.threads| && exists n: nat :: Steps(w, t, n) == v
  }

  /** Goroutine `t`, left alone, ends, with everything as in `v` and no other goroutine moved. */
  ghost predicate EndsAs(w: World, t: nat, v: World) {
    && t < |w.threads|
    && exists u :: Alone(w, t, u) && SameSystem(u, v) && |u.threads| == |w.threads| && u.threads[t].pc == Done
                   && u.threads == w.threads[t := u.threads[t]]
  }

  lemma AloneSelf(w: World, t: nat)
    requires t < |w.threads|
    ensures Alone(w, t, w)
  {
    assert Steps(w, t, 0) == w;
  }

  lemma AloneOn(w: World, t: nat, u: World)
    requires Alone(w, t, u)
    ensures t < |u.threads| && Alone(w, t, Advance(u, t))
  {
    var n: nat :| Steps(w, t, n) == u;
    assert Steps(w, t, n + 1) == Advance(u, t);
  }

  lemma {:induction false} StepsAdd(w: World, t: nat, m: nat, n: nat)
    requires t < |w.threads|
    ensures Steps(Steps(w, t, m), t, n) == Steps(w, t, m + n)
  {
    hide Advance;
    if n > 0 {
      StepsAdd(w, t, m, n - 1);
    }
  }

  lemma AloneTrans(w: World, t: nat, u: World, v: World)
    requires Alone(w, t, u) && Alone(u, t, v)
    ensures Alone(w, t, v)
  {
    var m: nat :| Steps(w, t, m) == u;
    var n: nat :| Steps(u, t, n) == v;
    StepsAdd(w, t, m, n);
  }

  lemma GoTwice(w: World, t: nat, p: PC, q: PC)
    requires t < |w.threads|
    ensures Go(Go(w, t, p), t, q) == Go(w, t, q)
    ensures Returned(Go(w, t, p), t) == Returned(w, t)
  {
    var s := w.threads;
    assert s[t := s[t].(pc := p)][t := s[t].(pc := q)] == s[t := s[t].(pc := q)];
    assert w.threads[t].rest != [] ==>
        s[t := s[t].(pc := p)][t := Thread(s[t].rest[0], Begin, false, s[t].rest[1..])] ==
        s[t := Thread(s[t].rest[0], Begin, false, s[t].rest[1..])];
  }

  /** Which part of the code the next section is in. */
  lemma Dispatched(w: World, t: nat, pc: PC)
    requires t < |w.threads|
    ensures InRemove(pc) ==> Advance(Go(w, t, pc), t) == Remove(Go(w, t, pc), t)
    ensures InDisplay(pc) ==> Advance(Go(w, t, pc), t) == Display(Go(w, t, pc), t)
    ensures InComplete(pc) ==> Advance(Go(w, t, pc), t) == Complete(Go(w, t, pc), t)
  {
    hide Process;
    hide Remove;
    hide Display;
    hide Complete;
  }

  // ---------------------------------------------------------------- processQueue

  /** The first operation in line is running. */
  function WithHeadRunning(w: World, r: int): World
    requires Queue(w, r) != []
  {
    var o := Queue(w, r)[0];
    w.(waiting := w.waiting[r := Queue(w, r)[1..]], active := w.active[r := o], heavy := w.heavy + {r},
       faces := w.faces[r := Busy], executing := w.executing + {(r, o)})
  }

  /** The first operation in line is gone. */
  function WithoutHead(w: World, r: int): World
    requires Queue(w, r) != []
  {
    w.(waiting := w.waiting[r := Queue(w, r)[1..]])
  }

  /** An idle repository with work in line and room for it. */
  predicate Looking(w: World, r: int) {
    r !in w.active && Queue(w, r) != [] && r !in w.heavy && |w.heavy| < w.max
  }

  /** processQueue as one step, and whether it succeeds: the first operation in line is started when the
      repository is idle or shown as queued, and thrown away when it shows anything else. */
  function Processed(w: World, r: int): (World, bool) {
    if !Looking(w, r) then (w, true)
    else if FaceOf(w, r) == Idle || FaceOf(w, r) == Queued then (WithHeadRunning(w, r), true)
    else (WithoutHead(w, r), false)
  }

  lemma DropHead(ops: seq<int>)
    requires ops != []
    ensures Drop(ops, ops[0]) == ops[1..]
  {
  }

  /** Where goroutine `t` is after a call of processQueue that has left the system as `v`. */
  function AfterProcess(v: World, t: nat, ok: bool): World
    requires t < |v.threads|
  {
    if ok then Returned(v, t) else Go(v, t, Done)
  }

  lemma ProcessAlone(w: World, t: nat)
    requires t < |w.threads| && w.threads[t].pc == Begin
    ensures var (v, ok) := Processed(w, w.threads[t].repo);
            v.threads == w.threads && Alone(w, t, AfterProcess(v, t, ok))
  {
    hide Advance;
    hide Alone;
    hide Returned;
    var r := w.threads[t].repo;
    AloneSelf(w, t);
    if !Looking(w, r) {
      NothingToStart(w, t);
    } else {
      var o := Queue(w, r)[0];
      LooksAround(w, t, o);
      StepsAlone(w, t, 5);
      FromThePass(w, t);
    }
  }

  lemma StepsAlone(w: World, t: nat, n: nat)
    requires t < |w.threads|
    ensures Alone(w, t, Steps(w, t, n))
  {
  }

  lemma NothingToStart(w: World, t: nat)
    requires t < |w.threads| && w.threads[t].pc == Begin && !Looking(w, w.threads[t].repo)
    ensures Alone(w, t, Returned(w, t))
  {
    hide Alone;
    hide Returned;
    hide Remove;
    hide Display;
    hide Complete;
    var r := w.threads[t].repo;
    AloneSelf(w, t);
    AloneOn(w, t, w);
    if r !in w.active {
      var u := Go(w, t, NoActive);
      GoTwice(w, t, NoActive, NoActive);
      AloneOn(w, t, u);
      if Queue(w, r) != [] {
        var o := Queue(w, r)[0];
        GoTwice(w, t, NoActive, Got(o));
        GoTwice(w, t, Got(o), Got(o));
        AloneOn(w, t, Go(w, t, Got(o)));
      }
    }
  }

  /** From the second check on. */
  lemma FromThePass(w: World, t: nat)
    requires t < |w.threads| && Looking(w, w.threads[t].repo)
    requires var r := w.threads[t].repo; Alone(w, t, Go(w, t, Passed(Queue(w, r)[0])))
    ensures var (v, ok) := Processed(w, w.threads[t].repo); Alone(w, t, AfterProcess(v, t, ok))
  {
    hide Advance;
    hide Alone;
    hide Returned;
    var r := w.threads[t].repo;
    var o := Queue(w, r)[0];
    DropHead(Queue(w, r));
    var u := Go(w, t, Passed(o));
    Enters(u, t, o);
    AloneOn(w, t, u);
    AloneOn(w, t, Advance(u, t));
    GoTwice(w, t, Passed(o), Entered(o));
    assert AtEntered(u, t, o, Entered(o)) == AtEntered(w, t, o, Entered(o));
    if FaceOf(w, r) == Idle || FaceOf(w, r) == Queued {
      Launching(w, t);
    } else {
      TurningBack(w, t);
    }
  }

  lemma Launching(w: World, t: nat)
    requires t < |w.threads| && Looking(w, w.threads[t].repo)
    requires var r := w.threads[t].repo;
             && Alone(w, t, AtEntered(w, t, Queue(w, r)[0], Entered(Queue(w, r)[0])))
             && (FaceOf(w, r) == Idle || FaceOf(w, r) == Queued)
    ensures Alone(w, t, Returned(WithHeadRunning(w, w.threads[t].repo), t))
  {
    hide Alone;
    hide Returned;
    hide Remove;
    hide Display;
    hide Complete;
    var r := w.threads[t].repo;
    var o := Queue(w, r)[0];
    DropHead(Queue(w, r));
    AloneOn(w, t, AtEntered(w, t, o, Entered(o)));
    var u := AtEntered(w, t, o, Setting(o));
    GoTwice(w, t, Entered(o), Setting(o));
    assert Advance(AtEntered(w, t, o, Entered(o)), t) == u;
    AloneOn(w, t, u);
    LastOfStart(w, t, u, o);
  }

  lemma LastOfStart(w: World, t: nat, u: World, o: int)
    requires t < |w.threads| && Queue(w, w.threads[t].repo) != [] && Queue(w, w.threads[t].repo)[0] == o
    requires u == AtEntered(w, t, o, Setting(o))
    ensures Advance(u, t) == Returned(WithHeadRunning(w, w.threads[t].repo), t)
  {
    hide Remove;
    hide Display;
    hide Complete;
    hide Returned;
    var r := w.threads[t].repo;
    var x := PutFace(u, r, Busy).(executing := u.executing + {(r, o)});
    DropHead(Queue(w, r));
    assert x == Go(WithHeadRunning(w, r), t, Setting(o));
    GoTwice(WithHeadRunning(w, r), t, Setting(o), Setting(o));
    assert Advance(u, t) == Returned(x, t);
  }

  /** The state machine refuses: what has been moved and entered is taken out again. */
  lemma TurningBack(w: World, t: nat)
    requires t < |w.threads| && Looking(w, w.threads[t].repo)
    requires var r := w.threads[t].repo;
             && Alone(w, t, AtEntered(w, t, Queue(w, r)[0], Entered(Queue(w, r)[0])))
             && (FaceOf(w, r) == Busy || FaceOf(w, r) == Failed)
    ensures Alone(w, t, Go(WithoutHead(w, w.threads[t].repo), t, Done))
  {
    hide Alone;
    hide Process;
    hide Remove;
    hide Display;
    hide Complete;
    var r := w.threads[t].repo;
    var o := Queue(w, r)[0];
    Refused(w, t, o);
    AloneOn(w, t, AtEntered(w, t, o, Entered(o)));
    AloneOn(w, t, AtEntered(w, t, o, Undo(o, true)));
    AloneOn(w, t, AtEntered(w, t, o, Undo1(o, true)));
    Unentered(w, t, o);
    AloneOn(w, t, AtEntered(w, t, o, Undo2(o, true)));
    AloneOn(w, t, AtEntered(w, t, o, Undo3(o, true)).(heavy := w.heavy));
    NothingCleared(WithoutHead(w, r), t);
    AloneTrans(w, t, Go(WithoutHead(w, r), t, Clearing), Go(WithoutHead(w, r), t, Done));
  }

  lemma Refused(w: World, t: nat, o: int)
    requires t < |w.threads|
    requires var r := w.threads[t].repo; FaceOf(w, r) == Busy || FaceOf(w, r) == Failed
    ensures Advance(AtEntered(w, t, o, Entered(o)), t) == AtEntered(w, t, o, Undo(o, true))
    ensures Advance(AtEntered(w, t, o, Undo(o, true)), t) == AtEntered(w, t, o, Undo1(o, true))
    ensures Advance(AtEntered(w, t, o, Undo1(o, true)), t) == AtEntered(w, t, o, Undo2(o, true))
  {
    hide Display;
    hide Complete;
    GoTwice(w, t, Entered(o), Undo(o, true));
    GoTwice(w, t, Undo(o, true), Undo1(o, true));
    GoTwice(w, t, Undo1(o, true), Undo2(o, true));
  }

  lemma Unentered(w: World, t: nat, o: int)
    requires t < |w.threads|
    requires var r := w.threads[t].repo; Looking(w, r) && Queue(w, r)[0] == o
    ensures Advance(AtEntered(w, t, o, Undo2(o, true)), t) == AtEntered(w, t, o, Undo3(o, true)).(heavy := w.heavy)
    ensures Advance(AtEntered(w, t, o, Undo3(o, true)).(heavy := w.heavy), t) == Go(WithoutHead(w, w.threads[t].repo), t, Clearing)
  {
    hide Process;
    hide Display;
    hide Complete;
    var r := w.threads[t].repo;
    GoTwice(w, t, Undo2(o, true), Undo3(o, true));
    GoTwice(w, t, Undo3(o, true), Clearing);
    assert (w.heavy + {r}) - {r} == w.heavy;
    assert w.active[r := o] - {r} == w.active;
    DropHead(Queue(w, r));
  }

  // ---------------------------------------------------------------- one repository after the other

  /** processQueue on these repositories in turn, up to the first failure. */
  function Swept(w: World, repos: seq<int>): World
    decreases |repos|
  {
    if repos == [] then w
    else
      var (v, ok) := Processed(w, repos[0]);
      if ok then Swept(v, repos[1..]) else v
  }

  lemma ProcessedSame(w: World, r: int, threads: seq<Thread>)
    ensures var (v, ok) := Processed(w, r); Processed(w.(threads := threads), r) == (v.(threads := threads), ok)
  {
  }

  lemma {:induction false} SweptSame(w: World, repos: seq<int>, threads: seq<Thread>)
    ensures Swept(w.(threads := threads), repos) == Swept(w, repos).(threads := threads)
    decreases |repos|
  {
    hide Processed;
    if repos != [] {
      ProcessedSame(w, repos[0], threads);
      SweptSame(Processed(w, repos[0]).0, repos[1..], threads);
    }
  }

  lemma EndsHere(w: World, t: nat, u: World, v: World)
    requires Alone(w, t, u) && SameSystem(u, v) && |u.threads| == |w.threads| && u.threads[t].pc == Done
    requires u.threads == w.threads[t := u.threads[t]]
    ensures EndsAs(w, t, v)
  {
  }

  lemma EndsLater(w: World, t: nat, u: World, v: World)
    requires Alone(w, t, u) && EndsAs(u, t, v) && |u.threads| == |w.threads| && u.threads == w.threads[t := u.threads[t]]
    ensures EndsAs(w, t, v)
  {
    hide Alone;
    var x :| Alone(u, t, x) && SameSystem(x, v) && |x.threads| == |u.threads| && x.threads[t].pc == Done
             && x.threads == u.threads[t := x.threads[t]];
    AloneTrans(w, t, u, x);
    assert w.threads[t := u.threads[t]][t := x.threads[t]] == w.threads[t := x.threads[t]];
  }

  lemma {:induction false} SweepAlone(w: World, t: nat)
    requires t < |w.threads| && w.threads[t].pc == Begin && !w.threads[t].adding
    ensures EndsAs(w, t, Swept(w, [w.threads[t].repo] + w.threads[t].rest))
    decreases |w.threads[t].rest|
  {
    hide Alone;
    hide Processed;
    hide EndsAs;
    var th := w.threads[t];
    var repos := [th.repo] + th.rest;
    var (v, ok) := Processed(w, th.repo);
    ProcessAlone(w, t);
    var u := AfterProcess(v, t, ok);
    assert repos[1..] == th.rest;
    if ok && th.rest != [] {
      SweepAlone(u, t);
      assert [th.rest[0]] + th.rest[1..] == th.rest;
      SweptSame(v, th.rest, u.threads);
      EndsLater(w, t, u, Swept(u, th.rest));
      EndsSame(w, t, Swept(u, th.rest), Swept(w, repos));
    } else {
      EndsHere(w, t, u, v);
    }
  }

  lemma EndsSame(w: World, t: nat, v: World, x: World)
    requires EndsAs(w, t, v) && SameSystem(v, x)
    ensures EndsAs(w, t, x)
  {
  }

  // ---------------------------------------------------------------- additions

  /** A repository that is not working but has work in line is shown as queued, unless it is in error. */
  function Displayed(w: World, r: int): World {
    if r !in w.active && Queue(w, r) != [] && FaceOf(w, r) != Queued && FaceOf(w, r) != Failed then PutFace(w, r, Queued) else w
  }

  lemma DisplayAlone(w: World, t: nat)
    requires t < |w.threads|
    ensures Alone(Go(w, t, Show), t, Go(Displayed(w, w.threads[t].repo), t, Done))
  {
    hide Alone;
    hide Process;
    hide Remove;
    hide Complete;
    var s, r, f := Go(w, t, Show), w.threads[t].repo, FaceOf(w, w.threads[t].repo);
    AloneSelf(s, t);
    AloneOn(s, t, s);
    DisplaySections(w, t);
    LookSections(w, t, f);
    if r !in w.active {
      AloneOn(s, t, Go(w, t, Show1));
      if Queue(w, r) != [] {
        AloneOn(s, t, Go(w, t, Show2));
        if f != Queued {
          LaterDisplaySections(w, t, f);
          AloneOn(s, t, Go(w, t, Show3(f)));
          AloneOn(s, t, Go(w, t, Show4(f)));
          if f != Failed {
            AloneOn(s, t, Go(w, t, Show5));
          }
        }
      }
    }
  }

  lemma DisplaySections(w: World, t: nat)
    requires t < |w.threads|
    ensures Advance(Go(w, t, Show), t) == Go(w, t, if w.threads[t].repo in w.active then Done else Show1)
    ensures Advance(Go(w, t, Show1), t) == Go(w, t, if Queue(w, w.threads[t].repo) == [] then Done else Show2)
  {
    hide Process;
    hide Remove;
    hide Complete;
    hide Advance;
    Dispatched(w, t, Show);
    Dispatched(w, t, Show1);
    GoTwice(w, t, Show, Done);
    GoTwice(w, t, Show, Show1);
    GoTwice(w, t, Show1, Done);
    GoTwice(w, t, Show1, Show2);
  }

  lemma LookSections(w: World, t: nat, f: Face)
    requires t < |w.threads| && f == FaceOf(w, w.threads[t].repo)
    ensures Advance(Go(w, t, Show2), t) == Go(w, t, if f == Queued then Done else Show3(f))
    ensures Queue(w, w.threads[t].repo) != [] ==> Advance(Go(w, t, Show3(f)), t) == Go(w, t, Show4(f))
  {
    hide Process;
    hide Remove;
    hide Complete;
    hide Advance;
    Dispatched(w, t, Show2);
    Dispatched(w, t, Show3(f));
    GoTwice(w, t, Show2, Done);
    GoTwice(w, t, Show2, Show3(f));
    GoTwice(w, t, Show3(f), Show4(f));
  }

  lemma LaterDisplaySections(w: World, t: nat, f: Face)
    requires t < |w.threads| && Queue(w, w.threads[t].repo) != [] && f != Queued
    ensures Advance(Go(w, t, Show4(f)), t) == Go(w, t, if f == Failed then Done else Show5)
    ensures Advance(Go(w, t, Show5), t) == Go(PutFace(w, w.threads[t].repo, Queued), t, Done)
  {
    hide Process;
    hide Remove;
    hide Complete;
    hide Advance;
    Dispatched(w, t, Show4(f));
    Dispatched(w, t, Show5);
    GoTwice(w, t, Show4(f), Done);
    GoTwice(w, t, Show4(f), Show5);
    GoTwice(w, t, Show5, Done);
  }

  /** An addition that nothing comes between: the operation joins the line, the queue is processed, and
      unless that fails the repository is shown. */
  lemma AdditionAlone(w: World, r: int, o: int)
    ensures var u := Act(w, NewRequest(r, o));
            var (v, ok) := Processed(u, r);
            && u == w.(waiting := w.waiting[r := Queue(w, r) + [o]], threads := w.threads + [Thread(r, Begin, true, [])])
            && EndsAs(u, |w.threads|, if ok then Displayed(v, r) else v)
  {
    hide Alone;
    hide Processed;
    hide Advance;
    hide Displayed;
    hide EndsAs;
    var u, t := Act(w, NewRequest(r, o)), |w.threads|;
    var (v, ok) := Processed(u, r);
    ProcessAlone(u, t);
    if ok {
      DisplayAlone(v, t);
      DisplayedThreads(v, r);
      AloneTrans(u, t, Go(v, t, Show), Go(Displayed(v, r), t, Done));
      EndsHere(u, t, Go(Displayed(v, r), t, Done), Displayed(v, r));
    } else {
      EndsHere(u, t, Go(v, t, Done), v);
    }
  }

  lemma DisplayedThreads(w: World, r: int)
    ensures Displayed(w, r).threads == w.threads
  {
  }

  // ---------------------------------------------------------------- endings

  /** The active operation and its entry are gone. */
  function Vacated(w: World, r: int): World {
    w.(active := w.active - {r}, heavy := w.heavy - {r})
  }

  /** The end of the active operation as one step: the repository shows the error, that work is in line, or
      that it is idle; only from the error state it cannot be shown as queued. */
  function Ended(w: World, r: int, error: bool): (World, bool) {
    var target := if error then Failed else if Queue(w, r) == [] then Idle else Queued;
    if FaceOf(w, r) == Failed && target == Queued then (Vacated(w, r), false)
    else (PutFace(Vacated(w, r), r, target), true)
  }

  /** What CompleteOperation comes to from there: its own queue is processed, then the others. */
  function Finished(w: World, r: int, error: bool, rest: seq<int>): World {
    var (v, ok) := Ended(w, r, error);
    if ok then Swept(v, [r] + rest) else v
  }

  lemma EndAlone(w: World, t: nat, error: bool)
    requires t < |w.threads| && w.threads[t].repo in w.active && !w.threads[t].adding
    ensures var th := w.threads[t]; EndsAs(Go(w, t, End1(error)), t, Finished(w, th.repo, error, th.rest))
  {
    hide Alone;
    hide Advance;
    hide EndsAs;
    hide Swept;
    var th := w.threads[t];
    var s, v := Go(w, t, End1(error)), Vacated(w, th.repo);
    EndSections(w, t, error);
    AloneSelf(s, t);
    AloneOn(s, t, s);
    AloneOn(s, t, Go(w, t, End2(error)).(heavy := v.heavy));
    assert Go(w, t, End3(error)).(heavy := v.heavy, active := v.active) == Go(v, t, End3(error));
    TargetAlone(v, t, error);
    var (x, ok) := Ended(w, th.repo, error);
    assert x == Ended(v, th.repo, error).0;
    AloneTrans(s, t, Go(v, t, End3(error)), Go(x, t, if ok then Begin else Done));
    GoThreads(w, t, End1(error), if ok then Begin else Done);
    if ok {
      SweepAlone(Go(x, t, Begin), t);
      SweptSame(x, [th.repo] + th.rest, Go(x, t, Begin).threads);
      EndsLater(s, t, Go(x, t, Begin), Swept(Go(x, t, Begin), [th.repo] + th.rest));
      EndsSame(s, t, Swept(Go(x, t, Begin), [th.repo] + th.rest), Swept(x, [th.repo] + th.rest));
    } else {
      EndsHere(s, t, Go(x, t, Done), x);
    }
  }

  lemma GoThreads(w: World, t: nat, p: PC, q: PC)
    requires t < |w.threads|
    ensures Go(w, t, q).threads == Go(w, t, p).threads[t := Go(w, t, q).threads[t]]
  {
  }

  lemma EndSections(w: World, t: nat, error: bool)
    requires t < |w.threads| && w.threads[t].repo in w.active
    ensures var r := w.threads[t].repo;
            var v := Vacated(w, r);
            && Advance(Go(w, t, End1(error)), t) == Go(w, t, End2(error)).(heavy := v.heavy)
            && Advance(Go(w, t, End2(error)).(heavy := v.heavy), t) == Go(w, t, End3(error)).(heavy := v.heavy, active := v.active)
  {
    hide Process;
    hide Remove;
    hide Display;
    GoTwice(w, t, End1(error), End2(error));
    GoTwice(w, t, End2(error), End3(error));
  }

  /** From the look at the state to the setting of the new one. */
  lemma TargetAlone(w: World, t: nat, error: bool)
    requires t < |w.threads| && w.threads[t].repo !in w.active && w.threads[t].repo !in w.heavy
    ensures var (x, ok) := Ended(w, w.threads[t].repo, error);
            Alone(Go(w, t, End3(error)), t, Go(x, t, if ok then Begin else Done))
  {
    hide Alone;
    hide Advance;
    var r, f := w.threads[t].repo, FaceOf(w, w.threads[t].repo);
    var s := Go(w, t, End3(error));
    var target := if error then Failed else if Queue(w, r) == [] then Idle else Queued;
    assert Vacated(w, r) == w by {
      assert w.active - {r} == w.active && w.heavy - {r} == w.heavy;
    }
    TargetSections(w, t, error, f);
    ChoiceSection(w, t, error, f);
    LastSections(w, t, f, target);
    AloneSelf(s, t);
    AloneOn(s, t, s);
    AloneOn(s, t, Go(w, t, End4(error, f)));
    if !error && Queue(w, r) != [] {
      AloneOn(s, t, Go(w, t, End5(f)));
    }
    AloneOn(s, t, Go(w, t, End6(f, target)));
    if !(f == Failed && target == Queued) {
      AloneOn(s, t, Go(w, t, End7(target)));
    }
  }

  lemma TargetSections(w: World, t: nat, error: bool, f: Face)
    requires t < |w.threads| && f == FaceOf(w, w.threads[t].repo)
    ensures Advance(Go(w, t, End3(error)), t) == Go(w, t, End4(error, f))
    ensures Queue(w, w.threads[t].repo) != [] ==> Advance(Go(w, t, End5(f)), t) == Go(w, t, End6(f, Queued))
  {
    hide Process;
    hide Remove;
    hide Display;
    hide Advance;
    Dispatched(w, t, End3(error));
    Dispatched(w, t, End5(f));
    GoTwice(w, t, End3(error), End4(error, f));
    GoTwice(w, t, End5(f), End6(f, Queued));
  }

  lemma ChoiceSection(w: World, t: nat, error: bool, f: Face)
    requires t < |w.threads|
    ensures Advance(Go(w, t, End4(error, f)), t) ==
            Go(w, t, if error then End6(f, Failed) else if Queue(w, w.threads[t].repo) == [] then End6(f, Idle) else End5(f))
  {
    hide Process;
    hide Remove;
    hide Display;
    hide Advance;
    Dispatched(w, t, End4(error, f));
    GoTwice(w, t, End4(error, f), End6(f, Failed));
    GoTwice(w, t, End4(error, f), End6(f, Idle));
    GoTwice(w, t, End4(error, f), End5(f));
  }

  lemma LastSections(w: World, t: nat, f: Face, target: Face)
    requires t < |w.threads|
    requires target == Failed || target == if Queue(w, w.threads[t].repo) == [] then Idle else Queued
    ensures Advance(Go(w, t, End6(f, target)), t) == Go(w, t, if f == Failed && target == Queued then Done else End7(target))
    ensures Advance(Go(w, t, End7(target)), t) == Go(PutFace(w, w.threads[t].repo, target), t, Begin)
  {
    hide Process;
    hide Remove;
    hide Display;
    hide MayStart;
    hide Knows;
    hide Drop;
    hide Returned;
    hide Advance;
    Dispatched(w, t, End6(f, target));
    Dispatched(w, t, End7(target));
    GoTwice(w, t, End6(f, target), Done);
    GoTwice(w, t, End6(f, target), End7(target));
    GoTwice(w, t, End7(target), Begin);
  }

  /** The end of an operation that nothing comes between: nothing happens when it is no longer the active
      one; otherwise it makes way, and its own repository and then the others are processed. */
  lemma CompletionAlone(w: World, r: int, o: int, error: bool, rest: seq<int>)
    requires CanAct(w, FinishOp(r, o, error, rest))
    ensures var u := Act(w, FinishOp(r, o, error, rest));
            && u == w.(executing := w.executing - {(r, o)}, threads := w.threads + [Thread(r, End(o, error), false, rest)])
            && EndsAs(u, |w.threads|, if IsActive(w, r, o) then Finished(u, r, error, rest) else u)
  {
    hide Alone;
    hide EndsAs;
    hide Finished;
    hide Process;
    hide Remove;
    hide Display;
    var u, t := Act(w, FinishOp(r, o, error, rest)), |w.threads|;
    AloneSelf(u, t);
    AloneOn(u, t, u);
    if IsActive(w, r, o) {
      assert Advance(u, t) == Go(u, t, End1(error));
      EndAlone(u, t, error);
      GoThreads(u, t, End(o, error), End1(error));
      EndsLater(u, t, Go(u, t, End1(error)), Finished(u, r, error, rest));
    } else {
      assert Advance(u, t) == Go(u, t, Done);
      EndsHere(u, t, Go(u, t, Done), u);
    }
  }

  // ---------------------------------------------------------------- cancellations

  /** The first occurrence leaves the line. */
  lemma {:induction false} DropsOne(ops: seq<int>, o: int) returns (i: nat)
    requires o in ops
    ensures i < |ops| && ops[i] == o && o !in ops[..i] && Drop(ops, o) == ops[..i] + ops[i + 1..]
  {
    if ops[0] == o {
      i := 0;
    } else {
      var k := DropsOne(ops[1..], o);
      i := k + 1;
      assert ops[..i] == [ops[0]] + ops[1..][..k] && ops[i + 1..] == ops[1..][k + 1..];
    }
  }

  /** A waiting operation is gone, and a repository shown as queued for its sake is idle. */
  function WithoutWaiting(w: World, r: int, o: int): World {
    var v := w.(waiting := w.waiting[r := Drop(Queue(w, r), o)]);
    if r !in w.active && Queue(v, r) == [] && FaceOf(w, r) == Queued then PutFace(v, r, Idle) else v
  }

  /** A cancellation that nothing comes between: the active operation is asked to stop while the repository
      shows that it is working, and completed otherwise; a waiting one leaves the line. */
  lemma CancellationAlone(w: World, r: int, o: int, rest: seq<int>)
    requires CanAct(w, CancelRequest(r, o, rest))
    ensures var u := Act(w, CancelRequest(r, o, rest));
            && u == w.(threads := w.threads + [Thread(r, Cancel(o), false, rest)])
            && EndsAs(u, |w.threads|,
                      if IsActive(w, r, o) then if FaceOf(w, r) == Busy then u else Finished(u, r, false, rest)
                      else if o in Queue(w, r) then WithoutWaiting(u, r, o) else u)
  {
    hide Alone;
    hide EndsAs;
    hide Finished;
    hide Advance;
    hide WithoutWaiting;
    var u, t := Act(w, CancelRequest(r, o, rest)), |w.threads|;
    AloneSelf(u, t);
    CancelSections(u, t, o);
    ContextSection(u, t, o);
    LaterCancelSections(u, t, o);
    AloneOn(u, t, u);
    GoThreads(u, t, Cancel(o), Done);
    if IsActive(w, r, o) {
      AloneOn(u, t, Go(u, t, Cancel1(o)));
      if FaceOf(w, r) == Busy {
        EndsHere(u, t, Go(u, t, Done), u);
      } else {
        AloneOn(u, t, Go(u, t, CancelEnd(o)));
        EndAlone(u, t, false);
        GoThreads(u, t, Cancel(o), End1(false));
        EndsLater(u, t, Go(u, t, End1(false)), Finished(u, r, false, rest));
      }
    } else {
      AloneOn(u, t, Go(u, t, Undo(o, false)));
      if o in Queue(w, r) {
        WithdrawAlone(u, t, o);
      } else {
        EndsHere(u, t, Go(u, t, Done), u);
      }
    }
  }

  lemma CancelSections(w: World, t: nat, o: int)
    requires t < |w.threads| && w.threads[t].pc == Cancel(o)
    ensures w == Go(w, t, Cancel(o))
    ensures Advance(w, t) == Go(w, t, if IsActive(w, w.threads[t].repo, o) then Cancel1(o) else Undo(o, false))
  {
    hide Process;
    hide Display;
    hide Advance;
    assert w.threads[t := w.threads[t].(pc := Cancel(o))] == w.threads;
    Dispatched(w, t, Cancel(o));
  }

  lemma ContextSection(w: World, t: nat, o: int)
    requires t < |w.threads|
    ensures Advance(Go(w, t, Cancel1(o)), t) == Go(w, t, if FaceOf(w, w.threads[t].repo) == Busy then Done else CancelEnd(o))
  {
    hide Process;
    hide Display;
    hide Advance;
    Dispatched(w, t, Cancel1(o));
    GoTwice(w, t, Cancel1(o), Done);
    GoTwice(w, t, Cancel1(o), CancelEnd(o));
  }

  lemma LaterCancelSections(w: World, t: nat, o: int)
    requires t < |w.threads|
    ensures var r := w.threads[t].repo;
            && (IsActive(w, r, o) ==> Advance(Go(w, t, CancelEnd(o)), t) == Go(w, t, End1(false)))
            && Advance(Go(w, t, Undo(o, false)), t) == Go(w, t, if Knows(w, r, o) then Undo1(o, false) else Done)
  {
    hide Process;
    hide Display;
    hide MayStart;
    hide Drop;
    hide Returned;
    hide Advance;
    Dispatched(w, t, CancelEnd(o));
    Dispatched(w, t, Undo(o, false));
    GoTwice(w, t, CancelEnd(o), End1(false));
    GoTwice(w, t, Undo(o, false), Undo1(o, false));
    GoTwice(w, t, Undo(o, false), Done);
  }

  lemma WithdrawAlone(w: World, t: nat, o: int)
    requires t < |w.threads|
    requires var r := w.threads[t].repo; !IsActive(w, r, o) && o in Queue(w, r) && Alone(w, t, Go(w, t, Undo1(o, false)))
    ensures EndsAs(w, t, WithoutWaiting(w, w.threads[t].repo, o))
  {
    hide Alone;
    hide Advance;
    hide EndsAs;
    var r := w.threads[t].repo;
    var v := w.(waiting := w.waiting[r := Drop(Queue(w, r), o)]);
    WithdrawSections(w, t, o);
    AloneOn(w, t, Go(w, t, Undo1(o, false)));
    AloneOn(w, t, Go(w, t, Undo3(o, false)));
    if r !in w.active && Queue(v, r) == [] && FaceOf(w, r) == Queued {
      ClearSections(v, t);
      LaterClearSections(v, t);
      AloneOn(w, t, Go(v, t, Clearing));
      AloneOn(w, t, Go(v, t, Clearing1));
      AloneOn(w, t, Go(v, t, Clearing2));
      AloneOn(w, t, Go(v, t, Clearing3));
      EndsHere(w, t, Go(PutFace(v, r, Idle), t, Done), PutFace(v, r, Idle));
    } else {
      NothingCleared(v, t);
      AloneTrans(w, t, Go(v, t, Clearing), Go(v, t, Done));
      EndsHere(w, t, Go(v, t, Done), v);
    }
  }

  lemma WithdrawSections(w: World, t: nat, o: int)
    requires t < |w.threads|
    requires var r := w.threads[t].repo; !IsActive(w, r, o) && o in Queue(w, r)
    ensures Advance(Go(w, t, Undo1(o, false)), t) == Go(w, t, Undo3(o, false))
    ensures Advance(Go(w, t, Undo3(o, false)), t) ==
            Go(w.(waiting := w.waiting[w.threads[t].repo := Drop(Queue(w, w.threads[t].repo), o)]), t, Clearing)
  {
    hide Advance;
    Dispatched(w, t, Undo1(o, false));
    Dispatched(w, t, Undo3(o, false));
    GoTwice(w, t, Undo1(o, false), Undo3(o, false));
    GoTwice(w, t, Undo3(o, false), Clearing);
  }

  lemma ClearSections(w: World, t: nat)
    requires t < |w.threads|
    requires var r := w.threads[t].repo; r !in w.active && Queue(w, r) == [] && FaceOf(w, r) == Queued
    ensures Advance(Go(w, t, Clearing), t) == Go(w, t, Clearing1)
    ensures Advance(Go(w, t, Clearing1), t) == Go(w, t, Clearing2)
  {
    hide Advance;
    Dispatched(w, t, Clearing);
    Dispatched(w, t, Clearing1);
    GoTwice(w, t, Clearing, Clearing1);
    GoTwice(w, t, Clearing1, Clearing2);
  }

  lemma LaterClearSections(w: World, t: nat)
    requires t < |w.threads| && FaceOf(w, w.threads[t].repo) == Queued
    ensures Advance(Go(w, t, Clearing2), t) == Go(w, t, Clearing3)
    ensures Advance(Go(w, t, Clearing3), t) == Go(PutFace(w, w.threads[t].repo, Idle), t, Done)
  {
    hide Advance;
    Dispatched(w, t, Clearing2);
    Dispatched(w, t, Clearing3);
    GoTwice(w, t, Clearing2, Clearing3);
    GoTwice(w, t, Clearing3, Done);
  }

  lemma NothingCleared(w: World, t: nat)
    requires t < |w.threads|
    requires var r := w.threads[t].repo; r in w.active || Queue(w, r) != [] || FaceOf(w, r) != Queued
    ensures Alone(Go(w, t, Clearing), t, Go(w, t, Done))
  {
    hide Process;
    hide Display;
    hide Complete;
    hide Alone;
    var s, r := Go(w, t, Clearing), w.threads[t].repo;
    AloneSelf(s, t);
    AloneOn(s, t, s);
    GoTwice(w, t, Clearing, Done);
    GoTwice(w, t, Clearing, Clearing1);
    if r !in w.active {
      AloneOn(s, t, Go(w, t, Clearing1));
      GoTwice(w, t, Clearing1, Done);
      GoTwice(w, t, Clearing1, Clearing2);
      if Queue(w, r) == [] {
        AloneOn(s, t, Go(w, t, Clearing2));
        GoTwice(w, t, Clearing2, Done);
      }
    }
  }
}
