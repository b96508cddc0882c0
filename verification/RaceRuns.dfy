/** Putting runs together: what follows for whole runs from single sections and from stretches in which
    one goroutine goes on alone (backend/app/repository/queue_manager.go). */
module RaceRuns {
  import opened StartRace

  lemma LeadsToItself(v: World, p: World -> bool)
    requires p(v)
    ensures Leads(v, v, p)
  {
    assert Passing([v], v, v, p);
  }

  /** The run goes on with `a`, which leads from `v` to `w`. */
  lemma GoOn(u: World, v: World, a: Action, w: World, p: World -> bool)
    requires Leads(u, v, p) && CanAct(v, a) && w == Act(v, a) && p(w)
    ensures Leads(u, w, p)
  {
    hide Act;
    var trace :| Passing(trace, u, v, p);
    var longer := trace + [w];
    assert Does(v, a, w);
    forall i | 0 < i < |longer| ensures StepAt(longer, i) {
      if i < |trace| {
        assert StepAt(trace, i);
        assert longer[i] == trace[i] && longer[i - 1] == trace[i - 1];
      }
    }
    assert Passing(longer, u, w, p);
  }

  lemma Joined(u: World, v: World, w: World, p: World -> bool)
    requires Leads(u, v, p) && Leads(v, w, p)
    ensures Leads(u, w, p)
  {
    var one :| Passing(one, u, v, p);
    var two :| Passing(two, v, w, p);
    var trace := one + two[1..];
    forall i | 0 < i < |trace| ensures StepAt(trace, i) {
      if i < |one| {
        assert StepAt(one, i);
        assert trace[i] == one[i] && trace[i - 1] == one[i - 1];
      } else {
        var k := i - |one| + 1;
        assert StepAt(two, k);
        assert trace[i] == two[k] && trace[i - 1] == two[k - 1];
      }
    }
    assert Passing(trace, u, w, p);
  }

  lemma TraceOf(v: World, w: World, p: World -> bool) returns (trace: seq<World>)
    requires Leads(v, w, p)
    ensures Passing(trace, v, w, p)
  {
    trace :| Passing(trace, v, w, p);
  }

  /** Goroutine `t` takes its next `n` sections, the others none. */
  function Steps(w: World, t: nat, n: nat): (v: World)
    requires t < |w.threads|
    ensures |v.threads| == |w.threads|
  {
    if n == 0 then w
    else
      var v := Steps(w, t, n - 1);
      AdvanceFrame(v, t);
      Advance(v, t)
  }

  lemma {:induction false} StepsLead(w: World, t: nat, n: nat, p: World -> bool)
    requires t < |w.threads| && forall k: nat :: k <= n ==> p(Steps(w, t, k))
    ensures Leads(w, Steps(w, t, n), p)
  {
    hide Advance;
    hide Leads;
    if n == 0 {
      assert p(Steps(w, t, 0));
      LeadsToItself(w, p);
    } else {
      StepsLead(w, t, n - 1, p);
      GoOn(w, Steps(w, t, n - 1), ThreadStep(t), Steps(w, t, n), p);
    }
  }

  /** A goroutine that has no other repository to go on to stays on its own and takes nothing off what
      runs. */
  lemma {:induction false} StepsFrame(w: World, t: nat, n: nat)
    requires t < |w.threads| && w.threads[t].rest == []
    ensures var v := Steps(w, t, n);
            && v.threads == w.threads[t := v.threads[t]] && v.threads[t].repo == w.threads[t].repo
            && v.threads[t].rest == [] && w.executing <= v.executing && v.max == w.max
  {
    hide Advance;
    if n > 0 {
      StepsFrame(w, t, n - 1);
      AdvanceFrame(Steps(w, t, n - 1), t);
    }
  }

  lemma StepsMore(w: World, t: nat, k: nat, n: nat)
    requires t < |w.threads| && w.threads[t].rest == [] && k <= n
    ensures Steps(w, t, k).executing <= Steps(w, t, n).executing
    decreases n - k
  {
    hide Advance;
    if k < n {
      StepsFrame(w, t, k);
      AdvanceFrame(Steps(w, t, k), t);
      StepsMore(w, t, k + 1, n);
    }
  }

  /** From an idle repository with work waiting a goroutine looks around; then it passes the check. */
  lemma LooksAround(w: World, t: nat, o: int)
    requires t < |w.threads| && w.threads[t].pc == Begin
    requires var r := w.threads[t].repo; r !in w.active && Queue(w, r) != [] && Queue(w, r)[0] == o && MayStart(w, r)
    ensures Steps(w, t, 4) == Go(w, t, Willing(o)) && Steps(w, t, 5) == Go(w, t, Passed(o))
  {
    Looks(w, t, o);
    hide Advance;
    assert Steps(w, t, 1) == Go(w, t, NoActive);
    assert Steps(w, t, 2) == Go(w, t, Got(o));
    assert Steps(w, t, 3) == Go(w, t, Finding(o));
  }

  lemma Looks(w: World, t: nat, o: int)
    requires t < |w.threads| && w.threads[t].pc == Begin
    requires var r := w.threads[t].repo; r !in w.active && Queue(w, r) != [] && Queue(w, r)[0] == o && MayStart(w, r)
    ensures Advance(w, t) == Go(w, t, NoActive) && Advance(Go(w, t, NoActive), t) == Go(w, t, Got(o))
    ensures Advance(Go(w, t, Got(o)), t) == Go(w, t, Finding(o)) && Advance(Go(w, t, Finding(o)), t) == Go(w, t, Willing(o))
    ensures Advance(Go(w, t, Willing(o)), t) == Go(w, t, Passed(o))
  {
    hide Remove;
    hide Display;
    hide Complete;
  }

  /** The worlds on the way from the check to the launch. */
  function AtEntered(w: World, t: nat, o: int, pc: PC): World
    requires t < |w.threads|
  {
    var r := w.threads[t].repo;
    Go(w, t, pc).(waiting := w.waiting[r := Drop(Queue(w, r), o)], active := w.active[r := o], heavy := w.heavy + {r})
  }

  function AtLaunched(w: World, t: nat, o: int): World
    requires t < |w.threads|
  {
    var r := w.threads[t].repo;
    AtEntered(w, t, o, Show).(faces := w.faces[r := Busy], executing := w.executing + {(r, o)})
  }

  /** The goroutine of an addition moves the operation, enters it and launches it. */
  lemma Starts(w: World, t: nat, o: int)
    requires t < |w.threads|
    requires var th := w.threads[t];
             th.pc == Passed(o) && th.adding && o in Queue(w, th.repo) && Allowed(FaceOf(w, th.repo), Busy, true)
    ensures Steps(w, t, 4) == AtLaunched(w, t, o)
  {
    Enters(w, t, o);
    LaunchesIt(w, t, o);
    hide Advance;
    assert Steps(w, t, 1) == Advance(w, t);
    assert Steps(w, t, 2) == AtEntered(w, t, o, Entered(o));
  }

  lemma Enters(w: World, t: nat, o: int)
    requires t < |w.threads| && w.threads[t].pc == Passed(o) && o in Queue(w, w.threads[t].repo)
    ensures t < |Advance(w, t).threads| && Advance(Advance(w, t), t) == AtEntered(w, t, o, Entered(o))
  {
    hide Remove;
    hide Display;
    hide Complete;
    var r := w.threads[t].repo;
    assert Advance(w, t) ==
           Go(w, t, Moved(o)).(waiting := w.waiting[r := Drop(Queue(w, r), o)], active := w.active[r := o]);
  }

  lemma LaunchesIt(w: World, t: nat, o: int)
    requires t < |w.threads| && w.threads[t].adding && Allowed(FaceOf(w, w.threads[t].repo), Busy, true)
    ensures var v := AtEntered(w, t, o, Entered(o));
            && t < |v.threads| && t < |Advance(v, t).threads| && Advance(Advance(v, t), t) == AtLaunched(w, t, o)
  {
    hide Remove;
    hide Display;
    hide Complete;
    assert Advance(AtEntered(w, t, o, Entered(o)), t) == AtEntered(w, t, o, Setting(o));
  }
}
