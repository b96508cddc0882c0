/** What the lock sections of the scheduler keep when each repository is in the hands of one goroutine
    at a time, whatever the goroutines of other repositories do meanwhile
    (backend/app/repository/queue_manager.go). */
module SerialStarts {
  import opened Prelude
  import opened StartRace
  import opened SectionClaims

  // ---------------------------------------------------------------- one step

  lemma SteadyIsLocal(w: World, w': World, r: int)
    requires SameLocal(w, w', r)
    ensures Steady(w, r) ==> Steady(w', r)
  {
  }

  lemma ClaimIsLocal(w: World, w': World, r: int, pc: PC)
    requires SameLocal(w, w', r) && Claim(w, r, pc)
    ensures Claim(w', r, pc)
  {
    hide PromiseAt;
    KeptIsLocal(w, w', r, PromiseAt(pc));
  }

  lemma KeptIsLocal(w: World, w': World, r: int, p: Promise)
    requires SameLocal(w, w', r) && Kept(w, r, p)
    ensures Kept(w', r, p)
  {
    assert NoneRuns(w.executing, r) ==> NoneRuns(w'.executing, r);
    hide NoneRuns;
  }

  lemma ProcessPasses(w: World, t: nat)
    requires t < |w.threads| && InProcess(w.threads[t].pc) && Ready(w, t)
    ensures |Process(w, t).threads| == |w.threads| && Passes(w, Process(w, t), t)
  {
    var pc := w.threads[t].pc;
    if pc.Setting? {
      LaunchPasses(w, t);
    } else if pc.Passed? || pc.Moved? || pc.Entered? {
      MovePasses(w, t);
    } else {
      LookPasses(w, t);
    }
  }

  lemma ReturnedPasses(w: World, t: nat)
    requires t < |w.threads| && Steady(w, w.threads[t].repo)
    ensures |Returned(w, t).threads| == |w.threads| && Passes(w, Returned(w, t), t)
  {
    hide NoneRuns;
    hide OnlyRuns;
  }

  lemma LookPasses(w: World, t: nat)
    requires t < |w.threads| && Ready(w, t)
    requires var pc := w.threads[t].pc; pc.Begin? || pc.NoActive? || pc.Got? || pc.Finding? || pc.Willing?
    ensures |Process(w, t).threads| == |w.threads| && Passes(w, Process(w, t), t)
  {
    hide NoneRuns;
    hide OnlyRuns;
    hide Returned;
    if Steady(w, w.threads[t].repo) {
      ReturnedPasses(w, t);
    }
  }

  lemma MovePasses(w: World, t: nat)
    requires t < |w.threads| && Ready(w, t)
    requires var pc := w.threads[t].pc; pc.Passed? || pc.Moved? || pc.Entered?
    ensures |Process(w, t).threads| == |w.threads| && Passes(w, Process(w, t), t)
  {
    hide NoneRuns;
    hide OnlyRuns;
  }

  lemma LaunchPasses(w: World, t: nat)
    requires t < |w.threads| && w.threads[t].pc.Setting? && Ready(w, t)
    ensures |Process(w, t).threads| == |w.threads| && Passes(w, Process(w, t), t)
  {
  }

  lemma UndoPasses(w: World, t: nat)
    requires t < |w.threads| && Ready(w, t)
    requires var pc := w.threads[t].pc; pc.Undo? || pc.Undo1?
    ensures |Remove(w, t).threads| == |w.threads| && Passes(w, Remove(w, t), t)
  {
    hide NoneRuns;
    hide OnlyRuns;
  }

  lemma UnenterPasses(w: World, t: nat)
    requires t < |w.threads| && Ready(w, t) && w.threads[t].pc.Undo2?
    ensures |Remove(w, t).threads| == |w.threads| && Passes(w, Remove(w, t), t)
  {
    hide NoneRuns;
    hide OnlyRuns;
  }

  lemma UnqueuePasses(w: World, t: nat)
    requires t < |w.threads| && Ready(w, t) && w.threads[t].pc.Undo3?
    ensures |Remove(w, t).threads| == |w.threads| && Passes(w, Remove(w, t), t)
  {
    hide NoneRuns;
    hide OnlyRuns;
    hide Drop;
    if w.threads[t].pc.own {
      assert Calm(w, w.threads[t].repo) || Holds(w, w.threads[t].repo, w.threads[t].pc.op, false);
    } else {
      assert Steady(w, w.threads[t].repo);
    }
  }

  lemma ClearingPasses(w: World, t: nat)
    requires t < |w.threads| && Ready(w, t)
    requires var pc := w.threads[t].pc; pc.Clearing? || pc.Clearing1? || pc.Clearing2? || pc.Clearing3?
    ensures |Remove(w, t).threads| == |w.threads| && Passes(w, Remove(w, t), t)
  {
    hide NoneRuns;
    hide OnlyRuns;
  }

  lemma RemovePasses(w: World, t: nat)
    requires t < |w.threads| && InRemove(w.threads[t].pc) && Ready(w, t)
    ensures |Remove(w, t).threads| == |w.threads| && Passes(w, Remove(w, t), t)
  {
    hide Ready;
    hide Passes;
    hide Remove;
    var pc := w.threads[t].pc;
    if pc.Undo? || pc.Undo1? {
      UndoPasses(w, t);
    } else if pc.Undo2? {
      UnenterPasses(w, t);
    } else if pc.Undo3? {
      UnqueuePasses(w, t);
    } else {
      ClearingPasses(w, t);
    }
  }

  lemma ShowPasses(w: World, t: nat)
    requires t < |w.threads| && Ready(w, t)
    requires var pc := w.threads[t].pc; pc.Show? || pc.Show1? || pc.Show2?
    ensures |Display(w, t).threads| == |w.threads| && Passes(w, Display(w, t), t)
  {
    hide NoneRuns;
    hide OnlyRuns;
  }

  lemma ShowNextPasses(w: World, t: nat)
    requires t < |w.threads| && Ready(w, t)
    requires var pc := w.threads[t].pc; pc.Show3? || pc.Show4? || pc.Show5?
    ensures |Display(w, t).threads| == |w.threads| && Passes(w, Display(w, t), t)
  {
    hide NoneRuns;
    hide OnlyRuns;
  }

  lemma DisplayPasses(w: World, t: nat)
    requires t < |w.threads| && InDisplay(w.threads[t].pc) && Ready(w, t)
    ensures |Display(w, t).threads| == |w.threads| && Passes(w, Display(w, t), t)
  {
    hide Ready;
    hide Passes;
    hide Display;
    var pc := w.threads[t].pc;
    if pc.Show? || pc.Show1? || pc.Show2? {
      ShowPasses(w, t);
    } else {
      ShowNextPasses(w, t);
    }
  }

  lemma EndPasses(w: World, t: nat)
    requires t < |w.threads| && Ready(w, t)
    requires var pc := w.threads[t].pc; pc.End? || pc.End1? || pc.End2?
    ensures |Complete(w, t).threads| == |w.threads| && Passes(w, Complete(w, t), t)
  {
    hide NoneRuns;
    hide OnlyRuns;
  }

  lemma TargetPasses(w: World, t: nat)
    requires t < |w.threads| && Ready(w, t)
    requires var pc := w.threads[t].pc; pc.End3? || pc.End4? || pc.End5? || pc.End6?
    ensures |Complete(w, t).threads| == |w.threads| && Passes(w, Complete(w, t), t)
  {
    hide NoneRuns;
    hide OnlyRuns;
  }

  lemma CancelPasses(w: World, t: nat)
    requires t < |w.threads| && Ready(w, t)
    requires var pc := w.threads[t].pc; pc.End7? || pc.Cancel? || pc.Cancel1? || pc.CancelEnd? || pc.Done?
    ensures |Complete(w, t).threads| == |w.threads| && Passes(w, Complete(w, t), t)
  {
    hide NoneRuns;
    hide OnlyRuns;
  }

  lemma CompletePasses(w: World, t: nat)
    requires t < |w.threads| && InComplete(w.threads[t].pc) && Ready(w, t)
    ensures |Complete(w, t).threads| == |w.threads| && Passes(w, Complete(w, t), t)
  {
    hide Ready;
    hide Passes;
    hide Complete;
    var pc := w.threads[t].pc;
    if pc.End? || pc.End1? || pc.End2? {
      EndPasses(w, t);
    } else if pc.End3? || pc.End4? || pc.End5? || pc.End6? {
      TargetPasses(w, t);
    } else {
      CancelPasses(w, t);
    }
  }

  lemma AdvancePasses(w: World, t: nat)
    requires t < |w.threads| && Ready(w, t)
    ensures |Advance(w, t).threads| == |w.threads| && Passes(w, Advance(w, t), t)
  {
    hide Ready;
    hide Passes;
    hide Process;
    hide Remove;
    hide Display;
    hide Complete;
    var pc := w.threads[t].pc;
    if InProcess(pc) {
      ProcessPasses(w, t);
    } else if InRemove(pc) {
      RemovePasses(w, t);
    } else if InDisplay(pc) {
      DisplayPasses(w, t);
    } else {
      CompletePasses(w, t);
    }
  }

  // ---------------------------------------------------------------- the other repositories

  lemma ProcessIsLocal(w: World, t: nat, k: int)
    requires t < |w.threads| && InProcess(w.threads[t].pc) && k != w.threads[t].repo
    ensures SameLocal(w, Process(w, t), k)
  {
    if w.threads[t].pc.Setting? {
      LaunchIsLocal(w, t, k);
    } else {
      hide NoneRuns;
      assert Process(w, t).executing == w.executing;
    }
  }

  lemma LaunchIsLocal(w: World, t: nat, k: int)
    requires t < |w.threads| && w.threads[t].pc.Setting? && k != w.threads[t].repo
    ensures SameLocal(w, Process(w, t), k)
  {
  }

  lemma RemoveIsLocal(w: World, t: nat, k: int)
    requires t < |w.threads| && InRemove(w.threads[t].pc) && k != w.threads[t].repo
    ensures SameLocal(w, Remove(w, t), k)
  {
  }

  lemma DisplayIsLocal(w: World, t: nat, k: int)
    requires t < |w.threads| && InDisplay(w.threads[t].pc) && k != w.threads[t].repo
    ensures SameLocal(w, Display(w, t), k)
  {
  }

  lemma CompleteIsLocal(w: World, t: nat, k: int)
    requires t < |w.threads| && InComplete(w.threads[t].pc) && k != w.threads[t].repo
    ensures SameLocal(w, Complete(w, t), k)
  {
  }

  lemma AdvanceIsLocal(w: World, t: nat, k: int)
    requires t < |w.threads| && k != w.threads[t].repo
    ensures SameLocal(w, Advance(w, t), k)
  {
    hide SameLocal;
    hide Process;
    hide Remove;
    hide Display;
    hide Complete;
    var pc := w.threads[t].pc;
    if InProcess(pc) {
      ProcessIsLocal(w, t, k);
    } else if InRemove(pc) {
      RemoveIsLocal(w, t, k);
    } else if InDisplay(pc) {
      DisplayIsLocal(w, t, k);
    } else {
      CompleteIsLocal(w, t, k);
    }
  }

  lemma AdvanceSettles(w: World, t: nat, k: int)
    requires t < |w.threads| && Orderly(w)
    requires |Advance(w, t).threads| == |w.threads| && Passes(w, Advance(w, t), t)
    ensures Settled(Advance(w, t), k)
  {
    hide Advance;
    hide Steady;
    hide Claim;
    var w' := Advance(w, t);
    AdvanceFrame(w, t);
    if k == w.threads[t].repo {
      assert Owns(w', k, t) || Steady(w', k);
    } else {
      AdvanceIsLocal(w, t, k);
      SteadyIsLocal(w, w', k);
      assert Settled(w, k);
      if u :| Owns(w, k, u) {
        assert Owns(w', k, u);
      }
    }
  }

  lemma AdvanceClaims(w: World, t: nat, u: nat)
    requires t < |w.threads| && u < |w.threads| && Orderly(w) && Serial(w)
    requires |Advance(w, t).threads| == |w.threads| && Passes(w, Advance(w, t), t)
    requires !w.threads[t].pc.Done?
    ensures var w' := Advance(w, t); u < |w'.threads| && Claim(w', w'.threads[u].repo, w'.threads[u].pc)
  {
    hide Advance;
    hide Claim;
    hide Steady;
    var w', k := Advance(w, t), w.threads[u].repo;
    AdvanceFrame(w, t);
    if u != t {
      assert w'.threads[u] == w.threads[u];
      if k == w.threads[t].repo {
        Alone(w, t, u);
        DoneClaim(w', k, w.threads[u].pc);
      } else {
        AdvanceIsLocal(w, t, k);
        ClaimIsLocal(w, w', k, w.threads[u].pc);
      }
    }
  }

  lemma DoneClaim(w: World, k: int, pc: PC)
    requires pc.Done?
    ensures Claim(w, k, pc)
  {
  }

  lemma Alone(w: World, t: nat, u: nat)
    requires t < |w.threads| && u < |w.threads| && w.threads[t].repo == w.threads[u].repo
    requires Serial(w) && !w.threads[t].pc.Done?
    ensures u == t || w.threads[u].pc.Done?
  {
    if u < t {
      assert w.threads[u].repo == w.threads[t].repo;
    } else if t < u {
      assert w.threads[t].repo == w.threads[u].repo;
    }
  }

  /** The only goroutine on its repository finds it as it left it. */
  lemma SerialIsReady(w: World, t: nat)
    requires t < |w.threads| && Orderly(w) && Serial(w) && !w.threads[t].pc.Done?
    ensures Ready(w, t)
  {
    hide Claim;
    hide Steady;
    var r := w.threads[t].repo;
    assert Settled(w, r);
    if u: nat :| Owns(w, r, u) {
      Alone(w, t, u);
    }
  }

  lemma AdvanceIsOrderly(w: World, t: nat)
    requires t < |w.threads| && Orderly(w) && Serial(w)
    ensures Orderly(Advance(w, t))
  {
    hide Ready;
    hide Passes;
    hide Settled;
    hide Claim;
    var w' := Advance(w, t);
    if w.threads[t].pc.Done? {
      assert w' == w;
    } else {
      hide Advance;
      hide Serial;
      SerialIsReady(w, t);
      AdvancePasses(w, t);
      forall k ensures Settled(w', k) {
        AdvanceSettles(w, t, k);
      }
      forall u | 0 <= u < |w'.threads| ensures Claim(w', w'.threads[u].repo, w'.threads[u].pc) {
        AdvanceClaims(w, t, u);
      }
    }
  }

  // ---------------------------------------------------------------- the other actions

  /** Claims and settled repositories survive an action that adds a goroutine with a claim of its own. */
  lemma SpawnIsOrderly(w: World, v: World, th: Thread)
    requires Orderly(w) && v.threads == w.threads
    requires forall r :: SameLocal(w, v, r)
    requires Claim(v, th.repo, th.pc)
    ensures Orderly(Spawn(v, th))
  {
    hide Claim;
    hide Steady;
    var w' := Spawn(v, th);
    forall r ensures Settled(w', r) {
      assert SameLocal(w, v, r) && SameLocal(v, w', r) && Settled(w, r);
      SteadyIsLocal(w, v, r);
      SteadyIsLocal(v, w', r);
      if u :| Owns(w, r, u) {
        assert Owns(w', r, u);
      }
    }
    forall u | 0 <= u < |w'.threads| ensures Claim(w', w'.threads[u].repo, w'.threads[u].pc) {
      var n := w'.threads[u];
      assert SameLocal(w, v, n.repo) && SameLocal(v, w', n.repo);
      if u < |w.threads| {
        ClaimIsLocal(w, v, n.repo, n.pc);
      }
      ClaimIsLocal(v, w', n.repo, n.pc);
    }
  }

  /** A repository whose operation runs is steady, so the goroutine that ends it finds what it expects. */
  lemma RunningIsSteady(w: World, r: int, o: int)
    requires Orderly(w) && (r, o) in w.executing
    ensures Steady(w, r) && IsActive(w, r, o)
    ensures forall t :: 0 <= t < |w.threads| && w.threads[t].repo == r ==> !Owning(w.threads[t].pc)
  {
    forall t | 0 <= t < |w.threads| && w.threads[t].repo == r ensures !Owning(w.threads[t].pc) {
      if Owning(w.threads[t].pc) {
        OwnerRunsNothing(w, r, w.threads[t].pc);
      }
    }
    assert Settled(w, r);
  }

  lemma OwnerRunsNothing(w: World, r: int, pc: PC)
    requires Claim(w, r, pc) && Owning(pc)
    ensures NoneRuns(w.executing, r)
  {
  }

  /** No goroutine relies on nothing running where something does. */
  lemma ClaimSurvivesFinish(w: World, r: int, o: int, pc: PC, k: int)
    requires Claim(w, k, pc) && (r, o) in w.executing && (k == r ==> !Owning(pc))
    ensures Claim(w.(executing := w.executing - {(r, o)}), k, pc)
  {
    var v := w.(executing := w.executing - {(r, o)});
    if k != r {
      assert SameLocal(w, v, k);
      ClaimIsLocal(w, v, k, pc);
    } else {
      assert !Calm(w, r);
    }
  }

  lemma FinishIsOrderly(w: World, r: int, o: int, e: bool, rest: seq<int>)
    requires Orderly(w) && (r, o) in w.executing
    ensures Orderly(Spawn(w.(executing := w.executing - {(r, o)}), Thread(r, End(o, e), false, rest)))
  {
    var v := w.(executing := w.executing - {(r, o)});
    var th := Thread(r, End(o, e), false, rest);
    var w' := Spawn(v, th);
    RunningIsSteady(w, r, o);
    assert Ending(v, r, true, true);
    hide Claim;
    hide Steady;
    EndClaim(v, r, o, e);
    forall k ensures Settled(w', k) {
      assert Settled(w, k);
      if k == r {
        assert Owns(w', r, |w.threads|);
      } else {
        assert SameLocal(w, w', k);
        SteadyIsLocal(w, w', k);
        if u :| Owns(w, k, u) {
          assert Owns(w', k, u);
        }
      }
    }
    forall u | 0 <= u < |w'.threads| ensures Claim(w', w'.threads[u].repo, w'.threads[u].pc) {
      var n := w'.threads[u];
      if u < |w.threads| {
        ClaimSurvivesFinish(w, r, o, n.pc, n.repo);
      }
      assert SameLocal(v, w', n.repo);
      ClaimIsLocal(v, w', n.repo, n.pc);
    }
  }

  lemma EndClaim(w: World, r: int, o: int, e: bool)
    requires Ending(w, r, true, true) && IsActive(w, r, o)
    ensures Claim(w, r, End(o, e))
  {
  }

  lemma ClearedClaim(w: World, r: int, k: int, pc: PC)
    requires FaceOf(w, r) == Failed && Claim(w, k, pc)
    ensures Claim(PutFace(w, r, Idle), k, pc)
  {
    var v := PutFace(w, r, Idle);
    if k != r {
      assert SameLocal(w, v, k);
      ClaimIsLocal(w, v, k, pc);
    } else {
      hide NoneRuns;
    }
  }

  lemma ClearIsOrderly(w: World, r: int)
    requires Orderly(w) && FaceOf(w, r) == Failed
    ensures Orderly(PutFace(w, r, Idle))
  {
    var w' := PutFace(w, r, Idle);
    forall k ensures Settled(w', k) {
      assert Settled(w, k);
      assert Steady(w, k) ==> Steady(w', k);
      if u :| Owns(w, k, u) {
        assert Owns(w', k, u);
      }
    }
    hide Claim;
    forall u | 0 <= u < |w'.threads| ensures Claim(w', w'.threads[u].repo, w'.threads[u].pc) {
      ClearedClaim(w, r, w.threads[u].repo, w.threads[u].pc);
    }
  }

  lemma StepIsOrderly(w: World, a: Action)
    requires CanAct(w, a) && Orderly(w) && Serial(w)
    ensures Orderly(Act(w, a))
  {
    hide Orderly;
    hide Serial;
    match a
    case ThreadStep(t) => AdvanceIsOrderly(w, t);
    case FinishOp(r, o, e, rest) => FinishIsOrderly(w, r, o, e, rest);
    case ClearError(r) => ClearIsOrderly(w, r);
    case NewRequest(r, o) =>
      var v := w.(waiting := w.waiting[r := Queue(w, r) + [o]]);
      forall k ensures SameLocal(w, v, k) {
      }
      SpawnIsOrderly(w, v, Thread(r, Begin, true, []));
    case CancelRequest(r, o, rest) =>
      SpawnIsOrderly(w, w, Thread(r, Cancel(o), false, rest));
  }

  /** `trace` is a run in which no repository had two goroutines at work up to step `n`. */
  ghost predicate SerialUpTo(trace: seq<World>, n: nat) {
    forall i :: 0 <= i < n && i < |trace| ==> Serial(trace[i])
  }

  lemma {:induction false} SerialRunsAreOrderly(trace: seq<World>, max: nat, n: nat)
    requires IsTrace(trace) && trace[0] == Start(max) && n < |trace| && SerialUpTo(trace, n)
    ensures Orderly(trace[n])
  {
    if n == 0 {
      forall r ensures Settled(trace[0], r) {
      }
    } else {
      SerialRunsAreOrderly(trace, max, n - 1);
      hide Orderly;
      hide Serial;
      hide Act;
      assert StepAt(trace, n);
      var a :| Does(trace[n - 1], a, trace[n]);
      StepIsOrderly(trace[n - 1], a);
    }
  }

  lemma BusyOwnerEnds(w: World, r: int, pc: PC)
    requires Claim(w, r, pc) && Owning(pc) && FaceOf(w, r) == Busy
    ensures InEnd(pc)
  {
  }

  /** As long as no repository has two goroutines at work, and whatever the goroutines of different
      repositories do meanwhile, every operation whose goroutine runs is the active one of its
      repository, is entered and is shown, so no repository runs two, and none is ever stuck. */
  lemma SerialRunsAreSafe(trace: seq<World>, max: nat, n: nat, r: int, o: int)
    requires IsTrace(trace) && trace[0] == Start(max) && n < |trace| && SerialUpTo(trace, n)
    ensures (r, o) in trace[n].executing ==>
              IsActive(trace[n], r, o) && r in trace[n].heavy && FaceOf(trace[n], r) == Busy
    ensures !Stuck(trace[n], r)
  {
    SerialRunsAreOrderly(trace, max, n);
    var w := trace[n];
    if (r, o) in w.executing {
      RunningIsSteady(w, r, o);
    }
    if Stuck(w, r) {
      assert Settled(w, r);
      if u: nat :| Owns(w, r, u) {
        BusyOwnerEnds(w, r, w.threads[u].pc);
      }
    }
  }

  // ---------------------------------------------------------------- when a start fails

  /** The goroutine is inside StartOperation, or is about to launch. */
  predicate Starting(pc: PC) {
    pc.Finding? || pc.Willing? || pc.Passed? || pc.Moved? || pc.Entered? || pc.Setting?
  }

  /** Two things only make a start fail: another repository has taken the last place between the two
      looks at the limit, or the repository is in an error state. */
  predicate StartFails(w: World, th: Thread) {
    (th.pc.Willing? && |w.heavy| >= w.max) || (th.pc.Entered? && FaceOf(w, th.repo) == Failed)
  }

  /** With one goroutine at a time on each repository a start is given up exactly then. */
  lemma SerialStartFails(trace: seq<World>, max: nat, n: nat, t: nat)
    requires IsTrace(trace) && trace[0] == Start(max) && n < |trace| && SerialUpTo(trace, n + 1)
    requires t < |trace[n].threads| && Starting(trace[n].threads[t].pc)
    ensures t < |Advance(trace[n], t).threads|
    ensures Advance(trace[n], t).threads[t].pc.Undo? <==> StartFails(trace[n], trace[n].threads[t])
  {
    SerialRunsAreOrderly(trace, max, n);
    assert Claim(trace[n], trace[n].threads[t].repo, trace[n].threads[t].pc);
  }

  // ---------------------------------------------------------------- how an operation goes

  lemma {:induction false} DropKeeps(ops: seq<int>, o: int, other: int)
    requires other in ops && other != o
    ensures other in Drop(ops, o)
  {
    if ops[0] != o && ops[0] != other {
      DropKeeps(ops[1..], o, other);
    }
  }

  /** The two sections that let go of operation `o`: it is completed as the active one, or removed because
      its start failed or it was cancelled. */
  predicate LetsGo(w: World, th: Thread, o: int) {
    (th.pc.End2? && IsActive(w, th.repo, o)) || (th.pc.Undo3? && th.pc.op == o)
  }

  lemma ProcessKnows(w: World, t: nat, o: int)
    requires t < |w.threads| && InProcess(w.threads[t].pc)
    requires Knows(w, w.threads[t].repo, o) && Claim(w, w.threads[t].repo, w.threads[t].pc)
    ensures Knows(Process(w, t), w.threads[t].repo, o)
  {
    hide NoneRuns;
    if w.threads[t].pc.Passed? && o != w.threads[t].pc.op {
      DropKeeps(Queue(w, w.threads[t].repo), w.threads[t].pc.op, o);
    }
  }

  lemma RemoveKnows(w: World, t: nat, o: int)
    requires t < |w.threads| && InRemove(w.threads[t].pc)
    requires Knows(w, w.threads[t].repo, o) && !LetsGo(w, w.threads[t], o)
    ensures Knows(Remove(w, t), w.threads[t].repo, o)
  {
    var r := w.threads[t].repo;
    if w.threads[t].pc.Undo3? && o in Queue(w, r) {
      DropKeeps(Queue(w, r), w.threads[t].pc.op, o);
    }
  }

  lemma DisplayKnows(w: World, t: nat, o: int)
    requires t < |w.threads| && InDisplay(w.threads[t].pc) && Knows(w, w.threads[t].repo, o)
    ensures Knows(Display(w, t), w.threads[t].repo, o)
  {
  }

  lemma CompleteKnows(w: World, t: nat, o: int)
    requires t < |w.threads| && InComplete(w.threads[t].pc)
    requires Knows(w, w.threads[t].repo, o) && !LetsGo(w, w.threads[t], o)
    ensures Knows(Complete(w, t), w.threads[t].repo, o)
  {
  }

  lemma AdvanceKnows(w: World, t: nat, r: int, o: int)
    requires t < |w.threads| && Knows(w, r, o) && Claim(w, w.threads[t].repo, w.threads[t].pc)
    requires w.threads[t].repo == r ==> !LetsGo(w, w.threads[t], o)
    ensures Knows(Advance(w, t), r, o)
  {
    hide Process;
    hide Remove;
    hide Display;
    hide Complete;
    var pc := w.threads[t].pc;
    if w.threads[t].repo != r {
      AdvanceIsLocal(w, t, r);
    } else if InProcess(pc) {
      ProcessKnows(w, t, o);
    } else if InRemove(pc) {
      RemoveKnows(w, t, o);
    } else if InDisplay(pc) {
      DisplayKnows(w, t, o);
    } else {
      CompleteKnows(w, t, o);
    }
  }

  /** The step from `w` to `w'` is one of those sections, taken by a goroutine on `r`. */
  ghost predicate LetGo(w: World, w': World, r: int, o: int) {
    exists t :: 0 <= t < |w.threads| && w.threads[t].repo == r && LetsGo(w, w.threads[t], o) && w' == Advance(w, t)
  }

  /** With one goroutine at a time on each repository an operation is never lost otherwise. */
  lemma SerialLosesNothingElse(trace: seq<World>, max: nat, n: nat, r: int, o: int)
    requires IsTrace(trace) && trace[0] == Start(max) && n + 1 < |trace| && SerialUpTo(trace, n + 1)
    requires Knows(trace[n], r, o)
    ensures Knows(trace[n + 1], r, o) || LetGo(trace[n], trace[n + 1], r, o)
  {
    SerialRunsAreOrderly(trace, max, n);
    var w := trace[n];
    hide Act;
    assert StepAt(trace, n + 1);
    var a :| Does(w, a, trace[n + 1]);
    StepKnows(w, a, r, o);
  }

  lemma StepKnows(w: World, a: Action, r: int, o: int)
    requires CanAct(w, a) && Orderly(w) && Knows(w, r, o)
    ensures Knows(Act(w, a), r, o) || LetGo(w, Act(w, a), r, o)
  {
    match a
    case ThreadStep(t) =>
      hide Advance;
      hide Claim;
      if !(w.threads[t].repo == r && LetsGo(w, w.threads[t], o)) {
        AdvanceKnows(w, t, r, o);
      }
    case NewRequest(k, p) =>
    case FinishOp(k, p, e, rest) =>
    case CancelRequest(k, p, rest) =>
    case ClearError(k) =>
  }
}
