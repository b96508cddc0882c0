/** How many heavy operations run, in every interleaving of the scheduler's lock sections
    (backend/app/repository/queue_manager.go).  The limit is on the entries in activeHeavy; here is when
    an operation runs without one, and what follows for the number of operations that run. */
module RunningLimit {
  import opened Prelude
  import opened StartRace
  import opened SectionClaims
  import opened SerialStarts

  predicate Runs(executing: set<(int, int)>, r: int) {
    !NoneRuns(executing, r)
  }

  /** The entries that stand for something that runs. */
  function Covered(executing: set<(int, int)>, heavy: set<int>): set<int> {
    set r | r in heavy && Runs(executing, r)
  }

  /** How many operations run beyond one for each such entry. */
  function Surplus(w: World): int {
    |w.executing| - |Covered(w.executing, w.heavy)|
  }

  /** A running operation is left without an entry: the entry of its repository is deleted while it runs,
      or it is launched when its entry has already been taken away, or when that entry already stands for
      another one. */
  predicate LosesEntry(w: World, a: Action) {
    && a.ThreadStep? && a.thread < |w.threads|
    && var pc, r := w.threads[a.thread].pc, w.threads[a.thread].repo;
       || ((pc.Undo2? || pc.End1?) && r in w.heavy && Runs(w.executing, r))
       || (pc.Setting? && (r, pc.op) !in w.executing && (r !in w.heavy || Runs(w.executing, r)))
  }

  // ---------------------------------------------------------------- one step

  lemma StillRuns(executing: set<(int, int)>, later: set<(int, int)>, k: int)
    requires forall e <- executing :: e.0 == k ==> e in later
    ensures Runs(executing, k) ==> Runs(later, k)
  {
  }

  lemma Launched(executing: set<(int, int)>, heavy: set<int>, r: int, o: int)
    requires (r, o) !in executing
    ensures |executing + {(r, o)}| == |executing| + 1
    ensures |Covered(executing + {(r, o)}, heavy)| ==
            |Covered(executing, heavy)| + if r in heavy && !Runs(executing, r) then 1 else 0
  {
    var before, after := Covered(executing, heavy), Covered(executing + {(r, o)}, heavy);
    assert Runs(executing + {(r, o)}, r) by {
      assert (r, o) in executing + {(r, o)};
    }
    forall k | k != r ensures Runs(executing + {(r, o)}, k) <==> Runs(executing, k) {
      StillRuns(executing, executing + {(r, o)}, k);
      StillRuns(executing + {(r, o)}, executing, k);
    }
    hide Runs;
    assert forall k :: k in after <==> k in before || (k == r && r in heavy);
    if r in heavy && !Runs(executing, r) {
      assert r !in before && after == before + {r};
    } else {
      assert after == before;
    }
  }

  lemma EntryMade(executing: set<(int, int)>, heavy: set<int>, r: int)
    ensures |Covered(executing, heavy + {r})| >= |Covered(executing, heavy)|
  {
    SubsetSize(Covered(executing, heavy), Covered(executing, heavy + {r}));
  }

  lemma EntryDeleted(executing: set<(int, int)>, heavy: set<int>, r: int)
    ensures |Covered(executing, heavy - {r})| ==
            |Covered(executing, heavy)| - if r in heavy && Runs(executing, r) then 1 else 0
  {
    assert Covered(executing, heavy - {r}) == Covered(executing, heavy) - {r};
  }

  lemma OperationEnded(executing: set<(int, int)>, heavy: set<int>, r: int, o: int)
    requires (r, o) in executing
    ensures |executing - {(r, o)}| == |executing| - 1
    ensures |Covered(executing - {(r, o)}, heavy)| >= |Covered(executing, heavy)| - 1
  {
    var before, after := Covered(executing, heavy), Covered(executing - {(r, o)}, heavy);
    forall k | k != r && Runs(executing, k) ensures Runs(executing - {(r, o)}, k) {
      StillRuns(executing, executing - {(r, o)}, k);
    }
    SubsetSize(before - {r}, after);
  }

  /** Exactly those steps leave one more operation without an entry; no other step does. */
  lemma SurplusGrows(w: World, a: Action)
    requires CanAct(w, a)
    ensures Surplus(Act(w, a)) <= Surplus(w) + 1
    ensures Surplus(Act(w, a)) == Surplus(w) + 1 <==> LosesEntry(w, a)
  {
    hide Covered;
    match a
    case ThreadStep(t) =>
      AdvanceFrame(w, t);
      hide Advance;
      var pc, r := w.threads[t].pc, w.threads[t].repo;
      if pc.Setting? {
        if (r, pc.op) in w.executing {
          assert w.executing + {(r, pc.op)} == w.executing;
        } else {
          Launched(w.executing, w.heavy, r, pc.op);
        }
      } else if pc.Moved? {
        EntryMade(w.executing, w.heavy, r);
      } else if pc.Undo2? || pc.End1? {
        EntryDeleted(w.executing, w.heavy, r);
      }
    case NewRequest(r, o) =>
    case FinishOp(r, o, e, rest) => OperationEnded(w.executing, w.heavy, r, o);
    case CancelRequest(r, o, rest) =>
    case ClearError(r) =>
  }

  // ---------------------------------------------------------------- whole runs

  /** Step `i` of the run leaves an operation without an entry. */
  ghost predicate LossAt(trace: seq<World>, i: nat)
    requires 0 < i < |trace|
  {
    Loses(trace[i - 1], trace[i])
  }

  ghost predicate Loses(w: World, w': World) {
    exists a :: Does(w, a, w') && LosesEntry(w, a)
  }

  /** How often that happens in the first `n` steps. */
  ghost function Losses(trace: seq<World>, n: nat): nat
    requires n < |trace|
  {
    if n == 0 then 0 else Losses(trace, n - 1) + if LossAt(trace, n) then 1 else 0
  }

  /** What a step does to the surplus shows whether it is such a step. */
  lemma LossShows(trace: seq<World>, i: nat)
    requires IsTrace(trace) && 0 < i < |trace|
    ensures Surplus(trace[i]) <= Surplus(trace[i - 1]) + 1
    ensures LossAt(trace, i) <==> Surplus(trace[i]) == Surplus(trace[i - 1]) + 1
  {
    hide Surplus;
    hide Act;
    hide LosesEntry;
    assert StepAt(trace, i);
    var a :| Does(trace[i - 1], a, trace[i]);
    SurplusGrows(trace[i - 1], a);
    if LossAt(trace, i) {
      var b :| Does(trace[i - 1], b, trace[i]) && LosesEntry(trace[i - 1], b);
      SurplusGrows(trace[i - 1], b);
    }
  }

  lemma {:induction false} SurplusIsBounded(trace: seq<World>, max: nat, n: nat)
    requires IsTrace(trace) && trace[0] == Start(max) && n < |trace|
    ensures Surplus(trace[n]) <= Losses(trace, n)
  {
    if n > 0 {
      SurplusIsBounded(trace, max, n - 1);
      hide Surplus;
      LossShows(trace, n);
    }
  }

  /** In every interleaving no more operations run than there are entries and times that a running
      operation was left without one: when no more than `width + 1` goroutines are ever in the window
      together, no more than `max + width` and the number of those times. */
  lemma RunningIsBounded(trace: seq<World>, max: nat, width: nat, n: nat)
    requires IsTrace(trace) && trace[0] == Start(max) && n < |trace| && Narrow(trace, width)
    ensures |trace[n].executing| <= |trace[n].heavy| + Losses(trace, n)
    ensures |trace[n].executing| <= max + width + Losses(trace, n)
  {
    HeavyIsBounded(trace, max, width, n);
    SurplusIsBounded(trace, max, n);
    SubsetSize(Covered(trace[n].executing, trace[n].heavy), trace[n].heavy);
  }

  // ---------------------------------------------------------------- one goroutine on each repository

  /** Every running operation is the only one of its repository, and the repository has an entry. */
  ghost predicate Accounted(executing: set<(int, int)>, heavy: set<int>) {
    && (forall e <- executing :: e.0 in heavy)
    && (forall e <- executing, f <- executing :: e.0 == f.0 ==> e == f)
  }

  lemma {:induction false} AccountedSize(executing: set<(int, int)>, heavy: set<int>)
    requires Accounted(executing, heavy)
    ensures |Covered(executing, heavy)| == |executing|
    decreases |executing|
  {
    if executing == {} {
      assert Covered(executing, heavy) == {};
    } else {
      var e :| e in executing;
      var fewer := executing - {e};
      assert fewer + {(e.0, e.1)} == executing;
      assert !Runs(fewer, e.0);
      AccountedSize(fewer, heavy);
      Launched(fewer, heavy, e.0, e.1);
    }
  }

  lemma SerialHasNoSurplus(trace: seq<World>, max: nat, n: nat)
    requires IsTrace(trace) && trace[0] == Start(max) && n < |trace| && SerialUpTo(trace, n)
    ensures Surplus(trace[n]) == 0
  {
    var w := trace[n];
    forall e <- w.executing ensures IsActive(w, e.0, e.1) && e.0 in w.heavy {
      SerialRunsAreSafe(trace, max, n, e.0, e.1);
    }
    AccountedSize(w.executing, w.heavy);
  }

  /** As long as each repository has one goroutine at work nothing that runs loses its entry. */
  lemma {:induction false} SerialLosesNoEntry(trace: seq<World>, max: nat, n: nat)
    requires IsTrace(trace) && trace[0] == Start(max) && n < |trace| && SerialUpTo(trace, n)
    ensures Losses(trace, n) == 0
  {
    if n > 0 {
      SerialLosesNoEntry(trace, max, n - 1);
      SerialHasNoSurplus(trace, max, n - 1);
      SerialHasNoSurplus(trace, max, n);
      hide Surplus;
      LossShows(trace, n);
    }
  }

  /** Then the limit is overrun by no more than the goroutines in the window, in what runs too. */
  lemma SerialRunningIsBounded(trace: seq<World>, max: nat, width: nat, n: nat)
    requires IsTrace(trace) && trace[0] == Start(max) && n < |trace| && SerialUpTo(trace, n) && Narrow(trace, width)
    ensures |trace[n].executing| <= max + width
  {
    SerialLosesNoEntry(trace, max, n);
    RunningIsBounded(trace, max, width, n);
  }
}
