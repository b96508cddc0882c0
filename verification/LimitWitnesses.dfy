/** Runs in which more heavy operations run than the limit allows
    (backend/app/repository/queue_manager.go). */
module LimitWitnesses {
  import opened Prelude
  import opened StartRace
  import opened RaceRuns

  ghost function Slim(width: nat): World -> bool {
    (w: World) => Window(w.threads) <= width + 1
  }

  /** Goroutine `t` takes `n` sections while no more than `width` others are in the window. */
  lemma SlimSteps(u: World, v: World, t: nat, n: nat, w: World, width: nat)
    requires Leads(u, v, Slim(width)) && t < |v.threads| && v.threads[t].rest == [] && w == Steps(v, t, n)
    requires Window(v.threads) <= width + if InWindow(v.threads[t].pc) then 1 else 0
    ensures Leads(u, w, Slim(width))
  {
    hide Leads;
    forall k: nat | k <= n ensures Slim(width)(Steps(v, t, k)) {
      StepsFrame(v, t, k);
      WindowUpdate(v.threads, t, Steps(v, t, k).threads[t]);
    }
    StepsLead(v, t, n, Slim(width));
    Joined(u, v, w, Slim(width));
  }

  /** Repositories 0 to `a` - 1 run their operation, and the goroutines of the next ones up to `b` - 1
      have passed the check.  Operations are called after their repository. */
  ghost predicate Stage(w: World, a: nat, b: nat) {
    && a <= b == |w.threads| && |w.heavy| == a && Window(w.threads) == b - a
    && (forall i :: 0 <= i < b ==> w.threads[i] == Thread(i, if i < a then Show else Passed(i), true, []))
    && (forall i :: 0 <= i < a ==> (i, i) in w.executing)
    && (forall i :: a <= i ==> i !in w.heavy && i !in w.active && FaceOf(w, i) == Idle)
    && (forall i :: a <= i < b ==> Queue(w, i) == [i])
    && (forall i :: b <= i ==> Queue(w, i) == [])
  }

  lemma WindowOfGo(w: World, t: nat, pc: PC)
    requires t < |w.threads|
    ensures Window(Go(w, t, pc).threads) ==
            Window(w.threads) - (if InWindow(w.threads[t].pc) then 1 else 0) + (if InWindow(pc) then 1 else 0)
  {
    WindowUpdate(w.threads, t, w.threads[t].(pc := pc));
  }

  function Requested(w: World, b: nat): World {
    Act(w, NewRequest(b, b))
  }

  lemma RequestedFacts(w: World, a: nat, b: nat)
    requires Stage(w, a, b)
    ensures var v := Requested(w, b);
            && |v.threads| == b + 1 && v.threads[b] == Thread(b, Begin, true, []) && v.threads[..b] == w.threads
            && Queue(v, b) == [b] && Window(v.threads) == b - a
  {
    WindowAppend(w.threads, Thread(b, Begin, true, []));
  }

  lemma GatheredElsewhere(w: World, b: nat)
    requires |w.threads| == b
    ensures var u := Requested(w, b);
            && |u.threads| == b + 1
            && var v := Go(u, b, Passed(b));
               && v == w.(waiting := v.waiting, threads := v.threads)
               && forall i :: i != b ==> Queue(v, i) == Queue(w, i)
  {
  }

  lemma GatheredIsStage(w: World, a: nat, b: nat)
    requires Stage(w, a, b)
    ensures |Requested(w, b).threads| == b + 1 && Stage(Go(Requested(w, b), b, Passed(b)), a, b + 1)
  {
    RequestedFacts(w, a, b);
    WindowOfGo(Requested(w, b), b, Passed(b));
    GatheredElsewhere(w, b);
    var u := Requested(w, b);
    var v := Go(u, b, Passed(b));
    assert Queue(v, b) == [b] && v.threads == u.threads[b := Thread(b, Passed(b), true, [])];
    hide Requested;
    hide Queue;
    hide Window;
    hide Go;
    forall i | 0 <= i < b + 1 ensures v.threads[i] == Thread(i, if i < a then Show else Passed(i), true, []) {
      if i < b {
        assert v.threads[i] == u.threads[i] == u.threads[..b][i];
        assert w.threads[i] == Thread(i, if i < a then Show else Passed(i), true, []);
      }
    }
    forall i | a <= i ensures i !in v.heavy && i !in v.active && FaceOf(v, i) == Idle {
      assert i !in w.heavy && i !in w.active && FaceOf(w, i) == Idle;
    }
    forall i | a <= i ensures Queue(v, i) == if i < b + 1 then [i] else [] {
      assert i != b ==> Queue(v, i) == Queue(w, i);
    }
  }

  /** A request comes in and its goroutine gets as far as having passed the check. */
  lemma Gathers(w: World, width: nat, a: nat, b: nat) returns (v: World)
    requires Stage(w, a, b) && a < w.max && b - a <= width
    ensures Leads(w, v, Slim(width)) && Stage(v, a, b + 1) && v.max == w.max
  {
    hide Leads;
    hide Stage;
    var u := Requested(w, b);
    RequestedFacts(w, a, b);
    v := Go(u, b, Passed(b));
    WindowOfStage(w, a, b);
    GatheredIsStage(w, a, b);
    MayGather(w, a, b);
    hide Requested;
    LeadsToItself(w, Slim(width));
    GoOn(w, w, NewRequest(b, b), u, Slim(width));
    LooksAround(u, b, b);
    hide Steps;
    SlimSteps(w, u, b, 5, v, width);
  }

  lemma WindowOfStage(w: World, a: nat, b: nat)
    requires Stage(w, a, b)
    ensures Window(w.threads) == b - a
  {
  }

  lemma MayGather(w: World, a: nat, b: nat)
    requires Stage(w, a, b) && a < w.max
    ensures var v := Requested(w, b); v.max == w.max && v.threads != [] && b !in v.active && MayStart(v, b)
  {
  }

  lemma LaunchedIsStage(w: World, a: nat, b: nat)
    requires Stage(w, a, b) && a < b
    ensures var v := AtLaunched(w, a, a); Stage(v, a + 1, b)
  {
    var v := AtLaunched(w, a, a);
    WindowOfGo(w, a, Show);
    assert w.threads[a] == Thread(a, Passed(a), true, []);
    assert v.threads == w.threads[a := Thread(a, Show, true, [])] == Go(w, a, Show).threads;
    assert v.heavy == w.heavy + {a} && a !in w.heavy;
    hide Window;
    LaunchedElsewhere(w, a);
    forall i | 0 <= i < b ensures v.threads[i] == Thread(i, if i < a + 1 then Show else Passed(i), true, []) {
      assert i != a ==> v.threads[i] == w.threads[i];
    }
    forall i | 0 <= i < a + 1 ensures (i, i) in v.executing {
      assert i < a ==> (i, i) in w.executing;
    }
  }

  lemma LaunchedElsewhere(w: World, a: nat)
    requires a < |w.threads| && w.threads[a].repo == a
    ensures var v := AtLaunched(w, a, a);
            && (forall i :: i != a ==>
                  && Queue(v, i) == Queue(w, i) && FaceOf(v, i) == FaceOf(w, i)
                  && (i in v.active <==> i in w.active) && (i in v.heavy <==> i in w.heavy))
            && v.executing == w.executing + {(a, a)}
  {
  }

  lemma Launches(w: World, width: nat, a: nat, b: nat) returns (v: World)
    requires Stage(w, a, b) && a < b <= a + width + 1
    ensures Leads(w, v, Slim(width)) && Stage(v, a + 1, b) && v.max == w.max
  {
    hide Leads;
    v := AtLaunched(w, a, a);
    LaunchedIsStage(w, a, b);
    assert a in Queue(w, a);
    Starts(w, a, a);
    LeadsToItself(w, Slim(width));
    hide Steps;
    SlimSteps(w, w, a, 4, v, width);
  }

  /** The bound of HeavyIsBounded is attained for every limit and every width: the first `max` - 1
      operations start one after the other, then `width` + 1 goroutines pass the check before any of
      them makes its entry, and `max` + `width` heavy operations run. */
  lemma LimitIsOverrun(max: nat, width: nat) returns (trace: seq<World>)
    requires max >= 1
    ensures IsTrace(trace) && trace[0] == Start(max) && Narrow(trace, width)
    ensures var w := trace[|trace| - 1];
            |w.heavy| == max + width && forall i :: 0 <= i < max + width ==> (i, i) in w.executing
  {
    var w := Overrun(max, width);
    trace :| Passing(trace, Start(max), w, Slim(width));
  }

  lemma Overrun(max: nat, width: nat) returns (w: World)
    requires max >= 1
    ensures Leads(Start(max), w, Slim(width)) && Stage(w, max + width, max + width)
  {
    hide Leads;
    w := Start(max);
    var p, a, b, v := Slim(width), 0, 0, w;
    LeadsToItself(w, p);
    while a < max - 1
      invariant a == b <= max - 1
      invariant Leads(Start(max), w, p) && Stage(w, a, b) && w.max == max
    {
      v := Gathers(w, width, a, b);
      Joined(Start(max), w, v, p);
      b := b + 1;
      w := Launches(v, width, a, b);
      Joined(Start(max), v, w, p);
      a := a + 1;
    }
    while b < max + width
      invariant a == max - 1 <= b <= max + width
      invariant Leads(Start(max), w, p) && Stage(w, a, b) && w.max == max
    {
      v := Gathers(w, width, a, b);
      Joined(Start(max), w, v, p);
      b, w := b + 1, v;
    }
    while a < b
      invariant max - 1 <= a <= b == max + width
      invariant Leads(Start(max), w, p) && Stage(w, a, b) && w.max == max
    {
      v := Launches(w, width, a, b);
      Joined(Start(max), w, v, p);
      a, w := a + 1, v;
    }
  }

  // ---------------------------------------------------------------- operations without an entry

  /** Repositories 0 to `k` - 1 run an operation each, although nothing is entered; the others have not
      been used.  Operation 2 * `i` is the first one of repository `i`. */
  ghost predicate Unentered(w: World, k: nat) {
    && |w.threads| == 2 * k && Window(w.threads) == 0 && w.heavy == {} && |w.executing| == k
    && (forall i :: 0 <= i < k ==> (i, 2 * i) in w.executing)
    && (forall e <- w.executing :: e.0 < k)
    && (forall i :: k <= i ==> i !in w.active && Queue(w, i) == [] && FaceOf(w, i) == Idle)
  }

  /** Two requests come to repository `k`. */
  function TwoRequests(w: World, k: nat): World {
    Act(Act(w, NewRequest(k, 2 * k)), NewRequest(k, 2 * k + 1))
  }

  lemma TwoRequestsFacts(w: World, k: nat)
    requires Unentered(w, k)
    ensures var v := TwoRequests(w, k);
            && v == w.(waiting := v.waiting, threads := v.threads) && Queue(v, k) == [2 * k, 2 * k + 1]
            && v.threads == w.threads + [Thread(k, Begin, true, []), Thread(k, Begin, true, [])]
            && Window(v.threads) == 0 && forall i :: i != k ==> Queue(v, i) == Queue(w, i)
  {
    var th := Thread(k, Begin, true, []);
    WindowAppend(w.threads, th);
    WindowAppend(w.threads + [th], th);
    assert w.threads + [th] + [th] == w.threads + [th, th];
  }

  /** A goroutine whose second look at the limit fails removes its operation, also when that runs. */
  function GivenUp(w: World, t: nat): World
    requires t < |w.threads|
  {
    var r := w.threads[t].repo;
    Go(w, t, Clearing).(heavy := w.heavy - {r}, active := w.active - {r})
  }

  lemma GivesUp(w: World, t: nat, o: int)
    requires t < |w.threads| && w.threads[t].pc == Willing(o)
    requires var r := w.threads[t].repo; r in w.heavy && IsActive(w, r, o)
    ensures Steps(w, t, 5) == GivenUp(w, t)
  {
    TurnsBack(w, t, o);
    TakesBack(w, t, o);
    hide Advance;
    assert Steps(w, t, 1) == Advance(w, t);
    assert Steps(w, t, 2) == Go(w, t, Undo1(o, true));
    assert Steps(w, t, 3) == Go(w, t, Undo2(o, true));
  }

  lemma TurnsBack(w: World, t: nat, o: int)
    requires t < |w.threads| && w.threads[t].pc == Willing(o)
    requires var r := w.threads[t].repo; r in w.heavy && IsActive(w, r, o)
    ensures Advance(w, t) == Go(w, t, Undo(o, true)) && Advance(Go(w, t, Undo(o, true)), t) == Go(w, t, Undo1(o, true))
    ensures Advance(Go(w, t, Undo1(o, true)), t) == Go(w, t, Undo2(o, true))
  {
    hide Display;
    hide Complete;
  }

  lemma TakesBack(w: World, t: nat, o: int)
    requires t < |w.threads| && IsActive(w, w.threads[t].repo, o)
    ensures var v := Advance(Go(w, t, Undo2(o, true)), t); t < |v.threads| && Advance(v, t) == GivenUp(w, t)
  {
    hide Process;
    hide Display;
    hide Complete;
    assert Advance(Go(w, t, Undo2(o, true)), t) == Go(w, t, Undo3(o, true)).(heavy := w.heavy - {w.threads[t].repo});
  }

  /** Both goroutines see room; the first one gets past the check. */
  function BothLook(w: World, k: nat): World
    requires |w.threads| == 2 * k
  {
    Go(Go(TwoRequests(w, k), 2 * k + 1, Willing(2 * k)), 2 * k, Passed(2 * k))
  }

  lemma BothLookLead(w: World, k: nat)
    requires Unentered(w, k) && w.max >= 1
    ensures Leads(w, BothLook(w, k), Slim(0)) && Window(BothLook(w, k).threads) == 1
  {
    hide Leads;
    hide Steps;
    var o, a, b := 2 * k, 2 * k, 2 * k + 1;
    var u := TwoRequests(w, k);
    TwoRequestsLead(w, k);
    TwoRequestsFacts(w, k);
    hide TwoRequests;
    LooksAround(u, b, o);
    var v := Go(u, b, Willing(o));
    SlimSteps(w, u, b, 4, v, 0);
    WindowOfGo(u, b, Willing(o));
    LooksAround(v, a, o);
    SlimSteps(w, v, a, 5, Go(v, a, Passed(o)), 0);
    WindowOfGo(v, a, Passed(o));
  }

  lemma FirstLaunches(w: World, k: nat) returns (u: World)
    requires Unentered(w, k) && w.max >= 1
    ensures Leads(w, u, Slim(0)) && Window(u.threads) == 0 && u.max == w.max
    ensures |u.threads| == 2 * k + 2 && u.threads[2 * k + 1] == Thread(k, Willing(2 * k), true, [])
    ensures IsActive(u, k, 2 * k) && u.heavy == {k} && u.executing == w.executing + {(k, 2 * k)}
    ensures forall i :: i > k ==>
              (i in u.active <==> i in w.active) && Queue(u, i) == Queue(w, i) && FaceOf(u, i) == FaceOf(w, i)
  {
    hide Leads;
    hide Steps;
    BothLookLead(w, k);
    TwoRequestsFacts(w, k);
    var t := BothLook(w, k);
    hide TwoRequests;
    Starts(t, 2 * k, 2 * k);
    u := AtLaunched(t, 2 * k, 2 * k);
    SlimSteps(w, t, 2 * k, 4, u, 0);
    WindowOfGo(t, 2 * k, Show);
    assert u.threads == Go(t, 2 * k, Show).threads;
  }

  /** It launches, and the second one fails and takes the entry away. */
  lemma LosesOne(w: World, k: nat) returns (v: World)
    requires Unentered(w, k) && w.max >= 1
    ensures Leads(w, v, Slim(0)) && Unentered(v, k + 1) && v.max == w.max
  {
    hide Leads;
    hide Steps;
    var b := 2 * k + 1;
    var u := FirstLaunches(w, k);
    GivesUp(u, b, 2 * k);
    v := GivenUp(u, b);
    SlimSteps(w, u, b, 5, v, 0);
    WindowOfGo(u, b, Clearing);
    StillUnentered(w, u, v, k);
  }

  lemma TwoRequestsLead(w: World, k: nat)
    requires Unentered(w, k)
    ensures Leads(w, TwoRequests(w, k), Slim(0))
  {
    hide Leads;
    var th := Thread(k, Begin, true, []);
    WindowAppend(w.threads, th);
    WindowAppend(w.threads + [th], th);
    LeadsToItself(w, Slim(0));
    var u := Act(w, NewRequest(k, 2 * k));
    GoOn(w, w, NewRequest(k, 2 * k), u, Slim(0));
    GoOn(w, u, NewRequest(k, 2 * k + 1), TwoRequests(w, k), Slim(0));
  }

  lemma StillUnentered(w: World, u: World, v: World, k: nat)
    requires Unentered(w, k)
    requires |v.threads| == 2 * k + 2 && Window(v.threads) == 0
    requires u.heavy == {k} && v.heavy == {} && v.executing == w.executing + {(k, 2 * k)}
    requires forall i :: i > k ==>
              (i in v.active <==> i in w.active) && Queue(v, i) == Queue(w, i) && FaceOf(v, i) == FaceOf(w, i)
    ensures Unentered(v, k + 1)
  {
    assert (k, 2 * k) !in w.executing;
    assert |w.executing + {(k, 2 * k)}| == |w.executing| + 1;
  }

  /** The limit does not bound what runs, even with one goroutine at a time in the window: for every limit
      and every number there is a run with that many operations running and nothing entered. */
  lemma RunningIsUnbounded(max: nat, n: nat) returns (trace: seq<World>)
    requires max >= 1
    ensures IsTrace(trace) && trace[0] == Start(max) && Narrow(trace, 0)
    ensures |trace[|trace| - 1].executing| == n && trace[|trace| - 1].heavy == {}
  {
    var w, k := Start(max), 0;
    LeadsToItself(w, Slim(0));
    while k < n
      invariant k <= n && Leads(Start(max), w, Slim(0)) && Unentered(w, k) && w.max == max
    {
      hide Leads;
      hide Unentered;
      var v := LosesOne(w, k);
      Joined(Start(max), w, v, Slim(0));
      k, w := k + 1, v;
    }
    trace := TraceOf(Start(max), w, Slim(0));
  }
}
