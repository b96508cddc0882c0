/** Waiting work and who wakes it up.  After every call of the scheduler
    (backend/app/repository/queue_manager.go) the question is whether an operation is left waiting that
    could start right now; here is exactly when one is, in terms of the state before the call. */
module WakeUps {
  import opened Prelude
  import opened RepositoryQueues
  import opened QueueManagers
  import opened Scenarios

  /** Repository `r` could start its next operation right now, and nothing is doing so. */
  predicate Runnable(s: Sys, r: int) {
    Ready(s, r) && Allowed(StateOf(s, r), TargetOf(HeadOf(s, r).operation), false)
  }

  ghost predicate Quiescent(s: Sys) {
    forall r :: !Runnable(s, r)
  }

  /** Less heavy work is running in `s` than in `s'`, so what could not start before cannot now. */
  lemma StillNotRunnable(s: Sys, s': Sys, r: int, k: int)
    requires OnlyAt(s, s', r) && k != r && |s.heavy| <= |s'.heavy| && !Runnable(s, k)
    ensures !Runnable(s', k)
  {
    assert QueueOf(s', k) == QueueOf(s, k);
    assert At(s'.heavy, k) == At(s.heavy, k) && At(s'.light, k) == At(s.light, k);
  }

  lemma ProcessedIsNotRunnable(s: Sys, r: int)
    requires Inv(s) && Process(s, r).1
    ensures !Ready(Process(s, r).0, r)
    ensures |s.heavy| <= |Process(s, r).0.heavy|
    ensures OnlyAt(s, Process(s, r).0, r)
  {
    assert AgreesAt(s, r);
    ProcessDoes(s, r);
    ProcessKeeps(s, r);
    if Ready(s, r) {
      HeadMovedOnlyAt(Touch(s, r), r);
      PutKey(s.heavy, r, HeadOf(s, r));
    }
  }

  // ---------------------------------------------------------------- in terms of the state before a call

  /** There is room for `o` when `n` heavy operations are entered. */
  predicate Fits(o: Op, n: nat, maxHeavy: nat) {
    WeightOf(o.operation).Light? || n < maxHeavy
  }

  function Grown(o: Op, n: nat): nat {
    if WeightOf(o.operation).Heavy? then n + 1 else n
  }

  /** Repository `k` is idle with work queued, and there would be room for the head. */
  predicate Waits(s: Sys, k: int, n: nat) {
    QueueOf(s, k).active.None? && QueueOf(s, k).waiting != [] && Fits(HeadOf(s, k), n, s.maxHeavy)
  }

  predicate Accepts(s: Sys, k: int, o: Op) {
    Allowed(StateOf(s, k), TargetOf(o.operation), false)
  }

  predicate Startable(s: Sys, k: int, n: nat) {
    Waits(s, k, n) && Accepts(s, k, HeadOf(s, k))
  }

  /** The state of repository `k` does not allow the head of its queue, for which there would be room. */
  predicate Refuses(s: Sys, k: int, n: nat) {
    Waits(s, k, n) && !Accepts(s, k, HeadOf(s, k))
  }

  /** The operation behind the head could start if the head were gone. */
  predicate SecondStartable(s: Sys, k: int, n: nat) {
    var w := QueueOf(s, k).waiting;
    |w| > 1 && Fits(w[1], n, s.maxHeavy) && Accepts(s, k, w[1])
  }

  /** Repository `k` looks the same in both systems. */
  ghost predicate SameAt(s: Sys, t: Sys, k: int) {
    && QueueOf(t, k) == QueueOf(s, k) && StateOf(t, k) == StateOf(s, k) && t.maxHeavy == s.maxHeavy
  }

  lemma RunnableIsStartable(s: Sys, k: int)
    requires Inv(s)
    ensures Ready(s, k) <==> Waits(s, k, |s.heavy|)
    ensures Runnable(s, k) <==> Startable(s, k, |s.heavy|)
  {
    assert AgreesAt(s, k);
  }

  /** processQueue in these terms. */
  lemma ProcessOutcome(s: Sys, k: int)
    requires Inv(s)
    ensures var n, (u, ok) := |s.heavy|, Process(s, k);
            && Inv(u) && OnlyAt(s, u, k) && ok == !Refuses(s, k, n)
            && |u.heavy| == (if Startable(s, k, n) then Grown(HeadOf(s, k), n) else n)
            && (!Waits(s, k, n) ==> SameAt(s, u, k))
            && (Startable(s, k, n) ==> QueueOf(u, k).active.Some?)
            && (Refuses(s, k, n) ==>
                  QueueOf(u, k).active.None? && QueueOf(u, k).waiting == QueueOf(s, k).waiting[1..] && StateOf(u, k) == StateOf(s, k))
  {
    assert AgreesAt(s, k);
    RunnableIsStartable(s, k);
    ProcessDoes(s, k);
    ProcessKeeps(s, k);
    if Startable(s, k, |s.heavy|) {
      HeadMovedOnlyAt(Touch(s, k), k);
      PutKey(s.heavy, k, HeadOf(s, k));
    }
  }

  /** The sweep over the other repositories stops early: at one that refuses its head at its turn.
      `n` heavy operations are entered when it begins. */
  predicate SweepStops(s: Sys, r: int, others: seq<int>, n: nat)
    decreases |others|
  {
    if others == [] then false
    else
      var k, rest := others[0], others[1..];
      if k == r || !Waits(s, k, n) then SweepStops(s, r, rest, n)
      else if !Accepts(s, k, HeadOf(s, k)) then true
      else SweepStops(s, r, rest, Grown(HeadOf(s, k), n))
  }

  ghost predicate AnyStartable(s: Sys, r: int, ks: seq<int>, n: nat) {
    exists k :: k in ks && k != r && Startable(s, k, n)
  }

  /** The sweep leaves startable work waiting: where it stopped, or further on. */
  ghost predicate SweepLeaves(s: Sys, r: int, others: seq<int>, n: nat)
    decreases |others|
  {
    if others == [] then false
    else
      var k, rest := others[0], others[1..];
      if k == r || !Waits(s, k, n) then SweepLeaves(s, r, rest, n)
      else if !Accepts(s, k, HeadOf(s, k)) then SecondStartable(s, k, n) || AnyStartable(s, r, rest, n)
      else SweepLeaves(s, r, rest, Grown(HeadOf(s, k), n))
  }

  lemma {:induction false} SweepLooksAhead(s: Sys, t: Sys, r: int, others: seq<int>, n: nat)
    requires forall k :: k in others && k != r ==> SameAt(s, t, k)
    ensures SweepStops(s, r, others, n) == SweepStops(t, r, others, n)
    ensures SweepLeaves(s, r, others, n) == SweepLeaves(t, r, others, n)
    decreases |others|
  {
    if others != [] {
      var k, rest := others[0], others[1..];
      assert forall m :: m in rest ==> m in others;
      assert k != r ==> SameAt(s, t, k);
      SweepLooksAhead(s, t, r, rest, n);
      if Startable(s, k, n) {
        SweepLooksAhead(s, t, r, rest, Grown(HeadOf(s, k), n));
      }
      assert AnyStartable(s, r, rest, n) == AnyStartable(t, r, rest, n) by {
        forall m | m in rest && m != r ensures Startable(s, m, n) == Startable(t, m, n) {
          assert SameAt(s, t, m);
        }
      }
    }
  }

  ghost predicate AnyRunnable(s: Sys, r: int, ks: seq<int>) {
    exists k :: k in ks && k != r && Runnable(s, k)
  }

  lemma SameElsewhere(s: Sys, t: Sys, k: int, m: int)
    requires OnlyAt(s, t, k) && m != k
    ensures SameAt(s, t, m)
  {
  }

  /** The sweep has come to a repository that refuses its head. */
  lemma SweepHalts(s: Sys, r: int, others: seq<int>)
    requires Inv(s) && Distinct(others) && others != [] && others[0] != r && Refuses(s, others[0], |s.heavy|)
    ensures var u := Process(s, others[0]).0;
            AnyRunnable(u, r, others) <==>
            SecondStartable(s, others[0], |s.heavy|) || AnyStartable(s, r, others[1..], |s.heavy|)
  {
    var k, rest, n := others[0], others[1..], |s.heavy|;
    var u := Process(s, k).0;
    ProcessOutcome(s, k);
    RunnableIsStartable(u, k);
    assert Runnable(u, k) <==> SecondStartable(s, k, n);
    assert k in others && k !in rest;
    forall m | m in rest ensures m in others && (Runnable(u, m) <==> Startable(s, m, n)) {
      SameElsewhere(s, u, k, m);
      RunnableIsStartable(u, m);
    }
    if AnyRunnable(u, r, others) {
      var m :| m in others && m != r && Runnable(u, m);
      assert m == k || m in rest;
    }
    if AnyStartable(s, r, rest, n) {
      var m :| m in rest && m != r && Startable(s, m, n);
      assert Runnable(u, m);
    }
  }

  /** The repository the sweep has just passed is not runnable afterwards. */
  lemma PassedIsNotRunnable(s: Sys, t: Sys, u: Sys, k: int)
    requires Inv(s) && Inv(u) && t == Process(s, k).0 && !Refuses(s, k, |s.heavy|)
    requires SameAt(t, u, k) && |t.heavy| <= |u.heavy|
    ensures !Runnable(u, k)
  {
    ProcessOutcome(s, k);
    RunnableIsStartable(u, k);
  }

  lemma SkipOne(u: Sys, r: int, others: seq<int>)
    requires others != [] && (others[0] == r || !Runnable(u, others[0]))
    ensures AnyRunnable(u, r, others) <==> AnyRunnable(u, r, others[1..])
  {
    if AnyRunnable(u, r, others) {
      var m :| m in others && m != r && Runnable(u, m);
      assert m in others[1..];
    }
    if AnyRunnable(u, r, others[1..]) {
      var m :| m in others[1..] && m != r && Runnable(u, m);
      assert m in others;
    }
  }

  /** What the sweep of CompleteOperation does. */
  lemma {:induction false} SweepOutcome(s: Sys, r: int, others: seq<int>)
    requires Inv(s) && Distinct(others)
    ensures var (u, ok) := ProcessAll(s, r, others);
            && Inv(u) && |s.heavy| <= |u.heavy|
            && (forall k :: k !in others || k == r ==> SameAt(s, u, k))
            && ok == !SweepStops(s, r, others, |s.heavy|)
            && (AnyRunnable(u, r, others) <==> SweepLeaves(s, r, others, |s.heavy|))
    decreases |others|
  {
    if others != [] {
      var k, rest, n := others[0], others[1..], |s.heavy|;
      assert k !in rest && Distinct(rest);
      var u := ProcessAll(s, r, others).0;
      hide Process;
      if k == r {
        SweepOutcome(s, r, rest);
        SkipOne(u, r, others);
      } else {
        ProcessOutcome(s, k);
        var t := Process(s, k).0;
        if Refuses(s, k, n) {
          SweepHalts(s, r, others);
        } else {
          SweepOutcome(t, r, rest);
          forall m | m !in others || m == r ensures SameAt(s, u, m) {
            SameElsewhere(s, t, k, m);
            assert SameAt(t, u, m);
          }
          PassedIsNotRunnable(s, t, u, k);
          SkipOne(u, r, others);
          SweepLooksAhead(s, t, r, rest, |t.heavy|);
        }
      }
    }
  }

  // ---------------------------------------------------------------- completing an operation

  /** Heavy operations entered once the active one of `r` has been taken out. */
  function Freed(s: Sys, r: int): nat
    requires QueueOf(s, r).active.Some?
  {
    if WeightOf(QueueOf(s, r).active.value.operation).Heavy? && |s.heavy| > 0 then |s.heavy| - 1 else |s.heavy|
  }

  /** A completion in the error state with work behind it that there is room for: the next operation is
      refused and thrown away. */
  predicate OwnRefused(s: Sys, r: int, enterError: bool)
    requires QueueOf(s, r).active.Some?
  {
    enterError && QueueOf(s, r).waiting != [] && Fits(HeadOf(s, r), Freed(s, r), s.maxHeavy)
  }

  /** Heavy operations entered once the repository's own queue has been processed. */
  function Refilled(s: Sys, r: int, enterError: bool): nat
    requires QueueOf(s, r).active.Some?
  {
    if !enterError && QueueOf(s, r).waiting != [] && Fits(HeadOf(s, r), Freed(s, r), s.maxHeavy)
    then Grown(HeadOf(s, r), Freed(s, r)) else Freed(s, r)
  }

  /** Whether the completion calls processQueue for the other repositories. */
  predicate Sweeps(s: Sys, r: int, enterError: bool)
    requires QueueOf(s, r).active.Some?
  {
    WeightOf(QueueOf(s, r).active.value.operation).Heavy? && !OwnRefused(s, r, enterError)
  }

  predicate CompletesCleanly(s: Sys, r: int, enterError: bool, others: seq<int>)
    requires QueueOf(s, r).active.Some?
  {
    !OwnRefused(s, r, enterError) &&
    (Sweeps(s, r, enterError) ==> !SweepStops(s, r, others, Refilled(s, r, enterError)))
  }

  ghost predicate CompletionLeaves(s: Sys, r: int, enterError: bool, others: seq<int>)
    requires QueueOf(s, r).active.Some?
  {
    if Sweeps(s, r, enterError) then SweepLeaves(s, r, others, Refilled(s, r, enterError))
    else AnyStartable(s, r, others, Refilled(s, r, enterError))
  }

  /** `others` is an order in which the map of queues can be visited. */
  ghost predicate IsOrder(s: Sys, others: seq<int>) {
    Distinct(others) && forall k :: k in s.queues ==> k in others
  }

  lemma EndedOutcome(s: Sys, r: int, enterError: bool)
    requires Inv(s) && QueueOf(s, r).active.Some?
    ensures var e := Ended(Touch(s, r), r, CompletionTarget(s, r, enterError));
            && Inv(e) && |e.heavy| == Freed(s, r) && (forall k :: k != r ==> SameAt(s, e, k))
            && QueueOf(e, r).active.None? && QueueOf(e, r).waiting == QueueOf(s, r).waiting
            && (Refuses(e, r, |e.heavy|) <==> OwnRefused(s, r, enterError))
            && (Startable(e, r, |e.heavy|) <==>
                  !enterError && QueueOf(s, r).waiting != [] && Fits(HeadOf(s, r), Freed(s, r), s.maxHeavy))
            && (enterError ==> StateOf(e, r) == Error)
  {
    var e := Ended(Touch(s, r), r, CompletionTarget(s, r, enterError));
    EndedFacts(s, r, enterError);
    hide Ended;
    forall k | k != r ensures SameAt(s, e, k) {
      SameElsewhere(s, e, r, k);
    }
    EndedHead(s, e, r, enterError);
  }

  lemma EndedHead(s: Sys, e: Sys, r: int, enterError: bool)
    requires QueueOf(s, r).active.Some? && QueueOf(e, r) == Finished(QueueOf(s, r)).value
    requires StateOf(e, r) == CompletionTarget(s, r, enterError) && e.maxHeavy == s.maxHeavy && |e.heavy| == Freed(s, r)
    ensures Refuses(e, r, |e.heavy|) <==> OwnRefused(s, r, enterError)
    ensures Startable(e, r, |e.heavy|) <==>
              !enterError && QueueOf(s, r).waiting != [] && Fits(HeadOf(s, r), Freed(s, r), s.maxHeavy)
  {
    hide TargetOf;
    hide Allowed;
    var w := QueueOf(s, r).waiting;
    if w != [] {
      AcceptedFrom(w[0].operation);
      assert StateOf(e, r) == if enterError then Error else InQueue;
    }
  }

  lemma AcceptedFrom(operation: Operation)
    ensures Allowed(InQueue, TargetOf(operation), false) && !Allowed(Error, TargetOf(operation), false)
  {
  }

  lemma EndedFacts(s: Sys, r: int, enterError: bool)
    requires Inv(s) && QueueOf(s, r).active.Some?
    ensures var target := CompletionTarget(s, r, enterError);
            var e := Ended(Touch(s, r), r, target);
            && Inv(e) && OnlyAt(s, e, r) && |e.heavy| == Freed(s, r)
            && QueueOf(e, r) == Finished(QueueOf(s, r)).value && StateOf(e, r) == target
  {
    var t := Touch(s, r);
    var e := Ended(t, r, CompletionTarget(s, r, enterError));
    TouchKeeps(s, r);
    EndedKeeps(t, r, enterError);
    OnlyAtJoins(s, t, e, r);
    assert AgreesAt(s, r);
    DropKey(s.heavy, r);
  }

  /** What happens to the own queue: afterwards nothing in it can start, and the next operation is gone
      if it was refused. */
  lemma OwnOutcome(s: Sys, r: int, enterError: bool)
    requires Inv(s) && QueueOf(s, r).active.Some?
    ensures var e := Ended(Touch(s, r), r, CompletionTarget(s, r, enterError));
            var (u, ok) := Process(e, r);
            && Inv(u) && ok == !OwnRefused(s, r, enterError) && |u.heavy| == Refilled(s, r, enterError)
            && (forall k :: k != r ==> SameAt(s, u, k))
            && !Runnable(u, r)
            && (OwnRefused(s, r, enterError) ==>
                  && QueueOf(u, r).waiting == QueueOf(s, r).waiting[1..] && QueueOf(u, r).active.None?
                  && StateOf(u, r) == Error && |u.heavy| == Freed(s, r))
  {
    hide Ended;
    hide Process;
    hide Inv;
    hide Runnable;
    var e := Ended(Touch(s, r), r, CompletionTarget(s, r, enterError));
    var u := Process(e, r).0;
    EndedOutcome(s, r, enterError);
    ProcessOutcome(e, r);
    RunnableIsStartable(u, r);
    forall k | k != r ensures SameAt(s, u, k) {
      assert SameAt(s, e, k);
      SameElsewhere(e, u, r, k);
    }
  }

  /** Nothing outside the queues that exist is runnable, and with it one can go by a list of them. */
  lemma QuiescentByOrder(u: Sys, r: int, others: seq<int>)
    requires !Runnable(u, r) && forall k :: QueueOf(u, k).waiting != [] ==> k in others
    ensures Quiescent(u) <==> !AnyRunnable(u, r, others)
  {
  }

  lemma StillWaitsFor(t: Sys, u: Sys, k: int)
    requires Inv(t) && Inv(u) && SameAt(t, u, k) && |t.heavy| <= |u.heavy| && !Runnable(t, k)
    ensures !Runnable(u, k)
  {
    RunnableIsStartable(t, k);
    RunnableIsStartable(u, k);
  }

  lemma AnyRunnableAs(s: Sys, u: Sys, r: int, others: seq<int>)
    requires Inv(u) && forall k :: k != r ==> SameAt(s, u, k)
    ensures AnyRunnable(u, r, others) <==> AnyStartable(s, r, others, |u.heavy|)
  {
    forall k | k in others && k != r ensures Runnable(u, k) <==> Startable(s, k, |u.heavy|) {
      assert SameAt(s, u, k);
      RunnableIsStartable(u, k);
    }
  }

  /** Ending the active operation, exactly.  The call succeeds if and only if the next operation of the
      repository is not refused and, for a heavy one, the sweep meets no repository that refuses its
      head at its turn; and it leaves startable work waiting if and only if, before the call, there is a
      repository that the sweep will not reach or will leave behind and whose head there will be room
      for.  Everything on the right is about the state before. */
  lemma CompletionOutcome(s: Sys, r: int, id: string, enterError: bool, others: seq<int>)
    requires Inv(s) && QueueOf(s, r).active.Some? && QueueOf(s, r).active.value.id == id && IsOrder(s, others)
    ensures var (u, ok) := Complete(s, r, id, enterError, others);
            && ok == CompletesCleanly(s, r, enterError, others)
            && (Quiescent(u) <==> !CompletionLeaves(s, r, enterError, others))
            && (OwnRefused(s, r, enterError) ==>
                  && QueueOf(u, r).waiting == QueueOf(s, r).waiting[1..] && QueueOf(u, r).active.None?
                  && StateOf(u, r) == Error && |u.heavy| == Freed(s, r))
  {
    var e := Ended(Touch(s, r), r, CompletionTarget(s, r, enterError));
    var v := Process(e, r).0;
    var u := Complete(s, r, id, enterError, others).0;
    CompletionIsAllowed(s, r, id, enterError, others);
    OwnOutcome(s, r, enterError);
    hide Complete;
    hide Process;
    hide Ended;
    if Sweeps(s, r, enterError) {
      SweepOutcome(v, r, others);
      SweepLooksAhead(s, v, r, others, |v.heavy|);
      StillWaitsFor(v, u, r);
      QueuesStay(s, v, u, r, others);
    } else {
      assert u == v;
      AnyRunnableAs(s, v, r, others);
      QueuesStay(s, v, u, r, others);
    }
    QuiescentByOrder(u, r, others);
  }

  /** Queues with waiting operations are in the order throughout. */
  lemma QueuesStay(s: Sys, v: Sys, u: Sys, r: int, others: seq<int>)
    requires IsOrder(s, others) && r in s.queues
    requires forall k :: k != r ==> SameAt(s, v, k)
    requires forall k :: k !in others || k == r ==> SameAt(v, u, k)
    ensures forall k :: QueueOf(u, k).waiting != [] ==> k in others
  {
    forall k | k !in others ensures QueueOf(u, k).waiting == [] {
      assert SameAt(s, v, k) && SameAt(v, u, k);
    }
  }

  lemma {:induction false} NothingRefused(s: Sys, r: int, others: seq<int>, n: nat)
    requires forall k :: k in others && k != r ==> !Refuses(s, k, n)
    ensures !SweepStops(s, r, others, n) && !SweepLeaves(s, r, others, n)
    decreases |others|
  {
    if others != [] {
      var k, rest := others[0], others[1..];
      assert forall m :: m in rest ==> m in others;
      if k == r || !Waits(s, k, n) {
        NothingRefused(s, r, rest, n);
      } else {
        assert !Refuses(s, k, n);
        assert forall m, l: nat :: l >= n && Refuses(s, m, l) ==> Refuses(s, m, n);
        NothingRefused(s, r, rest, Grown(HeadOf(s, k), n));
      }
    }
  }

  /** Where neither the repository itself nor any other refuses an operation that there will be room for,
      a completion succeeds and leaves no startable work waiting anywhere, in whatever order the queues
      are visited.  (A light one visits no others, so that none of them must have been startable.) */
  lemma CompleteWakes(s: Sys, r: int, id: string, enterError: bool, others: seq<int>)
    requires Inv(s) && QueueOf(s, r).active.Some? && QueueOf(s, r).active.value.id == id && IsOrder(s, others)
    requires !OwnRefused(s, r, enterError)
    requires forall k :: k != r ==> !Refuses(s, k, Refilled(s, r, enterError))
    requires Sweeps(s, r, enterError) || Quiescent(s)
    ensures Complete(s, r, id, enterError, others).1 && Quiescent(Complete(s, r, id, enterError, others).0)
  {
    CompletionOutcome(s, r, id, enterError, others);
    NothingRefused(s, r, others, Refilled(s, r, enterError));
    forall k | k != r && Startable(s, k, Refilled(s, r, enterError)) ensures Sweeps(s, r, enterError) {
      RunnableIsStartable(s, k);
      assert Freed(s, r) < |s.heavy| ==> WeightOf(QueueOf(s, r).active.value.operation).Heavy?;
    }
  }

  /** A completion succeeds in every order in which the queues can be visited exactly when its own next
      operation is not refused and, if others are visited at all, none of them refuses its head. */
  lemma CleanInEveryOrder(s: Sys, r: int, id: string, enterError: bool, given: seq<int>)
    requires Inv(s) && QueueOf(s, r).active.Some? && QueueOf(s, r).active.value.id == id && IsOrder(s, given)
    ensures (forall others :: IsOrder(s, others) ==> Complete(s, r, id, enterError, others).1) <==>
            !OwnRefused(s, r, enterError) &&
            (Sweeps(s, r, enterError) ==> forall k :: k != r ==> !Refuses(s, k, Refilled(s, r, enterError)))
  {
    var n := Refilled(s, r, enterError);
    forall others | IsOrder(s, others)
      ensures Complete(s, r, id, enterError, others).1 == CompletesCleanly(s, r, enterError, others)
    {
      CompletionOutcome(s, r, id, enterError, others);
    }
    if Sweeps(s, r, enterError) {
      if k :| k != r && Refuses(s, k, n) {
        var others := ToFront(s, given, k);
        assert !CompletesCleanly(s, r, enterError, others);
      } else {
        forall others | IsOrder(s, others) ensures CompletesCleanly(s, r, enterError, others) {
          NothingRefused(s, r, others, n);
        }
      }
    } else {
      assert CompletesCleanly(s, r, enterError, given) <==> !OwnRefused(s, r, enterError);
    }
  }

  lemma ToFront(s: Sys, given: seq<int>, k: int) returns (others: seq<int>)
    requires IsOrder(s, given) && k in s.queues
    ensures IsOrder(s, others) && others[0] == k
  {
    var i :| 0 <= i < |given| && given[i] == k;
    WithoutFromDistinct(given, i);
    others := [k] + Without(given, i);
  }

  // ---------------------------------------------------------------- adding an operation

  /** The waiting operations once `o` has been put into queue `r`, or recognised as a duplicate. */
  function WaitingWith(s: Sys, r: int, o: Op): seq<Op> {
    Added(QueueOf(s, r), o).waiting
  }

  /** The addition has an operation at the head of its queue that there is room for and that the state
      of the repository does not allow. */
  predicate AddFails(s: Sys, r: int, o: Op) {
    var w := WaitingWith(s, r, o);
    !TurnsAway(s, r, o) && QueueOf(s, r).active.None? && w != [] && Fits(w[0], |s.heavy|, s.maxHeavy) && !Accepts(s, r, w[0])
  }

  predicate AddStartsOne(s: Sys, r: int, o: Op) {
    var w := WaitingWith(s, r, o);
    !TurnsAway(s, r, o) && QueueOf(s, r).active.None? && w != [] && Fits(w[0], |s.heavy|, s.maxHeavy) && Accepts(s, r, w[0])
  }

  /** An addition leaves startable work waiting. */
  ghost predicate AddLeaves(s: Sys, r: int, o: Op) {
    var w, n := WaitingWith(s, r, o), |s.heavy|;
    if TurnsAway(s, r, o) then exists k :: Startable(s, k, n)
    else if AddStartsOne(s, r, o) then exists k :: k != r && Startable(s, k, Grown(w[0], n))
    else
      || (exists k :: k != r && Startable(s, k, n))
      || (AddFails(s, r, o) && |w| > 1 && Fits(w[1], n, s.maxHeavy) && Accepts(s, r, w[1]))
  }

  lemma TurnedAway(s: Sys, r: int, o: Op)
    ensures TurnsAway(Touch(s, r), r, o) == TurnsAway(s, r, o)
    ensures TurnsAway(s, r, o) ==> Add(s, r, o) == (Touch(s, r), Refused)
  {
  }

  /** An addition, exactly: whether it is turned away, fails or is accepted, and whether it leaves
      startable work waiting, in terms of the state before. */
  lemma AddOutcome(s: Sys, r: int, o: Op)
    requires Inv(s) && forall p :: p in Held(QueueOf(s, r)) ==> p.id != o.id
    ensures var (u, result) := Add(s, r, o);
            && (result.Refused? <==> TurnsAway(s, r, o))
            && (result.StartFailed? <==> AddFails(s, r, o))
            && (Quiescent(u) <==> !AddLeaves(s, r, o))
  {
    TurnedAway(s, r, o);
    if TurnsAway(s, r, o) {
      TouchKeeps(s, r);
      var u := Touch(s, r);
      forall k ensures Runnable(u, k) <==> Startable(s, k, |s.heavy|) {
        assert SameAt(s, u, k);
        RunnableIsStartable(u, k);
      }
    } else {
      AddedOutcome(s, r, o);
    }
  }

  lemma AddedIs(s: Sys, r: int, o: Op)
    requires Inv(s) && !TurnsAway(s, r, o) && forall p :: p in Held(QueueOf(s, r)) ==> p.id != o.id
    ensures var e := Enqueued(s, r, o);
            var (v, ok) := Process(e, r);
            var (u, result) := Add(s, r, o);
            && Inv(e) && OnlyAt(s, e, r) && e.heavy == s.heavy && QueueOf(e, r) == Added(QueueOf(s, r), o)
            && StateOf(e, r) == StateOf(s, r)
            && u == (if ok then ShowQueued(v, r) else v)
            && !result.Refused? && (result.StartFailed? <==> !ok)
  {
    EnqueuedKeeps(s, r, o);
    hide Process;
    hide ShowQueued;
    assert PutQueue(Touch(s, r), r, Added(QueueOf(s, r), o)) == Enqueued(s, r, o);
  }

  lemma ShownIs(v: Sys, r: int)
    requires Inv(v) && !Waits(v, r, |v.heavy|)
    ensures var u := ShowQueued(v, r); Inv(u) && OnlyAt(v, u, r) && u.heavy == v.heavy && !Runnable(u, r)
  {
    ShowQueuedKeeps(v, r);
    RunnableIsStartable(ShowQueued(v, r), r);
  }

  lemma QuiescentBut(s: Sys, u: Sys, r: int)
    requires Inv(u) && OnlyAt(s, u, r)
    ensures Quiescent(u) <==> !Runnable(u, r) && forall k :: k != r ==> !Startable(s, k, |u.heavy|)
  {
    forall k | k != r ensures Runnable(u, k) <==> Startable(s, k, |u.heavy|) {
      SameElsewhere(s, u, r, k);
      RunnableIsStartable(u, k);
    }
  }

  lemma AddedOutcome(s: Sys, r: int, o: Op)
    requires Inv(s) && !TurnsAway(s, r, o) && forall p :: p in Held(QueueOf(s, r)) ==> p.id != o.id
    ensures var (u, result) := Add(s, r, o);
            && !result.Refused?
            && (result.StartFailed? <==> AddFails(s, r, o))
            && (Quiescent(u) <==> !AddLeaves(s, r, o))
  {
    var e := Enqueued(s, r, o);
    var (v, ok) := Process(e, r);
    var u := Add(s, r, o).0;
    AddedIs(s, r, o);
    ProcessOutcome(e, r);
    hide Add;
    hide Process;
    hide ShowQueued;
    hide Enqueued;
    OnlyAtJoins(s, e, v, r);
    if ok {
      ShownIs(v, r);
      OnlyAtJoins(s, v, u, r);
    } else {
      RunnableIsStartable(v, r);
    }
    QuiescentBut(s, u, r);
  }

  /** An addition that does not fail, made when no startable work is waiting, leaves none waiting. */
  lemma AddWakes(s: Sys, r: int, o: Op)
    requires Inv(s) && Quiescent(s) && !AddFails(s, r, o)
    requires forall p :: p in Held(QueueOf(s, r)) ==> p.id != o.id
    ensures Quiescent(Add(s, r, o).0)
  {
    AddOutcome(s, r, o);
    forall k, n: nat | n >= |s.heavy| ensures !Startable(s, k, n) {
      RunnableIsStartable(s, k);
      assert !Runnable(s, k);
    }
  }

  // ---------------------------------------------------------------- where startable work is left waiting

  /** Ending an operation in the error state with work behind it that there is room for throws away the
      next operation, reports an error and wakes up nobody: afterwards startable work is left waiting
      exactly when another repository has work that there is room for once the operation is gone. */
  lemma ErrorCompletionStalls(s: Sys, r: int, id: string, others: seq<int>)
    requires Inv(s) && QueueOf(s, r).active.Some? && QueueOf(s, r).active.value.id == id
    requires OwnRefused(s, r, true)
    ensures var (u, ok) := Complete(s, r, id, true, others);
            && !ok
            && QueueOf(u, r).waiting == QueueOf(s, r).waiting[1..]
            && (Quiescent(u) <==> forall k :: k != r ==> !Startable(s, k, Freed(s, r)))
  {
    var u := Complete(s, r, id, true, others).0;
    CompletionIsAllowed(s, r, id, true, others);
    OwnOutcome(s, r, true);
    hide Process;
    forall k | k != r ensures Runnable(u, k) <==> Startable(s, k, Freed(s, r)) {
      assert SameAt(s, u, k);
      RunnableIsStartable(u, k);
    }
    assert !Runnable(u, r);
  }

  /** A completed operation wakes up the others only as far as the first repository that refuses its head:
      when that one is next in the order, its head is thrown away, the call fails, and startable work is
      left waiting exactly when the operation behind that head, or the head of a repository later in the
      order, could start. */
  lemma RefusalAbortsSweep(s: Sys, r: int, id: string, enterError: bool, others: seq<int>)
    requires Inv(s) && QueueOf(s, r).active.Some? && QueueOf(s, r).active.value.id == id && IsOrder(s, others)
    requires Sweeps(s, r, enterError) && others != [] && others[0] != r
    requires Refuses(s, others[0], Refilled(s, r, enterError))
    ensures var (u, ok) := Complete(s, r, id, enterError, others);
            var n := Refilled(s, r, enterError);
            && !ok
            && (Quiescent(u) <==> !SecondStartable(s, others[0], n) && !AnyStartable(s, r, others[1..], n))
  {
    CompletionOutcome(s, r, id, enterError, others);
  }

  /** Taking a waiting operation out of a queue does not look at the queue again: startable work is
      left waiting exactly when the removed operation was the head and its successor can start. */
  lemma CancelledHeadStalls(s: Sys, r: int, id: string, others: seq<int>)
    requires Inv(s) && Quiescent(s)
    requires IndexOf(QueueOf(s, r).waiting, id).Some?
    requires QueueOf(s, r).active.Some? ==> QueueOf(s, r).active.value.id != id
    ensures var w := QueueOf(s, r).waiting;
            Quiescent(Cancel(s, r, id, others).0) <==>
            !(&& QueueOf(s, r).active.None? && w[0].id == id && |w| > 1
              && CanStart(s, r, w[1]) && Allowed(StateOf(s, r), TargetOf(w[1].operation), false))
  {
    var t, q := Touch(s, r), QueueOf(s, r);
    var w, i := q.waiting, IndexOf(q.waiting, id).value;
    var u := Remove(t, r, id);
    TouchKeeps(s, r);
    RemoveWaiting(t, r, id);
    WithoutKeepsOrder(w, i);
    assert QueueOf(u, r).waiting == Without(w, i) && QueueOf(u, r).active == q.active;
    assert u.heavy == s.heavy && u.light == s.light;
    assert |w| > 1 ==> StateOf(u, r) == StateOf(s, r);
    assert OnlyAt(s, u, r);
    forall k | k != r ensures !Runnable(u, k) {
      StillNotRunnable(s, u, r, k);
    }
    if i > 0 {
      assert !Runnable(s, r) && HeadOf(u, r) == HeadOf(s, r);
    }
    assert Quiescent(u) <==> !Runnable(u, r);
  }

  /** Clearing an error does not look at the queue either. */
  lemma ClearedErrorStalls(s: Sys, r: int)
    requires Inv(s) && Quiescent(s) && StateOf(s, r) == Error
    ensures Quiescent(Step(s, ClearErrorEvent(r))) <==>
            QueueOf(s, r).waiting == [] || !CanStart(s, r, HeadOf(s, r))
  {
    var u := Step(s, ClearErrorEvent(r));
    assert AgreesAt(s, r);
    forall k | k != r ensures !Runnable(u, k) {
      StillNotRunnable(s, u, r, k);
    }
    assert Quiescent(u) <==> !Runnable(u, r);
  }

  // ---------------------------------------------------------------- all of this is reached

  /** A run that comes to a state without startable work waiting, and an event after which there is some. */
  ghost predicate Stalls(maxHeavy: nat, events: seq<Event>, e: Event) {
    && IsRun(Initial(maxHeavy), events + [e])
    && Quiescent(After(Initial(maxHeavy), events)) && !Quiescent(After(Initial(maxHeavy), events + [e]))
  }

  lemma StallsAt(maxHeavy: nat, events: seq<Event>, e: Event, s: Sys)
    requires IsRun(Initial(maxHeavy), events) && After(Initial(maxHeavy), events) == s && Enabled(s, e)
    requires Quiescent(s) && !Quiescent(Step(s, e))
    ensures Stalls(maxHeavy, events, e)
  {
    RunSnoc(Initial(maxHeavy), events, e);
  }

  lemma InvOfRun(maxHeavy: nat, events: seq<Event>)
    requires IsRun(Initial(maxHeavy), events)
    ensures Inv(After(Initial(maxHeavy), events))
  {
    assert forall k :: AgreesAt(Initial(maxHeavy), k);
    RunKeeps(Initial(maxHeavy), events);
  }

  /** Repository 1 runs `a`, with `b` behind it; repository 2 has `c` waiting for the only place. */
  lemma OneRunsOneWaits(a: Op, b: Op, c: Op) returns (events: seq<Event>, s: Sys)
    requires a == PruneOp("a") && b == PruneOp("b") && c == PruneOp("c")
    ensures IsRun(Initial(1), events) && After(Initial(1), events) == s
    ensures s == Sys(map[1 := Queue([b], Some(a), NO_KEYS), 2 := Queue([c], None, NO_KEYS)],
                     map[1 := Pruning, 2 := InQueue], map[1 := a], map[], {(1, a)}, 1)
    ensures Inv(s) && Quiescent(s)
  {
    hide Add;
    events, s := TwoAdded(1, a, b);
    events, s := RunWaits(Initial(1), events, s, 2, c);
    assert [] + [c] == [c];
    InvOfRun(1, events);
  }

  lemma ErrorCompletionStallsReached() returns (events: seq<Event>, e: Event)
    ensures Stalls(1, events, e)
  {
    var a, b, c, s := PruneOp("a"), PruneOp("b"), PruneOp("c"), Initial(1);
    events, s := OneRunsOneWaits(a, b, c);
    e := FinishEvent(1, a, true, []);
    var t := Ends(s, 1, a);
    EndsKeeps(s, 1, a);
    assert Startable(t, 2, Freed(t, 1)) && OwnRefused(t, 1, true);
    ErrorCompletionStalls(t, 1, "a", []);
    StallsAt(1, events, e, s);
  }

  predicate TwoQueues(s: Sys, a: Op, b: Op, c: Op, m: Op) {
    && a == PruneOp("a") && b == PruneOp("b") && c == PruneOp("c") && m == MountOp("m")
    && s == Sys(map[1 := Queue([b], Some(a), NO_KEYS), 2 := Queue([c, m], None, NO_KEYS)],
                map[1 := Pruning, 2 := InQueue], map[1 := a], map[], {(1, a)}, 1)
  }

  lemma MountIsStuck(s: Sys, a: Op, b: Op, c: Op, m: Op)
    requires TwoQueues(s, a, b, c, m) && Inv(s)
    ensures Quiescent(s) && !Quiescent(Cancel(s, 2, "c", []).0)
  {
    hide Inv;
    hide Cancel;
    assert Quiescent(s);
    CancelledHeadStalls(s, 2, "c", []);
  }

  lemma CancelledHeadStallsReached() returns (events: seq<Event>, e: Event)
    ensures Stalls(1, events, e) && e.CancelEvent?
  {
    hide Add;
    hide Cancel;
    hide Inv;
    hide Quiescent;
    var a, b, c, m, s := PruneOp("a"), PruneOp("b"), PruneOp("c"), MountOp("m"), Initial(1);
    events, s := OneRunsOneWaits(a, b, c);
    events, s := RunWaits(Initial(1), events, s, 2, m);
    InvOfRun(1, events);
    assert [c] + [m] == [c, m];
    assert TwoQueues(s, a, b, c, m);
    e := CancelEvent(2, "c", []);
    MountIsStuck(s, a, b, c, m);
    StallsAt(1, events, e, s);
  }

  lemma TwoAdded(r: int, a: Op, b: Op) returns (events: seq<Event>, s: Sys)
    requires a == PruneOp("a") && b == PruneOp("b")
    ensures IsRun(Initial(1), events) && After(Initial(1), events) == s
    ensures s == Sys(map[r := Queue([b], Some(a), NO_KEYS)], map[r := Pruning], map[r := a], map[], {(r, a)}, 1)
  {
    hide Add;
    events, s := RunStarts(Initial(1), [], Initial(1), r, a);
    assert s == Sys(map[r := Queue([], Some(a), NO_KEYS)], map[r := Pruning], map[r := a], map[], {(r, a)}, 1);
    events, s := RunWaits(Initial(1), events, s, r, b);
    assert [] + [b] == [b];
  }

  lemma ThreeAdded(r: int, a: Op, b: Op, c: Op) returns (events: seq<Event>, s: Sys)
    requires a == PruneOp("a") && b == PruneOp("b") && c == PruneOp("c")
    ensures IsRun(Initial(1), events) && After(Initial(1), events) == s
    ensures s == Sys(map[r := Queue([b, c], Some(a), NO_KEYS)], map[r := Pruning], map[r := a], map[], {(r, a)}, 1)
  {
    hide Add;
    events, s := TwoAdded(r, a, b);
    events, s := RunWaits(Initial(1), events, s, r, c);
    assert [b] + [c] == [b, c];
  }

  /** Three operations for repository `r` of an empty system, the first of which has ended in error: the
      second is gone, the third waits behind the error. */
  lemma ErrorWithWork(r: int, a: Op, b: Op, c: Op) returns (events: seq<Event>, s: Sys)
    requires a == PruneOp("a") && b == PruneOp("b") && c == PruneOp("c")
    ensures IsRun(Initial(1), events) && After(Initial(1), events) == s
    ensures s == Sys(map[r := Queue([c], None, NO_KEYS)], map[r := Error], map[], map[], {}, 1)
    ensures Inv(s) && Quiescent(s)
  {
    hide After;
    hide Inv;
    hide Quiescent;
    events, s := ThreeAdded(r, a, b, c);
    InvOfRun(1, events);
    var e := FinishEvent(r, a, true, []);
    ErrorStep(s, r, a, b, c);
    hide Step;
    hide Enabled;
    events := GoOn(Initial(1), events, e, s, Step(s, e));
    s := Step(s, e);
    InvOfRun(1, events);
  }

  lemma ErrorStep(s: Sys, r: int, a: Op, b: Op, c: Op)
    requires a == PruneOp("a") && b == PruneOp("b") && c == PruneOp("c")
    requires s == Sys(map[r := Queue([b, c], Some(a), NO_KEYS)], map[r := Pruning], map[r := a], map[], {(r, a)}, 1)
    requires Inv(s)
    ensures var e := FinishEvent(r, a, true, []);
            && Enabled(s, e) && Quiescent(Step(s, e))
            && Step(s, e) == Sys(map[r := Queue([c], None, NO_KEYS)], map[r := Error], map[], map[], {}, 1)
  {
    hide Finish;
    hide Inv;
    ErrorFinish(s, r, a, b, c);
    var e := FinishEvent(r, a, true, []);
    assert forall k :: !Runnable(Step(s, e), k);
  }

  lemma ErrorFinish(s: Sys, r: int, a: Op, b: Op, c: Op)
    requires a == PruneOp("a") && b == PruneOp("b") && c == PruneOp("c")
    requires s == Sys(map[r := Queue([b, c], Some(a), NO_KEYS)], map[r := Pruning], map[r := a], map[], {(r, a)}, 1)
    requires Inv(s)
    ensures Finish(s, r, a, true, []).0 == Sys(map[r := Queue([c], None, NO_KEYS)], map[r := Error], map[], map[], {}, 1)
  {
    hide Complete;
    hide Process;
    hide ProcessAll;
    hide Inv;
    var t := Ends(s, r, a);
    EndsKeeps(s, r, a);
    assert t == Sys(s.queues, s.states, s.heavy, s.light, {}, 1);
    CompletionIsAllowed(t, r, "a", true, []);
    var e := Sys(map[r := Queue([b, c], None, NO_KEYS)], map[r := Error], map[], map[], {}, 1);
    assert Ended(Touch(t, r), r, Error) == e;
    TouchKeeps(t, r);
    EndedKeeps(Touch(t, r), r, true);
    HeadIsDropped(e, r, b, c);
  }

  lemma HeadIsDropped(e: Sys, r: int, b: Op, c: Op)
    requires b == PruneOp("b") && c == PruneOp("c") && Inv(e)
    requires e == Sys(map[r := Queue([b, c], None, NO_KEYS)], map[r := Error], map[], map[], {}, 1)
    ensures Process(e, r) == (Sys(map[r := Queue([c], None, NO_KEYS)], map[r := Error], map[], map[], {}, 1), false)
  {
    hide Process;
    assert AgreesAt(e, r);
    ProcessDoes(e, r);
    assert [b, c][1..] == [c] && Touch(e, r).queues == e.queues;
    assert e.queues[r := Queue([c], None, NO_KEYS)] == map[r := Queue([c], None, NO_KEYS)];
  }

  lemma ClearedErrorStallsReached() returns (events: seq<Event>, e: Event)
    ensures Stalls(1, events, e) && e.ClearErrorEvent?
  {
    var a, b, c, s := PruneOp("a"), PruneOp("b"), PruneOp("c"), Initial(1);
    events, s := ErrorWithWork(1, a, b, c);
    e := ClearErrorEvent(1);
    ClearedErrorStalls(s, 1);
    StallsAt(1, events, e, s);
  }

  lemma XAdded(x: Op) returns (events: seq<Event>, s: Sys)
    requires x == PruneOp("x")
    ensures IsRun(Initial(1), events) && After(Initial(1), events) == s
    ensures s == Sys(map[1 := Queue([], Some(x), NO_KEYS), 2 := Queue([PruneOp("c")], None, NO_KEYS)],
                     map[1 := Pruning, 2 := Error], map[1 := x], map[], {(1, x)}, 1)
  {
    hide Add;
    events, s := ErrorWithWork(2, PruneOp("a"), PruneOp("b"), PruneOp("c"));
    events, s := RunStarts(Initial(1), events, s, 1, x);
  }

  /** Repository 2 is in error with work queued, repository 1 completes without an error, and the sweep
      stops at 2: repository 3 could start and is not woken. */
  lemma AbortedSweepReached() returns (events: seq<Event>, e: Event)
    ensures Stalls(1, events, e) && e.FinishEvent? && !e.enterError
  {
    hide Add;
    hide Finish;
    hide Inv;
    hide Quiescent;
    hide After;
    var c, x, y, s := PruneOp("c"), PruneOp("x"), PruneOp("y"), Initial(1);
    events, s := XAdded(x);
    events, s := RunWaits(Initial(1), events, s, 3, y);
    assert [] + [y] == [y];
    assert s == Sys(map[1 := Queue([], Some(x), NO_KEYS), 2 := Queue([c], None, NO_KEYS), 3 := Queue([y], None, NO_KEYS)],
                    map[1 := Pruning, 2 := Error, 3 := InQueue], map[1 := x], map[], {(1, x)}, 1);
    InvOfRun(1, events);
    e := FinishEvent(1, x, false, [2, 1, 3]);
    SweepHaltsHere(s, x, c, y);
    StallsAt(1, events, e, s);
  }

  predicate ThreeQueues(s: Sys, x: Op, c: Op, y: Op) {
    && x == PruneOp("x") && c == PruneOp("c") && y == PruneOp("y")
    && s == Sys(map[1 := Queue([], Some(x), NO_KEYS), 2 := Queue([c], None, NO_KEYS), 3 := Queue([y], None, NO_KEYS)],
                map[1 := Pruning, 2 := Error, 3 := InQueue], map[1 := x], map[], {(1, x)}, 1)
  }

  lemma ThreeQueuesAreQuiet(s: Sys, x: Op, c: Op, y: Op)
    requires ThreeQueues(s, x, c, y)
    ensures Quiescent(s)
  {
  }

  lemma SweepHaltsHere(s: Sys, x: Op, c: Op, y: Op)
    requires ThreeQueues(s, x, c, y) && Inv(s)
    ensures !Quiescent(Finish(s, 1, x, false, [2, 1, 3]).0) && Quiescent(s)
  {
    hide Inv;
    hide Complete;
    hide Quiescent;
    ThreeQueuesAreQuiet(s, x, c, y);
    var t, others := Ends(s, 1, x), [2, 1, 3];
    EndsKeeps(s, 1, x);
    assert Refuses(t, 2, 0);
    assert Startable(t, 3, 0) && 3 == others[1..][1];
    RefusalAbortsSweep(t, 1, "x", false, others);
  }
}
