/** Which operations are really running: every start launches a goroutine
    (backend/app/repository/queue_manager.go:358-460) that lives until borg returns, whatever happens
    to the queue meanwhile.  This module compares the running goroutines with the active operations. */
module RunningOperations {
  import opened Prelude
  import opened RepositoryQueues
  import opened QueueManagers
  import opened Scenarios

  predicate IsActive(s: Sys, r: int, o: Op) {
    QueueOf(s, r).active == Some(o)
  }

  /** What runs is what is active, and beside it exactly the orphans: mounts that no queue holds. */
  ghost predicate Tally(s: Sys, orphans: set<(int, Op)>) {
    && (forall r, o :: (r, o) in s.running <==> IsActive(s, r, o) || (r, o) in orphans)
    && (forall r, o :: (r, o) in orphans ==> TargetOf(o.operation) == Mounting && Unheld(s, r, o))
  }

  ghost predicate Unheld(s: Sys, r: int, o: Op) {
    forall p :: p in Held(QueueOf(s, r)) ==> p.id != o.id
  }

  /** Nothing but the state shown is different. */
  ghost predicate SameQueues(s: Sys, t: Sys) {
    t.running == s.running && forall k :: QueueOf(t, k) == QueueOf(s, k)
  }

  lemma SameQueuesTally(s: Sys, t: Sys, orphans: set<(int, Op)>)
    requires Tally(s, orphans) && SameQueues(s, t)
    ensures Tally(t, orphans)
  {
    forall r, o ensures IsActive(t, r, o) == IsActive(s, r, o) && Unheld(t, r, o) == Unheld(s, r, o) {
      assert QueueOf(t, r) == QueueOf(s, r);
    }
  }

  /** The queue of `r` has lost operations or exchanged places, and its active operation is the same. */
  lemma ShrunkTally(s: Sys, t: Sys, r: int, orphans: set<(int, Op)>)
    requires Tally(s, orphans) && t.running == s.running && forall k :: k != r ==> QueueOf(t, k) == QueueOf(s, k)
    requires QueueOf(t, r).active == QueueOf(s, r).active
    requires forall p :: p in Held(QueueOf(t, r)) ==> p in Held(QueueOf(s, r)) || forall o :: (r, o) in orphans ==> p.id != o.id
    ensures Tally(t, orphans)
  {
    forall k, o ensures IsActive(t, k, o) == IsActive(s, k, o) {
      assert k != r ==> QueueOf(t, k) == QueueOf(s, k);
    }
    forall k, o | (k, o) in orphans ensures Unheld(t, k, o) {
      assert Unheld(s, k, o);
      assert k != r ==> QueueOf(t, k) == QueueOf(s, k);
    }
  }

  lemma StartedTally(s: Sys, r: int, orphans: set<(int, Op)>)
    requires Tally(s, orphans) && Ready(s, r)
    ensures Tally(HeadStarted(s, r), orphans)
  {
    var u, h := HeadStarted(s, r), HeadOf(s, r);
    HeadMovedOnlyAt(s, r);
    assert h in Held(QueueOf(s, r));
    forall k, o ensures (k, o) in u.running <==> IsActive(u, k, o) || (k, o) in orphans {
      assert k != r ==> QueueOf(u, k) == QueueOf(s, k) && IsActive(u, k, o) == IsActive(s, k, o);
      assert !IsActive(s, r, o);
    }
    forall k, o | (k, o) in orphans ensures Unheld(u, k, o) {
      assert Unheld(s, k, o);
      assert k != r ==> QueueOf(u, k) == QueueOf(s, k);
      forall p | p in Held(QueueOf(u, r)) ensures p in Held(QueueOf(s, r)) {
      }
    }
  }

  lemma ProcessTally(s: Sys, r: int, orphans: set<(int, Op)>)
    requires Inv(s) && Tally(s, orphans)
    ensures Tally(Process(s, r).0, orphans)
  {
    assert AgreesAt(s, r);
    ProcessDoes(s, r);
    var t := Touch(s, r);
    SameQueuesTally(s, t, orphans);
    if Ready(s, r) {
      if Allowed(StateOf(s, r), TargetOf(HeadOf(s, r).operation), false) {
        StartedTally(t, r, orphans);
      } else {
        ShrunkTally(t, HeadDropped(t, r), r, orphans);
      }
    }
  }

  lemma {:induction false} ProcessAllTally(s: Sys, r: int, others: seq<int>, orphans: set<(int, Op)>)
    requires Inv(s) && Tally(s, orphans)
    ensures Tally(ProcessAll(s, r, others).0, orphans)
    decreases |others|
  {
    if others != [] {
      if others[0] == r {
        ProcessAllTally(s, r, others[1..], orphans);
      } else {
        ProcessKeeps(s, others[0]);
        ProcessTally(s, others[0], orphans);
        var (s', ok) := Process(s, others[0]);
        if ok {
          ProcessAllTally(s', r, others[1..], orphans);
        }
      }
    }
  }

  lemma AddTally(s: Sys, r: int, o: Op, orphans: set<(int, Op)>)
    requires Inv(s) && Tally(s, orphans) && Enabled(s, AddEvent(r, o))
    ensures Tally(Add(s, r, o).0, orphans)
  {
    var t, e := Touch(s, r), Enqueued(s, r, o);
    SameQueuesTally(s, t, orphans);
    EnqueuedKeeps(s, r, o);
    assert AgreesAt(s, r);
    AddedIsConsistent(QueueOf(s, r), o);
    forall p | (r, p) in orphans ensures o.id != p.id {
      assert (r, p) in s.running;
    }
    ShrunkTally(s, e, r, orphans);
    ProcessTally(e, r, orphans);
    var u := Process(e, r).0;
    SameQueuesTally(u, ShowQueued(u, r), orphans);
  }

  lemma ActiveIsHeld(q: Queue)
    requires q.active.Some?
    ensures q.active.value in Held(q)
  {
  }

  /** The active operation of `r` has left its queue; its goroutine has ended, or is an orphan now. */
  lemma LeftTally(s: Sys, t: Sys, r: int, orphans: set<(int, Op)>, after: set<(int, Op)>)
    requires Tally(s, orphans) && QueueOf(s, r).active.Some? && Consistent(QueueOf(s, r))
    requires QueueOf(t, r) == Finished(QueueOf(s, r)).value
    requires forall k :: k != r ==> QueueOf(t, k) == QueueOf(s, k)
    requires var o := QueueOf(s, r).active.value;
             || (t.running == s.running - {(r, o)} && after == orphans)
             || (t.running == s.running && after == orphans + {(r, o)} && TargetOf(o.operation) == Mounting)
    ensures Tally(t, after)
  {
    var q := QueueOf(s, r);
    var o := q.active.value;
    hide Held;
    hide Clash;
    DropActive(q);
    ActiveIsHeld(q);
    forall k, p ensures IsActive(t, k, p) <==> IsActive(s, k, p) && (k, p) != (r, o) {
      assert k != r ==> QueueOf(t, k) == QueueOf(s, k);
    }
    forall k, p | (k, p) in orphans ensures (k, p) != (r, o) && Unheld(t, k, p) {
      assert Unheld(s, k, p);
      assert k != r ==> QueueOf(t, k) == QueueOf(s, k);
    }
    forall p | p in Held(QueueOf(t, r)) ensures p.id != o.id {
      if p.id == o.id { ClashingAreEqual(Held(q), o, p); }
    }
    assert Unheld(t, r, o);
  }

  predicate MeetsActive(s: Sys, r: int, id: string) {
    QueueOf(s, r).active.Some? && QueueOf(s, r).active.value.id == id
  }

  lemma CompleteTally(s: Sys, s0: Sys, r: int, id: string, enterError: bool, others: seq<int>,
                      orphans: set<(int, Op)>, after: set<(int, Op)>)
    requires Inv(s) && Tally(s0, orphans) && SameQueuesButRunning(s0, s) && MeetsActive(s, r, id)
    requires var o := QueueOf(s, r).active.value;
             || (s.running == s0.running - {(r, o)} && after == orphans)
             || (s.running == s0.running && after == orphans + {(r, o)} && TargetOf(o.operation) == Mounting)
    ensures Tally(Complete(s, r, id, enterError, others).0, after)
  {
    var t := Touch(s, r);
    TouchKeeps(s, r);
    CompletionIsAllowed(s, r, id, enterError, others);
    EndedKeeps(t, r, enterError);
    var u := Ended(t, r, CompletionTarget(s, r, enterError));
    assert AgreesAt(s, r);
    LeftTally(s0, u, r, orphans, after);
    hide Complete;
    hide Tally;
    ProcessKeeps(u, r);
    ProcessTally(u, r, after);
    ProcessAllTally(Process(u, r).0, r, others, after);
  }

  ghost predicate SameQueuesButRunning(s: Sys, t: Sys) {
    forall k :: QueueOf(t, k) == QueueOf(s, k)
  }

  /** A finished orphan changes no queue. */
  lemma FinishTally(s: Sys, r: int, o: Op, enterError: bool, others: seq<int>, orphans: set<(int, Op)>)
    requires Inv(s) && Tally(s, orphans) && (r, o) in s.running
    ensures Tally(Finish(s, r, o, enterError, others).0, orphans - {(r, o)})
  {
    var e := Ends(s, r, o);
    EndsKeeps(s, r, o);
    if IsActive(s, r, o) {
      assert o in Held(QueueOf(s, r));
      assert (r, o) !in orphans;
      assert orphans - {(r, o)} == orphans;
      CompleteTally(e, s, r, o.id, enterError, others, orphans, orphans);
    } else {
      assert Unheld(s, r, o);
      if QueueOf(s, r).active.Some? {
        assert QueueOf(s, r).active.value in Held(QueueOf(s, r));
      }
      assert Finish(s, r, o, enterError, others) == (Touch(e, r), false);
      var t := Touch(e, r);
      forall k, p ensures IsActive(t, k, p) == IsActive(s, k, p) && Unheld(t, k, p) == Unheld(s, k, p) {
        assert QueueOf(t, k) == QueueOf(s, k);
      }
    }
  }

  /** The cancellation meets a running mount, which has no context that could stop it. */
  predicate MeetsMount(s: Sys, e: Event) {
    e.CancelEvent? && MeetsActive(s, e.repo, e.id) && TargetOf(QueueOf(s, e.repo).active.value.operation) == Mounting
  }

  function OrphansAfter(s: Sys, e: Event, orphans: set<(int, Op)>): set<(int, Op)> {
    if MeetsMount(s, e) then orphans + {(e.repo, QueueOf(s, e.repo).active.value)}
    else if e.FinishEvent? then orphans - {(e.repo, e.op)}
    else orphans
  }

  lemma CancelActiveTally(s: Sys, r: int, id: string, others: seq<int>, orphans: set<(int, Op)>)
    requires Inv(s) && Tally(s, orphans) && MeetsActive(s, r, id)
    ensures Tally(Cancel(s, r, id, others).0, OrphansAfter(s, CancelEvent(r, id, others), orphans))
  {
    hide Tally;
    var t := Touch(s, r);
    assert AgreesAt(s, r);
    TouchKeeps(s, r);
    SameQueuesTally(s, t, orphans);
    if !Cancellable(StateOf(s, r)) {
      CompleteTally(t, s, r, id, false, others, orphans, orphans + {(r, QueueOf(s, r).active.value)});
    }
  }

  lemma CancelWaitingTally(s: Sys, r: int, id: string, orphans: set<(int, Op)>)
    requires Inv(s) && Tally(s, orphans) && !MeetsActive(s, r, id)
    ensures Tally(Remove(Touch(s, r), r, id), orphans)
  {
    hide Tally;
    hide Remove;
    hide Removed;
    hide Held;
    var t := Touch(s, r);
    assert Consistent(QueueOf(s, r)) by {
      assert AgreesAt(s, r);
    }
    TouchKeeps(s, r);
    SameQueuesTally(s, t, orphans);
    TouchTwice(s, r);
    RemoveWaiting(t, r, id);
    hide Inv;
    if Removed(QueueOf(t, r), id).Some? {
      RemovedIsConsistent(QueueOf(t, r), id);
      WaitingRemoved(QueueOf(t, r), id);
      hide Consistent;
      hide Touch;
      ShrunkTally(t, Remove(t, r, id), r, orphans);
    }
  }

  lemma WaitingRemoved(q: Queue, id: string)
    requires Removed(q, id).Some? && (q.active.Some? ==> q.active.value.id != id)
    ensures Removed(q, id).value.active == q.active
  {
  }

  lemma CancelTally(s: Sys, r: int, id: string, others: seq<int>, orphans: set<(int, Op)>)
    requires Inv(s) && Tally(s, orphans)
    ensures Tally(Cancel(s, r, id, others).0, OrphansAfter(s, CancelEvent(r, id, others), orphans))
  {
    hide Tally;
    hide Inv;
    hide Remove;
    if MeetsActive(s, r, id) {
      CancelActiveTally(s, r, id, others, orphans);
    } else {
      CancelWaitingTally(s, r, id, orphans);
    }
  }

  lemma StepTally(s: Sys, e: Event, orphans: set<(int, Op)>)
    requires Inv(s) && Tally(s, orphans) && Enabled(s, e)
    ensures Tally(Step(s, e), OrphansAfter(s, e, orphans))
  {
    hide Tally;
    match e
    case AddEvent(r, o) => AddTally(s, r, o, orphans);
    case FinishEvent(r, o, enterError, others) => FinishTally(s, r, o, enterError, others, orphans);
    case CancelEvent(r, id, others) => CancelTally(s, r, id, others, orphans);
    case ClearErrorEvent(r) => SameQueuesTally(s, PutState(s, r, Idle), orphans);
    case RestoreMountEvent(r) => SameQueuesTally(s, PutState(s, r, Mounted), orphans);
  }

  function Orphans(s: Sys, events: seq<Event>, orphans: set<(int, Op)>): set<(int, Op)>
    decreases |events|
  {
    if events == [] then orphans else Orphans(Step(s, events[0]), events[1..], OrphansAfter(s, events[0], orphans))
  }

  lemma {:induction false} RunTally(s: Sys, events: seq<Event>, orphans: set<(int, Op)>)
    requires Inv(s) && Tally(s, orphans) && IsRun(s, events)
    ensures Tally(After(s, events), Orphans(s, events, orphans))
    decreases |events|
  {
    if events != [] {
      StepKeeps(s, events[0]);
      StepTally(s, events[0], orphans);
      RunTally(Step(s, events[0]), events[1..], OrphansAfter(s, events[0], orphans));
    }
  }

  // ---------------------------------------------------------------- safety

  ghost function HeavyRunning(s: Sys): set<(int, Op)> {
    set p | p in s.running && WeightOf(p.1.operation).Heavy?
  }

  lemma InitialIsFine(maxHeavy: nat)
    ensures Inv(Initial(maxHeavy)) && Tally(Initial(maxHeavy), {})
  {
    assert forall k :: AgreesAt(Initial(maxHeavy), k);
  }

  /** After every run: no more than `maxHeavy` backups, prunes, repository deletions and checks are really
      running, and as many are entered; every active operation is running and its repository shows what
      it is; a repository that shows a resting state has nothing active, and whatever runs there without
      being active is a mount. */
  lemma EveryRunIsSafe(maxHeavy: nat, events: seq<Event>, r: int, o: Op)
    requires IsRun(Initial(maxHeavy), events)
    ensures var s := After(Initial(maxHeavy), events);
            var limited := set p | p in s.running && (p.1.operation.Backup? || p.1.operation.Prune? || p.1.operation.Delete? || p.1.operation.Check?);
            && |s.heavy| == |limited| <= maxHeavy
            && (IsActive(s, r, o) ==> (r, o) in s.running && Tells(StateOf(s, r), o.operation))
            && ((r, o) in s.running ==> IsActive(s, r, o) || o.operation.Mount? || o.operation.MountArchive?)
            && (QueueOf(s, r).active.None? <==>
                  StateOf(s, r) == Idle || StateOf(s, r) == InQueue || StateOf(s, r) == Mounted || StateOf(s, r) == Error)
            && Consistent(QueueOf(s, r))
  {
    hide Inv;
    hide Tally;
    var i, s := Initial(maxHeavy), After(Initial(maxHeavy), events);
    InitialIsFine(maxHeavy);
    RunKeeps(i, events);
    RunTally(i, events, {});
    hide After;
    HeavyIsTracked(s, Orphans(i, events, {}));
    LimitedKinds(s);
    TalliedIsSafe(s, Orphans(i, events, {}), r, o);
    TargetTells(o.operation);
  }

  /** What a working repository shows, by the kind of its operation. */
  ghost predicate Tells(t: State, k: Operation) {
    && (t == BackingUp <==> k.Backup?)
    && (t == Pruning <==> k.Prune?)
    && (t == Deleting <==> k.Delete? || k.ArchiveDelete?)
    && (t == Checking <==> k.Check?)
    && (t == Mounting <==> k.Mount? || k.MountArchive?)
    && (t == Refreshing <==> k.ArchiveRefresh? || k.ArchiveRename? || k.ArchiveComment? || k.Unmount? || k.UnmountArchive? ||
                             k.ExaminePrune?)
  }

  lemma TargetTells(k: Operation)
    ensures Tells(TargetOf(k), k) && (TargetOf(k) == Mounting <==> k.Mount? || k.MountArchive?)
  {
  }

  lemma LimitedKinds(s: Sys)
    ensures HeavyRunning(s) ==
            set p | p in s.running && (p.1.operation.Backup? || p.1.operation.Prune? || p.1.operation.Delete? || p.1.operation.Check?)
  {
  }

  lemma TalliedIsSafe(s: Sys, orphans: set<(int, Op)>, r: int, o: Op)
    requires Inv(s) && Tally(s, orphans)
    ensures IsActive(s, r, o) ==> (r, o) in s.running && StateOf(s, r) == TargetOf(o.operation)
    ensures (r, o) in s.running ==> IsActive(s, r, o) || TargetOf(o.operation) == Mounting
    ensures Resting(StateOf(s, r)) <==> QueueOf(s, r).active.None?
    ensures Consistent(QueueOf(s, r))
  {
    assert AgreesAt(s, r);
  }

  lemma HeavyIsTracked(s: Sys, orphans: set<(int, Op)>)
    requires Inv(s) && Tally(s, orphans)
    ensures HeavyRunning(s) == s.heavy.Items && |HeavyRunning(s)| == |s.heavy| <= s.maxHeavy
  {
    forall k, o ensures (k, o) in HeavyRunning(s) <==> (k, o) in s.heavy.Items {
      assert AgreesAt(s, k);
      assert (k, o) in s.running <==> IsActive(s, k, o) || (k, o) in orphans;
    }
    forall p ensures p in HeavyRunning(s) <==> p in s.heavy.Items {
      assert p == (p.0, p.1);
    }
    assert |s.heavy.Items| == |s.heavy|;
  }

  // ---------------------------------------------------------------- exactly when nothing else runs

  /** The running operations are exactly the active ones. */
  ghost predicate Exact(s: Sys) {
    forall r, o :: (r, o) in s.running <==> IsActive(s, r, o)
  }

  ghost predicate ExactThroughout(s: Sys, events: seq<Event>) {
    forall n :: 0 <= n <= |events| ==> Exact(After(s, events[..n]))
  }

  ghost predicate MountsLeftAlone(s: Sys, events: seq<Event>)
    decreases |events|
  {
    events != [] ==> !MeetsMount(s, events[0]) && MountsLeftAlone(Step(s, events[0]), events[1..])
  }

  /** The running operations are the active ones after every prefix of a run exactly when no
      cancellation in the run meets a running mount. */
  lemma RunningIsActive(maxHeavy: nat, events: seq<Event>)
    requires IsRun(Initial(maxHeavy), events)
    ensures ExactThroughout(Initial(maxHeavy), events) <==> MountsLeftAlone(Initial(maxHeavy), events)
  {
    InitialIsFine(maxHeavy);
    ExactFrom(Initial(maxHeavy), events);
  }

  lemma {:induction false} ExactFrom(s: Sys, events: seq<Event>)
    requires Inv(s) && Tally(s, {}) && IsRun(s, events)
    ensures ExactThroughout(s, events) <==> MountsLeftAlone(s, events)
    decreases |events|
  {
    assert Exact(s) && After(s, events[..0]) == s;
    if events != [] {
      var e := events[0];
      var t := Step(s, e);
      StepKeeps(s, e);
      StepTally(s, e, {});
      assert events[..1] == [e] && [e][1..] == [] && After(s, [e]) == t;
      if MeetsMount(s, e) {
        var o := QueueOf(s, e.repo).active.value;
        assert (e.repo, o) in {(e.repo, o)} && OrphansAfter(s, e, {}) == {(e.repo, o)};
        assert Unheld(t, e.repo, o);
        var q := QueueOf(t, e.repo);
        assert q.active.Some? ==> q.active.value in Held(q);
        assert !IsActive(t, e.repo, o);
        assert !Exact(After(s, events[..1]));
      } else {
        assert OrphansAfter(s, e, {}) == {};
        ExactFrom(t, events[1..]);
        ShiftPrefixes(s, events);
      }
    }
  }

  lemma ShiftPrefixes(s: Sys, events: seq<Event>)
    requires events != []
    ensures ExactThroughout(s, events) <==> Exact(s) && ExactThroughout(Step(s, events[0]), events[1..])
  {
    var t, rest := Step(s, events[0]), events[1..];
    assert After(s, events[..0]) == s;
    forall n | 1 <= n <= |events| ensures After(s, events[..n]) == After(t, rest[..n - 1]) {
      assert events[..n][0] == events[0] && events[..n][1..] == rest[..n - 1];
    }
    forall n | 0 <= n <= |rest| ensures After(t, rest[..n]) == After(s, events[..n + 1]) {
      assert rest[..n] == events[..n + 1][1..];
    }
    if ExactThroughout(s, events) {
      assert Exact(After(s, events[..0]));
      forall n | 0 <= n <= |rest| ensures Exact(After(t, rest[..n])) {
        assert Exact(After(s, events[..n + 1]));
      }
    }
    if Exact(s) && ExactThroughout(t, rest) {
      forall n | 0 <= n <= |events| ensures Exact(After(s, events[..n])) {
        if n > 0 { assert Exact(After(t, rest[..n - 1])); }
      }
    }
  }

  // ---------------------------------------------------------------- a mount that is cancelled runs on

  function MountEnded(s: Sys, r: int): Sys
    requires QueueOf(s, r).active.Some?
  {
    Ended(Touch(s, r), r, if QueueOf(s, r).waiting == [] then Mounted else InQueue)
  }

  lemma CancelMountDoes(s: Sys, r: int, id: string, others: seq<int>)
    requires Inv(s) && MeetsMount(s, CancelEvent(r, id, others))
    ensures Cancel(s, r, id, others).0 == Process(MountEnded(s, r), r).0
    ensures AgreesAt(MountEnded(s, r), r)
  {
    var t := Touch(s, r);
    assert AgreesAt(s, r);
    TouchKeeps(s, r);
    assert Touch(t, r).queues == t.queues;
    CompletionIsAllowed(t, r, id, false, others);
    EndedKeeps(t, r, false);
    assert Ended(t, r, CompletionTarget(t, r, false)) == MountEnded(s, r);
  }

  lemma MountIsOrphaned(s: Sys, r: int, id: string, others: seq<int>)
    requires Inv(s) && Tally(s, {}) && MeetsMount(s, CancelEvent(r, id, others))
    ensures var o, u := QueueOf(s, r).active.value, Cancel(s, r, id, others).0;
            (r, o) in u.running && !IsActive(u, r, o)
  {
    var o, u := QueueOf(s, r).active.value, Cancel(s, r, id, others).0;
    CancelTally(s, r, id, others, {});
    assert (r, o) in OrphansAfter(s, CancelEvent(r, id, others), {});
    assert Unheld(u, r, o);
    assert QueueOf(u, r).active.Some? ==> QueueOf(u, r).active.value in Held(QueueOf(u, r));
  }

  /** A mount that is cancelled is no longer active and runs on.  With nothing waiting the repository
      shows Mounted meanwhile; otherwise the next operation, where it can start, runs beside it. */
  lemma CancelledMountRunsOn(s: Sys, r: int, id: string, others: seq<int>)
    requires Inv(s) && Tally(s, {}) && MeetsMount(s, CancelEvent(r, id, others))
    ensures var q, u := QueueOf(s, r), Cancel(s, r, id, others).0;
            && (r, q.active.value) in u.running && !IsActive(u, r, q.active.value)
            && (q.waiting == [] ==> QueueOf(u, r).active.None? && StateOf(u, r) == Mounted)
            && (q.waiting != [] && (WeightOf(q.waiting[0].operation).Light? || |s.heavy| < s.maxHeavy) ==>
                  IsActive(u, r, q.waiting[0]) && (r, q.waiting[0]) in u.running)
  {
    hide Cancel;
    hide Process;
    MountIsOrphaned(s, r, id, others);
    CancelMountDoes(s, r, id, others);
    MountEndedIs(s, r, id);
    HeadRuns(MountEnded(s, r), r);
  }

  lemma MountEndedIs(s: Sys, r: int, id: string)
    requires Inv(s) && MeetsActive(s, r, id) && TargetOf(QueueOf(s, r).active.value.operation) == Mounting
    ensures var q, v := QueueOf(s, r), MountEnded(s, r);
            && QueueOf(v, r).waiting == q.waiting && QueueOf(v, r).active.None?
            && StateOf(v, r) == (if q.waiting == [] then Mounted else InQueue)
            && (q.waiting != [] && (WeightOf(q.waiting[0].operation).Light? || |s.heavy| < s.maxHeavy) ==> Ready(v, r))
  {
    var v := MountEnded(s, r);
    assert AgreesAt(s, r) && v.heavy == s.heavy;
  }

  lemma HeadRuns(v: Sys, r: int)
    requires AgreesAt(v, r)
    ensures var u := Process(v, r).0;
            && (Ready(v, r) && StateOf(v, r) == InQueue ==>
                  IsActive(u, r, QueueOf(v, r).waiting[0]) && (r, QueueOf(v, r).waiting[0]) in u.running)
            && (QueueOf(v, r).waiting == [] ==>
                  QueueOf(u, r).active == QueueOf(v, r).active && StateOf(u, r) == StateOf(v, r))
  {
    ProcessDoes(v, r);
    if Ready(v, r) {
      HeadMovedOnlyAt(Touch(v, r), r);
    }
  }

  lemma MountAdded() returns (events: seq<Event>, s: Sys)
    ensures IsRun(Initial(1), events) && After(Initial(1), events) == s && events == [AddEvent(1, MountOp("m"))]
    ensures QueueOf(s, 1) == Queue([], Some(MountOp("m")), NO_KEYS) && s.heavy == map[] && s.maxHeavy == 1
    ensures forall p :: (1, p) in s.running ==> p == MountOp("m")
  {
    hide Add;
    s := Initial(1);
    events, s := RunStarts(s, [], s, 1, MountOp("m"));
  }

  /** A mount runs, and a prune waits behind it. */
  lemma PruneWaitsForMount() returns (events: seq<Event>, s: Sys)
    ensures IsRun(Initial(1), events) && After(Initial(1), events) == s
    ensures forall k :: 0 <= k < |events| ==> events[k].AddEvent?
    ensures QueueOf(s, 1) == Queue([PruneOp("p")], Some(MountOp("m")), NO_KEYS) && s.heavy == map[] && s.maxHeavy == 1
  {
    hide Add;
    hide After;
    hide IsRun;
    events, s := MountAdded();
    events, s := RunWaits(Initial(1), events, s, 1, PruneOp("p"));
    assert [] + [PruneOp("p")] == [PruneOp("p")];
  }

  /** A run of two additions and a cancellation after which two operations run on one repository. */
  lemma MountRunsBesideReached() returns (events: seq<Event>)
    ensures IsRun(Initial(1), events)
    ensures var s := After(Initial(1), events);
            (1, MountOp("m")) in s.running && (1, PruneOp("p")) in s.running && !IsActive(s, 1, MountOp("m"))
  {
    hide Cancel;
    hide Inv;
    hide Tally;
    hide After;
    var s;
    events, s := PruneWaitsForMount();
    AdditionsTally(1, events);
    var e := CancelEvent(1, "m", []);
    CancelledMountRunsOn(s, 1, "m", []);
    events := GoOn(Initial(1), events, e, s, Step(s, e));
  }

  /** A run of an addition and a cancellation after which a mount runs on a repository that shows Mounted
      and has nothing active. */
  lemma MountRunsRestingReached() returns (events: seq<Event>)
    ensures IsRun(Initial(1), events)
    ensures var s := After(Initial(1), events);
            (1, MountOp("m")) in s.running && QueueOf(s, 1).active.None? && StateOf(s, 1) == Mounted
  {
    var m, s := MountOp("m"), Initial(1);
    events, s := RunStarts(Initial(1), [], s, 1, m);
    AdditionsTally(1, events);
    var e := CancelEvent(1, "m", []);
    CancelledMountRunsOn(s, 1, "m", []);
    events := GoOn(Initial(1), events, e, s, Step(s, e));
  }

  lemma AdditionsTally(maxHeavy: nat, events: seq<Event>)
    requires IsRun(Initial(maxHeavy), events) && forall k :: 0 <= k < |events| ==> events[k].AddEvent?
    ensures Inv(After(Initial(maxHeavy), events)) && Tally(After(Initial(maxHeavy), events), {})
  {
    InitialIsFine(maxHeavy);
    RunKeeps(Initial(maxHeavy), events);
    RunTally(Initial(maxHeavy), events, {});
    NoOrphans(Initial(maxHeavy), events);
  }

  lemma {:induction false} NoOrphans(s: Sys, events: seq<Event>)
    requires forall k :: 0 <= k < |events| ==> events[k].AddEvent?
    ensures Orphans(s, events, {}) == {}
    decreases |events|
  {
    if events != [] {
      assert OrphansAfter(s, events[0], {}) == {};
      NoOrphans(Step(s, events[0]), events[1..]);
    }
  }
}
