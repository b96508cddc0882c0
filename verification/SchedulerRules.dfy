/** The scheduler's rules, operation by operation and state by state: what starts at once, what waits,
    what is refused, and what a repository shows when an operation ends or is cancelled
    (backend/app/repository/queue_manager.go with the tables of backend/app/statemachine). */
module SchedulerRules {
  import opened Prelude
  import opened RepositoryQueues
  import opened QueueManagers
  import opened RunningOperations

  predicate Working(t: State) {
    t.BackingUp? || t.Pruning? || t.Deleting? || t.Refreshing? || t.Checking? || t.Mounting?
  }

  /** The transition table read by its target: a mount is the only way to be mounted; every state but the
      error state can fail; work is shown as queued from the idle state, or when work ends and more is
      queued; a repository becomes idle from the queue, from the error state, and after work other than a
      mount; and it begins to work when idle or queued, or to refresh while it is mounted. */
  lemma TableByTarget(from: State, to: State, hasQueued: bool)
    ensures Allowed(from, to, hasQueued) <==>
            match to
            case Mounted => from.Mounting?
            case Error => !from.Error?
            case InQueue => from.Idle? || (Working(from) && hasQueued)
            case Idle => from.InQueue? || from.Error? || (Working(from) && !from.Mounting?)
            case _ => from.Idle? || from.InQueue? || (from.Mounted? && to.Refreshing?)
  {
  }

  /** A start is refused, and changes nothing, while the repository is working or, for a kind that counts
      against the limit, while the limit is reached. */
  lemma StartIsChecked(s: Sys, r: int, id: string)
    requires Inv(s) && ById(QueueOf(s, r), id).Some?
    ensures var k := ById(QueueOf(s, r), id).value.operation;
            QueueOf(s, r).active.Some? || ((k.Backup? || k.Prune? || k.Delete? || k.Check?) && |s.heavy| >= s.maxHeavy) ==>
              Start(s, r, id) == (Touch(s, r), false)
  {
    assert AgreesAt(s, r);
    KindStarts(ById(QueueOf(s, r), id).value.operation, StateOf(s, r));
  }

  // ---------------------------------------------------------------- additions

  /** The identifier an addition reports: that of the same request if there is one, else its own. */
  function IdFor(q: Queue, o: Op): string {
    if Duplicate(q, o.operation).Some? then Duplicate(q, o.operation).value else o.id
  }

  /** An addition to a repository that is not working, by the kinds of the operation and of the first one
      in line.  An operation that must start at once and counts against the limit is refused when others
      wait or the limit is reached.  Otherwise the first in line waits if it counts against the limit and
      the limit is reached; it starts when the repository is idle or queued, and on a mounted repository
      when it only refreshes; and it is thrown away, with an error, in any other state. */
  lemma AdditionToResting(s: Sys, r: int, o: Op)
    requires Inv(s) && QueueOf(s, r).active.None?
    requires forall p :: p in Held(QueueOf(s, r)) ==> p.id != o.id
    ensures var (u, result) := Add(s, r, o);
            var q, t, k := QueueOf(u, r), StateOf(s, r), o.operation;
            var w := Added(QueueOf(s, r), o).waiting;
            && w != [] && (t == Idle || t == InQueue || t == Mounted || t == Error) && OnlyAt(s, u, r)
            && var h := w[0].operation;
               var full := |s.heavy| >= s.maxHeavy;
               var refresh := h.ArchiveRefresh? || h.ArchiveRename? || h.ArchiveComment? || h.Unmount? || h.UnmountArchive? || h.ExaminePrune?;
               if o.immediate && (k.Backup? || k.Prune? || k.Delete? || k.Check?) && (QueueOf(s, r).waiting != [] || full) then
                 result == Refused && u == Touch(s, r)
               else if (h.Backup? || h.Prune? || h.Delete? || h.Check?) && full then
                 && result == Accepted(IdFor(QueueOf(s, r), o)) && u.running == s.running
                 && q.active.None? && q.waiting == w && StateOf(u, r) == if t == Idle then InQueue else t
               else if t == Idle || t == InQueue || (t == Mounted && refresh) then
                 && result == Accepted(IdFor(QueueOf(s, r), o)) && u.running == s.running + {(r, w[0])}
                 && q.active == Some(w[0]) && q.waiting == w[1..]
               else
                 && result == StartFailed(IdFor(QueueOf(s, r), o)) && u.running == s.running
                 && q.active.None? && q.waiting == w[1..] && StateOf(u, r) == t
  {
    hide Add;
    hide Process;
    hide ShowQueued;
    hide WeightOf;
    hide Allowed;
    hide TargetOf;
    hide OnlyAt;
    hide Added;
    hide IdFor;
    hide Inv;
    RestingStates(s, r);
    SomethingWaits(s, r, o);
    var w := Added(QueueOf(s, r), o).waiting;
    KindStarts(o.operation, StateOf(s, r));
    KindStarts(w[0].operation, StateOf(s, r));
    var e := Enqueued(s, r, o);
    RestingAdd(s, r, o);
    FirstProcessed(e, r);
    OnlyAtJoins(s, e, Process(e, r).0, r);
    ShownQueued(Process(e, r).0, r);
    OnlyAtJoins(s, Process(e, r).0, ShowQueued(Process(e, r).0, r), r);
  }

  lemma RestingStates(s: Sys, r: int)
    requires Inv(s) && QueueOf(s, r).active.None?
    ensures StateOf(s, r) == Idle || StateOf(s, r) == InQueue || StateOf(s, r) == Mounted || StateOf(s, r) == Error
    ensures OnlyAt(s, Touch(s, r), r)
  {
    assert AgreesAt(s, r);
  }

  /** Which kinds of operation count against the limit, and what may start in a repository at rest. */
  lemma KindStarts(k: Operation, t: State)
    ensures WeightOf(k).Heavy? <==> k.Backup? || k.Prune? || k.Delete? || k.Check?
    ensures t == Idle || t == InQueue || t == Mounted || t == Error ==>
              (Allowed(t, TargetOf(k), false) <==>
               t == Idle || t == InQueue || (t == Mounted && (k.ArchiveRefresh? || k.ArchiveRename? || k.ArchiveComment? ||
                                                              k.Unmount? || k.UnmountArchive? || k.ExaminePrune?)))
  {
  }

  lemma SomethingWaits(s: Sys, r: int, o: Op)
    requires Inv(s) && QueueOf(s, r).active.None?
    requires forall p :: p in Held(QueueOf(s, r)) ==> p.id != o.id
    ensures var e := Enqueued(s, r, o);
            && Inv(e) && OnlyAt(s, e, r) && Added(QueueOf(s, r), o).waiting != []
            && QueueOf(e, r).waiting == Added(QueueOf(s, r), o).waiting && QueueOf(e, r).active.None?
            && StateOf(e, r) == StateOf(s, r) && e.heavy == s.heavy && e.running == s.running && r !in e.heavy && r !in e.light
  {
    assert AgreesAt(s, r);
    var q := QueueOf(s, r);
    EnqueuedKeeps(s, r, o);
    if Duplicate(q, o.operation).Some? {
      DuplicateIsHeld(q, o.operation, Duplicate(q, o.operation).value);
    }
  }

  lemma RestingAdd(s: Sys, r: int, o: Op)
    requires Inv(s) && QueueOf(s, r).active.None?
    ensures Add(s, r, o) ==
            if o.immediate && WeightOf(o.operation).Heavy? && (QueueOf(s, r).waiting != [] || |s.heavy| >= s.maxHeavy) then (Touch(s, r), Refused)
            else
              var (u, ok) := Process(Enqueued(s, r, o), r);
              if ok then (ShowQueued(u, r), Accepted(IdFor(QueueOf(s, r), o))) else (u, StartFailed(IdFor(QueueOf(s, r), o)))
  {
    hide Process;
    hide ShowQueued;
    hide Duplicate;
    hide WeightOf;
    assert AgreesAt(s, r);
  }

  lemma FirstProcessed(e: Sys, r: int)
    requires Inv(e) && QueueOf(e, r).active.None? && QueueOf(e, r).waiting != [] && r !in e.heavy && r !in e.light
    ensures var (u, ok), w := Process(e, r), QueueOf(e, r).waiting;
            && Inv(u) && OnlyAt(e, u, r)
            && (if WeightOf(w[0].operation).Heavy? && |e.heavy| >= e.maxHeavy then
                  ok && u.running == e.running && QueueOf(u, r) == QueueOf(e, r) && StateOf(u, r) == StateOf(e, r)
                else if Allowed(StateOf(e, r), TargetOf(w[0].operation), false) then
                  ok && QueueOf(u, r).active == Some(w[0]) && QueueOf(u, r).waiting == w[1..] && u.running == e.running + {(r, w[0])}
                else
                  !ok && QueueOf(u, r).active.None? && QueueOf(u, r).waiting == w[1..] && u.running == e.running &&
                  StateOf(u, r) == StateOf(e, r))
  {
    hide Process;
    hide Allowed;
    hide TargetOf;
    hide WeightOf;
    assert AgreesAt(e, r);
    ProcessDoes(e, r);
    ProcessKeeps(e, r);
    if Ready(e, r) {
      HeadMovedOnlyAt(Touch(e, r), r);
    }
  }

  /** After every run, an operation of a kind that does not count against the limit is accepted and
      running when it is added to a repository that is idle with nothing in line, whatever the limit. */
  lemma OthersStartAtOnce(maxHeavy: nat, events: seq<Event>, r: int, o: Op)
    requires IsRun(Initial(maxHeavy), events + [AddEvent(r, o)])
    requires !(o.operation.Backup? || o.operation.Prune? || o.operation.Delete? || o.operation.Check?)
    requires var s := After(Initial(maxHeavy), events);
             QueueOf(s, r).active.None? && QueueOf(s, r).waiting == [] && StateOf(s, r) == Idle
    ensures Add(After(Initial(maxHeavy), events), r, o).1 == Accepted(o.id)
    ensures var u := After(Initial(maxHeavy), events + [AddEvent(r, o)]);
            QueueOf(u, r).active == Some(o) && (r, o) in u.running
  {
    hide Add;
    var s := After(Initial(maxHeavy), events);
    InitialIsFine(maxHeavy);
    RunSplits(Initial(maxHeavy), events, AddEvent(r, o));
    RunKeeps(Initial(maxHeavy), events);
    AdditionToResting(s, r, o);
    AddedToQuiet(QueueOf(s, r), o) by {
      QueueAgrees(s, r);
    }
  }

  lemma AddedToQuiet(q: Queue, o: Op)
    requires Consistent(q) && q.active.None? && q.waiting == []
    ensures Added(q, o).waiting == [o] && IdFor(q, o) == o.id
  {
    if Duplicate(q, o.operation).Some? {
      DuplicateIsHeld(q, o.operation, Duplicate(q, o.operation).value);
    }
  }

  lemma {:induction false} RunSplits(s: Sys, events: seq<Event>, e: Event)
    requires IsRun(s, events + [e])
    ensures IsRun(s, events) && Enabled(After(s, events), e) && After(s, events + [e]) == Step(After(s, events), e)
    decreases |events|
  {
    var longer := events + [e];
    if events == [] {
      assert longer == [e] && [e][1..] == [];
    } else {
      assert longer[0] == events[0] && longer[1..] == events[1..] + [e];
      RunSplits(Step(s, events[0]), events[1..], e);
    }
  }

  lemma ShownQueued(s: Sys, r: int)
    ensures var u, t := ShowQueued(s, r), StateOf(s, r);
            && OnlyAt(s, u, r) && QueueOf(u, r) == QueueOf(s, r) && u.running == s.running
            && (QueueOf(s, r).active.Some? ==> u == s)
            && (t == Idle || t == InQueue || t == Mounted || t == Error ==>
                  StateOf(u, r) ==
                  if QueueOf(s, r).active.None? && QueueOf(s, r).waiting != [] && t == Idle &&
                     WeightOf(QueueOf(s, r).waiting[0].operation).Heavy? then InQueue else t)
  {
  }

  /** An operation that is not already held joins the end of the queue.  It is held already exactly when
      there is a backup with the same profile and repository, a deletion of the same archive, or a
      deletion of the repository; every other kind is queued as often as it is asked for. */
  lemma RequestsJoin(q: Queue, o: Op)
    requires Consistent(q) && forall p :: p in Held(q) ==> p.id != o.id
    ensures var known := exists p :: p in q.waiting + (if q.active.Some? then [q.active.value] else []) &&
                                     (o.operation.Backup? || o.operation.ArchiveDelete? || o.operation.Delete?) &&
                                     p.operation == o.operation;
            && Added(q, o).active == q.active
            && Added(q, o).waiting == (if known then q.waiting else q.waiting + [o])
            && (known <==> Duplicate(q, o.operation).Some?)
    ensures Duplicate(q, o.operation).Some? ==>
              exists p :: p in Held(q) && p.id == Duplicate(q, o.operation).value && p.operation == o.operation
  {
    hide Consistent;
    hide Duplicate;
    AddedWaiting(q, o);
    if Duplicate(q, o.operation).Some? {
      var id := Duplicate(q, o.operation).value;
      DuplicateIsHeld(q, o.operation, id);
      var p :| p in Held(q) && p.id == id && KeyOf(p.operation) == KeyOf(o.operation) && KeyOf(o.operation).Some?;
      SameKey(o.operation, p.operation);
    }
    forall p | p in Held(q) && (o.operation.Backup? || o.operation.ArchiveDelete? || o.operation.Delete?) && p.operation == o.operation
      ensures Duplicate(q, o.operation).Some?
    {
      DuplicateIsHeld(q, o.operation, p.id);
      SameKey(o.operation, p.operation);
    }
  }

  lemma AddedWaiting(q: Queue, o: Op)
    ensures Added(q, o).active == q.active
    ensures Added(q, o).waiting == if Duplicate(q, o.operation).Some? then q.waiting else q.waiting + [o]
  {
  }

  lemma SameKey(k: Operation, l: Operation)
    ensures KeyOf(k).Some? && KeyOf(l) == KeyOf(k) <==> (k.Backup? || k.ArchiveDelete? || k.Delete?) && l == k
  {
  }

  /** While a repository is working, an addition is refused if it must start at once, and otherwise only
      changes the list of waiting operations. */
  lemma AdditionToBusy(s: Sys, r: int, o: Op)
    requires Inv(s) && QueueOf(s, r).active.Some?
    ensures var (u, result) := Add(s, r, o);
            if o.immediate then result == Refused && u == Touch(s, r)
            else
              && result == Accepted(IdFor(QueueOf(s, r), o))
              && u == PutQueue(s, r, Added(QueueOf(s, r), o))
  {
    hide Duplicate;
    hide ShowQueued;
    assert AgreesAt(s, r);
    var e := PutQueue(s, r, Added(QueueOf(s, r), o));
    AddedWaiting(QueueOf(s, r), o);
    assert PutQueue(Touch(s, r), r, Added(QueueOf(s, r), o)) == e by {
      PutTwice(s.queues, r, QueueOf(s, r), Added(QueueOf(s, r), o));
    }
    assert Touch(e, r).queues == e.queues;
    assert Process(e, r) == (e, true);
    ShownQueued(e, r);
  }

  // ---------------------------------------------------------------- endings

  /** What the end of the active operation leaves at its repository: the next operation in line is started
      when it is light or there is room for it, taken to be thrown away when the repository is left in the
      error state, and waits otherwise; with nothing in line the repository shows what the operation that
      ended leaves behind. */
  lemma CompletionShows(s: Sys, r: int, enterError: bool, others: seq<int>)
    requires Inv(s) && QueueOf(s, r).active.Some?
    ensures var o, w := QueueOf(s, r).active.value, QueueOf(s, r).waiting;
            var u := Complete(s, r, o.id, enterError, others).0;
            var q, k := QueueOf(u, r), o.operation;
            var frees := k.Backup? || k.Prune? || k.Delete? || k.Check?;
            if w == [] then
              && q.active.None? && q.waiting == []
              && StateOf(u, r) == if enterError then Error else if k.Mount? || k.MountArchive? then Mounted else Idle
            else
              var l := w[0].operation;
              var room := !(l.Backup? || l.Prune? || l.Delete? || l.Check?) || frees || |s.heavy| < s.maxHeavy;
              if enterError then
                q.active.None? && StateOf(u, r) == Error && q.waiting == if room then w[1..] else w
              else if room then
                q.active == Some(w[0]) && q.waiting == w[1..] && (r, w[0]) in u.running
              else
                q.active.None? && q.waiting == w && StateOf(u, r) == InQueue
  {
    hide Inv;
    hide Complete;
    hide Process;
    hide ProcessAll;
    hide Ended;
    hide WeightOf;
    var o, w := QueueOf(s, r).active.value, QueueOf(s, r).waiting;
    var e := Ended(Touch(s, r), r, CompletionTarget(s, r, enterError));
    TouchKeeps(s, r);
    CompletionIsAllowed(s, r, o.id, enterError, others);
    EndedKeeps(Touch(s, r), r, enterError);
    KindStarts(o.operation, Idle);
    EndedShows(s, r, enterError);
    NextShows(e, r);
    if w != [] {
      KindStarts(w[0].operation, Idle);
    }
    SweepPasses(Process(e, r).0, r, others);
  }

  /** The queue and the state right after the active operation has left. */
  lemma EndedShows(s: Sys, r: int, enterError: bool)
    requires Inv(s) && QueueOf(s, r).active.Some?
    ensures var o, w := QueueOf(s, r).active.value, QueueOf(s, r).waiting;
            var e := Ended(Touch(s, r), r, CompletionTarget(s, r, enterError));
            && QueueOf(e, r).active.None? && QueueOf(e, r).waiting == w && r !in e.heavy && r !in e.light && e.maxHeavy == s.maxHeavy
            && |e.heavy| == (if WeightOf(o.operation).Heavy? then |s.heavy| - 1 else |s.heavy|)
            && (WeightOf(o.operation).Heavy? ==> |e.heavy| < s.maxHeavy)
            && StateOf(e, r) == (if enterError then Error
                                 else if w != [] then InQueue
                                 else if o.operation.Mount? || o.operation.MountArchive? then Mounted else Idle)
  {
    hide WeightOf;
    assert AgreesAt(s, r);
    DropKey(s.heavy, r);
  }

  lemma NextShows(e: Sys, r: int)
    requires Inv(e) && QueueOf(e, r).active.None? && r !in e.heavy && r !in e.light
    requires QueueOf(e, r).waiting != [] ==> StateOf(e, r) == InQueue || StateOf(e, r) == Error
    ensures var (u, ok), w := Process(e, r), QueueOf(e, r).waiting;
            && Inv(u)
            && if w == [] || (WeightOf(w[0].operation).Heavy? && |e.heavy| >= e.maxHeavy) then
                 QueueOf(u, r) == QueueOf(e, r) && StateOf(u, r) == StateOf(e, r)
               else if StateOf(e, r) == InQueue then
                 QueueOf(u, r).active == Some(w[0]) && QueueOf(u, r).waiting == w[1..] && (r, w[0]) in u.running
               else
                 QueueOf(u, r).active.None? && QueueOf(u, r).waiting == w[1..] && StateOf(u, r) == Error
  {
    hide Process;
    hide WeightOf;
    hide Allowed;
    hide Inv;
    ProcessKeeps(e, r);
    if QueueOf(e, r).waiting == [] {
      NothingProcessed(e, r);
    } else {
      KindStarts(QueueOf(e, r).waiting[0].operation, StateOf(e, r));
      FirstProcessed(e, r);
    }
  }

  lemma NothingProcessed(e: Sys, r: int)
    requires QueueOf(e, r).active.None? && QueueOf(e, r).waiting == []
    ensures QueueOf(Process(e, r).0, r) == QueueOf(e, r) && StateOf(Process(e, r).0, r) == StateOf(e, r)
  {
  }

  /** Looking at the other repositories leaves this one alone, and ends nothing. */
  lemma {:induction false} SweepPasses(s: Sys, r: int, others: seq<int>)
    requires Inv(s)
    ensures var u := ProcessAll(s, r, others).0;
            QueueOf(u, r) == QueueOf(s, r) && StateOf(u, r) == StateOf(s, r) && s.running <= u.running
    decreases |others|
  {
    hide Process;
    if others != [] {
      if others[0] == r {
        SweepPasses(s, r, others[1..]);
      } else {
        ProcessKeeps(s, others[0]);
        StartsOnly(s, others[0]);
        SweepPasses(Process(s, others[0]).0, r, others[1..]);
      }
    }
  }

  lemma StartsOnly(s: Sys, r: int)
    requires Inv(s)
    ensures s.running <= Process(s, r).0.running
  {
    assert AgreesAt(s, r);
    ProcessDoes(s, r);
  }

  /** Cancelling: a waiting operation leaves the line, and a repository shown as queued for its sake is
      idle again; a mount that is active is completed; any other active operation is only asked to stop. */
  lemma CancellationByKind(s: Sys, r: int, id: string, others: seq<int>)
    requires Inv(s)
    ensures var (u, ok), q := Cancel(s, r, id, others), QueueOf(s, r);
            if q.active.Some? && q.active.value.id == id then
              if q.active.value.operation.Mount? || q.active.value.operation.MountArchive? then
                (u, ok) == Complete(Touch(s, r), r, id, false, others)
              else (u, ok) == (Touch(s, r), true)
            else
              && ok && u.running == s.running && QueueOf(u, r).active == q.active
              && QueueOf(u, r).waiting == Filter(q.waiting, (o: Op) => o.id != id)
              && StateOf(u, r) == if QueueOf(u, r).waiting == [] && q.active.None? && StateOf(s, r) == InQueue then Idle else StateOf(s, r)
  {
    hide Inv;
    hide Cancel;
    hide Complete;
    if MeetsActive(s, r, id) {
      CancelsActive(s, r, id, others);
    } else {
      CancelsWaiting(s, r, id, others);
    }
  }

  lemma CancelsActive(s: Sys, r: int, id: string, others: seq<int>)
    requires Inv(s) && MeetsActive(s, r, id)
    ensures var o := QueueOf(s, r).active.value.operation;
            Cancel(s, r, id, others) ==
            if o.Mount? || o.MountArchive? then Complete(Touch(s, r), r, id, false, others) else (Touch(s, r), true)
  {
    hide Complete;
    assert AgreesAt(s, r);
  }

  lemma CancelsWaiting(s: Sys, r: int, id: string, others: seq<int>)
    requires Inv(s) && !MeetsActive(s, r, id)
    ensures var (u, ok), q := Cancel(s, r, id, others), QueueOf(s, r);
            && ok && u.running == s.running && QueueOf(u, r).active == q.active
            && QueueOf(u, r).waiting == Filter(q.waiting, (o: Op) => o.id != id)
            && StateOf(u, r) == if QueueOf(u, r).waiting == [] && q.active.None? && StateOf(s, r) == InQueue then Idle else StateOf(s, r)
  {
    hide Complete;
    hide Remove;
    hide Inv;
    hide Removed;
    hide Consistent;
    assert Consistent(QueueOf(s, r)) && (QueueOf(s, r).waiting == [] && QueueOf(s, r).active.None? ==> StateOf(s, r) != InQueue) by {
      QueueAgrees(s, r);
    }
    TouchKeeps(s, r);
    TouchTwice(s, r);
    RemoveWaiting(Touch(s, r), r, id);
    WaitingLeaves(QueueOf(s, r), id);
  }

  lemma QueueAgrees(s: Sys, r: int)
    requires Inv(s)
    ensures Consistent(QueueOf(s, r))
    ensures QueueOf(s, r).waiting == [] && QueueOf(s, r).active.None? ==> StateOf(s, r) != InQueue
  {
    assert AgreesAt(s, r);
  }

  lemma WaitingLeaves(q: Queue, id: string)
    requires Consistent(q) && (q.active.Some? ==> q.active.value.id != id)
    ensures var rest, keep := Removed(q, id), (o: Op) => o.id != id;
            if rest.None? then Filter(q.waiting, keep) == q.waiting
            else rest.value.active == q.active && rest.value.waiting == Filter(q.waiting, keep)
  {
    var keep := (o: Op) => o.id != id;
    var i := IndexOf(q.waiting, id);
    if i.Some? {
      FilterWithout(q.waiting, i.value, keep);
      WithoutFromIndependent(q, i.value);
      FilterAll(Without(q.waiting, i.value), keep);
    } else {
      FilterAll(q.waiting, keep);
    }
  }

  lemma WithoutFromIndependent(q: Queue, i: nat)
    requires Consistent(q) && i < |q.waiting|
    ensures forall o :: o in Without(q.waiting, i) ==> o.id != q.waiting[i].id
  {
    forall o | o in Without(q.waiting, i) ensures o.id != q.waiting[i].id {
      var k :| 0 <= k < |q.waiting| && k != i && q.waiting[k] == o;
      assert Held(q)[k] == o && Held(q)[i] == q.waiting[i];
    }
  }
}
