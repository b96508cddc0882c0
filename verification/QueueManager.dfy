/** The scheduler over all repository queues (backend/app/repository/queue_manager.go) and the
    repository state machine it consults (backend/app/statemachine/repository_state_machine.go). */
module QueueManagers {
  import opened Prelude
  import opened RepositoryQueues

  // ---------------------------------------------------------------- the state machine

  datatype State =
    | Idle
    | InQueue
    | BackingUp
    | Pruning
    | Deleting
    | Refreshing
    | Checking
    | Mounting
    | Mounted
    | Error

  datatype Weight = Heavy | Light

  function WeightOf(operation: Operation): Weight {
    match operation
    case Backup(_) => Heavy
    case Prune(_) => Heavy
    case Delete => Heavy
    case Check => Heavy
    case _ => Light
  }

  /** The state a repository is in while `operation` runs (getTargetStateForOperation). */
  function TargetOf(operation: Operation): State {
    match operation
    case Backup(_) => BackingUp
    case Prune(_) => Pruning
    case Delete => Deleting
    case ArchiveDelete(_) => Deleting
    case Check => Checking
    case Mount => Mounting
    case MountArchive(_) => Mounting
    case _ => Refreshing
  }

  /** The transition table; the way back to InQueue is guarded by there being queued work. */
  predicate Allowed(from: State, to: State, hasQueued: bool) {
    match from
    case Idle => !to.Idle? && !to.Mounted?
    case InQueue => !to.InQueue? && !to.Mounted?
    case Mounting => to.Mounted? || to.Error? || (to.InQueue? && hasQueued)
    case Mounted => to.Refreshing? || to.Error?
    case Error => to.Idle?
    case _ => to.Idle? || to.Error? || (to.InQueue? && hasQueued)
  }

  predicate Resting(t: State) {
    t.Idle? || t.InQueue? || t.Mounted? || t.Error?
  }

  /** The state after `done` ended without entering the error state. */
  function CompletionState(q: Queue, done: Operation): State {
    if q.waiting != [] then InQueue
    else if done.Mount? || done.MountArchive? then Mounted
    else Idle
  }

  /** Whether the running operation of a repository in state `s` has a context to cancel. */
  predicate Cancellable(s: State) {
    s.BackingUp? || s.Pruning? || s.Deleting? || s.Refreshing? || s.Checking?
  }

  // ---------------------------------------------------------------- specification

  datatype Sys = Sys(
    queues: map<int, Queue>,
    states: map<int, State>,
    heavy: map<int, Op>,
    light: map<int, Op>,
    running: set<(int, Op)>,  // operations whose goroutine has been launched and has not ended
    maxHeavy: nat)

  function QueueOf(s: Sys, r: int): Queue {
    if r in s.queues then s.queues[r] else EMPTY_QUEUE
  }

  function StateOf(s: Sys, r: int): State {
    if r in s.states then s.states[r] else Idle
  }

  function PutQueue(s: Sys, r: int, q: Queue): Sys {
    s.(queues := s.queues[r := q])
  }

  function PutState(s: Sys, r: int, t: State): Sys {
    s.(states := s.states[r := t])
  }

  /** GetQueue: looking a queue up creates it. */
  function Touch(s: Sys, r: int): Sys {
    PutQueue(s, r, QueueOf(s, r))
  }

  function Occupy(s: Sys, r: int, o: Op): Sys {
    if WeightOf(o.operation).Heavy? then s.(heavy := s.heavy[r := o]) else s.(light := s.light[r := o])
  }

  function Release(s: Sys, r: int, o: Op): Sys {
    if WeightOf(o.operation).Heavy? then s.(heavy := s.heavy - {r}) else s.(light := s.light - {r})
  }

  /** The goroutine of an operation is launched. */
  function Launch(s: Sys, r: int, o: Op): Sys {
    s.(running := s.running + {(r, o)})
  }

  predicate CanStart(s: Sys, r: int, o: Op) {
    r !in s.heavy && r !in s.light && (WeightOf(o.operation).Heavy? ==> |s.heavy| < s.maxHeavy)
  }

  /** StartOperation.  When the state machine refuses, the operation has been moved already. */
  function Start(s0: Sys, r: int, id: string): (Sys, bool) {
    var s := Touch(s0, r);
    var q := QueueOf(s, r);
    var o := ById(q, id);
    if o.None? || !CanStart(s, r, o.value) then (s, false)
    else
      var moved := Activated(q, id);
      if moved.None? then (s, false)
      else
        var s' := Occupy(PutQueue(s, r, moved.value), r, o.value);
        var target := TargetOf(o.value.operation);
        if Allowed(StateOf(s', r), target, moved.value.waiting != []) then
          (Launch(PutState(s', r, target), r, o.value), true)
        else (s', false)
  }

  /** A queue that has run empty takes its repository out of the InQueue state. */
  function Settle(s: Sys, r: int): Sys {
    if QueueOf(s, r).active.None? && QueueOf(s, r).waiting == [] && StateOf(s, r) == InQueue then PutState(s, r, Idle)
    else s
  }

  function Remove(s0: Sys, r: int, id: string): Sys {
    var s := Touch(s0, r);
    var q := QueueOf(s, r);
    var o := ById(q, id);
    if o.None? then s
    else
      var freed := if q.active.Some? && q.active.value.id == id then Release(s, r, o.value) else s;
      var rest := Removed(q, id);
      if rest.None? then freed else Settle(PutQueue(freed, r, rest.value), r)
  }

  function Process(s0: Sys, r: int): (Sys, bool) {
    var s := Touch(s0, r);
    var q := QueueOf(s, r);
    if q.active.Some? || q.waiting == [] || !CanStart(s, r, q.waiting[0]) then (s, true)
    else
      var (s', ok) := Start(s, r, q.waiting[0].id);
      if ok then (s', true) else (Remove(s', r, q.waiting[0].id), false)
  }

  function ProcessAll(s: Sys, r: int, others: seq<int>): (Sys, bool)
    decreases |others|
  {
    if others == [] then (s, true)
    else if others[0] == r then ProcessAll(s, r, others[1..])
    else
      var (s', ok) := Process(s, others[0]);
      if ok then ProcessAll(s', r, others[1..]) else (s', false)
  }

  datatype AddResult = Accepted(id: string) | StartFailed(id: string) | Refused

  /** An operation that must start at once cannot. */
  predicate TurnsAway(s: Sys, r: int, o: Op) {
    var q := QueueOf(s, r);
    o.immediate && (q.active.Some? || (WeightOf(o.operation).Heavy? && q.waiting != []) || !CanStart(s, r, o))
  }

  function Add(s0: Sys, r: int, o: Op): (Sys, AddResult) {
    var s := Touch(s0, r);
    var q := QueueOf(s, r);
    if TurnsAway(s, r, o) then (s, Refused)
    else
      var dup := Duplicate(q, o.operation);
      var id := if dup.Some? then dup.value else o.id;
      var (s', ok) := Process(PutQueue(s, r, Added(q, o)), r);
      if !ok then (s', StartFailed(id)) else (ShowQueued(s', r), Accepted(id))
  }

  /** A repository whose heavy head has to wait is shown as InQueue where the table allows it. */
  function ShowQueued(s: Sys, r: int): Sys {
    var q := QueueOf(s, r);
    if q.active.None? && q.waiting != [] && StateOf(s, r) != InQueue
       && WeightOf(q.waiting[0].operation).Heavy? && Allowed(StateOf(s, r), InQueue, true)
    then PutState(s, r, InQueue) else s
  }

  /** CompleteOperation.  `others` is the order in which the map of queues is walked. */
  function Complete(s0: Sys, r: int, id: string, enterError: bool, others: seq<int>): (Sys, bool) {
    var s := Touch(s0, r);
    var q := QueueOf(s, r);
    if q.active.None? || q.active.value.id != id then (s, false)
    else
      var o := q.active.value;
      var rest := Finished(q).value;
      var s1 := PutQueue(Release(s, r, o), r, rest);
      var target := if enterError then Error else CompletionState(rest, o.operation);
      if StateOf(s1, r) != target && !Allowed(StateOf(s1, r), target, rest.waiting != []) then (s1, false)
      else
        var (s2, ok) := Process(PutState(s1, r, target), r);
        if !ok then (s2, false)
        else if WeightOf(o.operation).Heavy? then ProcessAll(s2, r, others)
        else (s2, true)
  }

  /** The goroutine of an operation ends; what it does last is CompleteOperation. */
  function Ends(s: Sys, r: int, o: Op): Sys {
    s.(running := s.running - {(r, o)})
  }

  function Finish(s: Sys, r: int, o: Op, enterError: bool, others: seq<int>): (Sys, bool) {
    Complete(Ends(s, r, o), r, o.id, enterError, others)
  }

  /** CancelOperation; cancelling a running operation that has a context only asks it to stop. */
  function Cancel(s0: Sys, r: int, id: string, others: seq<int>): (Sys, bool) {
    var s := Touch(s0, r);
    var q := QueueOf(s, r);
    if q.active.Some? && q.active.value.id == id then
      if Cancellable(StateOf(s, r)) then (s, true) else Complete(s, r, id, false, others)
    else (Remove(s, r, id), true)
  }

  // ---------------------------------------------------------------- invariant

  function At<T>(m: map<int, T>, r: int): Option<T> {
    if r in m then Some(m[r]) else None
  }

  /** One repository's queue, state and concurrency entries agree. */
  ghost predicate Agrees(q: Queue, t: State, heavy: Option<Op>, light: Option<Op>) {
    && Consistent(q)
    && heavy == (if q.active.Some? && WeightOf(q.active.value.operation).Heavy? then q.active else None)
    && light == (if q.active.Some? && WeightOf(q.active.value.operation).Light? then q.active else None)
    && (if q.active.Some? then t == TargetOf(q.active.value.operation) else Resting(t))
    && (q.active.None? && t == InQueue ==> q.waiting != [])
  }

  ghost predicate AgreesAt(s: Sys, r: int) {
    Agrees(QueueOf(s, r), StateOf(s, r), At(s.heavy, r), At(s.light, r))
  }

  /** Every repository runs at most one operation, its state says exactly which kind, and no more
      than `maxHeavy` repositories run a heavy one. */
  ghost predicate Inv(s: Sys) {
    (forall r :: AgreesAt(s, r)) && |s.heavy| <= s.maxHeavy
  }

  /** Nothing about the other repositories changed. */
  ghost predicate OnlyAt(s: Sys, s': Sys, r: int) {
    && s'.maxHeavy == s.maxHeavy
    && forall k :: k != r ==>
         QueueOf(s', k) == QueueOf(s, k) && StateOf(s', k) == StateOf(s, k)
         && At(s'.heavy, k) == At(s.heavy, k) && At(s'.light, k) == At(s.light, k)
  }

  lemma OnlyAtKeeps(s: Sys, s': Sys, r: int)
    requires Inv(s) && OnlyAt(s, s', r) && AgreesAt(s', r) && |s'.heavy| <= s.maxHeavy
    ensures Inv(s')
  {
    forall k ensures AgreesAt(s', k) {
      assert AgreesAt(s, k);
      if k != r {
        assert QueueOf(s', k) == QueueOf(s, k);
      }
    }
  }

  lemma DropKey<T>(m: map<int, T>, r: int)
    ensures |m - {r}| == if r in m then |m| - 1 else |m|
  {
    assert (m - {r}).Keys == m.Keys - {r};
    assert |m| == |m.Keys| && |m - {r}| == |(m - {r}).Keys|;
  }

  lemma PutKey<T>(m: map<int, T>, r: int, v: T)
    requires r !in m
    ensures |m[r := v]| == |m| + 1
  {
    assert m[r := v].Keys == m.Keys + {r};
    assert |m| == |m.Keys| && |m[r := v]| == |m[r := v].Keys|;
  }

  lemma HeadIndex(q: Queue)
    requires q.waiting != []
    ensures IndexOf(q.waiting, q.waiting[0].id) == Some(0)
    ensures Without(q.waiting, 0) == q.waiting[1..]
  {
  }

  /** Process decides to start the head of the queue. */
  predicate Ready(s: Sys, r: int) {
    QueueOf(s, r).active.None? && QueueOf(s, r).waiting != [] && CanStart(s, r, QueueOf(s, r).waiting[0])
  }

  function HeadOf(s: Sys, r: int): Op
    requires QueueOf(s, r).waiting != []
  {
    QueueOf(s, r).waiting[0]
  }

  function WithHeadActive(q: Queue): Queue
    requires q.waiting != []
  {
    q.(waiting := q.waiting[1..], active := Some(q.waiting[0]))
  }

  /** The system once the head of queue `r` has become its active operation. */
  function HeadMoved(s: Sys, r: int): Sys
    requires QueueOf(s, r).waiting != []
  {
    Occupy(PutQueue(s, r, WithHeadActive(QueueOf(s, r))), r, HeadOf(s, r))
  }

  /** The system once the head of queue `r` has been started. */
  function HeadStarted(s: Sys, r: int): Sys
    requires QueueOf(s, r).waiting != []
  {
    Launch(PutState(HeadMoved(s, r), r, TargetOf(HeadOf(s, r).operation)), r, HeadOf(s, r))
  }

  lemma HeadMovedOnlyAt(s: Sys, r: int)
    requires QueueOf(s, r).waiting != []
    ensures OnlyAt(s, HeadMoved(s, r), r)
    ensures QueueOf(HeadMoved(s, r), r) == WithHeadActive(QueueOf(s, r))
    ensures StateOf(HeadMoved(s, r), r) == StateOf(s, r)
  {
  }

  lemma PutThenDrop<T>(m: map<int, T>, r: int, v: T)
    requires r !in m
    ensures m[r := v] - {r} == m
  {
  }

  lemma PutTwice<T>(m: map<int, T>, r: int, v: T, w: T)
    ensures m[r := v][r := w] == m[r := w]
  {
  }

  lemma TouchTwice(s: Sys, r: int)
    ensures Touch(Touch(s, r), r) == Touch(s, r)
  {
    assert Touch(Touch(s, r), r).queues == Touch(s, r).queues;
  }

  lemma StartHead(s: Sys, r: int)
    requires Ready(s, r)
    ensures var o, t := HeadOf(s, r), HeadMoved(Touch(s, r), r);
            var target := TargetOf(o.operation);
            Start(s, r, o.id) ==
            if Allowed(StateOf(s, r), target, false) then (HeadStarted(Touch(s, r), r), true) else (t, false)
  {
    var q := QueueOf(s, r);
    HeadIndex(q);
    assert Activated(q, HeadOf(s, r).id) == Some(WithHeadActive(q));
    HeadMovedOnlyAt(Touch(s, r), r);
  }

  /** The system once the head of queue `r` has been thrown away. */
  function HeadDropped(s: Sys, r: int): Sys
    requires QueueOf(s, r).waiting != []
  {
    var q := QueueOf(s, r);
    PutQueue(s, r, q.(waiting := q.waiting[1..], tables := Untrack(q.tables, q.waiting[0])))
  }

  lemma RemoveActive(s: Sys, r: int)
    requires r in s.queues && QueueOf(s, r).active.Some? && StateOf(s, r) != InQueue
    ensures var q := QueueOf(s, r);
            var o := q.active.value;
            Remove(s, r, o.id) == PutQueue(Release(s, r, o), r, q.(active := None, tables := Untrack(q.tables, o)))
  {
    assert Touch(s, r).queues == s.queues;
  }

  lemma MovedThenFreed(s: Sys, r: int)
    requires Ready(s, r)
    ensures var t := HeadMoved(s, r);
            var q := QueueOf(t, r);
            PutQueue(Release(t, r, HeadOf(s, r)), r, q.(active := None, tables := Untrack(q.tables, HeadOf(s, r)))) == HeadDropped(s, r)
  {
    var o := HeadOf(s, r);
    if WeightOf(o.operation).Heavy? {
      PutThenDrop(s.heavy, r, o);
    } else {
      PutThenDrop(s.light, r, o);
    }
    PutTwice(s.queues, r, WithHeadActive(QueueOf(s, r)), HeadDropped(s, r).queues[r]);
  }

  /** What one call of processQueue does: nothing, or it starts the head of the queue, or, when the
      state machine refuses the head, it throws the head away and reports an error. */
  lemma ProcessDoes(s: Sys, r: int)
    requires AgreesAt(s, r)
    ensures Process(s, r) ==
            if !Ready(s, r) then (Touch(s, r), true)
            else if Allowed(StateOf(s, r), TargetOf(HeadOf(s, r).operation), false) then
              (HeadStarted(Touch(s, r), r), true)
            else (HeadDropped(Touch(s, r), r), false)
  {
    var t := Touch(s, r);
    if Ready(s, r) {
      TouchTwice(s, r);
      StartHead(t, r);
      if !Allowed(StateOf(s, r), TargetOf(HeadOf(s, r).operation), false) {
        ProcessDrops(s, r);
      }
    }
  }

  lemma ProcessDrops(s: Sys, r: int)
    requires AgreesAt(s, r) && Ready(s, r)
    requires !Allowed(StateOf(s, r), TargetOf(HeadOf(s, r).operation), false)
    ensures Process(s, r) == (HeadDropped(Touch(s, r), r), false)
  {
    hide Start;
    hide Remove;
    hide HeadDropped;
    var t := Touch(s, r);
    TouchTwice(s, r);
    StartHead(t, r);
    HeadMovedOnlyAt(t, r);
    RemoveActive(HeadMoved(t, r), r);
    MovedThenFreed(t, r);
  }

  // ---------------------------------------------------------------- every step keeps the invariant

  lemma HeadLeaves(q: Queue)
    requires Consistent(q) && q.active.None? && q.waiting != []
    ensures Consistent(WithHeadActive(q))
    ensures Consistent(q.(waiting := q.waiting[1..], tables := Untrack(q.tables, q.waiting[0])))
  {
    HeadIndex(q);
    assert Activated(q, q.waiting[0].id) == Some(WithHeadActive(q));
    ActivatedIsConsistent(q, q.waiting[0].id);
    DropWaiting(q, 0);
  }

  lemma TouchKeeps(s: Sys, r: int)
    requires Inv(s)
    ensures Inv(Touch(s, r)) && OnlyAt(s, Touch(s, r), r)
  {
    assert AgreesAt(s, r);
    OnlyAtKeeps(s, Touch(s, r), r);
  }

  lemma OnlyAtJoins(s: Sys, t: Sys, u: Sys, r: int)
    requires OnlyAt(s, t, r) && OnlyAt(t, u, r)
    ensures OnlyAt(s, u, r)
  {
  }

  lemma StartedKeeps(s: Sys, r: int)
    requires Inv(s) && Ready(s, r)
    ensures Inv(HeadStarted(s, r)) && OnlyAt(s, HeadStarted(s, r), r)
  {
    var o, t, u := HeadOf(s, r), HeadMoved(s, r), HeadStarted(s, r);
    assert AgreesAt(s, r);
    HeadLeaves(QueueOf(s, r));
    HeadMovedOnlyAt(s, r);
    OnlyAtJoins(s, t, u, r);
    if WeightOf(o.operation).Heavy? {
      PutKey(s.heavy, r, o);
    }
    OnlyAtKeeps(s, u, r);
  }

  lemma DroppedKeeps(s: Sys, r: int)
    requires Inv(s) && Ready(s, r) && StateOf(s, r) != InQueue
    ensures Inv(HeadDropped(s, r)) && OnlyAt(s, HeadDropped(s, r), r)
  {
    assert AgreesAt(s, r);
    HeadLeaves(QueueOf(s, r));
    OnlyAtKeeps(s, HeadDropped(s, r), r);
  }

  lemma ProcessKeeps(s: Sys, r: int)
    requires Inv(s)
    ensures Inv(Process(s, r).0) && OnlyAt(s, Process(s, r).0, r)
  {
    var t := Touch(s, r);
    assert AgreesAt(s, r);
    ProcessDoes(s, r);
    TouchKeeps(s, r);
    if Ready(s, r) {
      if Allowed(StateOf(s, r), TargetOf(HeadOf(s, r).operation), false) {
        StartedKeeps(t, r);
      } else {
        DroppedKeeps(t, r);
      }
      OnlyAtJoins(s, t, Process(s, r).0, r);
    }
  }

  lemma {:induction false} ProcessAllKeeps(s: Sys, r: int, others: seq<int>)
    requires Inv(s)
    ensures Inv(ProcessAll(s, r, others).0) && ProcessAll(s, r, others).0.maxHeavy == s.maxHeavy
    decreases |others|
  {
    if others != [] {
      ProcessKeeps(s, others[0]);
      var (s', ok) := Process(s, others[0]);
      if others[0] == r {
        ProcessAllKeeps(s, r, others[1..]);
      } else if ok {
        ProcessAllKeeps(s', r, others[1..]);
      }
    }
  }

  lemma SettleKeeps(s: Sys, r: int)
    requires forall k :: k != r ==> AgreesAt(s, k)
    requires |s.heavy| <= s.maxHeavy
    requires AgreesAt(s, r) || (QueueOf(s, r).active.None? && QueueOf(s, r).waiting == [] && StateOf(s, r) == InQueue
                                && AgreesAt(PutState(s, r, Idle), r))
    ensures Inv(Settle(s, r))
  {
    var u := Settle(s, r);
    forall k ensures AgreesAt(u, k) {
      if k != r {
        assert AgreesAt(s, k);
        assert StateOf(u, k) == StateOf(s, k);
      }
    }
  }

  lemma RemoveWaiting(s: Sys, r: int, id: string)
    requires Inv(s)
    requires QueueOf(s, r).active.Some? ==> QueueOf(s, r).active.value.id != id
    ensures var rest := Removed(QueueOf(s, r), id);
            Remove(s, r, id) == if rest.None? then Touch(s, r) else Settle(PutQueue(Touch(s, r), r, rest.value), r)
    ensures Inv(Remove(s, r, id)) && Remove(s, r, id).maxHeavy == s.maxHeavy
  {
    var t, q := Touch(s, r), QueueOf(s, r);
    assert AgreesAt(s, r);
    TouchKeeps(s, r);
    var rest := Removed(q, id);
    if rest.Some? {
      RemovedIsConsistent(q, id);
      var u := PutQueue(t, r, rest.value);
      forall k | k != r ensures AgreesAt(u, k) {
        assert AgreesAt(t, k);
        assert QueueOf(u, k) == QueueOf(t, k);
      }
      SettleKeeps(u, r);
    }
  }

  /** The system once `o` has been put into queue `r` (or recognised as a duplicate). */
  function Enqueued(s: Sys, r: int, o: Op): Sys {
    PutQueue(Touch(s, r), r, Added(QueueOf(s, r), o))
  }

  lemma EnqueuedKeeps(s: Sys, r: int, o: Op)
    requires Inv(s)
    requires forall p :: p in Held(QueueOf(s, r)) ==> p.id != o.id
    ensures Inv(Enqueued(s, r, o)) && OnlyAt(s, Enqueued(s, r, o), r)
  {
    assert AgreesAt(s, r);
    AddedIsConsistent(QueueOf(s, r), o);
    OnlyAtKeeps(s, Enqueued(s, r, o), r);
  }

  lemma AddKeeps(s: Sys, r: int, o: Op)
    requires Inv(s)
    requires forall p :: p in Held(QueueOf(s, r)) ==> p.id != o.id
    ensures Inv(Add(s, r, o).0) && Add(s, r, o).0.maxHeavy == s.maxHeavy
  {
    TouchKeeps(s, r);
    EnqueuedKeeps(s, r, o);
    ProcessKeeps(Enqueued(s, r, o), r);
    ShowQueuedKeeps(Process(Enqueued(s, r, o), r).0, r);
  }

  lemma ShowQueuedKeeps(s: Sys, r: int)
    requires Inv(s)
    ensures Inv(ShowQueued(s, r)) && OnlyAt(s, ShowQueued(s, r), r)
  {
    assert AgreesAt(s, r);
    OnlyAtKeeps(s, ShowQueued(s, r), r);
  }

  /** The system right after the active operation of `r` ended and the state `target` was entered. */
  function Ended(s: Sys, r: int, target: State): Sys
    requires QueueOf(s, r).active.Some?
  {
    var q := QueueOf(s, r);
    PutState(PutQueue(Release(s, r, q.active.value), r, Finished(q).value), r, target)
  }

  function CompletionTarget(s: Sys, r: int, enterError: bool): State
    requires QueueOf(s, r).active.Some?
  {
    if enterError then Error
    else CompletionState(Finished(QueueOf(s, r)).value, QueueOf(s, r).active.value.operation)
  }

  lemma EndedOnlyAt(s: Sys, r: int, target: State)
    requires QueueOf(s, r).active.Some?
    ensures OnlyAt(s, Ended(s, r, target), r)
  {
  }

  lemma EndedKeeps(s: Sys, r: int, enterError: bool)
    requires Inv(s) && QueueOf(s, r).active.Some?
    ensures var u := Ended(s, r, CompletionTarget(s, r, enterError)); Inv(u) && OnlyAt(s, u, r)
  {
    var q, u := QueueOf(s, r), Ended(s, r, CompletionTarget(s, r, enterError));
    assert AgreesAt(s, r);
    DropActive(q);
    assert QueueOf(u, r) == Finished(q).value;
    assert AgreesAt(u, r);
    DropKey(s.heavy, r);
    EndedOnlyAt(s, r, CompletionTarget(s, r, enterError));
    OnlyAtKeeps(s, u, r);
  }

  /** Ending the active operation is never refused by the state machine: whatever ran, whatever the
      outcome and whatever waits, the next state is reachable and processing goes on. */
  lemma CompletionIsAllowed(s: Sys, r: int, id: string, enterError: bool, others: seq<int>)
    requires Inv(s) && QueueOf(s, r).active.Some? && QueueOf(s, r).active.value.id == id
    ensures Complete(s, r, id, enterError, others) ==
            var heavy := WeightOf(QueueOf(s, r).active.value.operation).Heavy?;
            var (u, ok) := Process(Ended(Touch(s, r), r, CompletionTarget(s, r, enterError)), r);
            if ok && heavy then ProcessAll(u, r, others) else (u, ok)
  {
    hide Process;
    hide ProcessAll;
    hide Consistent;
    assert AgreesAt(s, r);
  }

  lemma CompleteKeeps(s: Sys, r: int, id: string, enterError: bool, others: seq<int>)
    requires Inv(s)
    ensures Inv(Complete(s, r, id, enterError, others).0)
    ensures Complete(s, r, id, enterError, others).0.maxHeavy == s.maxHeavy
  {
    var t, q := Touch(s, r), QueueOf(s, r);
    TouchKeeps(s, r);
    if q.active.Some? && q.active.value.id == id {
      CompletionIsAllowed(s, r, id, enterError, others);
      EndedKeeps(t, r, enterError);
      var u := Ended(t, r, CompletionTarget(s, r, enterError));
      ProcessKeeps(u, r);
      ProcessAllKeeps(Process(u, r).0, r, others);
    }
  }

  lemma CancelKeeps(s: Sys, r: int, id: string, others: seq<int>)
    requires Inv(s)
    ensures Inv(Cancel(s, r, id, others).0) && Cancel(s, r, id, others).0.maxHeavy == s.maxHeavy
  {
    var t, q := Touch(s, r), QueueOf(s, r);
    TouchKeeps(s, r);
    if q.active.Some? && q.active.value.id == id {
      CompleteKeeps(t, r, id, false, others);
    } else {
      RemoveWaiting(t, r, id);
    }
  }

  // ---------------------------------------------------------------- whole runs

  datatype Event =
    | AddEvent(repo: int, op: Op)
    | FinishEvent(repo: int, op: Op, enterError: bool, others: seq<int>)
    | CancelEvent(repo: int, id: string, others: seq<int>)
    | ClearErrorEvent(repo: int)
    | RestoreMountEvent(repo: int)

  /** New operations carry a new identifier; what finishes has been launched; mounts found at startup are
      restored before any operation is queued; an error is cleared only in the error state. */
  ghost predicate Enabled(s: Sys, e: Event) {
    match e
    case AddEvent(r, o) =>
      && (forall p :: p in Held(QueueOf(s, r)) ==> p.id != o.id)
      && (forall p :: (r, p) in s.running ==> p.id != o.id)
    case FinishEvent(r, o, _, _) => (r, o) in s.running
    case ClearErrorEvent(r) => StateOf(s, r) == Error
    case RestoreMountEvent(r) => QueueOf(s, r) == EMPTY_QUEUE
    case _ => true
  }

  function Step(s: Sys, e: Event): Sys {
    match e
    case AddEvent(r, o) => Add(s, r, o).0
    case FinishEvent(r, o, enterError, others) => Finish(s, r, o, enterError, others).0
    case CancelEvent(r, id, others) => Cancel(s, r, id, others).0
    case ClearErrorEvent(r) => PutState(s, r, Idle)
    case RestoreMountEvent(r) => PutState(s, r, Mounted)
  }

  ghost predicate IsRun(s: Sys, events: seq<Event>)
    decreases |events|
  {
    events != [] ==> Enabled(s, events[0]) && IsRun(Step(s, events[0]), events[1..])
  }

  function After(s: Sys, events: seq<Event>): Sys
    decreases |events|
  {
    if events == [] then s else After(Step(s, events[0]), events[1..])
  }

  function Initial(maxHeavy: nat): Sys {
    Sys(map[], map[], map[], map[], {}, maxHeavy)
  }

  lemma EndsKeeps(s: Sys, r: int, o: Op)
    requires Inv(s)
    ensures Inv(Ends(s, r, o))
  {
    forall k ensures AgreesAt(Ends(s, r, o), k) {
      assert AgreesAt(s, k);
    }
  }

  lemma StepKeeps(s: Sys, e: Event)
    requires Inv(s) && Enabled(s, e)
    ensures Inv(Step(s, e)) && Step(s, e).maxHeavy == s.maxHeavy
  {
    match e
    case AddEvent(r, o) => AddKeeps(s, r, o);
    case FinishEvent(r, o, enterError, others) =>
      EndsKeeps(s, r, o);
      CompleteKeeps(Ends(s, r, o), r, o.id, enterError, others);
    case CancelEvent(r, id, others) => CancelKeeps(s, r, id, others);
    case ClearErrorEvent(r) =>
      assert AgreesAt(s, r);
      OnlyAtKeeps(s, PutState(s, r, Idle), r);
    case RestoreMountEvent(r) =>
      assert AgreesAt(s, r);
      OnlyAtKeeps(s, PutState(s, r, Mounted), r);
  }

  lemma {:induction false} RunKeeps(s: Sys, events: seq<Event>)
    requires Inv(s) && IsRun(s, events)
    ensures Inv(After(s, events)) && After(s, events).maxHeavy == s.maxHeavy
    decreases |events|
  {
    if events != [] {
      StepKeeps(s, events[0]);
      RunKeeps(Step(s, events[0]), events[1..]);
    }
  }
}
