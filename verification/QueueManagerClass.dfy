/** The queue manager object (backend/app/repository/queue_manager.go), proved to do what the
    functions of QueueManagers say.  Lock sections are taken to run one after the other here; what
    their interleaving does is the subject of StartRace. */
module QueueManagerObjects {
  import opened Prelude
  import opened RepositoryQueues
  import opened QueueManagers

  class QueueManager {
    ghost var Repr: set<object>
    ghost var view: Sys  // what the fields below stand for
    var queues: map<int, RepositoryQueue>
    var repositoryStates: map<int, State>
    var activeHeavy: map<int, QueuedOperation>
    var activeLight: map<int, QueuedOperation>
    const maxHeavyOps: nat

    ghost predicate Valid()
      reads this, Repr
      ensures Valid() ==> this in Repr
    {
      && this in Repr && queues.Values <= Repr
      && (forall r :: r in queues ==> QueueValid(queues[r], Repr))
      && (forall r, k :: r in queues && k in queues && r != k ==> queues[r] != queues[k])
      && Shows()
    }

    static ghost predicate QueueValid(q: RepositoryQueue, repr: set<object>)
      reads q
    {
      && q in repr && q.Linked()
      && q.operations.Values <= repr
      && (q.active != null ==> q.active in repr)
    }

    ghost predicate Shows()
      requires forall r :: r in queues ==> queues[r].Linked()
      reads this, queues.Values
    {
      && view.queues.Keys == queues.Keys
      && (forall r :: r in queues ==> view.queues[r] == queues[r].View())
      && view.states == repositoryStates
      && ShowsActive(view.heavy, activeHeavy)
      && ShowsActive(view.light, activeLight)
      && view.maxHeavy == maxHeavyOps
    }

    static predicate ShowsActive(ops: map<int, Op>, active: map<int, QueuedOperation>) {
      && ops.Keys == active.Keys
      && forall r :: r in active ==> ops[r] == active[r].op
    }

    constructor (maxHeavyOps: nat)
      ensures Valid() && fresh(Repr) && view == Initial(maxHeavyOps)
    {
      Repr, view := {this}, Initial(maxHeavyOps);
      queues, repositoryStates := map[], map[];
      activeHeavy, activeLight := map[], map[];
      this.maxHeavyOps := maxHeavyOps;
    }

    // ---------------------------------------------------------------- one field at a time

    method GetQueue(r: int)
      requires Valid()
      modifies this
      ensures Valid() && fresh(Repr - old(Repr))
      ensures view == Touch(old(view), r) && r in queues
    {
      hide RepositoryQueue.Linked;
      hide RepositoryQueue.View;
      if r !in queues {
        var q := new RepositoryQueue();
        queues := queues[r := q];
        Repr := Repr + {q};
      }
      view := Touch(view, r);
    }

    method CanStartOperation(r: int, o: Op) returns (can: bool)
      requires Valid()
      ensures can == CanStart(view, r, o)
    {
      if r in activeHeavy || r in activeLight {
        return false;
      }
      if WeightOf(o.operation).Heavy? {
        assert |view.heavy| == |view.heavy.Keys| && |activeHeavy| == |activeHeavy.Keys|;
        return |activeHeavy| < maxHeavyOps;
      }
      return true;
    }

    method SetActive(r: int, o: QueuedOperation)
      requires Valid()
      modifies this`activeHeavy, this`activeLight, this`view
      ensures Valid() && view == Occupy(old(view), r, o.op)
    {
      hide RepositoryQueue.Linked;
      hide RepositoryQueue.View;
      if WeightOf(o.op.operation).Heavy? {
        activeHeavy := activeHeavy[r := o];
      } else {
        activeLight := activeLight[r := o];
      }
      view := Occupy(view, r, o.op);
    }

    method ClearActive(r: int, o: Op)
      requires Valid()
      modifies this`activeHeavy, this`activeLight, this`view
      ensures Valid() && view == Release(old(view), r, o)
    {
      hide RepositoryQueue.Linked;
      hide RepositoryQueue.View;
      if WeightOf(o.operation).Heavy? {
        activeHeavy := activeHeavy - {r};
      } else {
        activeLight := activeLight - {r};
      }
      view := Release(view, r, o);
    }

    method SetRepositoryState(r: int, t: State)
      requires Valid()
      modifies this`repositoryStates, this`view
      ensures Valid() && view == PutState(old(view), r, t)
    {
      repositoryStates := repositoryStates[r := t];
      view := PutState(view, r, t);
    }

    method GetRepositoryState(r: int) returns (t: State)
      requires Valid()
      ensures t == StateOf(view, r)
    {
      t := if r in repositoryStates then repositoryStates[r] else Idle;
    }

    // ---------------------------------------------------------------- one queue at a time

    /** Brings the view up to date after the queue of `r` has changed. */
    ghost method ShowQueue(r: int)
      requires r in queues && this in Repr && queues.Values <= Repr
      requires forall k :: k in queues ==> QueueValid(queues[k], Repr)
      requires forall k, l :: k in queues && l in queues && k != l ==> queues[k] != queues[l]
      requires view.queues.Keys == queues.Keys
      requires forall k :: k in queues && k != r ==> QueueValid(queues[k], Repr) && view.queues[k] == queues[k].View()
      requires view.states == repositoryStates && view.maxHeavy == maxHeavyOps
      requires ShowsActive(view.heavy, activeHeavy) && ShowsActive(view.light, activeLight)
      modifies this`view
      ensures Valid() && view == PutQueue(old(view), r, queues[r].View())
    {
      hide RepositoryQueue.Linked;
      hide RepositoryQueue.View;
      view := PutQueue(view, r, queues[r].View());
    }

    method FindOperation(r: int, id: string) returns (o: QueuedOperation?)
      requires Valid() && r in queues
      ensures ById(QueueOf(view, r), id) == if o == null then None else Some(o.op)
    {
      o := queues[r].GetOperationByID(id);
    }

    method MoveToActive(r: int, id: string) returns (found: bool)
      requires Valid() && r in queues
      modifies Repr
      ensures Valid() && Repr == old(Repr) && queues == old(queues)
      ensures var moved := Activated(QueueOf(old(view), r), id);
              found == moved.Some? && view == if found then PutQueue(old(view), r, moved.value) else old(view)
    {
      hide RepositoryQueue.Linked;
      hide RepositoryQueue.View;
      hide Activated;
      found := queues[r].MoveToActive(id);
      if found {
        ShowQueue(r);
      }
    }

    method RemoveFromQueue(r: int, id: string) returns (found: bool)
      requires Valid() && r in queues
      modifies Repr
      ensures Valid() && Repr == old(Repr) && queues == old(queues)
      ensures var rest := Removed(QueueOf(old(view), r), id);
              found == rest.Some? && view == if found then PutQueue(old(view), r, rest.value) else old(view)
    {
      hide RepositoryQueue.Linked;
      hide RepositoryQueue.View;
      hide Removed;
      found := queues[r].RemoveOperation(id);
      if found {
        ShowQueue(r);
      }
    }

    method CompleteActive(r: int, errorMsg: string) returns (ok: bool)
      requires Valid() && r in queues
      modifies Repr
      ensures Valid() && Repr == old(Repr) && queues == old(queues)
      ensures var rest := Finished(QueueOf(old(view), r));
              ok == rest.Some? && view == if ok then PutQueue(old(view), r, rest.value) else old(view)
    {
      hide RepositoryQueue.Linked;
      hide RepositoryQueue.View;
      hide Finished;
      ok := queues[r].CompleteActive(errorMsg);
      if ok {
        ShowQueue(r);
      }
    }

    method AddToQueue(r: int, o: QueuedOperation) returns (id: string)
      requires Valid() && r in queues && forall p :: p in Held(QueueOf(view, r)) ==> p.id != o.op.id
      modifies Repr, o
      ensures Valid() && Repr == old(Repr) + {o} && queues == old(queues)
      ensures view == PutQueue(old(view), r, Added(QueueOf(old(view), r), o.op))
      ensures var dup := Duplicate(QueueOf(old(view), r), o.op.operation);
              id == if dup.Some? then dup.value else o.op.id
    {
      hide Valid;
      NotWaiting(r, o.op.id);
      Adopt(o);
      id := Enqueue(r, o);
    }

    method Enqueue(r: int, o: QueuedOperation) returns (id: string)
      requires Valid() && r in queues && o in Repr && o.op.id !in queues[r].operations
      modifies Repr
      ensures Valid() && Repr == old(Repr) && queues == old(queues)
      ensures view == PutQueue(old(view), r, Added(QueueOf(old(view), r), o.op))
      ensures var dup := Duplicate(QueueOf(old(view), r), o.op.operation);
              id == if dup.Some? then dup.value else o.op.id
    {
      hide RepositoryQueue.Linked;
      hide RepositoryQueue.View;
      hide Added;
      hide Duplicate;
      id := queues[r].AddOperation(o);
      ShowQueue(r);
    }

    /** The new operation becomes part of the manager's footprint. */
    ghost method Adopt(o: QueuedOperation)
      requires Valid()
      modifies this`Repr
      ensures Valid() && Repr == old(Repr) + {o} && view == old(view) && queues == old(queues)
    {
      hide RepositoryQueue.Linked;
      hide RepositoryQueue.View;
      Repr := Repr + {o};
    }

    lemma NotWaiting(r: int, id: string)
      requires Valid() && r in queues && forall p :: p in Held(QueueOf(view, r)) ==> p.id != id
      ensures id !in queues[r].operations
    {
      var q := queues[r];
      assert forall i :: 0 <= i < |q.operationList| ==> q.View().waiting[i] in Held(QueueOf(view, r));
    }

    method GetNext(r: int) returns (next: QueuedOperation?)
      requires Valid() && r in queues
      ensures next == null <==> QueueOf(view, r).waiting == []
      ensures next != null ==> next.op == HeadOf(view, r)
    {
      next := queues[r].GetNext();
    }

    method HasActiveOperation(r: int) returns (b: bool)
      requires Valid() && r in queues
      ensures b == QueueOf(view, r).active.Some?
    {
      b := queues[r].active != null;
    }

    method GetQueueLength(r: int) returns (n: nat)
      requires Valid() && r in queues
      ensures n == |QueueOf(view, r).waiting|
    {
      n := |queues[r].operationList|;
    }

    // ---------------------------------------------------------------- the operations

    method StartOperation(r: int, id: string) returns (ok: bool)
      requires Valid()
      modifies Repr
      ensures Valid() && fresh(Repr - old(Repr))
      ensures (view, ok) == Start(old(view), r, id) && r in queues
    {
      hide Valid;
      GetQueue(r);
      var o := FindOperation(r, id);
      if o == null {
        return false;
      }
      var can := CanStartOperation(r, o.op);
      if !can {
        return false;
      }
      var moved := MoveToActive(r, id);
      if !moved {
        return false;
      }
      SetActive(r, o);
      var current := GetRepositoryState(r);
      var target := TargetOf(o.op.operation);
      var length := GetQueueLength(r);
      if !Allowed(current, target, length > 0) {
        return false;
      }
      SetRepositoryState(r, target);
      LaunchGoroutine(r, o.op);
      return true;
    }

    /** The goroutine that executes the operation; it is not stored in any field. */
    ghost method LaunchGoroutine(r: int, o: Op)
      requires Valid()
      modifies this`view
      ensures Valid() && view == Launch(old(view), r, o)
    {
      view := Launch(view, r, o);
    }

    method RemoveOperation(r: int, id: string)
      requires Valid()
      modifies Repr
      ensures Valid() && fresh(Repr - old(Repr))
      ensures view == Remove(old(view), r, id) && r in queues
    {
      hide Valid;
      GetQueue(r);
      var o := FindOperation(r, id);
      if o == null {
        return;
      }
      var isActive := IsActive(r, id);
      if isActive {
        ClearActive(r, o.op);
      }
      var found := RemoveFromQueue(r, id);
      if !found {
        return;
      }
      var busy := HasActiveOperation(r);
      var length := GetQueueLength(r);
      var current := GetRepositoryState(r);
      if !busy && length == 0 && current == InQueue {
        SetRepositoryState(r, Idle);
      }
    }

    method IsActive(r: int, id: string) returns (b: bool)
      requires Valid() && r in queues
      ensures b == (QueueOf(view, r).active.Some? && QueueOf(view, r).active.value.id == id)
    {
      b := queues[r].active != null && queues[r].active.op.id == id;
    }

    method ProcessQueue(r: int) returns (ok: bool)
      requires Valid()
      modifies Repr
      ensures Valid() && fresh(Repr - old(Repr))
      ensures (view, ok) == Process(old(view), r) && r in queues
    {
      hide Valid;
      hide Start;
      hide Remove;
      GetQueue(r);
      var busy := HasActiveOperation(r);
      if busy {
        return true;
      }
      var next := GetNext(r);
      if next == null {
        return true;
      }
      var can := CanStartOperation(r, next.op);
      if !can {
        return true;
      }
      ok := StartOperation(r, next.op.id);
      if !ok {
        RemoveOperation(r, next.op.id);
      }
    }

    /** A fresh operation identifier is required: the code draws it as a random UUID. */
    method AddOperation(r: int, o: QueuedOperation) returns (result: AddResult)
      requires Valid() && forall p :: p in Held(QueueOf(view, r)) ==> p.id != o.op.id
      modifies Repr, o
      ensures Valid() && fresh(Repr - old(Repr) - {o})
      ensures (view, result) == Add(old(view), r, o.op)
    {
      hide Valid;
      hide Process;
      GetQueue(r);
      if o.op.immediate {
        var busy := HasActiveOperation(r);
        if busy {
          return Refused;
        }
        var length := GetQueueLength(r);
        if WeightOf(o.op.operation).Heavy? && length > 0 {
          return Refused;
        }
        var can := CanStartOperation(r, o.op);
        if !can {
          return Refused;
        }
      }
      var id := AddToQueue(r, o);
      var ok := ProcessQueue(r);
      if !ok {
        return StartFailed(id);
      }
      ShowAsQueued(r);
      return Accepted(id);
    }

    method ShowAsQueued(r: int)
      requires Valid() && r in queues
      modifies this`repositoryStates, this`view
      ensures Valid() && view == ShowQueued(old(view), r)
    {
      hide Valid;
      var busy := HasActiveOperation(r);
      var next := GetNext(r);
      if busy || next == null {
        return;
      }
      var current := GetRepositoryState(r);
      if current != InQueue && WeightOf(next.op.operation).Heavy? && Allowed(current, InQueue, true) {
        SetRepositoryState(r, InQueue);
      }
    }

    /** `others` is the order in which the language runtime ranges over the map of queues. */
    method CompleteOperation(r: int, id: string, enterError: bool, errorMsg: string, others: seq<int>) returns (ok: bool)
      requires Valid()
      modifies Repr
      ensures Valid() && fresh(Repr - old(Repr))
      ensures (view, ok) == Complete(old(view), r, id, enterError, others)
    {
      hide Valid;
      hide ProcessAll;
      hide Allowed;
      hide Process;
      GetQueue(r);
      var isActive := IsActive(r, id);
      if !isActive {
        return false;
      }
      var o := FindOperation(r, id);
      ClearActive(r, o.op);
      var completed := CompleteActive(r, errorMsg);
      var current := GetRepositoryState(r);
      var length := GetQueueLength(r);
      var target :=
        if enterError then Error
        else if length > 0 then InQueue
        else if o.op.operation.Mount? || o.op.operation.MountArchive? then Mounted
        else Idle;
      if current != target && !Allowed(current, target, length > 0) {
        return false;
      }
      SetRepositoryState(r, target);
      ok := ProcessQueue(r);
      if ok && WeightOf(o.op.operation).Heavy? {
        ok := ProcessOthers(r, others);
      }
    }

    method ProcessOthers(r: int, others: seq<int>) returns (ok: bool)
      requires Valid()
      modifies Repr
      ensures Valid() && fresh(Repr - old(Repr))
      ensures (view, ok) == ProcessAll(old(view), r, others)
    {
      hide Valid;
      hide Process;
      var i := 0;
      while i < |others|
        invariant 0 <= i <= |others|
        invariant Valid() && fresh(Repr - old(Repr))
        invariant ProcessAll(view, r, others[i..]) == ProcessAll(old(view), r, others)
      {
        if others[i] != r {
          ok := ProcessQueue(others[i]);
          if !ok {
            return false;
          }
        }
        assert others[i..][1..] == others[i + 1..];
        i := i + 1;
      }
      return true;
    }

    method CancelOperation(r: int, id: string, others: seq<int>) returns (ok: bool)
      requires Valid()
      modifies Repr
      ensures Valid() && fresh(Repr - old(Repr))
      ensures (view, ok) == Cancel(old(view), r, id, others)
    {
      hide Valid;
      hide Complete;
      hide Remove;
      GetQueue(r);
      var isActive := IsActive(r, id);
      if isActive {
        var current := GetRepositoryState(r);
        if Cancellable(current) {
          return true;
        }
        ok := CompleteOperation(r, id, false, "", others);
        return;
      }
      RemoveOperation(r, id);
      return true;
    }

    /** The end of the goroutine of an operation. */
    method FinishOperation(r: int, o: Op, enterError: bool, errorMsg: string, others: seq<int>) returns (ok: bool)
      requires Valid()
      modifies Repr
      ensures Valid() && fresh(Repr - old(Repr))
      ensures (view, ok) == Finish(old(view), r, o, enterError, others)
    {
      EndGoroutine(r, o);
      ok := CompleteOperation(r, o.id, enterError, errorMsg, others);
    }

    ghost method EndGoroutine(r: int, o: Op)
      requires Valid()
      modifies this`view
      ensures Valid() && view == Ends(old(view), r, o) && Repr == old(Repr)
    {
      view := Ends(view, r, o);
    }
  }
}
