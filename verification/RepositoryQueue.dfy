/** One repository's operation queue (backend/app/repository/repository_queue.go). */
module RepositoryQueues {
  import opened Prelude

  datatype BackupId = BackupId(backupProfileId: int, repositoryId: int)

  datatype Operation =
    | Backup(backupId: BackupId)
    | Prune(pruneId: BackupId)
    | Delete
    | ArchiveRefresh
    | ArchiveDelete(archiveId: int)
    | ArchiveRename(renamedId: int)
    | ArchiveComment(commentedId: int)
    | Mount
    | MountArchive(mountedId: int)
    | Unmount
    | UnmountArchive(unmountedId: int)
    | ExaminePrune(examinedId: BackupId)
    | Check

  /** The part of a queued operation that never changes once it is created. */
  datatype Op = Op(id: string, operation: Operation, validUntil: Option<int>, immediate: bool)

  datatype Status =
    | Queued(position: nat)
    | Running
    | Completed
    | Failed(error: string)
    | Expired(expiredAt: int)

  /** What deduplication compares: two operations with the same key are the same request. */
  datatype Key = BackupKey(backupId: BackupId) | ArchiveKey(archiveId: int) | RepositoryKey

  function KeyOf(operation: Operation): Option<Key> {
    match operation
    case Backup(b) => Some(BackupKey(b))
    case ArchiveDelete(a) => Some(ArchiveKey(a))
    case Delete => Some(RepositoryKey)
    case _ => None
  }

  // ---------------------------------------------------------------- specification

  /** The three deduplication tables the code keeps beside the list. */
  datatype Tables = Tables(backups: map<BackupId, string>, deletes: map<int, string>, repoDelete: bool)

  /** A queue as a value: the waiting operations in order, the active one, and the tables. */
  datatype Queue = Queue(waiting: seq<Op>, active: Option<Op>, tables: Tables)

  const EMPTY_QUEUE := Queue([], None, Tables(map[], map[], false))

  function Held(q: Queue): seq<Op> {
    q.waiting + (if q.active.Some? then [q.active.value] else [])
  }

  /** Some table entry stands for `k`. */
  predicate Tracks(t: Tables, k: Key) {
    match k
    case BackupKey(b) => b in t.backups
    case ArchiveKey(a) => a in t.deletes
    case RepositoryKey => t.repoDelete
  }

  /** A table entry stands for `k`, and where the table records an identifier it is `id`. */
  predicate TracksAs(t: Tables, k: Key, id: string) {
    match k
    case BackupKey(b) => b in t.backups && t.backups[b] == id
    case ArchiveKey(a) => a in t.deletes && t.deletes[a] == id
    case RepositoryKey => t.repoDelete
  }

  /** Two operations that one queue must not hold together. */
  predicate Clash(o: Op, p: Op) {
    o.id == p.id || (KeyOf(o.operation).Some? && KeyOf(o.operation) == KeyOf(p.operation))
  }

  ghost predicate Independent(ops: seq<Op>) {
    forall i, j :: 0 <= i < j < |ops| ==> !Clash(ops[i], ops[j])
  }

  /** The tables list exactly the operations of `ops` that have a key. */
  ghost predicate Matches(t: Tables, ops: seq<Op>) {
    && (forall o :: o in ops && KeyOf(o.operation).Some? ==> TracksAs(t, KeyOf(o.operation).value, o.id))
    && (forall k :: Tracks(t, k) ==> exists o :: o in ops && KeyOf(o.operation) == Some(k))
  }

  /** Identifiers are unique, no two held operations are the same request, and the tables list
      exactly the held operations that have a key. */
  ghost predicate Consistent(q: Queue) {
    Independent(Held(q)) && Matches(q.tables, Held(q))
  }

  function Track(t: Tables, o: Op): Tables {
    match o.operation
    case Backup(b) => t.(backups := t.backups[b := o.id])
    case ArchiveDelete(a) => t.(deletes := t.deletes[a := o.id])
    case Delete => t.(repoDelete := true)
    case _ => t
  }

  function Untrack(t: Tables, o: Op): Tables {
    match o.operation
    case Backup(b) => t.(backups := t.backups - {b})
    case ArchiveDelete(a) => t.(deletes := t.deletes - {a})
    case Delete => t.(repoDelete := false)
    case _ => t
  }

  function IndexOf(ops: seq<Op>, id: string): (r: Option<nat>)
    ensures r.Some? ==> r.value < |ops| && ops[r.value].id == id
    ensures r.Some? ==> forall k :: 0 <= k < r.value ==> ops[k].id != id
    ensures r.None? ==> forall k :: 0 <= k < |ops| ==> ops[k].id != id
  {
    if ops == [] then None
    else if ops[0].id == id then Some(0)
    else
      var rest := IndexOf(ops[1..], id);
      assert forall k :: 1 <= k < |ops| ==> ops[k] == ops[1..][k - 1];
      if rest.Some? then Some(rest.value + 1) else None
  }

  /** The identifier of the first repository deletion among `ops`. */
  function FirstDelete(ops: seq<Op>): (r: Option<string>)
    ensures r.Some? ==> exists o :: o in ops && o.operation == Delete && o.id == r.value
    ensures r.None? ==> forall o :: o in ops ==> o.operation != Delete
  {
    if ops == [] then None
    else if ops[0].operation == Delete then Some(ops[0].id)
    else FirstDelete(ops[1..])
  }

  /** The operation a request would duplicate (canAddOperationLocked). */
  function Duplicate(q: Queue, operation: Operation): Option<string> {
    match operation
    case Backup(b) => if b in q.tables.backups then Some(q.tables.backups[b]) else None
    case ArchiveDelete(a) => if a in q.tables.deletes then Some(q.tables.deletes[a]) else None
    case Delete =>
      if !q.tables.repoDelete then None
      else if FirstDelete(q.waiting).Some? then FirstDelete(q.waiting)
      else if q.active.Some? && q.active.value.operation == Delete then Some(q.active.value.id)
      else None
    case _ => None
  }

  function Added(q: Queue, o: Op): Queue {
    if Duplicate(q, o.operation).Some? then q
    else q.(waiting := q.waiting + [o], tables := Track(q.tables, o))
  }

  /** None stands for the "not found" error, which changes nothing. */
  function Removed(q: Queue, id: string): Option<Queue> {
    if q.active.Some? && q.active.value.id == id then
      Some(q.(active := None, tables := Untrack(q.tables, q.active.value)))
    else
      var i := IndexOf(q.waiting, id);
      if i.Some? then
        Some(q.(waiting := Without(q.waiting, i.value), tables := Untrack(q.tables, q.waiting[i.value])))
      else None
  }

  function ById(q: Queue, id: string): Option<Op> {
    if q.active.Some? && q.active.value.id == id then q.active
    else
      var i := IndexOf(q.waiting, id);
      if i.Some? then Some(q.waiting[i.value]) else None
  }

  function Activated(q: Queue, id: string): Option<Queue> {
    var i := IndexOf(q.waiting, id);
    if i.Some? then
      Some(q.(waiting := Without(q.waiting, i.value), active := Some(q.waiting[i.value])))
    else None
  }

  function Finished(q: Queue): Option<Queue> {
    if q.active.Some? then Some(q.(active := None, tables := Untrack(q.tables, q.active.value))) else None
  }

  predicate IsExpired(o: Op, now: int) {
    o.validUntil.Some? && o.validUntil.value < now
  }

  /** Expiry walks the list from its end; `n` operations are still to be looked at. */
  function ExpireFrom(q: Queue, now: int, n: nat): Queue
    requires n <= |q.waiting|
    decreases n
  {
    if n == 0 then q
    else if IsExpired(q.waiting[n - 1], now) then
      ExpireFrom(q.(waiting := Without(q.waiting, n - 1), tables := Untrack(q.tables, q.waiting[n - 1])), now, n - 1)
    else ExpireFrom(q, now, n - 1)
  }

  // ---------------------------------------------------------------- properties

  lemma ClashingAreEqual(ops: seq<Op>, o: Op, p: Op)
    requires Independent(ops) && o in ops && p in ops && Clash(o, p)
    ensures o == p
  {
    var i :| 0 <= i < |ops| && ops[i] == o;
    var j :| 0 <= j < |ops| && ops[j] == p;
  }

  lemma WithoutIsIndependent(ops: seq<Op>, i: nat)
    requires Independent(ops) && i < |ops|
    ensures Independent(Without(ops, i))
    ensures forall p :: p in Without(ops, i) <==> p in ops && p != ops[i]
  {
    var r := Without(ops, i);
    WithoutKeepsOrder(ops, i);
    forall p ensures p in r <==> p in ops && p != ops[i] {
      if p in ops && p != ops[i] {
        var k :| 0 <= k < |ops| && ops[k] == p;
        assert p == r[if k < i then k else k - 1];
      }
      if p in r {
        var k :| 0 <= k < |r| && r[k] == p;
        if k < i {
          assert !Clash(ops[k], ops[i]);
        } else {
          assert !Clash(ops[i], ops[k + 1]);
        }
      }
    }
  }

  lemma InsertIsIndependent(ops: seq<Op>, i: nat, o: Op)
    requires Independent(ops) && i <= |ops|
    requires forall p :: p in ops ==> !Clash(p, o)
    ensures Independent(ops[..i] + [o] + ops[i..])
    ensures forall p :: p in ops[..i] + [o] + ops[i..] <==> p in ops || p == o
  {
    var r := ops[..i] + [o] + ops[i..];
    assert ops == ops[..i] + ops[i..];
    hide Clash;
    forall a, b | 0 <= a < b < |r| ensures !Clash(r[a], r[b]) {
      PairIsIndependent(ops, i, o, a, b);
    }
  }

  lemma InsertedAt(ops: seq<Op>, i: nat, o: Op, k: nat)
    requires i <= |ops| && k <= |ops|
    ensures (ops[..i] + [o] + ops[i..])[k] == if k < i then ops[k] else if k == i then o else ops[k - 1]
  {
  }

  lemma PairIsIndependent(ops: seq<Op>, i: nat, o: Op, a: nat, b: nat)
    requires Independent(ops) && i <= |ops| && a < b <= |ops|
    requires forall p :: p in ops ==> !Clash(p, o)
    ensures var r := ops[..i] + [o] + ops[i..]; !Clash(r[a], r[b])
  {
    InsertedAt(ops, i, o, a);
    InsertedAt(ops, i, o, b);
    if a == i {
      ClashIsMutual(ops[b - 1], o);
    } else if b != i {
      assert !Clash(ops[if a < i then a else a - 1], ops[if b < i then b else b - 1]);
    }
  }

  lemma ClashIsMutual(p: Op, o: Op)
    ensures Clash(p, o) <==> Clash(o, p)
  {
  }

  lemma TrackMatches(t: Tables, ops: seq<Op>, o: Op, more: seq<Op>)
    requires Matches(t, ops)
    requires forall p :: p in ops ==> !Clash(p, o)
    requires forall p :: p in more <==> p in ops || p == o
    ensures Matches(Track(t, o), more)
  {
    var u := Track(t, o);
    forall p | p in more && KeyOf(p.operation).Some? ensures TracksAs(u, KeyOf(p.operation).value, p.id) {
      if p != o {
        TrackKeepsOthers(t, o, KeyOf(p.operation).value);
      }
    }
    forall k | Tracks(u, k) ensures exists p :: p in more && KeyOf(p.operation) == Some(k) {
      if KeyOf(o.operation) == Some(k) {
        assert o in more;
      } else {
        TrackKeepsOthers(t, o, k);
        var p :| p in ops && KeyOf(p.operation) == Some(k);
        assert p in more;
      }
    }
  }

  /** Entering an operation changes the entry of its own key only. */
  lemma TrackKeepsOthers(t: Tables, o: Op, k: Key)
    requires KeyOf(o.operation) != Some(k)
    ensures Tracks(Track(t, o), k) <==> Tracks(t, k)
    ensures forall id :: TracksAs(t, k, id) ==> TracksAs(Track(t, o), k, id)
  {
  }

  lemma UntrackMatches(t: Tables, ops: seq<Op>, o: Op, fewer: seq<Op>)
    requires Matches(t, ops) && o in ops && Independent(ops)
    requires forall p :: p in fewer <==> p in ops && p != o
    ensures Matches(Untrack(t, o), fewer)
  {
    var u := Untrack(t, o);
    forall p | p in fewer && KeyOf(p.operation).Some?
      ensures TracksAs(u, KeyOf(p.operation).value, p.id)
    {
      assert TracksAs(t, KeyOf(p.operation).value, p.id);
      if KeyOf(p.operation) == KeyOf(o.operation) {
        ClashingAreEqual(ops, o, p);
      }
    }
    forall k | Tracks(u, k) ensures exists p :: p in fewer && KeyOf(p.operation) == Some(k) {
      assert Tracks(t, k);
      var p :| p in ops && KeyOf(p.operation) == Some(k);
      assert KeyOf(o.operation) != Some(k);
    }
  }

  lemma DeleteIsFound(q: Queue, o: Op)
    requires Consistent(q) && o in Held(q) && o.operation == Delete
    ensures Duplicate(q, Delete) == Some(o.id)
  {
    assert TracksAs(q.tables, RepositoryKey, o.id);
    if FirstDelete(q.waiting).Some? {
      var p :| p in q.waiting && p.operation == Delete && p.id == FirstDelete(q.waiting).value;
      ClashingAreEqual(Held(q), o, p);
    } else {
      assert o !in q.waiting;
    }
  }

  /** Deduplication is exact: a request is turned away with identifier `id` precisely when the
      held operation with that identifier is the same request. */
  lemma DuplicateIsHeld(q: Queue, operation: Operation, id: string)
    requires Consistent(q)
    ensures Duplicate(q, operation) == Some(id) <==>
            exists o :: o in Held(q) && o.id == id && KeyOf(operation).Some? && KeyOf(o.operation) == KeyOf(operation)
  {
    if Duplicate(q, operation) == Some(id) {
      var k := KeyOf(operation).value;
      assert Tracks(q.tables, k);
      var o :| o in Held(q) && KeyOf(o.operation) == Some(k);
      assert TracksAs(q.tables, k, o.id);
      if operation == Delete {
        DeleteIsFound(q, o);
      }
    }
    if o :| o in Held(q) && o.id == id && KeyOf(operation).Some? && KeyOf(o.operation) == KeyOf(operation) {
      assert TracksAs(q.tables, KeyOf(o.operation).value, o.id);
      if operation == Delete {
        DeleteIsFound(q, o);
      }
    }
  }

  lemma AddedIsConsistent(q: Queue, o: Op)
    requires Consistent(q)
    requires forall p :: p in Held(q) ==> p.id != o.id
    ensures Consistent(Added(q, o))
    ensures forall p :: p in Held(Added(q, o)) <==> p in Held(q) || (p == o && Duplicate(q, o.operation).None?)
  {
    if Duplicate(q, o.operation).None? {
      var r, held, n := Added(q, o), Held(q), |q.waiting|;
      assert Held(r) == held[..n] + [o] + held[n..];
      forall p | p in held ensures !Clash(p, o) {
        DuplicateIsHeld(q, o.operation, p.id);
      }
      InsertIsIndependent(held, n, o);
      TrackMatches(q.tables, held, o, Held(r));
    }
  }

  /** Dropping the held operation at index `i` together with its table entry keeps the queue
      consistent. */
  lemma DropIsConsistent(q: Queue, r: Queue, i: nat)
    requires Consistent(q) && i < |Held(q)|
    requires Held(r) == Without(Held(q), i) && r.tables == Untrack(q.tables, Held(q)[i])
    ensures Consistent(r)
    ensures forall p :: p in Held(r) <==> p in Held(q) && p != Held(q)[i]
  {
    WithoutIsIndependent(Held(q), i);
    UntrackMatches(q.tables, Held(q), Held(q)[i], Held(r));
  }

  lemma DropWaiting(q: Queue, i: nat)
    requires Consistent(q) && i < |q.waiting|
    ensures var r := q.(waiting := Without(q.waiting, i), tables := Untrack(q.tables, q.waiting[i]));
            Consistent(r) && forall p :: p in Held(r) <==> p in Held(q) && p != q.waiting[i]
  {
    var r := q.(waiting := Without(q.waiting, i), tables := Untrack(q.tables, q.waiting[i]));
    assert Held(r) == Without(Held(q), i);
    DropIsConsistent(q, r, i);
  }

  lemma DropActive(q: Queue)
    requires Consistent(q) && q.active.Some?
    ensures var r := q.(active := None, tables := Untrack(q.tables, q.active.value));
            Consistent(r) && forall p :: p in Held(r) <==> p in Held(q) && p != q.active.value
  {
    var r := q.(active := None, tables := Untrack(q.tables, q.active.value));
    assert Held(r) == Without(Held(q), |q.waiting|);
    DropIsConsistent(q, r, |q.waiting|);
  }

  /** Removal succeeds exactly for a held identifier and removes that operation and no other. */
  lemma RemovedIsConsistent(q: Queue, id: string)
    requires Consistent(q)
    ensures Removed(q, id).Some? <==> exists o :: o in Held(q) && o.id == id
    ensures Removed(q, id).Some? ==>
              && Consistent(Removed(q, id).value)
              && forall o :: o in Held(Removed(q, id).value) <==> o in Held(q) && o.id != id
  {
    if Removed(q, id).Some? {
      var o;
      if q.active.Some? && q.active.value.id == id {
        DropActive(q);
        o := q.active.value;
      } else {
        DropWaiting(q, IndexOf(q.waiting, id).value);
        o := q.waiting[IndexOf(q.waiting, id).value];
      }
      forall p | p in Held(q) && p.id == id ensures p == o {
        ClashingAreEqual(Held(q), o, p);
      }
    }
  }

  /** Starting an operation moves it and loses nothing, when the queue has no active operation. */
  lemma ActivatedIsConsistent(q: Queue, id: string)
    requires Consistent(q) && q.active.None? && Activated(q, id).Some?
    ensures Consistent(Activated(q, id).value)
    ensures forall p :: p in Held(Activated(q, id).value) <==> p in Held(q)
  {
    var r, i := Activated(q, id).value, IndexOf(q.waiting, id).value;
    var o, rest := q.waiting[i], Without(q.waiting, i);
    assert Held(q) == q.waiting;
    WithoutIsIndependent(q.waiting, i);
    assert Held(r) == rest[..|rest|] + [o] + rest[|rest|..];
    forall p | p in rest ensures !Clash(p, o) {
      if Clash(p, o) { ClashingAreEqual(q.waiting, p, o); }
    }
    InsertIsIndependent(rest, |rest|, o);
    SameElementsMatch(q.tables, Held(q), Held(r));
  }

  lemma SameElementsMatch(t: Tables, ops: seq<Op>, others: seq<Op>)
    requires Matches(t, ops) && forall p :: p in others <==> p in ops
    ensures Matches(t, others)
  {
    forall k | Tracks(t, k) ensures exists p :: p in others && KeyOf(p.operation) == Some(k) {
      var p :| p in ops && KeyOf(p.operation) == Some(k);
      assert p in others;
    }
  }

  /** Starting an operation while another one is active drops the running one from the queue: the
      queue stays consistent exactly when the dropped operation had no deduplication key.  With a
      key, the tables keep an entry for an operation nobody holds. */
  lemma ActivatedOverActive(q: Queue, id: string)
    requires Consistent(q) && q.active.Some? && Activated(q, id).Some?
    ensures Consistent(Activated(q, id).value) <==> KeyOf(q.active.value.operation).None?
  {
    var r, a := Activated(q, id).value, q.active.value;
    var idle := q.(active := None, tables := Untrack(q.tables, a));
    DropActive(q);
    ActivatedIsConsistent(idle, id);
    if KeyOf(a.operation).Some? {
      var k := KeyOf(a.operation).value;
      assert a == Held(q)[|q.waiting|];
      assert TracksAs(q.tables, k, a.id);
      forall p | p in Held(r) ensures KeyOf(p.operation) != Some(k) {
        assert p in Held(idle);
        if KeyOf(p.operation) == Some(k) { ClashingAreEqual(Held(q), p, a); }
      }
      assert Tracks(r.tables, k);
    }
  }

  lemma {:induction false} FilterWithout(ops: seq<Op>, i: nat, keep: Op -> bool)
    requires i < |ops| && !keep(ops[i])
    ensures Filter(Without(ops, i), keep) == Filter(ops, keep)
  {
    if i == 0 {
      assert Without(ops, 0) == ops[1..];
    } else {
      FilterWithout(ops[1..], i - 1, keep);
      assert Without(ops, i)[1..] == Without(ops[1..], i - 1);
    }
  }

  lemma FilterAll(ops: seq<Op>, keep: Op -> bool)
    requires forall o :: o in ops ==> keep(o)
    ensures Filter(ops, keep) == ops
  {
  }

  /** Expiry keeps exactly the waiting operations without a limit or whose limit has not passed, in their
      order, and leaves the active operation alone. */
  lemma {:induction false} ExpireFromIsFilter(q: Queue, now: int, n: nat, keep: Op -> bool)
    requires Consistent(q) && n <= |q.waiting|
    requires forall o :: keep(o) == (o.validUntil.None? || now <= o.validUntil.value)
    requires forall k :: n <= k < |q.waiting| ==> keep(q.waiting[k])
    ensures var r := ExpireFrom(q, now, n);
            Consistent(r) && r.active == q.active && r.waiting == Filter(q.waiting, keep)
    decreases n
  {
    if n == 0 {
      FilterAll(q.waiting, keep);
    } else if IsExpired(q.waiting[n - 1], now) {
      var r := q.(waiting := Without(q.waiting, n - 1), tables := Untrack(q.tables, q.waiting[n - 1]));
      DropWaiting(q, n - 1);
      FilterWithout(q.waiting, n - 1, keep);
      WithoutKeepsOrder(q.waiting, n - 1);
      ExpireFromIsFilter(r, now, n - 1, keep);
    } else {
      ExpireFromIsFilter(q, now, n - 1, keep);
    }
  }

  /** The identifiers of the expired operations among the first `n`, last one first. */
  function ExpiredIds(ops: seq<Op>, now: int, n: nat): seq<string>
    requires n <= |ops|
  {
    if n == 0 then []
    else (if IsExpired(ops[n - 1], now) then [ops[n - 1].id] else []) + ExpiredIds(ops, now, n - 1)
  }

  /** The identifiers of `ops`, last one first. */
  ghost predicate Backwards(ids: seq<string>, ops: seq<Op>) {
    |ids| == |ops| && forall k :: 0 <= k < |ids| ==> ids[k] == ops[|ops| - 1 - k].id
  }

  lemma BackwardsSnoc(ids: seq<string>, ops: seq<Op>, o: Op)
    requires Backwards(ids, ops)
    ensures Backwards([o.id] + ids, ops + [o])
  {
  }

  /** The identifiers reported are those of the operations whose limit has passed, last one first. */
  lemma {:induction false} ExpiredIdsAreThose(ops: seq<Op>, now: int, n: nat, gone: Op -> bool)
    requires n <= |ops|
    requires forall o :: gone(o) == (o.validUntil.Some? && o.validUntil.value < now)
    ensures Backwards(ExpiredIds(ops, now, n), Filter(ops[..n], gone))
    decreases n
  {
    hide Filter;
    hide Backwards;
    if n == 0 {
      assert ops[..0] == [];
      NothingBackwards(gone);
    } else {
      ExpiredIdsAreThose(ops, now, n - 1, gone);
      FilterSnoc(ops, n - 1, gone);
      var o, before := ops[n - 1], Filter(ops[..n - 1], gone);
      BackwardsSnoc(ExpiredIds(ops, now, n - 1), before, o);
      assert before + [] == before && [] + ExpiredIds(ops, now, n - 1) == ExpiredIds(ops, now, n - 1);
    }
  }

  lemma NothingBackwards(gone: Op -> bool)
    ensures Backwards([], Filter([], gone))
  {
  }

  // ---------------------------------------------------------------- the queue object

  class QueuedOperation {
    const op: Op
    var status: Status

    constructor (op: Op)
      ensures this.op == op && status == Queued(0)
    {
      this.op := op;
      status := Queued(0);
    }
  }

  class RepositoryQueue {
    var operations: map<string, QueuedOperation>
    var operationList: seq<string>
    var active: QueuedOperation?
    var activeBackups: map<BackupId, string>
    var activeDeletes: map<int, string>
    var hasRepoDelete: bool

    /** The map and the list describe the same waiting operations. */
    ghost predicate Linked()
      reads this
    {
      && Distinct(operationList)
      && (forall id :: id in operations <==> id in operationList)
      && (forall id :: id in operations ==> operations[id].op.id == id)
    }

    ghost function Waiting(): (w: seq<Op>)
      requires Linked()
      reads this
      ensures |w| == |operationList|
      ensures forall i :: 0 <= i < |w| ==> w[i] == operations[operationList[i]].op && w[i].id == operationList[i]
    {
      var list, ops := operationList, operations;
      seq(|list|, i requires 0 <= i < |list| && list[i] in ops => ops[list[i]].op)
    }

    ghost function View(): Queue
      requires Linked()
      reads this
    {
      Queue(Waiting(), if active == null then None else Some(active.op),
            Tables(activeBackups, activeDeletes, hasRepoDelete))
    }

    /** Waiting operations that show a position show their own, counted from one. */
    ghost predicate Numbered()
      requires Linked()
      reads this, operations.Values
    {
      forall i {:trigger operationList[i]} :: 0 <= i < |operationList| && operations[operationList[i]].status.Queued? ==>
        operations[operationList[i]].status == Queued(i + 1)
    }

    constructor ()
      ensures Linked() && Numbered() && View() == EMPTY_QUEUE
      ensures operations == map[] && active == null
    {
      operations, operationList, active := map[], [], null;
      activeBackups, activeDeletes, hasRepoDelete := map[], map[], false;
    }

    method UpdatePositions()
      requires Linked()
      modifies operations.Values
      ensures Numbered()
      ensures forall i {:trigger operationList[i]} :: 0 <= i < |operationList| && old(operations[operationList[i]].status).Queued? ==>
                operations[operationList[i]].status == Queued(1 + i)
      ensures forall o :: o in operations.Values ==>
                o.status == old(o.status) || (o.status.Queued? && old(o.status).Queued?)
    {
      var i := 0;
      while i < |operationList|
        invariant 0 <= i <= |operationList|
        invariant forall k :: 0 <= k < i && operations[operationList[k]].status.Queued? ==>
                    operations[operationList[k]].status == Queued(k + 1)
        invariant forall o :: o in operations.Values ==>
                    o.status == old(o.status) || (o.status.Queued? && old(o.status).Queued?)
      {
        var op := operations[operationList[i]];
        assert forall k :: 0 <= k < i ==> operations[operationList[k]].op.id != op.op.id;
        if op.status.Queued? {
          op.status := Queued(i + 1);
        }
        i := i + 1;
      }
    }

    method CanAdd(operation: Operation) returns (existing: Option<string>)
      requires Linked()
      ensures existing == Duplicate(View(), operation)
    {
      match operation
      case Backup(b) =>
        existing := if b in activeBackups then Some(activeBackups[b]) else None;
      case ArchiveDelete(a) =>
        existing := if a in activeDeletes then Some(activeDeletes[a]) else None;
      case Delete =>
        if !hasRepoDelete {
          return None;
        }
        var i := 0;
        while i < |operationList|
          invariant 0 <= i <= |operationList|
          invariant FirstDelete(Waiting()) == FirstDelete(Waiting()[i..])
        {
          if operations[operationList[i]].op.operation == Delete {
            return Some(operationList[i]);
          }
          assert Waiting()[i..][1..] == Waiting()[i + 1..];
          i := i + 1;
        }
        existing := if active != null && active.op.operation == Delete then Some(active.op.id) else None;
      case _ =>
        existing := None;
    }

    method AddToTrackingMaps(o: Op)
      requires Linked()
      modifies this`activeBackups, this`activeDeletes, this`hasRepoDelete
      ensures Linked() && View() == old(View()).(tables := Track(old(View()).tables, o))
    {
      match o.operation
      case Backup(b) => activeBackups := activeBackups[b := o.id];
      case ArchiveDelete(a) => activeDeletes := activeDeletes[a := o.id];
      case Delete => hasRepoDelete := true;
      case _ =>
    }

    method RemoveFromTrackingMaps(o: Op)
      requires Linked()
      modifies this`activeBackups, this`activeDeletes, this`hasRepoDelete
      ensures Linked() && View() == old(View()).(tables := Untrack(old(View()).tables, o))
    {
      match o.operation
      case Backup(b) => activeBackups := activeBackups - {b};
      case ArchiveDelete(a) => activeDeletes := activeDeletes - {a};
      case Delete => hasRepoDelete := false;
      case _ =>
    }

    /** A fresh operation identifier is required: the code draws it as a random UUID. */
    method AddOperation(o: QueuedOperation) returns (id: string)
      requires Linked() && o.op.id !in operations
      modifies this, operations.Values, o
      ensures Linked() && View() == Added(old(View()), o.op)
      ensures var d := Duplicate(old(View()), o.op.operation);
              if d.Some? then id == d.value && operations == old(operations) && o.status == old(o.status)
              else id == o.op.id && Numbered() && operations == old(operations)[id := o]
      ensures active == old(active)
    {
      hide Waiting;
      hide Track;
      hide Duplicate;
      var existing := CanAdd(o.op.operation);
      if existing.Some? {
        return existing.value;
      }
      ghost var before, list := View(), operationList;
      operations := operations[o.op.id := o];
      operationList := operationList + [o.op.id];
      AppendKeepsLinked(list, o.op.id);
      hide Distinct;
      SameElements(Waiting(), before.waiting + [o.op]);
      AddToTrackingMaps(o.op);
      UpdatePositions();
      id := o.op.id;
    }

    method PositionOf(id: string) returns (i: nat)
      requires Linked() && id in operations
      ensures i < |operationList| && operationList[i] == id
    {
      i := 0;
      while i < |operationList| && operationList[i] != id
        invariant i <= |operationList|
        invariant id !in operationList[..i]
      {
        i := i + 1;
      }
      assert operationList == operationList[..|operationList|];
    }

    /** Takes the `i`-th waiting operation out of the map and the list; the code does this in three
        places. */
    method UnlinkAt(i: nat)
      requires Linked() && i < |operationList|
      modifies this`operations, this`operationList
      ensures Linked()
      ensures View() == old(View()).(waiting := Without(old(View()).waiting, i))
      ensures IndexOf(old(View()).waiting, old(operationList[i])) == Some(i)
      ensures operations == old(operations) - {old(operationList[i])}
    {
      hide IndexOf;
      hide Distinct;
      hide Without;
      hide Waiting;
      ghost var w := Waiting();
      FirstIndex(w, operationList, i);
      UnlinkKeepsLinked(operations, operationList, i);
      UnlinkDropsOne(w, operations, operationList, i);
      operations := operations - {operationList[i]};
      operationList := Without(operationList, i);
      SameElements(Waiting(), Without(w, i));
    }

    method RemoveOperation(id: string) returns (found: bool)
      requires Linked()
      modifies this, operations.Values
      ensures Linked()
      ensures found == Removed(old(View()), id).Some?
      ensures View() == if found then Removed(old(View()), id).value else old(View())
      ensures operations.Values <= old(operations).Values
      ensures active == old(active) || active == null
    {
      if active != null && active.op.id == id {
        RemoveFromTrackingMaps(active.op);
        active := null;
        return true;
      }
      if id in operations {
        var op := operations[id].op;
        RemoveFromTrackingMaps(op);
        var i := PositionOf(id);
        UnlinkAt(i);
        UpdatePositions();
        return true;
      }
      assert forall k :: 0 <= k < |operationList| ==> operationList[k] != id;
      return false;
    }

    method MoveToActive(id: string) returns (found: bool)
      requires Linked()
      modifies this, operations.Values
      ensures Linked()
      ensures found == Activated(old(View()), id).Some?
      ensures View() == if found then Activated(old(View()), id).value else old(View())
      ensures found ==> Numbered() && id in old(operations) && active == old(operations)[id] && active.status == Running
      ensures operations.Values <= old(operations).Values
      ensures !found ==> active == old(active)
    {
      if id !in operations {
        assert forall k :: 0 <= k < |operationList| ==> operationList[k] != id;
        return false;
      }
      var op := operations[id];
      var i := PositionOf(id);
      UnlinkAt(i);
      active := op;
      active.status := Running;
      assert op !in operations.Values;
      UpdatePositions();
      return true;
    }

    method CompleteActive(errorMsg: string) returns (ok: bool)
      requires Linked()
      modifies this, active
      ensures Linked()
      ensures ok == Finished(old(View())).Some?
      ensures View() == if ok then Finished(old(View())).value else old(View())
      ensures ok ==> old(active).status == if errorMsg == "" then Completed else Failed(errorMsg)
      ensures operations == old(operations) && active == null
    {
      if active == null {
        return false;
      }
      active.status := if errorMsg == "" then Completed else Failed(errorMsg);
      RemoveFromTrackingMaps(active.op);
      active := null;
      return true;
    }

    method GetNext() returns (next: QueuedOperation?)
      requires Linked()
      ensures next == null <==> View().waiting == []
      ensures next != null ==> next.op == View().waiting[0] && next == operations[operationList[0]]
    {
      next := if |operationList| == 0 then null else operations[operationList[0]];
    }

    /** One step of the expiry loop: the waiting operation at index `i` is marked and taken out. */
    method ExpireAt(i: nat, now: int)
      requires Linked() && i < |operationList|
      modifies this, operations[operationList[i]]
      ensures Linked()
      ensures var q := old(View());
              View() == q.(waiting := Without(q.waiting, i), tables := Untrack(q.tables, q.waiting[i]))
      ensures operations == old(operations) - {old(operationList[i])}
      ensures old(operations[operationList[i]]).status == Expired(now)
    {
      var op := operations[operationList[i]];
      op.status := Expired(now);
      RemoveFromTrackingMaps(op.op);
      UnlinkAt(i);
    }

    method GetOperationByID(id: string) returns (o: QueuedOperation?)
      requires Linked()
      ensures ById(View(), id) == if o == null then None else Some(o.op)
      ensures o != null ==> o == active || (id in operations && o == operations[id])
    {
      if active != null && active.op.id == id {
        return active;
      }
      if id in operations {
        var i := PositionOf(id);
        FirstIndex(Waiting(), operationList, i);
        return operations[id];
      }
      assert forall k :: 0 <= k < |operationList| ==> operationList[k] != id;
      return null;
    }

    method ExpireOldOperations(now: int) returns (expired: seq<string>)
      requires Linked()
      modifies this, operations.Values
      ensures Linked()
      ensures View() == ExpireFrom(old(View()), now, |old(View()).waiting|)
      ensures expired == ExpiredIds(old(View()).waiting, now, |old(View()).waiting|)
      ensures expired != [] ==> Numbered()
    {
      hide Waiting;
      hide IndexOf;
      hide Distinct;
      expired := [];
      var i := |operationList|;
      while i > 0
        invariant 0 <= i <= |operationList| && Linked()
        invariant ExpiryAt(old(View()), now, View(), i, expired)
        invariant operations.Values <= old(operations).Values
      {
        i := i - 1;
        var op := operations[operationList[i]];
        ExpiryStep(old(View()), now, View(), i, expired);
        if op.op.validUntil.Some? && op.op.validUntil.value < now {
          expired := expired + [operationList[i]];
          ExpireAt(i, now);
        }
      }
      if |expired| > 0 {
        UpdatePositions();
      }
    }
  }

  /** The expiry loop has come down to index `i`: what is left to do gives the final queue and the
      final list of identifiers. */
  ghost predicate ExpiryAt(all: Queue, now: int, q: Queue, i: nat, expired: seq<string>) {
    && i <= |q.waiting| && i <= |all.waiting|
    && q.waiting[..i] == all.waiting[..i]
    && ExpireFrom(q, now, i) == ExpireFrom(all, now, |all.waiting|)
    && expired + ExpiredIds(all.waiting, now, i) == ExpiredIds(all.waiting, now, |all.waiting|)
  }

  lemma ExpiryStep(all: Queue, now: int, q: Queue, i: nat, expired: seq<string>)
    requires i < |q.waiting| && ExpiryAt(all, now, q, i + 1, expired)
    ensures var o := q.waiting[i];
            if IsExpired(o, now) then
              ExpiryAt(all, now, q.(waiting := Without(q.waiting, i), tables := Untrack(q.tables, o)), i, expired + [o.id])
            else ExpiryAt(all, now, q, i, expired)
  {
    var w, a := q.waiting, all.waiting;
    assert w[i] == w[..i + 1][i] == a[i];
    assert w[..i] == w[..i + 1][..i] == a[..i];
    WithoutKeepsOrder(w, i);
    assert Without(w, i)[..i] == w[..i];
    assert (expired + [w[i].id]) + ExpiredIds(a, now, i) == expired + ([w[i].id] + ExpiredIds(a, now, i));
    assert expired + ([] + ExpiredIds(a, now, i)) == expired + ExpiredIds(a, now, i);
  }

  lemma SameElements<T>(s: seq<T>, t: seq<T>)
    requires |s| == |t| && forall k :: 0 <= k < |s| ==> s[k] == t[k]
    ensures s == t
  {
  }

  lemma AppendKeepsLinked(list: seq<string>, id: string)
    requires Distinct(list) && id !in list
    ensures Distinct(list + [id])
    ensures forall x :: x in list + [id] <==> x in list || x == id
  {
  }

  lemma UnlinkKeepsLinked(operations: map<string, QueuedOperation>, list: seq<string>, i: nat)
    requires Distinct(list) && i < |list| && (forall id :: id in operations <==> id in list)
    ensures Distinct(Without(list, i))
    ensures forall id :: id in operations - {list[i]} <==> id in Without(list, i)
  {
    WithoutFromDistinct(list, i);
    hide Distinct;
    hide Without;
  }

  lemma UnlinkDropsOne(w: seq<Op>, operations: map<string, QueuedOperation>, list: seq<string>, i: nat)
    requires Distinct(list) && i < |list| == |w| && (forall id :: id in operations <==> id in list)
    requires forall k :: 0 <= k < |w| ==> w[k] == operations[list[k]].op
    ensures var left := Without(list, i);
            && |Without(w, i)| == |left|
            && forall k :: 0 <= k < |left| ==>
                 left[k] in operations - {list[i]} && Without(w, i)[k] == operations[left[k]].op
  {
    WithoutKeepsOrder(list, i);
    WithoutKeepsOrder(w, i);
    UnlinkKeepsLinked(operations, list, i);
    var left := Without(list, i);
    hide Distinct;
    hide Without;
    forall k | 0 <= k < |left|
      ensures left[k] in operations - {list[i]} && Without(w, i)[k] == operations[left[k]].op
    {
      assert left[k] in left && left[k] == list[if k < i then k else k + 1];
      assert Without(w, i)[k] == w[if k < i then k else k + 1];
    }
  }

  lemma FirstIndex(w: seq<Op>, list: seq<string>, i: nat)
    requires |w| == |list| && i < |w| && Distinct(list)
    requires forall k :: 0 <= k < |w| ==> w[k].id == list[k]
    ensures IndexOf(w, list[i]) == Some(i)
  {
    assert w[i].id == list[i];
  }
}
