/** Runs of the scheduler that can be followed by hand: what single additions do, and how to put runs
    together.  The modules about running operations and about waking up use them to show that the
    situations they speak of are reached. */
module Scenarios {
  import opened Prelude
  import opened RepositoryQueues
  import opened QueueManagers

  /** Operations without a deduplication key leave the tables alone. */
  predicate Plain(o: Op) {
    KeyOf(o.operation).None? && !o.immediate
  }

  function Started(s: Sys, r: int, o: Op): Sys {
    var q := QueueOf(s, r);
    Launch(PutState(Occupy(PutQueue(s, r, q.(active := Some(o))), r, o), r, TargetOf(o.operation)), r, o)
  }

  /** An addition to an idle repository with an empty queue starts at once where it can. */
  lemma AddStarts(s: Sys, r: int, o: Op)
    requires Plain(o) && QueueOf(s, r).waiting == [] && QueueOf(s, r).active.None?
    requires CanStart(s, r, o) && Allowed(StateOf(s, r), TargetOf(o.operation), false)
    ensures Add(s, r, o) == (Started(s, r, o), Accepted(o.id))
  {
    hide Add;
    hide Process;
    hide Start;
    hide ShowQueued;
    var e := Enqueued(s, r, o);
    OneEnqueued(s, r, o);
    StartHead(e, r);
    ProcessStarts(e, r);
    StartedShows(s, r, o);
    AddProcesses(s, r, o);
  }

  lemma OneEnqueued(s: Sys, r: int, o: Op)
    requires Plain(o) && QueueOf(s, r).waiting == [] && QueueOf(s, r).active.None?
    ensures var e := Enqueued(s, r, o);
            && QueueOf(e, r) == QueueOf(s, r).(waiting := [o]) && StateOf(e, r) == StateOf(s, r)
            && e.heavy == s.heavy && e.light == s.light && e.maxHeavy == s.maxHeavy
            && Touch(e, r) == e && HeadStarted(e, r) == Started(s, r, o)
  {
    var e := Enqueued(s, r, o);
    assert [] + [o] == [o];
    assert Touch(e, r).queues == e.queues;
    EnqueuedStarts(s, r, o);
  }

  lemma EnqueuedStarts(s: Sys, r: int, o: Op)
    requires Plain(o) && QueueOf(s, r).waiting == [] && QueueOf(s, r).active.None?
    requires QueueOf(Enqueued(s, r, o), r) == QueueOf(s, r).(waiting := [o])
    ensures HeadStarted(Enqueued(s, r, o), r) == Started(s, r, o)
  {
    hide Occupy;
    hide Launch;
    hide PutState;
    var q, e := QueueOf(s, r), Enqueued(s, r, o);
    assert WithHeadActive(QueueOf(e, r)) == q.(active := Some(o));
    PutTwice(s.queues, r, q.(waiting := [o]), q.(active := Some(o)));
    assert PutQueue(e, r, q.(active := Some(o))) == PutQueue(s, r, q.(active := Some(o)));
  }

  lemma StartedShows(s: Sys, r: int, o: Op)
    ensures ShowQueued(Started(s, r, o), r) == Started(s, r, o)
  {
  }

  lemma AddProcesses(s: Sys, r: int, o: Op)
    requires Plain(o) && Process(Enqueued(s, r, o), r).1
    ensures Add(s, r, o) == (ShowQueued(Process(Enqueued(s, r, o), r).0, r), Accepted(o.id))
  {
    hide Process;
    hide ShowQueued;
    assert PutQueue(Touch(s, r), r, Added(QueueOf(s, r), o)) == Enqueued(s, r, o);
  }

  lemma ProcessStarts(e: Sys, r: int)
    requires Ready(e, r) && Touch(e, r) == e && Start(e, r, HeadOf(e, r).id).1
    ensures Process(e, r) == Start(e, r, HeadOf(e, r).id)
  {
  }

  /** An addition that nothing can be started for just waits. */
  lemma AddWaits(s: Sys, r: int, o: Op)
    requires Plain(o)
    requires var q := QueueOf(s, r);
             q.active.Some? || !CanStart(s, r, if q.waiting == [] then o else q.waiting[0])
    ensures var q := QueueOf(s, r);
            Add(s, r, o) == (ShowQueued(PutQueue(s, r, q.(waiting := q.waiting + [o])), r), Accepted(o.id))
  {
    var q, e := QueueOf(s, r), Enqueued(s, r, o);
    assert e == PutQueue(s, r, q.(waiting := q.waiting + [o])) by {
      assert e.queues == PutQueue(s, r, q.(waiting := q.waiting + [o])).queues;
    }
    assert Touch(e, r).queues == e.queues;
    assert Process(e, r) == (e, true);
    AddProcesses(s, r, o);
  }

  lemma {:induction false} RunSnoc(s: Sys, events: seq<Event>, e: Event)
    requires IsRun(s, events) && Enabled(After(s, events), e)
    ensures IsRun(s, events + [e]) && After(s, events + [e]) == Step(After(s, events), e)
    decreases |events|
  {
    var longer := events + [e];
    if events == [] {
      assert longer == [e] && [e][1..] == [];
    } else {
      assert longer[0] == events[0] && longer[1..] == events[1..] + [e];
      RunSnoc(Step(s, events[0]), events[1..], e);
    }
  }

  /** A run that has come to `s` goes on to `t`. */
  lemma GoOn(i: Sys, events: seq<Event>, e: Event, s: Sys, t: Sys) returns (longer: seq<Event>)
    requires IsRun(i, events) && After(i, events) == s && Enabled(s, e) && t == Step(s, e)
    ensures longer == events + [e] && IsRun(i, longer) && After(i, longer) == t
  {
    RunSnoc(i, events, e);
    longer := events + [e];
  }

  const NO_KEYS := Tables(map[], map[], false)

  function PruneOp(id: string): Op {
    Op(id, Prune(BackupId(0, 0)), None, false)
  }

  function MountOp(id: string): Op {
    Op(id, Mount, None, false)
  }

  /** A run that has come to `s` goes on with an addition that starts at once. */
  lemma RunStarts(i: Sys, events: seq<Event>, s: Sys, r: int, o: Op) returns (longer: seq<Event>, t: Sys)
    requires IsRun(i, events) && After(i, events) == s && Enabled(s, AddEvent(r, o))
    requires Plain(o) && QueueOf(s, r).waiting == [] && QueueOf(s, r).active.None?
    requires CanStart(s, r, o) && Allowed(StateOf(s, r), TargetOf(o.operation), false)
    ensures longer == events + [AddEvent(r, o)] && IsRun(i, longer) && After(i, longer) == t == Started(s, r, o)
  {
    AddStarts(s, r, o);
    t := Step(s, AddEvent(r, o));
    longer := GoOn(i, events, AddEvent(r, o), s, t);
  }

  /** A run that has come to `s` goes on with an addition that has to wait. */
  lemma RunWaits(i: Sys, events: seq<Event>, s: Sys, r: int, o: Op) returns (longer: seq<Event>, t: Sys)
    requires IsRun(i, events) && After(i, events) == s && Enabled(s, AddEvent(r, o)) && Plain(o)
    requires var q := QueueOf(s, r);
             q.active.Some? || !CanStart(s, r, if q.waiting == [] then o else q.waiting[0])
    ensures var q := QueueOf(s, r);
            && t == ShowQueued(PutQueue(s, r, q.(waiting := q.waiting + [o])), r)
            && longer == events + [AddEvent(r, o)] && IsRun(i, longer) && After(i, longer) == t
  {
    AddWaits(s, r, o);
    t := Step(s, AddEvent(r, o));
    longer := GoOn(i, events, AddEvent(r, o), s, t);
  }
}
