/** Creating many archives in one batch (ArchiveCreateBulk.Save, backend/ent/archive_create.go) and
    one archive through its hooks (withHooks, backend/ent/ent.go).  In the bulk case every builder's
    mutator, wrapped in its hooks, calls the next builder's mutator from inside its own body; the last
    one writes the batch, and the rest of each body runs while the calls return. */
module BulkCreate {
  import opened Prelude

  /** What the caller has set on the mutation of one archive. */
  datatype Draft = Draft(
    id: Option<int>,
    createdAt: Option<int>,
    updatedAt: Option<int>,
    name: Option<string>,
    duration: Option<real>,
    borgId: Option<string>,
    willBePruned: Option<bool>,
    comment: Option<string>,
    repository: Option<int>,
    backupProfile: Option<int>)

  datatype Required = CreatedAt | UpdatedAt | Name | Duration | BorgId | WillBePruned | Repository

  /** check(): the first required field that is missing. */
  function Missing(d: Draft): Option<Required> {
    if d.createdAt.None? then Some(CreatedAt)
    else if d.updatedAt.None? then Some(UpdatedAt)
    else if d.name.None? then Some(Name)
    else if d.duration.None? then Some(Duration)
    else if d.borgId.None? then Some(BorgId)
    else if d.willBePruned.None? then Some(WillBePruned)
    else if d.repository.None? then Some(Repository)
    else None
  }

  function OrElse<T>(o: Option<T>, default: T): Option<T> {
    if o.Some? then o else Some(default)
  }

  /** defaults(). */
  function Completed(d: Draft, now: int): Draft {
    d.(createdAt := OrElse(d.createdAt, now), updatedAt := OrElse(d.updatedAt, now),
       willBePruned := OrElse(d.willBePruned, false), comment := OrElse(d.comment, ""))
  }

  /** Everything set in `d` is in `e` as it was set. */
  predicate Keeps(d: Draft, e: Draft) {
    && (d.id.Some? ==> e.id == d.id)
    && (d.createdAt.Some? ==> e.createdAt == d.createdAt)
    && (d.updatedAt.Some? ==> e.updatedAt == d.updatedAt)
    && (d.name.Some? ==> e.name == d.name)
    && (d.duration.Some? ==> e.duration == d.duration)
    && (d.borgId.Some? ==> e.borgId == d.borgId)
    && (d.willBePruned.Some? ==> e.willBePruned == d.willBePruned)
    && (d.comment.Some? ==> e.comment == d.comment)
    && (d.repository.Some? ==> e.repository == d.repository)
    && (d.backupProfile.Some? ==> e.backupProfile == d.backupProfile)
  }

  /** What is not set in `d`: two times become the present one, the flag is off, the comment is empty, and
      the rest stays unset. */
  predicate FillsIn(d: Draft, e: Draft, now: int) {
    && (d.createdAt.None? ==> e.createdAt == Some(now))
    && (d.updatedAt.None? ==> e.updatedAt == Some(now))
    && (d.willBePruned.None? ==> e.willBePruned == Some(false))
    && (d.comment.None? ==> e.comment == Some(""))
    && (d.id.None? ==> e.id.None?) && (d.name.None? ==> e.name.None?) && (d.duration.None? ==> e.duration.None?)
    && (d.borgId.None? ==> e.borgId.None?) && (d.repository.None? ==> e.repository.None?)
    && (d.backupProfile.None? ==> e.backupProfile.None?)
  }

  /** What the caller has to set, the defaults being filled in. */
  predicate HasRequired(d: Draft) {
    d.name.Some? && d.duration.Some? && d.borgId.Some? && d.repository.Some?
  }

  /** With the defaults filled in, the check misses a field exactly when the caller has left one of four
      out, and names the first of them. */
  lemma CheckedFields(d: Draft, e: Draft, now: int)
    requires Keeps(d, e) && FillsIn(d, e, now)
    ensures Missing(e).None? <==> HasRequired(d)
    ensures !HasRequired(d) ==>
              Missing(e) == Some(if d.name.None? then Name else if d.duration.None? then Duration
                                 else if d.borgId.None? then BorgId else Repository)
  {
  }

  /** Without the defaults seven fields are required. */
  lemma RequiredFields(d: Draft)
    ensures Missing(d).None? <==> HasRequired(d) && d.createdAt.Some? && d.updatedAt.Some? && d.willBePruned.Some?
  {
  }

  datatype Error = MissingField(field: Required) | WrongType | Driver | FromHook(code: int)

  /** What a hook does around its successor: hands the mutation on, changes it first, hands on another
      mutation (possibly of another type), refuses without calling the successor, or lets the
      successor run and then reports an error of its own. */
  datatype Hook =
    | Pass
    | Edit(change: Draft -> Draft)
    | Swap(other: Draft)
    | Alien
    | Refuse(code: int)
    | Spoil(code: int)

  datatype Event =
    | Enter(builder: nat, hook: nat)
    | Checked(builder: nat, passed: bool)
    | Batch(drafts: seq<Draft>, ok: bool)
    | Leave(builder: nat, hook: nat, ok: bool)

  // ---------------------------------------------------------------- specification

  /** A builder as it is when its mutator starts. */
  datatype Plan = Plan(draft: Draft, hooks: seq<Hook>)

  /** The mutation on its way through the hooks: what the builder still holds, what is handed on, and
      whether the two are one object. */
  datatype Cursor = Cursor(held: Draft, passed: Draft, same: bool, alien: bool)

  function AtStart(p: Plan): Cursor {
    Cursor(p.draft, p.draft, true, false)
  }

  function Through(c: Cursor, h: Hook): Cursor {
    match h
    case Edit(change) =>
      if c.alien then c else c.(passed := change(c.passed), held := if c.same then change(c.held) else c.held)
    case Swap(other) => c.(passed := other, same := false, alien := false)
    case Alien => c.(same := false, alien := true)
    case _ => c
  }

  /** How a call of a mutator went: its error, what happened, the drafts written, and the builders
      whose mutations were marked done. */
  datatype Outcome = Outcome(error: Option<Error>, events: seq<Event>, written: Option<seq<Draft>>, done: set<nat>)

  function Wrapped(o: Outcome, i: nat, h: nat, error: Option<Error>): Outcome {
    o.(events := [Enter(i, h)] + o.events + [Leave(i, h, error.None?)], error := error)
  }

  /** The error a hook reports when its successor, if called, reports `inner`. */
  function HookError(hook: Hook, inner: Option<Error>): Option<Error> {
    match hook
    case Refuse(code) => Some(FromHook(code))
    case Spoil(code) => if inner.None? then Some(FromHook(code)) else inner
    case _ => inner
  }

  /** Mutator `i` from its hook `h` on, when the specs of the builders before it are `before`. */
  function Sim(plans: seq<Plan>, i: nat, h: nat, c: Cursor, before: seq<Draft>, dbOk: bool): Outcome
    requires i < |plans| && h <= |plans[i].hooks|
    decreases |plans| - i, |plans[i].hooks| - h + 1
  {
    if h < |plans[i].hooks| then
      var hook := plans[i].hooks[h];
      var inner := if hook.Refuse? then Outcome(None, [], None, {}) else Sim(plans, i, h + 1, Through(c, hook), before, dbOk);
      Wrapped(inner, i, h, HookError(hook, inner.error))
    else Core(plans, i, c, before, dbOk)
  }

  /** The body of the mutator proper. */
  function Core(plans: seq<Plan>, i: nat, c: Cursor, before: seq<Draft>, dbOk: bool): Outcome
    requires i < |plans|
    decreases |plans| - i, 0
  {
    if c.alien then Outcome(Some(WrongType), [], None, {})
    else if Missing(c.held).Some? then
      Outcome(Some(MissingField(Missing(c.held).value)), [Checked(i, false)], None, {})
    else
      var drafts := before + [c.passed];
      var inner :=
        if i + 1 < |plans| then Sim(plans, i + 1, 0, AtStart(plans[i + 1]), drafts, dbOk)
        else Outcome(if dbOk then None else Some(Driver), [Batch(drafts, dbOk)], if dbOk then Some(drafts) else None, {});
      inner.(events := [Checked(i, true)] + inner.events, done := inner.done + if inner.error.None? then {i} else {})
  }

  // ---------------------------------------------------------------- properties

  /** The hook calls its successor once and returns what it returns. */
  predicate Behaves(h: Hook) {
    !h.Refuse? && !h.Spoil?
  }

  ghost predicate AllBehave(plans: seq<Plan>) {
    forall i, h :: 0 <= i < |plans| && 0 <= h < |plans[i].hooks| ==> Behaves(plans[i].hooks[h])
  }

  function FoldFrom(hooks: seq<Hook>, h: nat, c: Cursor): Cursor
    requires h <= |hooks|
    decreases |hooks| - h
  {
    if h == |hooks| then c else FoldFrom(hooks, h + 1, Through(c, hooks[h]))
  }

  /** The mutation as it reaches the innermost mutator of builder `p`. */
  function Arrival(p: Plan): Cursor {
    FoldFrom(p.hooks, 0, AtStart(p))
  }

  /** What the mutator reports about an arriving mutation before doing anything with it. */
  function Objection(c: Cursor): Option<Error> {
    if c.alien then Some(WrongType)
    else if Missing(c.held).Some? then Some(MissingField(Missing(c.held).value))
    else None
  }

  /** The objection of the first builder, from `i` on, that has one. */
  function FirstObjection(plans: seq<Plan>, i: nat): Option<Error>
    requires i <= |plans|
    decreases |plans| - i
  {
    if i == |plans| then None
    else if Objection(Arrival(plans[i])).Some? then Objection(Arrival(plans[i]))
    else FirstObjection(plans, i + 1)
  }

  /** What the builders from `i` on hand to the batch. */
  function Drafts(plans: seq<Plan>, i: nat): (drafts: seq<Draft>)
    requires i <= |plans|
    ensures |drafts| == |plans| - i
    ensures forall k :: 0 <= k < |drafts| ==> drafts[k] == Arrival(plans[i + k]).passed
    decreases |plans| - i
  {
    if i == |plans| then [] else [Arrival(plans[i]).passed] + Drafts(plans, i + 1)
  }

  function From(i: nat, n: nat): (r: set<nat>)
    ensures forall k :: k in r <==> i <= k < n
    decreases n - i
  {
    if i >= n then {} else {i} + From(i + 1, n)
  }

  lemma {:induction false} BehavedSim(plans: seq<Plan>, i: nat, h: nat, c: Cursor, before: seq<Draft>, dbOk: bool)
    requires AllBehave(plans) && i < |plans| && h <= |plans[i].hooks|
    requires FoldFrom(plans[i].hooks, h, c) == Arrival(plans[i])
    ensures var o, objection := Sim(plans, i, h, c, before, dbOk), FirstObjection(plans, i);
            && o.error == (if objection.Some? then objection else if dbOk then None else Some(Driver))
            && o.written == (if o.error.Some? then None else Some(before + Drafts(plans, i)))
            && o.done == (if o.error.Some? then {} else From(i, |plans|))
    decreases |plans| - i, |plans[i].hooks| - h
  {
    if h < |plans[i].hooks| {
      assert Behaves(plans[i].hooks[h]);
      BehavedSim(plans, i, h + 1, Through(c, plans[i].hooks[h]), before, dbOk);
    } else if Objection(c).None? {
      var drafts := before + [c.passed];
      assert drafts + Drafts(plans, i + 1) == before + Drafts(plans, i);
      if i + 1 < |plans| {
        BehavedSim(plans, i + 1, 0, AtStart(plans[i + 1]), drafts, dbOk);
      } else {
        assert drafts + [] == drafts;
      }
    }
  }

  /** Bulk creation is all or nothing as long as every hook calls its successor once and returns its
      result: if some builder objects, nothing is written, nothing is marked done, and the error is the
      first objection; otherwise the batch holds the builders' drafts in order, and all mutations are
      done or, if the driver fails, none. */
  lemma AllOrNothing(plans: seq<Plan>, dbOk: bool)
    requires plans != [] && AllBehave(plans)
    ensures var o, objection := Sim(plans, 0, 0, AtStart(plans[0]), [], dbOk), FirstObjection(plans, 0);
            && o.error == (if objection.Some? then objection else if dbOk then None else Some(Driver))
            && o.written == (if o.error.Some? then None else Some(Drafts(plans, 0)))
            && o.done == (if o.error.Some? then {} else From(0, |plans|))
  {
    BehavedSim(plans, 0, 0, AtStart(plans[0]), [], dbOk);
    assert [] + Drafts(plans, 0) == Drafts(plans, 0);
  }

  /** The events on the way down from builder `i`: its hooks in order, its check, the next builder. */
  function Down(plans: seq<Plan>, i: nat, h: nat): seq<Event>
    requires i < |plans| && h <= |plans[i].hooks|
    decreases |plans| - i, |plans[i].hooks| - h
  {
    if h < |plans[i].hooks| then [Enter(i, h)] + Down(plans, i, h + 1)
    else [Checked(i, true)] + if i + 1 < |plans| then Down(plans, i + 1, 0) else []
  }

  /** Every Enter answered by its Leave, in the opposite order. */
  function Mirror(events: seq<Event>, ok: bool): seq<Event> {
    if events == [] then []
    else Mirror(events[1..], ok) + if events[0].Enter? then [Leave(events[0].builder, events[0].hook, ok)] else []
  }

  /** When no builder objects, the events of a bulk save are one exact word: builder 0's hooks from the
      first to the last, its check, builder 1's hooks, and so on, the batch in the middle, and then
      every hook left in exactly the opposite order. */
  lemma {:induction false} EventsAreNested(plans: seq<Plan>, i: nat, h: nat, c: Cursor, before: seq<Draft>, dbOk: bool)
    requires AllBehave(plans) && i < |plans| && h <= |plans[i].hooks|
    requires FoldFrom(plans[i].hooks, h, c) == Arrival(plans[i]) && FirstObjection(plans, i).None?
    ensures Sim(plans, i, h, c, before, dbOk).events ==
            Down(plans, i, h) + [Batch(before + Drafts(plans, i), dbOk)] + Mirror(Down(plans, i, h), dbOk)
    decreases |plans| - i, |plans[i].hooks| - h + 1
  {
    if h < |plans[i].hooks| {
      BehavedSim(plans, i, h, c, before, dbOk);
      var inner, batch := Down(plans, i, h + 1), Batch(before + Drafts(plans, i), dbOk);
      hide Sim;
      hide Drafts;
      assert Behaves(plans[i].hooks[h]);
      EventsAreNested(plans, i, h + 1, Through(c, plans[i].hooks[h]), before, dbOk);
      MirrorCons(Enter(i, h), inner, dbOk);
      Surround([Enter(i, h)], inner, [batch], Mirror(inner, dbOk), [Leave(i, h, dbOk)]);
    } else {
      CoreEventsAreNested(plans, i, c, before, dbOk);
    }
  }

  lemma {:induction false} CoreEventsAreNested(plans: seq<Plan>, i: nat, c: Cursor, before: seq<Draft>, dbOk: bool)
    requires AllBehave(plans) && i < |plans|
    requires FoldFrom(plans[i].hooks, |plans[i].hooks|, c) == Arrival(plans[i]) && FirstObjection(plans, i).None?
    ensures Sim(plans, i, |plans[i].hooks|, c, before, dbOk).events ==
            Down(plans, i, |plans[i].hooks|) + [Batch(before + Drafts(plans, i), dbOk)] +
              Mirror(Down(plans, i, |plans[i].hooks|), dbOk)
    decreases |plans| - i, 0
  {
    BehavedSim(plans, i, |plans[i].hooks|, c, before, dbOk);
    var drafts, batch := before + [c.passed], Batch(before + Drafts(plans, i), dbOk);
    assert drafts + Drafts(plans, i + 1) == before + Drafts(plans, i);
    if i + 1 < |plans| {
      var inner := Down(plans, i + 1, 0);
      EventsAreNested(plans, i + 1, 0, AtStart(plans[i + 1]), drafts, dbOk);
      MirrorCons(Checked(i, true), inner, dbOk);
      Surround([Checked(i, true)], inner, [batch], Mirror(inner, dbOk), []);
    } else {
      MirrorCons(Checked(i, true), [], dbOk);
      assert drafts + [] == drafts;
    }
  }

  lemma Surround(first: seq<Event>, down: seq<Event>, middle: seq<Event>, up: seq<Event>, last: seq<Event>)
    ensures first + (down + middle + up) + last == (first + down) + middle + (up + last)
  {
  }

  lemma MirrorCons(e: Event, events: seq<Event>, ok: bool)
    ensures Mirror([e] + events, ok) == Mirror(events, ok) + if e.Enter? then [Leave(e.builder, e.hook, ok)] else []
  {
    assert ([e] + events)[1..] == events;
  }

  // ---------------------------------------------------------------- where it stops being atomic

  /** No hook refuses, and no builder from `i` on objects. */
  ghost predicate ReachesBatch(plans: seq<Plan>, i: nat)
    requires i <= |plans|
  {
    && (forall k, h :: i <= k < |plans| && 0 <= h < |plans[k].hooks| ==> !plans[k].hooks[h].Refuse?)
    && FirstObjection(plans, i).None?
  }

  predicate Spoils(plans: seq<Plan>, i: nat, h: nat)
    requires i < |plans| && h <= |plans[i].hooks|
    decreases |plans| - i, |plans[i].hooks| - h
  {
    if h < |plans[i].hooks| then plans[i].hooks[h].Spoil? || Spoils(plans, i, h + 1)
    else i + 1 < |plans| && Spoils(plans, i + 1, 0)
  }

  /** The code of the innermost hook, from hook `h` of builder `i` on, that reports an error after its
      successor has run. */
  function LastSpoil(plans: seq<Plan>, i: nat, h: nat): Option<int>
    requires i < |plans| && h <= |plans[i].hooks|
    decreases |plans| - i, |plans[i].hooks| - h
  {
    if h < |plans[i].hooks| then
      var inner := LastSpoil(plans, i, h + 1);
      if inner.None? && plans[i].hooks[h].Spoil? then Some(plans[i].hooks[h].code) else inner
    else if i + 1 < |plans| then LastSpoil(plans, i + 1, 0)
    else None
  }

  /** A hook that reports an error after its successor has run cannot undo the batch: the rows are in
      the database, and Save fails, exactly when some hook does that, with the error of the innermost one;
      the mutations of the builders after the last such hook (and of its own builder) are marked done all
      the same. */
  lemma {:induction false} SpoiledButWritten(plans: seq<Plan>, i: nat, h: nat, c: Cursor, before: seq<Draft>)
    requires i < |plans| && ReachesBatch(plans, i) && h <= |plans[i].hooks|
    requires FoldFrom(plans[i].hooks, h, c) == Arrival(plans[i])
    ensures var o, code := Sim(plans, i, h, c, before, true), LastSpoil(plans, i, h);
            && o.written == Some(before + Drafts(plans, i))
            && o.error == (if code.Some? then Some(FromHook(code.value)) else None)
            && (o.error.Some? <==> Spoils(plans, i, h))
            && |plans| - 1 in o.done
            && (i in o.done <==> i + 1 == |plans| || !Spoils(plans, i + 1, 0))
    decreases |plans| - i, |plans[i].hooks| - h
  {
    if h < |plans[i].hooks| {
      assert !plans[i].hooks[h].Refuse?;
      SpoiledButWritten(plans, i, h + 1, Through(c, plans[i].hooks[h]), before);
    } else {
      var drafts := before + [c.passed];
      assert drafts + Drafts(plans, i + 1) == before + Drafts(plans, i);
      if i + 1 < |plans| {
        SpoiledButWritten(plans, i + 1, 0, AtStart(plans[i + 1]), drafts);
        DoneIsLater(plans, i + 1, 0, AtStart(plans[i + 1]), drafts, true, i);
      } else {
        assert drafts + [] == drafts;
      }
    }
  }

  /** On the way down from hook `h` of builder `i`: the first refusal of a hook or objection of a builder. */
  function FirstStop(plans: seq<Plan>, i: nat, h: nat, c: Cursor): Option<Error>
    requires i < |plans| && h <= |plans[i].hooks|
    decreases |plans| - i, |plans[i].hooks| - h
  {
    if h < |plans[i].hooks| then
      var hook := plans[i].hooks[h];
      if hook.Refuse? then Some(FromHook(hook.code)) else FirstStop(plans, i, h + 1, Through(c, hook))
    else if Objection(c).Some? then Objection(c)
    else if i + 1 < |plans| then FirstStop(plans, i + 1, 0, AtStart(plans[i + 1]))
    else None
  }

  /** Hooks may also refuse: as long as none of them fails after its successor, the save reports the first
      refusal or objection on the way down and then nothing is written or done; without one it writes. */
  lemma {:induction false} RefusalsStop(plans: seq<Plan>, i: nat, h: nat, c: Cursor, before: seq<Draft>, dbOk: bool)
    requires i < |plans| && h <= |plans[i].hooks|
    requires forall k, l :: 0 <= k < |plans| && 0 <= l < |plans[k].hooks| ==> !plans[k].hooks[l].Spoil?
    ensures var o, stop := Sim(plans, i, h, c, before, dbOk), FirstStop(plans, i, h, c);
            && o.error == (if stop.Some? then stop else if dbOk then None else Some(Driver))
            && (o.written.Some? <==> o.error.None?)
            && o.done == (if o.error.Some? then {} else From(i, |plans|))
    decreases |plans| - i, |plans[i].hooks| - h
  {
    if h < |plans[i].hooks| {
      if !plans[i].hooks[h].Refuse? {
        RefusalsStop(plans, i, h + 1, Through(c, plans[i].hooks[h]), before, dbOk);
      }
    } else if Objection(c).None? && i + 1 < |plans| {
      RefusalsStop(plans, i + 1, 0, AtStart(plans[i + 1]), before + [c.passed], dbOk);
    }
  }

  lemma {:induction false} DoneIsLater(plans: seq<Plan>, i: nat, h: nat, c: Cursor, before: seq<Draft>, dbOk: bool, k: nat)
    requires i < |plans| && h <= |plans[i].hooks| && k < i
    ensures k !in Sim(plans, i, h, c, before, dbOk).done
    decreases |plans| - i, |plans[i].hooks| - h
  {
    if h < |plans[i].hooks| {
      DoneIsLater(plans, i, h + 1, Through(c, plans[i].hooks[h]), before, dbOk, k);
    } else if i + 1 < |plans| {
      DoneIsLater(plans, i + 1, 0, AtStart(plans[i + 1]), before + [c.passed], dbOk, k);
    }
  }

  // ---------------------------------------------------------------- what the check does not see

  /** The mutation a builder's hooks hand on in place of the builder's own, if any does so last. */
  function Replacement(hooks: seq<Hook>, h: nat, r: Option<Draft>, alien: bool): Option<Draft>
    requires h <= |hooks|
    decreases |hooks| - h
  {
    if h == |hooks| then r
    else
      match hooks[h]
      case Swap(other) => Replacement(hooks, h + 1, Some(other), false)
      case Alien => Replacement(hooks, h + 1, r, true)
      case Edit(change) =>
        Replacement(hooks, h + 1, if r.Some? && !alien then Some(change(r.value)) else r, alien)
      case _ => Replacement(hooks, h + 1, r, alien)
  }

  lemma {:induction false} ReplacementArrives(hooks: seq<Hook>, h: nat, c: Cursor, r: Option<Draft>)
    requires h <= |hooks|
    requires r.None? ==> c.held == c.passed && (c.same || c.alien)
    requires r.Some? ==> !c.same && c.passed == r.value
    ensures var a, r' := FoldFrom(hooks, h, c), Replacement(hooks, h, r, c.alien);
            && (r'.None? ==> a.held == a.passed && (a.same || a.alien))
            && (r'.Some? ==> a.passed == r'.value)
    decreases |hooks| - h
  {
    if h < |hooks| {
      var hook := hooks[h];
      var r1 := match hook
        case Swap(other) => Some(other)
        case Edit(change) => if r.Some? && !c.alien then Some(change(r.value)) else r
        case _ => r;
      ReplacementArrives(hooks, h + 1, Through(c, hook), r1);
    }
  }

  /** In a bulk save the check runs on the mutation the builder holds, before the one its hooks handed
      on takes its place.  So when no builder objects, what is written for a builder has all required
      fields exactly when its hooks handed on the builder's own mutation, or a complete one. */
  lemma WrittenIsComplete(plans: seq<Plan>, i: nat)
    requires i < |plans| && Objection(Arrival(plans[i])).None?
    ensures var r := Replacement(plans[i].hooks, 0, None, false);
            Missing(Arrival(plans[i]).passed).None? <==> r.None? || Missing(r.value).None?
  {
    ReplacementArrives(plans[i].hooks, 0, AtStart(plans[i]), None);
  }

  const BLANK := Draft(None, None, None, None, None, None, None, None, None, None)

  /** A hook that hands on a blank mutation gets it written although the check succeeded. */
  lemma BlankIsWritten(d: Draft)
    requires Missing(d).None?
    ensures var plans := [Plan(d, [Swap(BLANK)])];
            var o := Sim(plans, 0, 0, AtStart(plans[0]), [], true);
            o.error.None? && o.written == Some([BLANK]) && Missing(BLANK).Some?
  {
    var plans := [Plan(d, [Swap(BLANK)])];
    var c := Through(AtStart(plans[0]), Swap(BLANK));
    assert [] + [BLANK] == [BLANK];
    assert Core(plans, 0, c, [], true).written == Some([BLANK]);
    assert Sim(plans, 0, 1, c, [], true) == Core(plans, 0, c, [], true);
  }

  // ---------------------------------------------------------------- one archive at a time

  datatype Argument = Ours(draft: Draft) | Other

  /** sqlSave: check, then write. */
  function SaveOne(d: Draft, dbOk: bool): Outcome {
    if Missing(d).Some? then Outcome(Some(MissingField(Missing(d).value)), [Checked(0, false)], None, {})
    else
      Outcome(if dbOk then None else Some(Driver), [Checked(0, true), Batch([d], dbOk)],
              if dbOk then Some([d]) else None, if dbOk then {0} else {})
  }

  /** A hook around its successor. */
  function WrapHook(hook: Hook, h: nat, next: Argument -> Outcome): Argument -> Outcome {
    (a: Argument) =>
      match hook
      case Refuse(code) => Wrapped(Outcome(None, [], None, {}), 0, h, Some(FromHook(code)))
      case Spoil(code) =>
        var o := next(a);
        Wrapped(o, 0, h, if o.error.None? then Some(FromHook(code)) else o.error)
      case Edit(change) =>
        var o := next(if a.Ours? then Ours(change(a.draft)) else a);
        Wrapped(o, 0, h, o.error)
      case Swap(other) => var o := next(Ours(other)); Wrapped(o, 0, h, o.error)
      case Alien => var o := next(Other); Wrapped(o, 0, h, o.error)
      case Pass => var o := next(a); Wrapped(o, 0, h, o.error)
  }

  /** The mutator at the bottom: it copies the mutation it is given into the builder and saves. */
  function Bottom(dbOk: bool): Argument -> Outcome {
    (a: Argument) => if a.Other? then Outcome(Some(WrongType), [], None, {}) else SaveOne(a.draft, dbOk)
  }

  function Onion(hooks: seq<Hook>, h: nat, dbOk: bool): Argument -> Outcome
    requires h <= |hooks|
    decreases |hooks| - h
  {
    if h == |hooks| then Bottom(dbOk) else WrapHook(hooks[h], h, Onion(hooks, h + 1, dbOk))
  }

  function Present(hooks: seq<Option<Hook>>): (r: seq<Hook>)
    requires forall h :: 0 <= h < |hooks| ==> hooks[h].Some?
    ensures |r| == |hooks| && forall h :: 0 <= h < |r| ==> r[h] == hooks[h].value
  {
    seq(|hooks|, h requires 0 <= h < |hooks| && hooks[h].Some? => hooks[h].value)
  }

  datatype SaveResult = Uninitialized | Ran(outcome: Outcome)

  /** withHooks: wraps the save in the hooks from the last to the first and runs the result.  A nil
      hook anywhere is found while wrapping, before anything runs. */
  method WithHooks(hooks: seq<Option<Hook>>, d: Draft, dbOk: bool) returns (r: SaveResult)
    ensures (exists h :: 0 <= h < |hooks| && hooks[h].None?) ==> r == Uninitialized
    ensures (forall h :: 0 <= h < |hooks| ==> hooks[h].Some?) ==> r == Ran(Onion(Present(hooks), 0, dbOk)(Ours(d)))
  {
    if |hooks| == 0 {
      return Ran(SaveOne(d, dbOk));
    }
    var mut := Bottom(dbOk);
    var i := |hooks|;
    while i > 0
      invariant 0 <= i <= |hooks|
      invariant forall h :: i <= h < |hooks| ==> hooks[h].Some?
      invariant forall all: seq<Hook> :: |all| == |hooks| && (forall h :: i <= h < |all| ==> hooks[h] == Some(all[h])) ==>
                  mut == Onion(all, i, dbOk)
    {
      i := i - 1;
      if hooks[i].None? {
        return Uninitialized;
      }
      mut := WrapHook(hooks[i].value, i, mut);
    }
    r := Ran(mut(Ours(d)));
    assert mut == Onion(Present(hooks), 0, dbOk);
  }

  /** A single save checks what it writes: whatever the hooks hand on, a row that is written has all
      required fields, and at most one is written. */
  lemma {:induction false} SingleWriteIsComplete(hooks: seq<Hook>, h: nat, dbOk: bool, a: Argument)
    requires h <= |hooks|
    ensures var o := Onion(hooks, h, dbOk)(a);
            o.written.Some? ==> |o.written.value| == 1 && Missing(o.written.value[0]).None?
    decreases |hooks| - h
  {
    if h < |hooks| {
      SingleWriteIsComplete(hooks, h + 1, dbOk, a);
      SingleWriteIsComplete(hooks, h + 1, dbOk, Other);
      if hooks[h].Edit? && a.Ours? {
        SingleWriteIsComplete(hooks, h + 1, dbOk, Ours(hooks[h].change(a.draft)));
      }
      if hooks[h].Swap? {
        SingleWriteIsComplete(hooks, h + 1, dbOk, Ours(hooks[h].other));
      }
    }
  }

  /** What reaches the save through the hooks. */
  function Reaching(hooks: seq<Hook>, h: nat, a: Argument): Argument
    requires h <= |hooks|
    decreases |hooks| - h
  {
    if h == |hooks| then a
    else
      match hooks[h]
      case Edit(change) => Reaching(hooks, h + 1, if a.Ours? then Ours(change(a.draft)) else a)
      case Swap(other) => Reaching(hooks, h + 1, Ours(other))
      case Alien => Reaching(hooks, h + 1, Other)
      case _ => Reaching(hooks, h + 1, a)
  }

  /** What the save at the bottom makes of it: nothing of a mutation of another type, a check that fails,
      or a check and the write of this one draft, after which the mutation is done. */
  function Deed(b: Argument, dbOk: bool): Outcome {
    if b.Other? then Outcome(Some(WrongType), [], None, {})
    else if Missing(b.draft).Some? then Outcome(Some(MissingField(Missing(b.draft).value)), [Checked(0, false)], None, {})
    else if dbOk then Outcome(None, [Checked(0, true), Batch([b.draft], true)], Some([b.draft]), {0})
    else Outcome(Some(Driver), [Checked(0, true), Batch([b.draft], false)], None, {})
  }

  /** With hooks that call their successor once, a single save goes through the same onion: in through
      the hooks in order, the save of what reaches it in the middle, out in the opposite order. */
  lemma {:induction false} SingleEventsAreNested(hooks: seq<Hook>, h: nat, dbOk: bool, a: Argument)
    requires h <= |hooks| && forall k :: 0 <= k < |hooks| ==> Behaves(hooks[k])
    ensures var o, deed := Onion(hooks, h, dbOk)(a), Deed(Reaching(hooks, h, a), dbOk);
            && (o.error, o.written, o.done) == (deed.error, deed.written, deed.done)
            && o.events == Enters(hooks, h) + deed.events + Mirror(Enters(hooks, h), o.error.None?)
    decreases |hooks| - h
  {
    hide Missing;
    if h == |hooks| {
      assert Onion(hooks, h, dbOk)(a) == Deed(a, dbOk);
      assert Onion(hooks, h, dbOk)(a).events == Enters(hooks, h) + Deed(a, dbOk).events + [];
    } else {
      var a' := match hooks[h]
        case Edit(change) => if a.Ours? then Ours(change(a.draft)) else a
        case Swap(other) => Ours(other)
        case Alien => Other
        case _ => a;
      SingleEventsAreNested(hooks, h + 1, dbOk, a');
      var inner, o, deed := Onion(hooks, h + 1, dbOk)(a'), Onion(hooks, h, dbOk)(a), Deed(Reaching(hooks, h, a), dbOk);
      assert Reaching(hooks, h, a) == Reaching(hooks, h + 1, a');
      assert o == Wrapped(inner, 0, h, inner.error);
      MirrorCons(Enter(0, h), Enters(hooks, h + 1), o.error.None?);
      Surround([Enter(0, h)], Enters(hooks, h + 1), deed.events, Mirror(Enters(hooks, h + 1), o.error.None?),
               [Leave(0, h, o.error.None?)]);
    }
  }

  function Enters(hooks: seq<Hook>, h: nat): seq<Event>
    requires h <= |hooks|
    decreases |hooks| - h
  {
    if h == |hooks| then [] else [Enter(0, h)] + Enters(hooks, h + 1)
  }

  /** A batch that is written begins with the drafts that were there before, has one draft for every
      builder, and is there whenever a mutator reports no error. */
  lemma {:induction false} WrittenExtends(plans: seq<Plan>, i: nat, h: nat, c: Cursor, before: seq<Draft>, dbOk: bool)
    requires i < |plans| && h <= |plans[i].hooks| && |before| == i
    ensures var o := Sim(plans, i, h, c, before, dbOk);
            && (o.written.Some? ==> |o.written.value| == |plans| && o.written.value[..i] == before)
            && (o.error.None? ==> o.written.Some?)
    decreases |plans| - i, |plans[i].hooks| - h
  {
    if h < |plans[i].hooks| {
      WrittenExtends(plans, i, h + 1, Through(c, plans[i].hooks[h]), before, dbOk);
    } else if i + 1 < |plans| {
      var drafts := before + [c.passed];
      WrittenExtends(plans, i + 1, 0, AtStart(plans[i + 1]), drafts, dbOk);
      var o := Sim(plans, i + 1, 0, AtStart(plans[i + 1]), drafts, dbOk);
      assert o.written.Some? ==> o.written.value[..i] == o.written.value[..i + 1][..i] == before;
    }
  }

  // ---------------------------------------------------------------- the objects

  /** A mutation as an object: the builder, its hooks and the caller may share it. */
  class Mutation {
    var draft: Draft
    /** The node whose id field the mutation's id points at. */
    var node: Option<nat>
    var done: bool

    constructor (draft: Draft)
      ensures this.draft == draft && node == None && !done
    {
      this.draft, node, done := draft, None, false;
    }
  }

  class Builder {
    var mutation: Mutation
    const hooks: seq<Hook>

    constructor (mutation: Mutation, hooks: seq<Hook>)
      ensures this.mutation == mutation && this.hooks == hooks
    {
      this.mutation, this.hooks := mutation, hooks;
    }

    /** defaults(). */
    method Defaults(now: int)
      modifies mutation
      ensures Keeps(old(mutation.draft), mutation.draft) && FillsIn(old(mutation.draft), mutation.draft, now)
      ensures mutation.draft == Completed(old(mutation.draft), now)
      ensures mutation.done == old(mutation.done) && mutation.node == old(mutation.node)
    {
      var d := mutation.draft;
      if d.createdAt.None? { mutation.draft := mutation.draft.(createdAt := Some(now)); }
      if d.updatedAt.None? { mutation.draft := mutation.draft.(updatedAt := Some(now)); }
      if d.willBePruned.None? { mutation.draft := mutation.draft.(willBePruned := Some(false)); }
      if d.comment.None? { mutation.draft := mutation.draft.(comment := Some("")); }
    }
  }

  /** What a hook hands to its successor. */
  datatype Handed = Archives(mutation: Mutation) | Foreign

  datatype Node = Node(id: int, draft: Draft)
  datatype Spec = Spec(id: Option<int>, draft: Draft)

  /** The node of a draft once the batch is written: its own id, or the one the database generated. */
  function Stored(d: Draft, generated: int): Node {
    Node(if d.id.Some? then d.id.value else generated, d)
  }

  function StoredAll(drafts: seq<Draft>, ids: seq<int>): (r: seq<Option<Node>>)
    requires |drafts| == |ids|
    ensures |r| == |drafts| && forall k :: 0 <= k < |r| ==> r[k] == Some(Stored(drafts[k], ids[k]))
  {
    seq(|drafts|, k requires 0 <= k < |drafts| && |drafts| == |ids| => Some(Stored(drafts[k], ids[k])))
  }

  datatype Saved = Failed(error: Error) | Created(nodes: seq<Option<Node>>)

  function DraftsOf(specs: seq<Option<Spec>>): (r: seq<Draft>)
    requires forall k :: 0 <= k < |specs| ==> specs[k].Some?
    ensures |r| == |specs| && forall k :: 0 <= k < |r| ==> r[k] == specs[k].value.draft
  {
    seq(|specs|, k requires 0 <= k < |specs| && specs[k].Some? => specs[k].value.draft)
  }

  /** What the successor of hook `h` comes to; nothing when it is not called. */
  function InnerOutcome(plans: seq<Plan>, i: nat, h: nat, c: Cursor, before: seq<Draft>, dbOk: bool): Outcome
    requires i < |plans| && h < |plans[i].hooks|
  {
    if plans[i].hooks[h].Refuse? then Outcome(None, [], None, {})
    else Sim(plans, i, h + 1, Through(c, plans[i].hooks[h]), before, dbOk)
  }

  lemma Regroup<T>(a: seq<T>, b: seq<T>, c: seq<T>, d: seq<T>)
    ensures a + b + c + d == a + (b + c + d)
    ensures a + b + c == a + (b + c)
  {
  }

  lemma SimGoesIn(plans: seq<Plan>, i: nat, h: nat, c: Cursor, before: seq<Draft>, dbOk: bool)
    requires i < |plans| && h <= |plans[i].hooks|
    ensures h == |plans[i].hooks| ==> Sim(plans, i, h, c, before, dbOk) == Core(plans, i, c, before, dbOk)
    ensures h < |plans[i].hooks| ==>
              var inner := InnerOutcome(plans, i, h, c, before, dbOk);
              var error := HookError(plans[i].hooks[h], inner.error);
              Sim(plans, i, h, c, before, dbOk) ==
              Outcome(error, [Enter(i, h)] + inner.events + [Leave(i, h, error.None?)], inner.written, inner.done)
  {
  }

  lemma RefusedOutcome(plans: seq<Plan>, i: nat, h: nat, c: Cursor, before: seq<Draft>, dbOk: bool)
    requires i < |plans| && h < |plans[i].hooks| && plans[i].hooks[h].Refuse?
    ensures InnerOutcome(plans, i, h, c, before, dbOk) == Outcome(None, [], None, {})
  {
  }

  /** The next builder's mutator, or the batch after the last one. */
  function NextOutcome(plans: seq<Plan>, i: nat, drafts: seq<Draft>, dbOk: bool): Outcome
    requires i < |plans|
  {
    if i + 1 < |plans| then Sim(plans, i + 1, 0, AtStart(plans[i + 1]), drafts, dbOk)
    else Outcome(if dbOk then None else Some(Driver), [Batch(drafts, dbOk)], if dbOk then Some(drafts) else None, {})
  }

  lemma CoreObjects(plans: seq<Plan>, i: nat, c: Cursor, before: seq<Draft>, dbOk: bool)
    requires i < |plans|
    ensures c.alien ==> Core(plans, i, c, before, dbOk) == Outcome(Some(WrongType), [], None, {})
    ensures !c.alien && Missing(c.held).Some? ==>
              Core(plans, i, c, before, dbOk) ==
              Outcome(Some(MissingField(Missing(c.held).value)), [Checked(i, false)], None, {})
  {
  }

  lemma CoreIsNext(plans: seq<Plan>, i: nat, c: Cursor, before: seq<Draft>, dbOk: bool)
    requires i < |plans| && Objection(c).None?
    ensures var inner := NextOutcome(plans, i, before + [c.passed], dbOk);
            Core(plans, i, c, before, dbOk) ==
            inner.(events := [Checked(i, true)] + inner.events, done := inner.done + if inner.error.None? then {i} else {})
  {
  }

  lemma NextFacts(plans: seq<Plan>, i: nat, drafts: seq<Draft>, dbOk: bool)
    requires i < |plans| && |drafts| == i + 1
    ensures var o := NextOutcome(plans, i, drafts, dbOk);
            && i !in o.done
            && (o.written.Some? ==> |o.written.value| == |plans| && o.written.value[i] == drafts[i])
            && (o.error.None? ==> o.written.Some?)
  {
    if i + 1 < |plans| {
      var c := AtStart(plans[i + 1]);
      DoneIsLater(plans, i + 1, 0, c, drafts, dbOk, i);
      WrittenExtends(plans, i + 1, 0, c, drafts, dbOk);
      var o := Sim(plans, i + 1, 0, c, drafts, dbOk);
      assert o.written.Some? ==> o.written.value[i] == o.written.value[..i + 1][i];
    }
  }

  /** The changes of the hooks, one after the other. */
  function Edited(hooks: seq<Hook>, d: Draft): Draft {
    if hooks == [] then d else Edited(hooks[1..], if hooks[0].Edit? then hooks[0].change(d) else d)
  }

  lemma {:induction false} EditsArrive(hooks: seq<Hook>, h: nat, c: Cursor)
    requires h <= |hooks| && c.same && !c.alien && c.held == c.passed
    requires forall k :: h <= k < |hooks| ==> hooks[k].Pass? || hooks[k].Edit?
    ensures var d := Edited(hooks[h..], c.passed); FoldFrom(hooks, h, c) == Cursor(d, d, true, false)
    decreases |hooks| - h
  {
    if h < |hooks| {
      EditsArrive(hooks, h + 1, Through(c, hooks[h]));
      assert hooks[h..][0] == hooks[h] && hooks[h..][1..] == hooks[h + 1..];
    }
  }

  /** Hooks that only pass the mutation on or change it: each builder hands on the draft with the changes
      made to it, and objects exactly when that is incomplete. */
  lemma EditingPlans(plans: seq<Plan>)
    requires forall k, h :: 0 <= k < |plans| && 0 <= h < |plans[k].hooks| ==> plans[k].hooks[h].Pass? || plans[k].hooks[h].Edit?
    ensures AllBehave(plans)
    ensures forall k :: 0 <= k < |plans| ==> Drafts(plans, 0)[k] == Edited(plans[k].hooks, plans[k].draft)
    ensures FirstObjection(plans, 0).None? <==>
            forall k :: 0 <= k < |plans| ==> Missing(Edited(plans[k].hooks, plans[k].draft)).None?
    ensures FirstObjection(plans, 0).None? ==> ReachesBatch(plans, 0)
  {
    forall k | 0 <= k < |plans| ensures Arrival(plans[k]) == Cursor(Edited(plans[k].hooks, plans[k].draft), Edited(plans[k].hooks, plans[k].draft), true, false) {
      EditsArrive(plans[k].hooks, 0, AtStart(plans[k]));
      assert plans[k].hooks[0..] == plans[k].hooks;
    }
    NobodyObjects(plans, 0);
  }

  /** Through such hooks the rows of a batch are the drafts with the changes made to them, and all of them
      have to be complete. */
  lemma EditsAreWritten(plans: seq<Plan>, dbOk: bool)
    requires plans != []
    requires forall k, h :: 0 <= k < |plans| && 0 <= h < |plans[k].hooks| ==> plans[k].hooks[h].Pass? || plans[k].hooks[h].Edit?
    ensures var o := Sim(plans, 0, 0, AtStart(plans[0]), [], dbOk);
            && (o.error.None? <==> dbOk && forall k :: 0 <= k < |plans| ==> Missing(Edited(plans[k].hooks, plans[k].draft)).None?)
            && (o.written.Some? <==> o.error.None?)
            && (o.written.Some? ==>
                  && |o.written.value| == |plans|
                  && forall k :: 0 <= k < |plans| ==> o.written.value[k] == Edited(plans[k].hooks, plans[k].draft))
  {
    hide Sim;
    hide Edited;
    hide FirstObjection;
    hide Missing;
    EditingPlans(plans);
    AllOrNothing(plans, dbOk);
  }

  /** The same for one archive. */
  lemma {:induction false} SingleEditsAreWritten(hooks: seq<Hook>, h: nat, d: Draft, dbOk: bool)
    requires h <= |hooks|
    requires forall k :: h <= k < |hooks| ==> hooks[k].Pass? || hooks[k].Edit?
    ensures var o, e := Onion(hooks, h, dbOk)(Ours(d)), Edited(hooks[h..], d);
            && (o.error.None? <==> dbOk && Missing(e).None?)
            && o.written == (if dbOk && Missing(e).None? then Some([e]) else None)
    decreases |hooks| - h
  {
    hide Missing;
    if h < |hooks| {
      assert hooks[h..][0] == hooks[h] && hooks[h..][1..] == hooks[h + 1..];
      SingleEditsAreWritten(hooks, h + 1, if hooks[h].Edit? then hooks[h].change(d) else d, dbOk);
    }
  }

  lemma {:induction false} NobodyObjects(plans: seq<Plan>, i: nat)
    requires i <= |plans|
    ensures FirstObjection(plans, i).None? <==> forall k :: i <= k < |plans| ==> Objection(Arrival(plans[k])).None?
    decreases |plans| - i
  {
    if i < |plans| {
      NobodyObjects(plans, i + 1);
    }
  }

  lemma {:induction false} NoEdits(hooks: seq<Hook>, d: Draft)
    requires forall k :: 0 <= k < |hooks| ==> hooks[k].Pass?
    ensures Edited(hooks, d) == d
  {
    if hooks != [] {
      NoEdits(hooks[1..], d);
    }
  }

  lemma DefaultsKeep(d: Draft, now: int)
    ensures Keeps(d, Completed(d, now)) && FillsIn(d, Completed(d, now), now)
  {
  }

  /** A save through hooks that only pass the mutation on. */
  lemma PlainSave(plans: seq<Plan>, drafts: seq<Draft>, now: int)
    requires |plans| == |drafts| > 0
    requires forall k :: 0 <= k < |plans| ==> plans[k].draft == Completed(drafts[k], now)
    requires forall k, h :: 0 <= k < |plans| && 0 <= h < |plans[k].hooks| ==> plans[k].hooks[h].Pass?
    ensures AllBehave(plans)
    ensures FirstObjection(plans, 0).None? <==> forall k :: 0 <= k < |plans| ==> HasRequired(drafts[k])
    ensures forall k :: 0 <= k < |plans| ==> Keeps(drafts[k], Drafts(plans, 0)[k]) && FillsIn(drafts[k], Drafts(plans, 0)[k], now)
  {
    hide Missing;
    hide Completed;
    hide Keeps;
    hide FillsIn;
    hide HasRequired;
    EditingPlans(plans);
    forall k | 0 <= k < |plans|
      ensures Edited(plans[k].hooks, plans[k].draft) == Completed(drafts[k], now)
      ensures Keeps(drafts[k], Completed(drafts[k], now)) && FillsIn(drafts[k], Completed(drafts[k], now), now)
      ensures Missing(Completed(drafts[k], now)).None? <==> HasRequired(drafts[k])
    {
      NoEdits(plans[k].hooks, plans[k].draft);
      DefaultsKeep(drafts[k], now);
      CheckedFields(drafts[k], Completed(drafts[k], now), now);
    }
  }

  /** A save succeeds exactly when the database accepts and the caller has set what is required on every
      mutation.  Then there is one row and one node for each, with everything the caller set, the defaults
      for the rest, and the caller's id or else the generated one; otherwise there is none. */
  ghost predicate SavedAsSet(drafts: seq<Draft>, now: int, ids: seq<int>, dbOk: bool, written: Option<seq<Draft>>, result: Saved) {
    && (result.Created? <==> drafts == [] || (dbOk && forall k :: 0 <= k < |drafts| ==> HasRequired(drafts[k])))
    && (written.Some? <==> result.Created? && drafts != [])
    && (result.Created? && drafts != [] ==>
          && |result.nodes| == |written.value| == |ids| == |drafts|
          && forall k :: 0 <= k < |drafts| ==>
               && Keeps(drafts[k], written.value[k]) && FillsIn(drafts[k], written.value[k], now)
               && result.nodes[k] == Some(Node(if drafts[k].id.Some? then drafts[k].id.value else ids[k], written.value[k])))
  }

  lemma PlainResult(plans: seq<Plan>, drafts: seq<Draft>, now: int, ids: seq<int>, dbOk: bool,
                    written: Option<seq<Draft>>, error: Option<Error>, nodes: seq<Option<Node>>)
    requires |plans| == |drafts| == |ids| > 0
    requires forall k :: 0 <= k < |plans| ==> plans[k].draft == Completed(drafts[k], now)
    requires forall k, h :: 0 <= k < |plans| && 0 <= h < |plans[k].hooks| ==> plans[k].hooks[h].Pass?
    requires error == (if FirstObjection(plans, 0).Some? then FirstObjection(plans, 0) else if dbOk then None else Some(Driver))
    requires written == (if error.Some? then None else Some(Drafts(plans, 0)))
    requires error.None? ==> nodes == StoredAll(Drafts(plans, 0), ids)
    ensures SavedAsSet(drafts, now, ids, dbOk, written, if error.Some? then Failed(error.value) else Created(nodes))
  {
    hide Completed;
    hide HasRequired;
    hide FirstObjection;
    PlainSave(plans, drafts, now);
  }

  class ArchiveCreateBulk {
    const builders: seq<Builder>
    /** The ids the database will generate, one for each row, and whether it accepts the batch. */
    const ids: seq<int>
    const dbOk: bool
    /** An error of the call that made this object. */
    const err: Option<Error>
    var specs: seq<Option<Spec>>
    var nodes: seq<Option<Node>>
    ghost var events: seq<Event>
    ghost var written: Option<seq<Draft>>

    constructor (builders: seq<Builder>, ids: seq<int>, dbOk: bool, err: Option<Error>)
      ensures this.builders == builders && this.ids == ids && this.dbOk == dbOk && this.err == err
      ensures events == [] && written == None
    {
      this.builders, this.ids, this.dbOk, this.err := builders, ids, dbOk, err;
      specs, nodes, events, written := [], [], [], None;
    }

    ghost function Mutations(i: nat): set<object>
      reads builders
    {
      set k | i <= k < |builders| :: builders[k].mutation
    }

    /** The mutations a call of mutator `i` may change. */
    ghost function Held(i: nat, m: Handed): set<object>
      reads builders
    {
      Mutations(i) + if m.Archives? then {m.mutation} else {}
    }

    ghost function BuildersFrom(i: nat): set<object> {
      set k | i <= k < |builders| :: builders[k]
    }

    /** Builders and mutations are different objects, and the tables have their full length. */
    ghost predicate Separate()
      reads this, builders
    {
      && |specs| == |nodes| == |builders| == |ids|
      && (forall j, k :: 0 <= j < k < |builders| ==> builders[j] != builders[k] && builders[j].mutation != builders[k].mutation)
    }

    /** The handed mutation `m` belongs to no builder but `i`, and nothing from `i` on is done. */
    ghost predicate Ready(i: nat, m: Handed)
      reads this, builders, Mutations(0), if m.Archives? then {m.mutation} else {}
    {
      && Separate()
      && (forall k :: i <= k < |builders| ==> !builders[k].mutation.done)
      && (m.Archives? ==> !m.mutation.done && forall k :: 0 <= k < |builders| && k != i ==> builders[k].mutation != m.mutation)
    }

    ghost predicate Matches(i: nat, m: Handed, c: Cursor)
      requires i < |builders|
      reads builders[i], builders[i].mutation, if m.Archives? then {m.mutation} else {}
    {
      && c.held == builders[i].mutation.draft
      && c.alien == m.Foreign?
      && (m.Archives? ==> c.passed == m.mutation.draft && c.same == (m.mutation == builders[i].mutation))
      && (m.Foreign? ==> !c.same)
    }

    /** The plans describe the builders after `i`, and every builder's hooks. */
    ghost predicate Planned(plans: seq<Plan>, i: nat)
      reads builders, Mutations(i)
    {
      && |plans| == |builders|
      && (forall k :: 0 <= k < |plans| ==> plans[k].hooks == builders[k].hooks)
      && (forall k :: i <= k < |plans| ==> plans[k].draft == builders[k].mutation.draft)
    }

    ghost predicate Specified(before: seq<Draft>, n: nat)
      reads this
    {
      n == |before| <= |specs| && forall j :: 0 <= j < n ==> specs[j] == Some(Spec(before[j].id, before[j]))
    }

    ghost predicate Kept(before: seq<Draft>, i: nat, error: Option<Error>)
      reads this
    {
      && i == |before| <= |specs| == |ids|
      && forall k :: 0 <= k < i ==>
           && specs[k].Some? && specs[k].value.draft == before[k]
           && (error.None? ==> specs[k].value.id == OrElse(before[k].id, ids[k]))
    }

    /** The state after a call for the builders from `i` on went as `o` says. */
    ghost predicate Reflects(i: nat, o: Outcome)
      reads this, builders, Mutations(0)
    {
      && Separate()
      && (o.written.Some? ==> |o.written.value| == |builders|)
      && (forall k :: i <= k < |builders| ==> (builders[k].mutation.done <==> k in o.done))
      && (forall k :: i <= k < |builders| && k in o.done ==>
            && o.written.Some?
            && nodes[k] == Some(Stored(o.written.value[k], ids[k]))
            && builders[k].mutation.node == Some(k))
    }

    /** Mutator `i` from its hook `h` on.  Each hook calls its successor from inside its own body. */
    method Mutate(i: nat, h: nat, m: Handed, ghost plans: seq<Plan>, ghost c: Cursor, ghost before: seq<Draft>)
      returns (error: Option<Error>)
      requires i < |builders| && h <= |builders[i].hooks| && written == None
      requires Ready(i, m) && Matches(i, m, c) && Planned(plans, i + 1) && Specified(before, i)
      modifies this, BuildersFrom(i), Held(i, m)
      ensures var o := Sim(plans, i, h, c, before, dbOk);
              && error == o.error && events == old(events) + o.events && written == o.written && Reflects(i, o)
      ensures Kept(before, i, error)
      ensures forall k :: 0 <= k < i ==> nodes[k] == old(nodes[k])
      ensures forall k :: i <= k < |builders| ==> builders[k].mutation in old(Held(i, m)) || fresh(builders[k].mutation)
      decreases |builders| - i, 2 * (|builders[i].hooks| - h) + 1
    {
      hide Sim;
      hide Core;
      hide InnerOutcome;
      SimGoesIn(plans, i, h, c, before, dbOk);
      if h == |builders[i].hooks| {
        error := Innermost(i, m, plans, c, before);
        return;
      }
      error := Around(i, h, m, plans, c, before);
    }

    /** Hook `h` is entered and left. */
    method Around(i: nat, h: nat, m: Handed, ghost plans: seq<Plan>, ghost c: Cursor, ghost before: seq<Draft>)
      returns (error: Option<Error>)
      requires i < |builders| && h < |builders[i].hooks| && written == None
      requires Ready(i, m) && Matches(i, m, c) && Planned(plans, i + 1) && Specified(before, i)
      modifies this, BuildersFrom(i), Held(i, m)
      ensures var inner := InnerOutcome(plans, i, h, c, before, dbOk);
              && error == HookError(builders[i].hooks[h], inner.error)
              && events == old(events) + ([Enter(i, h)] + inner.events + [Leave(i, h, error.None?)])
              && written == inner.written && Reflects(i, inner)
      ensures Kept(before, i, error)
      ensures forall k :: 0 <= k < i ==> nodes[k] == old(nodes[k])
      ensures forall k :: i <= k < |builders| ==> builders[k].mutation in old(Held(i, m)) || fresh(builders[k].mutation)
      decreases |builders| - i, 2 * (|builders[i].hooks| - h), 2
    {
      hide InnerOutcome;
      hide HookError;
      events := events + [Enter(i, h)];
      error := Successor(i, h, m, plans, c, before);
      ghost var inner := InnerOutcome(plans, i, h, c, before, dbOk);
      Regroup(old(events), [Enter(i, h)], inner.events, [Leave(i, h, error.None?)]);
      events := events + [Leave(i, h, error.None?)];
    }

    /** What hook `h` does between being entered and being left. */
    method Successor(i: nat, h: nat, m: Handed, ghost plans: seq<Plan>, ghost c: Cursor, ghost before: seq<Draft>)
      returns (error: Option<Error>)
      requires i < |builders| && h < |builders[i].hooks| && written == None
      requires Ready(i, m) && Matches(i, m, c) && Planned(plans, i + 1) && Specified(before, i)
      modifies this, BuildersFrom(i), Held(i, m)
      ensures var o := InnerOutcome(plans, i, h, c, before, dbOk);
              && error == HookError(builders[i].hooks[h], o.error)
              && events == old(events) + o.events && written == o.written && Reflects(i, o)
      ensures Kept(before, i, error)
      ensures forall k :: 0 <= k < i ==> nodes[k] == old(nodes[k])
      ensures forall k :: i <= k < |builders| ==> builders[k].mutation in old(Held(i, m)) || fresh(builders[k].mutation)
      decreases |builders| - i, 2 * (|builders[i].hooks| - h), 1
    {
      hide InnerOutcome;
      hide Matches;
      var hook := builders[i].hooks[h];
      match hook
      case Refuse(code) =>
        RefusedOutcome(plans, i, h, c, before, dbOk);
        error := Some(FromHook(code));
      case Spoil(code) =>
        error := GoUnchanged(i, h, m, plans, c, before);
        if error.None? { error := Some(FromHook(code)); }
      case Edit(change) =>
        error := EditAndGo(i, h, m, plans, c, before);
      case Swap(other) =>
        error := SwapAndGo(i, h, m, plans, c, before);
      case Alien =>
        error := HandAlien(i, h, m, plans, c, before);
      case Pass =>
        error := GoUnchanged(i, h, m, plans, c, before);
    }

    /** A hook that hands on what it was given. */
    method GoUnchanged(i: nat, h: nat, m: Handed, ghost plans: seq<Plan>, ghost c: Cursor, ghost before: seq<Draft>)
      returns (error: Option<Error>)
      requires i < |builders| && h < |builders[i].hooks| && written == None
      requires Ready(i, m) && Matches(i, m, c) && Planned(plans, i + 1) && Specified(before, i)
      requires builders[i].hooks[h].Spoil? || builders[i].hooks[h].Pass?
      modifies this, BuildersFrom(i), Held(i, m)
      ensures var o := InnerOutcome(plans, i, h, c, before, dbOk);
              && error == o.error
              && events == old(events) + o.events && written == o.written && Reflects(i, o)
      ensures Kept(before, i, error)
      ensures forall k :: 0 <= k < i ==> nodes[k] == old(nodes[k])
      ensures forall k :: i <= k < |builders| ==> builders[k].mutation in old(Held(i, m)) || fresh(builders[k].mutation)
      decreases |builders| - i, 2 * (|builders[i].hooks| - h), 0
    {
      error := Mutate(i, h + 1, m, plans, c, before);
    }

    /** A hook that changes the draft it was given and hands it on. */
    method EditAndGo(i: nat, h: nat, m: Handed, ghost plans: seq<Plan>, ghost c: Cursor, ghost before: seq<Draft>)
      returns (error: Option<Error>)
      requires i < |builders| && h < |builders[i].hooks| && written == None
      requires Ready(i, m) && Matches(i, m, c) && Planned(plans, i + 1) && Specified(before, i)
      requires builders[i].hooks[h].Edit?
      modifies this, BuildersFrom(i), Held(i, m)
      ensures var o := InnerOutcome(plans, i, h, c, before, dbOk);
              && error == o.error
              && events == old(events) + o.events && written == o.written && Reflects(i, o)
      ensures Kept(before, i, error)
      ensures forall k :: 0 <= k < i ==> nodes[k] == old(nodes[k])
      ensures forall k :: i <= k < |builders| ==> builders[k].mutation in old(Held(i, m)) || fresh(builders[k].mutation)
      decreases |builders| - i, 2 * (|builders[i].hooks| - h), 0
    {
      var hook := builders[i].hooks[h];
      if m.Archives? { m.mutation.draft := hook.change(m.mutation.draft); }
      error := Mutate(i, h + 1, m, plans, Through(c, hook), before);
    }

    /** A hook that hands on a mutation of its own. */
    method SwapAndGo(i: nat, h: nat, m: Handed, ghost plans: seq<Plan>, ghost c: Cursor, ghost before: seq<Draft>)
      returns (error: Option<Error>)
      requires i < |builders| && h < |builders[i].hooks| && written == None
      requires Ready(i, m) && Matches(i, m, c) && Planned(plans, i + 1) && Specified(before, i)
      requires builders[i].hooks[h].Swap?
      modifies this, BuildersFrom(i), Held(i, m)
      ensures var o := InnerOutcome(plans, i, h, c, before, dbOk);
              && error == o.error
              && events == old(events) + o.events && written == o.written && Reflects(i, o)
      ensures Kept(before, i, error)
      ensures forall k :: 0 <= k < i ==> nodes[k] == old(nodes[k])
      ensures forall k :: i <= k < |builders| ==> builders[k].mutation in old(Held(i, m)) || fresh(builders[k].mutation)
      decreases |builders| - i, 2 * (|builders[i].hooks| - h), 0
    {
      var hook := builders[i].hooks[h];
      var another := new Mutation(hook.other);
      error := Mutate(i, h + 1, Archives(another), plans, Through(c, hook), before);
    }

    /** A hook that hands on a mutation of another type. */
    method HandAlien(i: nat, h: nat, m: Handed, ghost plans: seq<Plan>, ghost c: Cursor, ghost before: seq<Draft>)
      returns (error: Option<Error>)
      requires i < |builders| && h < |builders[i].hooks| && written == None
      requires Ready(i, m) && Matches(i, m, c) && Planned(plans, i + 1) && Specified(before, i)
      requires builders[i].hooks[h].Alien?
      modifies this, BuildersFrom(i), Held(i, m)
      ensures var o := InnerOutcome(plans, i, h, c, before, dbOk);
              && error == o.error
              && events == old(events) + o.events && written == o.written && Reflects(i, o)
      ensures Kept(before, i, error)
      ensures forall k :: 0 <= k < i ==> nodes[k] == old(nodes[k])
      ensures forall k :: i <= k < |builders| ==> builders[k].mutation in old(Held(i, m)) || fresh(builders[k].mutation)
      decreases |builders| - i, 2 * (|builders[i].hooks| - h), 0
    {
      error := Mutate(i, h + 1, Foreign, plans, Through(c, builders[i].hooks[h]), before);
    }

    /** The mutator proper. */
    method Innermost(i: nat, m: Handed, ghost plans: seq<Plan>, ghost c: Cursor, ghost before: seq<Draft>)
      returns (error: Option<Error>)
      requires i < |builders| && written == None
      requires Ready(i, m) && Matches(i, m, c) && Planned(plans, i + 1) && Specified(before, i)
      modifies this, BuildersFrom(i), Held(i, m)
      ensures var o := Core(plans, i, c, before, dbOk);
              && error == o.error && events == old(events) + o.events && written == o.written && Reflects(i, o)
      ensures Kept(before, i, error)
      ensures forall k :: 0 <= k < i ==> nodes[k] == old(nodes[k])
      ensures forall k :: i <= k < |builders| ==> builders[k].mutation in old(Held(i, m)) || fresh(builders[k].mutation)
      decreases |builders| - i, 0, 3
    {
      hide Core;
      hide NextOutcome;
      hide Missing;
      CoreObjects(plans, i, c, before, dbOk);
      if m.Foreign? {
        return Some(WrongType);
      }
      var missing := Missing(builders[i].mutation.draft);
      if missing.Some? {
        events := events + [Checked(i, false)];
        return Some(MissingField(missing.value));
      }
      error := Approved(i, m, plans, c, before);
    }

    /** The check has passed. */
    method Approved(i: nat, m: Handed, ghost plans: seq<Plan>, ghost c: Cursor, ghost before: seq<Draft>)
      returns (error: Option<Error>)
      requires i < |builders| && written == None && m.Archives? && Objection(c).None?
      requires Ready(i, m) && Matches(i, m, c) && Planned(plans, i + 1) && Specified(before, i)
      modifies this, BuildersFrom(i), Held(i, m)
      ensures var o := Core(plans, i, c, before, dbOk);
              && error == o.error && events == old(events) + o.events && written == o.written && Reflects(i, o)
      ensures Kept(before, i, error)
      ensures forall k :: 0 <= k < i ==> nodes[k] == old(nodes[k])
      ensures forall k :: i <= k < |builders| ==> builders[k].mutation in old(Held(i, m)) || fresh(builders[k].mutation)
      decreases |builders| - i, 0, 2
    {
      hide Core;
      hide NextOutcome;
      CoreIsNext(plans, i, c, before, dbOk);
      events := events + [Checked(i, true)];
      error := Proceed(i, m.mutation, plans, before);
      ghost var inner := NextOutcome(plans, i, before + [c.passed], dbOk);
      Regroup(old(events), [Checked(i, true)], inner.events, []);
    }

    /** The mutator after the check has passed. */
    method Proceed(i: nat, mutation: Mutation, ghost plans: seq<Plan>, ghost before: seq<Draft>)
      returns (error: Option<Error>)
      requires i < |builders| && written == None
      requires Ready(i, Archives(mutation)) && Planned(plans, i + 1) && Specified(before, i)
      modifies this, BuildersFrom(i), Held(i, Archives(mutation))
      ensures var o := NextOutcome(plans, i, before + [old(mutation.draft)], dbOk);
              && error == o.error && events == old(events) + o.events && written == o.written
              && Reflects(i, o.(done := o.done + if o.error.None? then {i} else {}))
      ensures Kept(before, i, error)
      ensures forall k :: 0 <= k < i ==> nodes[k] == old(nodes[k])
      ensures forall k :: i <= k < |builders| ==>
                builders[k].mutation in old(Held(i, Archives(mutation))) || fresh(builders[k].mutation)
      decreases |builders| - i, 0, 1
    {
      ghost var drafts := before + [mutation.draft];
      error := Descend(i, mutation, plans, before);
      hide NextOutcome;
      hide Separate;
      NextFacts(plans, i, drafts, dbOk);
      if error.None? {
        assert Kept(drafts, i + 1, error) && specs[i].value.draft == drafts[i];
        Finish(i, mutation, NextOutcome(plans, i, drafts, dbOk));
      }
    }

    /** The spec of builder `i`, and everything the builders after it do. */
    method Descend(i: nat, mutation: Mutation, ghost plans: seq<Plan>, ghost before: seq<Draft>)
      returns (error: Option<Error>)
      requires i < |builders| && written == None
      requires Ready(i, Archives(mutation)) && Planned(plans, i + 1) && Specified(before, i)
      modifies this, BuildersFrom(i), Mutations(i + 1)
      ensures var o := NextOutcome(plans, i, before + [mutation.draft], dbOk);
              && error == o.error && events == old(events) + o.events && written == o.written && Reflects(i + 1, o)
      ensures Kept(before + [mutation.draft], i + 1, error)
      ensures builders[i].mutation == mutation && unchanged(mutation)
      ensures |nodes| == |builders| && nodes[i] == Some(Node(OrElse(mutation.draft.id, 0).value, mutation.draft))
      ensures forall k :: 0 <= k < i ==> nodes[k] == old(nodes[k])
      ensures forall k :: i < k < |builders| ==> builders[k].mutation in old(Mutations(i + 1)) || fresh(builders[k].mutation)
      decreases |builders| - i, 0, 0
    {
      hide NextOutcome;
      Place(i, mutation, before);
      error := Next(i, plans, before + [mutation.draft]);
    }

    /** builder.mutation = mutation, and createSpec. */
    method Place(i: nat, mutation: Mutation, ghost before: seq<Draft>)
      requires i < |builders| && Ready(i, Archives(mutation)) && Specified(before, i)
      modifies builders[i], this`specs, this`nodes
      ensures builders[i].mutation == mutation && Separate() && Specified(before + [mutation.draft], i + 1)
      ensures forall k :: i < k < |builders| ==> builders[k] != builders[i] && builders[k].mutation != mutation
      ensures nodes == old(nodes)[i := Some(Node(OrElse(mutation.draft.id, 0).value, mutation.draft))]
    {
      builders[i].mutation := mutation;
      var id := mutation.draft.id;
      nodes := nodes[i := Some(Node(if id.Some? then id.value else 0, mutation.draft))];
      specs := specs[i := Some(Spec(id, mutation.draft))];
    }

    /** The next mutator, or the batch after the last one. */
    method Next(i: nat, ghost plans: seq<Plan>, ghost before: seq<Draft>) returns (error: Option<Error>)
      requires i < |builders| && written == None && Separate()
      requires forall k :: i < k < |builders| ==> !builders[k].mutation.done
      requires Planned(plans, i + 1) && Specified(before, i + 1)
      modifies this, BuildersFrom(i + 1), Mutations(i + 1)
      ensures var o := NextOutcome(plans, i, before, dbOk);
              && error == o.error && events == old(events) + o.events && written == o.written && Reflects(i + 1, o)
      ensures Kept(before, i + 1, error)
      ensures forall k :: 0 <= k <= i ==> nodes[k] == old(nodes[k])
      ensures forall k :: i < k < |builders| ==> builders[k].mutation in old(Mutations(i + 1)) || fresh(builders[k].mutation)
      decreases |builders| - i - 1, 2 * (if i + 1 < |builders| then |builders[i + 1].hooks| else 0) + 2
    {
      if i + 1 < |builders| {
        error := Mutate(i + 1, 0, Archives(builders[i + 1].mutation), plans, AtStart(plans[i + 1]), before);
      } else {
        assert DraftsOf(specs) == before;
        error := BatchCreate();
      }
    }

    /** What is left to do once the batch is written: `o` is how the rest of the chain went. */
    method Finish(i: nat, mutation: Mutation, ghost o: Outcome)
      requires i < |builders| && Reflects(i + 1, o) && builders[i].mutation == mutation && i !in o.done
      requires o.written.Some? && o.written.value[i] == mutation.draft
      requires nodes[i] == Some(Node(OrElse(mutation.draft.id, 0).value, mutation.draft))
      requires specs[i] == Some(Spec(OrElse(mutation.draft.id, ids[i]), mutation.draft))
      modifies mutation, this`nodes
      ensures Reflects(i, o.(done := o.done + {i}))
      ensures |nodes| == |old(nodes)| && forall k :: 0 <= k < i ==> nodes[k] == old(nodes[k])
    {
      mutation.node := Some(i);
      if specs[i].value.id.Some? && nodes[i].value.id == 0 {
        nodes := nodes[i := Some(nodes[i].value.(id := specs[i].value.id.value))];
      }
      mutation.done := true;
    }

    /** The write: the database fills in the ids the specs do not give. */
    method BatchCreate() returns (error: Option<Error>)
      requires |specs| == |ids| && forall k :: 0 <= k < |specs| ==> specs[k].Some?
      modifies this`specs, this`events, this`written
      ensures error == if dbOk then None else Some(Driver)
      ensures events == old(events) + [Batch(DraftsOf(old(specs)), dbOk)]
      ensures written == if dbOk then Some(DraftsOf(old(specs))) else old(written)
      ensures |specs| == |old(specs)|
      ensures forall k :: 0 <= k < |specs| ==> specs[k].Some? && specs[k].value.draft == old(specs)[k].value.draft
      ensures forall k :: 0 <= k < |specs| ==>
                specs[k].value.id == if dbOk then OrElse(old(specs)[k].value.id, ids[k]) else old(specs)[k].value.id
    {
      events := events + [Batch(DraftsOf(specs), dbOk)];
      if !dbOk {
        return Some(Driver);
      }
      written := Some(DraftsOf(specs));
      specs := seq(|specs|, k requires 0 <= k < |specs| && |specs| == |ids| && specs[k].Some? reads this =>
        Some(specs[k].value.(id := OrElse(specs[k].value.id, ids[k]))));
      error := None;
    }

    /** The plans a save starts from: every builder's draft with its defaults, and its hooks. */
    ghost function PlansFrom(now: int): (plans: seq<Plan>)
      reads builders, Mutations(0)
      ensures |plans| == |builders|
      ensures forall k :: 0 <= k < |plans| ==> plans[k] == Plan(Completed(builders[k].mutation.draft, now), builders[k].hooks)
    {
      seq(|builders|, k requires 0 <= k < |builders| reads builders, Mutations(0) =>
        Plan(Completed(builders[k].mutation.draft, now), builders[k].hooks))
    }

    /** What is set on the mutations. */
    ghost function DraftsNow(): (drafts: seq<Draft>)
      reads builders, Mutations(0)
      ensures |drafts| == |builders| && forall k :: 0 <= k < |drafts| ==> drafts[k] == builders[k].mutation.draft
    {
      seq(|builders|, k requires 0 <= k < |builders| reads builders, Mutations(0) => builders[k].mutation.draft)
    }

    /** defaults() of every builder. */
    method AllDefaults(now: int)
      requires Separate()
      modifies Mutations(0)
      ensures forall k :: 0 <= k < |builders| ==>
                && builders[k].mutation.draft == old(PlansFrom(now))[k].draft
                && builders[k].mutation.done == old(builders[k].mutation.done)
    {
      var i := 0;
      while i < |builders|
        invariant 0 <= i <= |builders|
        invariant forall k :: 0 <= k < |builders| ==>
                    && builders[k].mutation.done == old(builders[k].mutation.done)
                    && builders[k].mutation.draft ==
                       if k < i then old(PlansFrom(now))[k].draft else old(builders[k].mutation.draft)
      {
        builders[i].Defaults(now);
        i := i + 1;
      }
    }

    /** The part of Save before the first mutator is called. */
    method Prepare(now: int)
      requires |ids| == |builders|
      requires forall j, k :: 0 <= j < k < |builders| ==> builders[j] != builders[k] && builders[j].mutation != builders[k].mutation
      requires forall k :: 0 <= k < |builders| ==> !builders[k].mutation.done
      modifies this`specs, this`nodes, Mutations(0)
      ensures Separate() && Planned(old(PlansFrom(now)), 0) && Specified([], 0)
      ensures |builders| > 0 ==> Ready(0, Archives(builders[0].mutation))
    {
      specs := seq(|builders|, k => None);
      nodes := seq(|builders|, k => None);
      AllDefaults(now);
    }

    /** The call of the first mutator. */
    method Start(ghost plans: seq<Plan>) returns (error: Option<Error>)
      requires |builders| > 0 && written == None && Separate() && Planned(plans, 0) && Specified([], 0)
      requires Ready(0, Archives(builders[0].mutation))
      modifies this, builders, Mutations(0)
      ensures var o := Sim(plans, 0, 0, AtStart(plans[0]), [], dbOk);
              error == o.error && events == old(events) + o.events && written == o.written && Reflects(0, o)
      ensures AllBehave(plans) ==>
                && error == (if FirstObjection(plans, 0).Some? then FirstObjection(plans, 0) else if dbOk then None else Some(Driver))
                && written == (if error.Some? then None else Some(Drafts(plans, 0)))
                && (error.None? ==> nodes == StoredAll(Drafts(plans, 0), ids))
    {
      hide Sim;
      hide FirstObjection;
      error := Mutate(0, 0, Archives(builders[0].mutation), plans, AtStart(plans[0]), []);
      if AllBehave(plans) {
        AllOrNothing(plans, dbOk);
      }
    }

    /** Save: one call of the first mutator creates all archives. */
    method Save(now: int) returns (result: Saved)
      requires |ids| == |builders| && written == None
      requires forall j, k :: 0 <= j < k < |builders| ==> builders[j] != builders[k] && builders[j].mutation != builders[k].mutation
      requires forall k :: 0 <= k < |builders| ==> !builders[k].mutation.done
      modifies this, builders, Mutations(0)
      ensures err.Some? ==> result == Failed(err.value) && events == old(events) && written == None
      ensures err.None? && |builders| == 0 ==> result == Created([]) && events == old(events) && written == None
      ensures err.None? && |builders| > 0 ==>
                var plans := old(PlansFrom(now));
                var o := Sim(plans, 0, 0, AtStart(plans[0]), [], dbOk);
                && events == old(events) + o.events && written == o.written && Reflects(0, o)
                && result == if o.error.Some? then Failed(o.error.value) else Created(nodes)
      ensures var plans := old(PlansFrom(now));
              err.None? && |builders| > 0 && AllBehave(plans) ==>
                && result.Created? == (dbOk && FirstObjection(plans, 0).None?)
                && (result.Created? ==> result.nodes == StoredAll(Drafts(plans, 0), ids))
      ensures err.None? && (forall k, h :: 0 <= k < |builders| && 0 <= h < |builders[k].hooks| ==> builders[k].hooks[h].Pass?) ==>
                SavedAsSet(old(DraftsNow()), now, ids, dbOk, written, result)
    {
      hide SavedAsSet;
      hide Completed;
      hide Sim;
      hide FirstObjection;
      hide AllBehave;
      if err.Some? {
        return Failed(err.value);
      }
      ghost var plans := PlansFrom(now);
      ghost var drafts := DraftsNow();
      Prepare(now);
      if |builders| == 0 {
        NothingSaved(now, ids, dbOk);
        return Created([]);
      }
      var error := Start(plans);
      result := if error.Some? then Failed(error.value) else Created(nodes);
      if forall k, h :: 0 <= k < |plans| && 0 <= h < |plans[k].hooks| ==> plans[k].hooks[h].Pass? {
        PassingBehave(plans);
        PlainResult(plans, drafts, now, ids, dbOk, written, error, nodes);
      }
    }
  }

  lemma PassingBehave(plans: seq<Plan>)
    requires forall k, h :: 0 <= k < |plans| && 0 <= h < |plans[k].hooks| ==> plans[k].hooks[h].Pass?
    ensures AllBehave(plans)
  {
  }

  lemma NothingSaved(now: int, ids: seq<int>, dbOk: bool)
    ensures SavedAsSet([], now, ids, dbOk, None, Created([]))
  {
  }
}
