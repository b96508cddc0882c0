/** Reading what borg prints (backend/borg/prune.go and backend/borg/check.go): the text parser for
    prune messages, and the two select loops that consume stderr while the command runs. */
module BorgOutput {
  import opened Prelude
  import Status = BorgStatus

  // ---------------------------------------------------------------- searching in texts

  predicate HasPrefix(s: string, prefix: string) {
    prefix <= s
  }

  predicate OccursAt(s: string, sub: string, i: nat) {
    i + |sub| <= |s| && s[i..i + |sub|] == sub
  }

  /** strings.Index: the first occurrence, or -1. */
  function Index(s: string, sub: string, from: nat := 0): (i: int)
    requires from <= |s|
    ensures i == -1 || (from <= i && OccursAt(s, sub, i))
    ensures forall j :: from <= j < (if i == -1 then |s| + 1 else i) ==> !OccursAt(s, sub, j)
    decreases |s| - from
  {
    if OccursAt(s, sub, from) then from else if from == |s| then -1 else Index(s, sub, from + 1)
  }

  /** The text up to its first space: strings.Split(s, " ")[0]. */
  function FirstWord(s: string): (w: string)
    ensures ' ' !in w && w <= s && (w == s || s[|w|] == ' ')
  {
    if s == "" || s[0] == ' ' then "" else assert s == [s[0]] + s[1..]; [s[0]] + FirstWord(s[1..])
  }

  // ---------------------------------------------------------------- the parser

  const WOULD_PRUNE := "Would prune"
  const PRUNING := "Pruning"
  const KEEPING := "Keeping"
  const RULE := "(rule: "
  const COLUMN := 45

  /** What becomes of a message; Panics stands for a slice with its bounds in the wrong order. */
  datatype Parsed = Panics | Ignored | Pruned(name: string) | Kept(name: string, reason: string)

  /** parsePruneName. */
  function PruneName(msg: string): string {
    if |msg| < COLUMN then "" else FirstWord(msg[COLUMN..])
  }

  /** parsePruneReason; None when it panics. */
  function PruneReason(msg: string): Option<string> {
    var start, end := Index(msg, RULE), Index(msg, ")");
    if start == -1 || end == -1 then Some("")
    else if end < start + |RULE| then None
    else Some(msg[start + |RULE|..end])
  }

  /** parsePruneOutput. */
  function Parse(msg: string): Parsed {
    if HasPrefix(msg, WOULD_PRUNE) || HasPrefix(msg, PRUNING) then Pruned(PruneName(msg))
    else if HasPrefix(msg, KEEPING) then
      var reason := PruneReason(msg);
      if reason.None? then Panics else Kept(PruneName(msg), reason.value)
    else Ignored
  }

  function Spaces(n: nat): (s: string)
    ensures |s| == n && forall k :: 0 <= k < n ==> s[k] == ' '
  {
    seq(n, _ => ' ')
  }

  /** How borg prints a line: the heading in 44 columns, a space, the name, and what follows it. */
  function Line(heading: string, name: string, rest: string): string {
    heading + Spaces(if |heading| < 44 then 44 - |heading| else 0) + " " + name + rest
  }

  lemma {:induction false} FirstWordOf(w: string, rest: string)
    requires ' ' !in w && (rest == "" || rest[0] == ' ')
    ensures FirstWord(w + rest) == w
  {
    if w == "" {
      assert w + rest == rest;
    } else {
      assert (w + rest)[1..] == w[1..] + rest;
      FirstWordOf(w[1..], rest);
      assert [w[0]] + w[1..] == w;
    }
  }

  /** A name without spaces is read back whenever the heading fits its columns. */
  lemma NameIsRead(heading: string, name: string, rest: string)
    requires |heading| <= 44 && ' ' !in name && (rest == "" || rest[0] == ' ')
    ensures PruneName(Line(heading, name, rest)) == name
  {
    var line := Line(heading, name, rest);
    var left := heading + Spaces(44 - |heading|) + " ";
    assert |left| == COLUMN && line == left + name + rest;
    assert line[COLUMN..] == name + rest;
    FirstWordOf(name, rest);
  }

  /** With a longer heading the result is a word of the heading, whatever the name is. */
  lemma NameIsLost(heading: string, name: string, rest: string)
    requires |heading| > 44
    ensures PruneName(Line(heading, name, rest)) == FirstWord(heading[45..])
  {
    var line := Line(heading, name, rest);
    assert line == heading + (" " + name + rest);
    var tail := heading[COLUMN..];
    assert line[COLUMN..] == tail + (" " + name + rest);
    var w := FirstWord(tail);
    var rest' := tail[|w|..] + (" " + name + rest);
    assert w + rest' == line[COLUMN..];
    FirstWordOf(w, rest');
  }

  lemma FirstIndex(s: string, sub: string, i: nat)
    requires i <= |s| && OccursAt(s, sub, i) && forall j :: 0 <= j < i ==> !OccursAt(s, sub, j)
    ensures Index(s, sub) == i
  {
  }

  /** A one-character text that does not occur in `a` first occurs in a + c + b right after `a`. */
  lemma FirstAfter(a: string, c: char, b: string)
    requires c !in a
    ensures Index(a + [c] + b, [c]) == |a|
  {
    var s := a + [c] + b;
    assert s[|a|..|a| + 1] == [c];
    forall j | 0 <= j < |a| ensures !OccursAt(s, [c], j) {
      assert s[j..j + 1][0] == a[j];
    }
    FirstIndex(s, [c], |a|);
  }

  lemma RuleAfter(a: string, b: string)
    requires '(' !in a
    ensures Index(a + RULE + b, RULE) == |a|
  {
    var s := a + RULE + b;
    assert s[|a|..|a| + |RULE|] == RULE;
    forall j | 0 <= j < |a| ensures !OccursAt(s, RULE, j) {
      if j + |RULE| <= |s| {
        assert s[j..j + |RULE|][0] == a[j];
      }
    }
    FirstIndex(s, RULE, |a|);
  }

  lemma ReasonIsRead(s: string, left: string, rule: string)
    requires '(' !in left && ')' !in left && ')' !in rule
    requires left + RULE + rule + ")" <= s
    ensures PruneReason(s) == Some(rule)
  {
    var tail := s[|left + RULE + rule + ")"|..];
    assert s == left + RULE + (rule + ")" + tail);
    RuleAfter(left, rule + ")" + tail);
    var a := left + RULE + rule;
    FirstAfter(a, ')', tail);
    assert s == a + [')'] + tail;
    assert s[|left| + |RULE|..|a|] == rule;
  }

  /** Print and parse a kept archive: the name and the rule come back, for every rule without a
      parenthesis that closes and every text before it without parentheses. */
  lemma KeptRoundTrip(heading: string, left: string, rule: string, name: string, rest: string)
    requires "Keeping" <= left && '(' !in left && ')' !in left && ')' !in rule
    requires left + "(rule: " + rule + ")" <= heading && |heading| <= 44
    requires ' ' !in name && (rest == "" || rest[0] == ' ')
    ensures Parse(Line(heading, name, rest)) == Kept(name, rule)
  {
    var line := Line(heading, name, rest);
    NameIsRead(heading, name, rest);
    assert heading <= line;
    var p := left + RULE + rule + ")";
    assert p <= line && left <= p;
    ReasonIsRead(line, left, rule);
    KeepingIsNotPruning(line);
  }

  lemma KeepingIsNotPruning(line: string)
    requires HasPrefix(line, KEEPING)
    ensures !HasPrefix(line, WOULD_PRUNE) && !HasPrefix(line, PRUNING)
  {
    assert line[0] == 'K';
    assert WOULD_PRUNE[0] == 'W' && PRUNING[0] == 'P';
  }

  lemma PrunedRoundTrip(heading: string, name: string, rest: string)
    requires "Would prune" <= heading || "Pruning" <= heading
    requires |heading| <= 44 && ' ' !in name && (rest == "" || rest[0] == ' ')
    ensures Parse(Line(heading, name, rest)) == Pruned(name)
  {
    NameIsRead(heading, name, rest);
    assert heading <= Line(heading, name, rest);
  }

  /** The parser panics exactly on a message about a kept archive whose first ")" comes before the end
      of its first "(rule: ". */
  lemma PanicsExactly(msg: string)
    ensures Parse(msg).Panics? <==>
            HasPrefix(msg, KEEPING) && exists i: nat, j: nat ::
              && OccursAt(msg, RULE, i) && (forall k :: 0 <= k < i ==> !OccursAt(msg, RULE, k))
              && j < i + |RULE| && OccursAt(msg, ")", j)
  {
    if HasPrefix(msg, KEEPING) {
      KeepingIsNotPruning(msg);
      var i := Index(msg, RULE);
      if i != -1 {
        assert OccursAt(msg, RULE, i);
      }
    }
  }

  /** For example. */
  lemma PanicExample()
    ensures Parse("Keeping) (rule: x").Panics?
  {
    var msg := "Keeping) (rule: x";
    assert msg[9..16] == RULE && msg[7..8] == ")";
    assert forall k :: 0 <= k < 9 ==> msg[k] != '(';
    assert forall k :: 0 <= k < 9 && OccursAt(msg, RULE, k) ==> msg[k..k + 7][0] == '(';
    assert OccursAt(msg, RULE, 9) && OccursAt(msg, ")", 7);
    PanicsExactly(msg);
  }

  // ---------------------------------------------------------------- the prune decoder

  /** One line of stderr, as far as the JSON decoding goes. */
  datatype Data = NotJson | OtherType | BadLog | Log(level: string, message: string)

  /** Which of its ready cases a select takes. */
  datatype Choice = FromStdout | FromStderr | FromDone

  datatype PruneResult = PruneResult(isDryRun: bool, pruned: seq<string>, kept: seq<(string, string)>)

  /** What has happened to the channel, and whether the decoder panicked. */
  datatype Decoded = Decoded(sent: seq<PruneResult>, closed: bool, panicked: bool)

  /** What `f` makes of the elements, one after the other. */
  function Collected<U>(s: seq<Data>, f: Data -> seq<U>): seq<U> {
    if s == [] then [] else Collected(s[..|s| - 1], f) + f(s[|s| - 1])
  }

  lemma {:induction false} CollectedAppend<U>(s: seq<Data>, t: seq<Data>, f: Data -> seq<U>)
    ensures Collected(s + t, f) == Collected(s, f) + Collected(t, f)
    decreases |t|
  {
    if t == [] {
      assert s + t == s;
    } else {
      var u, n := s + t, |t| - 1;
      assert u[..|u| - 1] == s + t[..n] && u[|u| - 1] == t[n];
      CollectedAppend(s, t[..n], f);
      assert Collected(u, f) == Collected(s + t[..n], f) + f(t[n]);
    }
  }

  lemma CollectedSnoc<U>(s: seq<Data>, i: nat, f: Data -> seq<U>)
    requires i < |s|
    ensures Collected(s[..i + 1], f) == Collected(s[..i], f) + f(s[i])
  {
    assert s[..i + 1][..i] == s[..i];
  }

  function PrunedOf(d: Data): seq<string> {
    if d.Log? && Parse(d.message).Pruned? then [Parse(d.message).name] else []
  }

  function KeptOf(d: Data): seq<(string, string)> {
    if d.Log? && Parse(d.message).Kept? then [(Parse(d.message).name, Parse(d.message).reason)] else []
  }

  predicate Breaks(d: Data) {
    d.Log? && Parse(d.message).Panics?
  }

  function AllPruned(s: seq<Data>): seq<string> {
    Collected(s, PrunedOf)
  }

  function AllKept(s: seq<Data>): seq<(string, string)> {
    Collected(s, KeptOf)
  }

  /** How often the schedule reads stderr before it takes the Done case. */
  function Reads(schedule: seq<Choice>): nat {
    if schedule == [] || schedule[0].FromDone? then 0
    else (if schedule[0].FromStderr? then 1 else 0) + Reads(schedule[1..])
  }

  function Min(a: nat, b: nat): nat {
    if a <= b then a else b
  }

  /** The lines a schedule consumes; a read after the last line finds the closed channel. */
  function Consumed(stderr: seq<Data>, schedule: seq<Choice>): seq<Data> {
    stderr[..Min(Reads(schedule), |stderr|)]
  }

  /** decodePruneOutput under an arbitrary schedule.  When Done is chosen the decoder has sent exactly
      one result and closed the channel, and the result is the in-order reading of the consumed lines;
      a line that breaks the parser ends everything without a result. */
  method DecodePruneOutput(stderr: seq<Data>, schedule: seq<Choice>, isDryRun: bool) returns (r: Decoded)
    ensures var seen := Consumed(stderr, schedule);
            r == if exists d :: d in seen && Breaks(d) then Decoded([], true, true)
                 else if FromDone in schedule then
                   Decoded([PruneResult(isDryRun, AllPruned(seen), AllKept(seen))], true, false)
                 else Decoded([], false, false)
  {
    hide Breaks;
    hide PrunedOf;
    hide KeptOf;
    hide Collected;
    Nothing(stderr);
    var pruned, kept := [], [];
    var position, i := 0, 0;
    ghost var taken := 0;
    assert schedule[0..] == schedule;
    while i < |schedule|
      invariant 0 <= i <= |schedule| && position == Min(taken, |stderr|)
      invariant taken + Reads(schedule[i..]) == Reads(schedule)
      invariant FromDone !in schedule[..i]
      invariant forall d :: d in stderr[..position] ==> !Breaks(d)
      invariant pruned == AllPruned(stderr[..position]) && kept == AllKept(stderr[..position])
      decreases |schedule| - i
    {
      assert schedule[i..][1..] == schedule[i + 1..];
      match schedule[i] {
      case FromStdout =>
      case FromStderr =>
        if position < |stderr| {
          var d := stderr[position];
          CollectedSnoc(stderr, position, PrunedOf);
          CollectedSnoc(stderr, position, KeptOf);
          assert stderr[..position + 1] == stderr[..position] + [d];
          if Breaks(d) {
            BreaksLater(stderr, schedule, taken, position);
            return Decoded([], true, true);
          }
          pruned, kept := pruned + PrunedOf(d), kept + KeptOf(d);
          position := position + 1;
        }
        taken := taken + 1;
      case FromDone =>
        assert FromDone in schedule;
        return Decoded([PruneResult(isDryRun, pruned, kept)], true, false);
      }
      i := i + 1;
    }
    assert schedule[..i] == schedule;
    r := Decoded([], false, false);
  }

  lemma Nothing(stderr: seq<Data>)
    ensures AllPruned(stderr[..0]) == [] && AllKept(stderr[..0]) == []
  {
  }

  lemma BreaksLater(stderr: seq<Data>, schedule: seq<Choice>, taken: nat, position: nat)
    requires position < |stderr| && position <= taken < Reads(schedule) && Breaks(stderr[position])
    ensures exists d :: d in Consumed(stderr, schedule) && Breaks(d)
  {
    assert Consumed(stderr, schedule)[position] == stderr[position];
  }

  /** A line of stderr as borg prints it: about an archive that is kept by a rule, about one that is
      pruned, or about something else. */
  datatype Item =
    | KeptItem(level: string, heading: string, left: string, rule: string, name: string, rest: string)
    | PrunedItem(level: string, heading: string, name: string, rest: string)
    | OtherItem(data: Data)

  function Printed(x: Item): Data {
    match x
    case KeptItem(level, heading, _, _, name, rest) => Log(level, Line(heading, name, rest))
    case PrunedItem(level, heading, name, rest) => Log(level, Line(heading, name, rest))
    case OtherItem(data) => data
  }

  /** The heading fits its columns, names have no spaces, the rule stands in the only parentheses, and a
      line about something else does not begin like the others. */
  predicate IsProper(x: Item) {
    match x
    case KeptItem(_, heading, left, rule, name, rest) =>
      && "Keeping" <= left && '(' !in left && ')' !in left && ')' !in rule
      && left + "(rule: " + rule + ")" <= heading && |heading| <= 44
      && ' ' !in name && (rest == "" || rest[0] == ' ')
    case PrunedItem(_, heading, name, rest) =>
      && ("Would prune" <= heading || "Pruning" <= heading) && |heading| <= 44
      && ' ' !in name && (rest == "" || rest[0] == ' ')
    case OtherItem(data) =>
      data.Log? ==> !("Keeping" <= data.message) && !("Would prune" <= data.message) && !("Pruning" <= data.message)
  }

  /** There are lines of each kind. */
  lemma EachKindIsProper(name: string, rule: string)
    requires ' ' !in name && ')' !in rule && |rule| <= 20
    ensures IsProper(KeptItem("INFO", "Keeping" + "(rule: " + rule + ")", "Keeping", rule, name, ""))
    ensures IsProper(PrunedItem("INFO", "Pruning", name, "")) && IsProper(OtherItem(Log("INFO", "")))
  {
    assert |"Keeping" + "(rule: " + rule + ")"| == |rule| + 15;
  }

  function PrintedAll(items: seq<Item>): (r: seq<Data>)
    ensures |r| == |items| && forall k :: 0 <= k < |items| ==> r[k] == Printed(items[k])
  {
    seq(|items|, k requires 0 <= k < |items| => Printed(items[k]))
  }

  function KeptItems(items: seq<Item>): seq<(string, string)> {
    if items == [] then []
    else
      var x := items[|items| - 1];
      KeptItems(items[..|items| - 1]) + if x.KeptItem? then [(x.name, x.rule)] else []
  }

  function PrunedItems(items: seq<Item>): seq<string> {
    if items == [] then []
    else
      var x := items[|items| - 1];
      PrunedItems(items[..|items| - 1]) + if x.PrunedItem? then [x.name] else []
  }

  lemma ItemIsRead(x: Item)
    requires IsProper(x)
    ensures !Breaks(Printed(x))
    ensures KeptOf(Printed(x)) == if x.KeptItem? then [(x.name, x.rule)] else []
    ensures PrunedOf(Printed(x)) == if x.PrunedItem? then [x.name] else []
  {
    hide PruneName;
    hide PruneReason;
    match x
    case KeptItem(_, heading, left, rule, name, rest) => KeptRoundTrip(heading, left, rule, name, rest);
    case PrunedItem(_, heading, name, rest) => PrunedRoundTrip(heading, name, rest);
    case OtherItem(data) =>
  }

  lemma {:induction false} ItemsAreRead(items: seq<Item>)
    requires forall k :: 0 <= k < |items| ==> IsProper(items[k])
    ensures forall d :: d in PrintedAll(items) ==> !Breaks(d)
    ensures AllKept(PrintedAll(items)) == KeptItems(items) && AllPruned(PrintedAll(items)) == PrunedItems(items)
    decreases |items|
  {
    hide Breaks;
    hide IsProper;
    hide KeptOf;
    hide PrunedOf;
    hide Printed;
    hide Collected;
    Nothing([]);
    if items != [] {
      var n := |items| - 1;
      ItemsAreRead(items[..n]);
      ItemIsRead(items[n]);
      CollectedSnoc(PrintedAll(items), n, KeptOf);
      CollectedSnoc(PrintedAll(items), n, PrunedOf);
      assert PrintedAll(items)[..n + 1] == PrintedAll(items);
      assert PrintedAll(items)[..n] == PrintedAll(items[..n]) && PrintedAll(items)[n] == Printed(items[n]);
      assert PrintedAll(items) == PrintedAll(items[..n]) + [Printed(items[n])];
    }
  }

  /** From what borg prints to the result: when the lines read before Done are such lines, the one result
      lists the archives that are kept with their rules, and those that are pruned, in their order. */
  method DecodePrinted(items: seq<Item>, unread: seq<Data>, schedule: seq<Choice>, isDryRun: bool) returns (r: Decoded)
    requires forall k :: 0 <= k < |items| ==> IsProper(items[k])
    requires unread != [] ==> Reads(schedule) <= |items|
    ensures var n := Min(Reads(schedule), |items|);
            r == if FromDone in schedule then
                   Decoded([PruneResult(isDryRun, PrunedItems(items[..n]), KeptItems(items[..n]))], true, false)
                 else Decoded([], false, false)
  {
    hide Breaks;
    hide AllKept;
    hide AllPruned;
    hide Reads;
    hide IsProper;
    var n := Min(Reads(schedule), |items|);
    r := DecodePruneOutput(PrintedAll(items) + unread, schedule, isDryRun);
    ItemsAreRead(items[..n]);
    assert Consumed(PrintedAll(items) + unread, schedule) == PrintedAll(items[..n]);
  }

  /** No line ends up in both lists, and every line about an archive in one of them. */
  lemma {:induction false} EachLineOnce(s: seq<Data>)
    ensures |AllPruned(s)| + |AllKept(s)| ==
            |Filter(s, (d: Data) => d.Log? && (Parse(d.message).Pruned? || Parse(d.message).Kept?))|
  {
    if s != [] {
      var n := |s| - 1;
      EachLineOnce(s[..n]);
      assert s[..n + 1] == s;
      FilterSnoc(s, n, (d: Data) => d.Log? && (Parse(d.message).Pruned? || Parse(d.message).Kept?));
    }
  }

  /** Done may be chosen while lines are still waiting.  The result is then complete exactly when none
      of the lines left behind is about an archive. */
  lemma WaitingLinesAreLost(stderr: seq<Data>, schedule: seq<Choice>)
    ensures var seen, left := Consumed(stderr, schedule), stderr[|Consumed(stderr, schedule)|..];
            (AllPruned(seen) == AllPruned(stderr) && AllKept(seen) == AllKept(stderr)) <==>
            forall d :: d in left ==> !d.Log? || Parse(d.message).Ignored? || Parse(d.message).Panics?
  {
    var seen, left := Consumed(stderr, schedule), stderr[|Consumed(stderr, schedule)|..];
    assert seen + left == stderr;
    CollectedAppend(seen, left, PrunedOf);
    CollectedAppend(seen, left, KeptOf);
    NothingSaid(left);
  }

  lemma {:induction false} NothingSaid(s: seq<Data>)
    ensures AllPruned(s) == [] && AllKept(s) == [] <==>
            forall d :: d in s ==> !d.Log? || Parse(d.message).Ignored? || Parse(d.message).Panics?
  {
    if s != [] {
      var n := |s| - 1;
      NothingSaid(s[..n]);
      assert s == s[..n] + [s[n]];
    }
  }

  // ---------------------------------------------------------------- the logs of a check

  function ErrorOf(d: Data): seq<string> {
    if d.Log? && d.level == "ERROR" then [d.message] else []
  }

  /** The messages of level ERROR, in order. */
  function Errors(s: seq<Data>): seq<string> {
    Collected(s, ErrorOf)
  }

  /** One message for every log line of that level, in their order. */
  lemma {:induction false} ErrorsAreThose(s: seq<Data>)
    ensures var found := Filter(s, (d: Data) => d.Log? && d.level == "ERROR");
            |Errors(s)| == |found| && forall k :: 0 <= k < |found| ==> found[k].Log? && Errors(s)[k] == found[k].message
    decreases |s|
  {
    if s != [] {
      var n := |s| - 1;
      ErrorsAreThose(s[..n]);
      assert s[..n + 1] == s;
      FilterSnoc(s, n, (d: Data) => d.Log? && d.level == "ERROR");
    }
  }

  /** What can happen next while a check runs: the command exits; the decoder reads stdout or stderr, or
      sees that the command is done; a message passes from the decoder to the collector. */
  datatype Move = Exits | ReadsStdout | ReadsStderr | Delivers | SeesDone

  /** Lines read, message in the decoder's hand, messages collected, command exited, channel closed. */
  datatype Progress = Progress(position: nat, inHand: Option<string>, logs: seq<string>, exited: bool, closed: bool)

  /** One move; one that is not possible now changes nothing.  The channel has no buffer and its reader
      does not look at it before the command has exited. */
  function Next(stderr: seq<Data>, p: Progress, move: Move): Progress {
    match move
    case Exits => p.(exited := true)
    case ReadsStdout => p
    case ReadsStderr =>
      if p.closed || p.inHand.Some? || p.position >= |stderr| then p
      else
        var error := ErrorOf(stderr[p.position]);
        p.(position := p.position + 1, inHand := if error == [] then None else Some(error[0]))
    case Delivers =>
      if p.exited && p.inHand.Some? then p.(logs := p.logs + [p.inHand.value], inHand := None) else p
    case SeesDone => if p.exited && p.inHand.None? then p.(closed := true) else p
  }

  const AT_START := Progress(0, None, [], false, false)

  function Moved(stderr: seq<Data>, moves: seq<Move>): Progress {
    if moves == [] then AT_START else Next(stderr, Moved(stderr, moves[..|moves| - 1]), moves[|moves| - 1])
  }

  /** Collected and in hand together are the errors among the lines read so far. */
  ghost predicate Accounted(stderr: seq<Data>, p: Progress) {
    && p.position <= |stderr|
    && p.logs + (if p.inHand.Some? then [p.inHand.value] else []) == Errors(stderr[..p.position])
    && (p.closed ==> p.exited && p.inHand.None?)
    && (!p.exited ==> p.logs == [])
  }

  /** Whatever the interleaving: collected and in hand together are the errors of a prefix of stderr, in
      order; at the end of the channel all of them are collected; and before the command exits at most
      one error can have been read. */
  lemma {:induction false} LogsArePrefix(stderr: seq<Data>, moves: seq<Move>)
    ensures var p := Moved(stderr, moves);
            && Accounted(stderr, p)
            && (p.closed ==> p.logs == Errors(stderr[..p.position]))
            && (!p.exited ==> |Errors(stderr[..p.position])| <= 1)
  {
    if moves != [] {
      LogsArePrefix(stderr, moves[..|moves| - 1]);
      StepAccounted(stderr, Moved(stderr, moves[..|moves| - 1]), moves[|moves| - 1]);
    }
  }

  lemma StepAccounted(stderr: seq<Data>, p: Progress, move: Move)
    requires Accounted(stderr, p)
    ensures Accounted(stderr, Next(stderr, p, move))
  {
    if p.position < |stderr| {
      CollectedSnoc(stderr, p.position, ErrorOf);
    }
  }

  /** Check and decodeCheckLogs while the command runs. */
  class CheckRun {
    const stderr: seq<Data>
    var position: nat
    var inHand: Option<string>
    var logs: seq<string>
    var exited: bool
    var closed: bool

    ghost function View(): Progress
      reads this
    {
      Progress(position, inHand, logs, exited, closed)
    }

    constructor (stderr: seq<Data>)
      ensures View() == AT_START && this.stderr == stderr
    {
      this.stderr, position, inHand, logs, exited, closed := stderr, 0, None, [], false, false;
    }

    method Step(move: Move)
      modifies this
      ensures View() == Next(stderr, old(View()), move)
    {
      match move
      case Exits =>
        exited := true;
      case ReadsStdout =>
      case ReadsStderr =>
        if !closed && inHand.None? && position < |stderr| {
          var d := stderr[position];
          if d.Log? && d.level == "ERROR" {
            inHand := Some(d.message);
          }
          position := position + 1;
        }
      case Delivers =>
        if exited && inHand.Some? {
          logs := logs + [inHand.value];
          inHand := None;
        }
      case SeesDone =>
        if exited && inHand.None? {
          closed := true;
        }
    }

    method Run(moves: seq<Move>)
      requires View() == AT_START
      modifies this
      ensures View() == Moved(stderr, moves)
      ensures Accounted(stderr, View())
    {
      var i := 0;
      while i < |moves|
        invariant 0 <= i <= |moves|
        invariant View() == Moved(stderr, moves[..i])
      {
        assert moves[..i + 1][..i] == moves[..i];
        Step(moves[i]);
        i := i + 1;
      }
      assert moves[..i] == moves;
      LogsArePrefix(stderr, moves);
    }

    /** The end of Check once the channel is closed. */
    method Verdict(t: Status.Tables, err: Option<string>, exit: int, cancelled: bool) returns (r: Status.Status, collected: seq<string>)
      requires Accounted(stderr, View()) && closed
      ensures collected == Errors(stderr[..position])
      ensures cancelled ==> r == Status.CANCELED
      ensures !cancelled ==> (Status.IsClean(r) <==> err.None? && (exit == 0 || (exit == 1 && Errors(stderr[..position]) != [])))
    {
      collected := logs;
      if cancelled {
        return Status.CANCELED, logs;
      }
      r := Status.CheckStatus(t, err, exit, |logs|);
    }
  }
}
