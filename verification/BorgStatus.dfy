/** From exit codes to the status of a borg operation (backend/borg/borg.go and
    backend/borg/types/status.go).  The tables of warnings and errors are parameters: what is said here
    holds whatever is in them. */
module BorgStatus {
  import opened Prelude

  datatype Category =
    | Unknown | General | RepositoryCategory | ArchiveCategory | Key | Passphrase | Cache | Lock
    | Connection | Integrity | Backup | Permission | Runtime

  datatype BorgError = BorgError(exitCode: int, message: string, underlying: Option<string>, category: Category)
  datatype Warning = Warning(exitCode: int, message: string, category: Category)
  datatype Status = Status(error: Option<BorgError>, warning: Option<Warning>, canceled: bool)

  const CLEAN := Status(None, None, false)
  const CANCELED := Status(None, None, true)
  const TERMINATED := 143
  const CLOSED_WITH_HINT := 81
  const BROKEN_WITH_HINT := 87

  function Failing(e: BorgError): Status {
    Status(Some(e), None, false)
  }

  function Warned(w: Warning): Status {
    Status(None, Some(w), false)
  }

  datatype Tables = Tables(warnings: seq<Warning>, errors: seq<BorgError>)

  /** The index of the first of `codes` equal to `code`. */
  function First(codes: seq<int>, code: int): (r: Option<nat>)
    ensures r.Some? ==> r.value < |codes| && codes[r.value] == code && code !in codes[..r.value]
    ensures r.None? ==> code !in codes
  {
    if codes == [] then None
    else if codes[0] == code then Some(0)
    else
      var r := First(codes[1..], code);
      assert codes == [codes[0]] + codes[1..];
      if r.None? then None else assert codes[..r.value + 1] == [codes[0]] + codes[1..][..r.value]; Some(r.value + 1)
  }

  function WarningCodes(t: Tables): (r: seq<int>)
    ensures |r| == |t.warnings| && forall i :: 0 <= i < |r| ==> r[i] == t.warnings[i].exitCode
  {
    seq(|t.warnings|, i requires 0 <= i < |t.warnings| => t.warnings[i].exitCode)
  }

  function ErrorCodes(t: Tables): (r: seq<int>)
    ensures |r| == |t.errors| && forall i :: 0 <= i < |r| ==> r[i] == t.errors[i].exitCode
  {
    seq(|t.errors|, i requires 0 <= i < |t.errors| => t.errors[i].exitCode)
  }

  function Digits(n: nat): string {
    if n < 10 then [('0' as int + n) as char] else Digits(n / 10) + Digits(n % 10)
  }

  function UnknownMessage(code: int): string {
    "unknown borg error with exit code " + if code < 0 then "-" + Digits(-code) else Digits(code)
  }

  /** What the code means, table by table. */
  function Classified(t: Tables, code: int, detail: string): Status {
    if code == 0 then CLEAN
    else if code == TERMINATED then CANCELED
    else
      var w, e := First(WarningCodes(t), code), First(ErrorCodes(t), code);
      if w.Some? then Warned(t.warnings[w.value])
      else if e.Some? then
        var error := t.errors[e.value];
        Failing(if code == CLOSED_WITH_HINT || code == BROKEN_WITH_HINT then BorgError(code, detail, None, error.category) else error)
      else Failing(BorgError(code, UnknownMessage(code), None, Unknown))
  }

  /** toBorgResult: two searches through the tables. */
  method ToBorgResult(t: Tables, code: int, detail: string) returns (r: Status)
    ensures r == Classified(t, code, detail)
  {
    if code == 0 { return CLEAN; }
    if code == TERMINATED { return CANCELED; }
    var i := 0;
    while i < |t.warnings|
      invariant 0 <= i <= |t.warnings|
      invariant code !in WarningCodes(t)[..i]
    {
      if t.warnings[i].exitCode == code {
        FirstIs(WarningCodes(t), code, i);
        return Warned(t.warnings[i]);
      }
      i := i + 1;
    }
    assert WarningCodes(t)[..i] == WarningCodes(t);
    i := 0;
    while i < |t.errors|
      invariant 0 <= i <= |t.errors|
      invariant code !in ErrorCodes(t)[..i]
    {
      var e := t.errors[i];
      if e.exitCode == code {
        FirstIs(ErrorCodes(t), code, i);
        if code == CLOSED_WITH_HINT || code == BROKEN_WITH_HINT {
          return Failing(BorgError(e.exitCode, detail, None, e.category));
        }
        return Failing(e);
      }
      i := i + 1;
    }
    assert ErrorCodes(t)[..i] == ErrorCodes(t);
    r := Failing(BorgError(code, UnknownMessage(code), None, Unknown));
  }

  lemma FirstIs(codes: seq<int>, code: int, i: nat)
    requires i < |codes| && codes[i] == code && code !in codes[..i]
    ensures First(codes, code) == Some(i)
  {
    var f := First(codes, code);
    assert code in codes;
    assert forall k :: 0 <= k < i ==> codes[..i][k] == codes[k];
    assert forall k :: 0 <= k < f.value ==> codes[..f.value][k] == codes[k];
  }

  // ---------------------------------------------------------------- what a status says

  predicate IsClean(s: Status) {
    s.error.None? && s.warning.None? && !s.canceled
  }

  function Count(s: Status): nat {
    (if IsClean(s) then 1 else 0) + (if s.canceled then 1 else 0) + (if s.warning.Some? then 1 else 0) +
    (if s.error.Some? then 1 else 0)
  }

  /** Every code has exactly one meaning, whatever the tables hold: 0 is clean and 143 is cancelled even
      if a table lists them; the warnings go before the errors; every other code is an error; and what
      is reported carries the code it was reported for. */
  lemma OneMeaning(t: Tables, code: int, detail: string)
    ensures var s := Classified(t, code, detail);
            && Count(s) == 1
            && (IsClean(s) <==> code == 0)
            && (s.canceled <==> code == 143)
            && (s.warning.Some? <==> code != 0 && code != 143 && exists w :: w in t.warnings && w.exitCode == code)
            && (s.warning.Some? ==> s.warning.value.exitCode == code && s.warning.value in t.warnings)
            && (s.error.Some? ==> s.error.value.exitCode == code)
  {
    var f := First(WarningCodes(t), code);
    if f.Some? {
      assert t.warnings[f.value] in t.warnings;
    } else {
      forall w | w in t.warnings ensures w.exitCode != code {
        var i :| 0 <= i < |t.warnings| && t.warnings[i] == w;
        assert WarningCodes(t)[i] == w.exitCode;
      }
    }
  }

  /** What an error says: codes 81 and 87, where the table has them, bring the output along in place of the
      message; a code no table has is of the unknown category. */
  lemma ErrorSays(t: Tables, code: int, detail: string)
    requires Classified(t, code, detail).error.Some?
    ensures var e := Classified(t, code, detail).error.value;
            if forall x :: x in t.errors ==> x.exitCode != code then e.category == Unknown && e.underlying.None?
            else if code == 81 || code == 87 then
              e.message == detail && e.underlying.None? && exists x :: x in t.errors && x.exitCode == code && x.category == e.category
            else e in t.errors
  {
    var f := First(ErrorCodes(t), code);
    if f.Some? {
      assert t.errors[f.value] in t.errors && t.errors[f.value].exitCode == code;
    } else {
      forall x | x in t.errors ensures x.exitCode != code {
        var i :| 0 <= i < |t.errors| && t.errors[i] == x;
        assert ErrorCodes(t)[i] == x.exitCode;
      }
    }
  }

  /** The first warning in the table with the code of `w`, if any. */
  function Leading(t: Tables, w: Warning): Option<Warning> {
    var f := First(WarningCodes(t), w.exitCode);
    if f.None? then None else Some(t.warnings[f.value])
  }

  /** A warning is ever reported exactly when no other one with its code comes before it in the table
      and the code is neither 0 nor 143. */
  lemma WarningIsReported(t: Tables, w: Warning)
    ensures (exists code, detail :: Classified(t, code, detail).warning == Some(w)) <==>
            w.exitCode != 0 && w.exitCode != TERMINATED && Leading(t, w) == Some(w)
  {
    if w.exitCode != 0 && w.exitCode != TERMINATED && Leading(t, w) == Some(w) {
      assert Classified(t, w.exitCode, "").warning == Some(w);
    }
    forall code, detail | Classified(t, code, detail).warning == Some(w)
      ensures w.exitCode != 0 && w.exitCode != TERMINATED && Leading(t, w) == Some(w)
    {
      OneMeaning(t, code, detail);
    }
  }

  /** An error of the table other than the two with hints is ever reported exactly when it is the first
      with its code, no warning has that code, and the code is neither 0 nor 143. */
  lemma ErrorIsReported(t: Tables, e: BorgError)
    requires e.exitCode != CLOSED_WITH_HINT && e.exitCode != BROKEN_WITH_HINT && e in t.errors
    ensures (exists code, detail :: Classified(t, code, detail).error == Some(e)) <==>
            && e.exitCode != 0 && e.exitCode != TERMINATED
            && (forall w :: w in t.warnings ==> w.exitCode != e.exitCode)
            && t.errors[First(ErrorCodes(t), e.exitCode).value] == e
  {
    var code := e.exitCode;
    OneMeaning(t, code, "");
    assert code in ErrorCodes(t) by {
      var i :| 0 <= i < |t.errors| && t.errors[i] == e;
      assert ErrorCodes(t)[i] == code;
    }
    var f, g := First(WarningCodes(t), code), First(ErrorCodes(t), code);
    if f.Some? {
      assert t.warnings[f.value] in t.warnings;
    }
    if code != 0 && code != TERMINATED && f.None? && t.errors[g.value] == e {
      assert Classified(t, code, "").error == Some(e);
    }
    forall other, detail | Classified(t, other, detail).error == Some(e)
      ensures other == code && code != 0 && code != TERMINATED && f.None? && t.errors[g.value] == e
    {
      OneMeaning(t, other, detail);
    }
    if f.None? {
      forall w | w in t.warnings ensures w.exitCode != code {
        var i :| 0 <= i < |t.warnings| && t.warnings[i] == w;
        assert WarningCodes(t)[i] == w.exitCode;
      }
    }
  }

  const GENERIC := Warning(1, "warning", General)
  const BACKUP := Warning(1, "backup warning", Backup)

  /** The table begins with two warnings for code 1; the second can never be reported. */
  lemma BackupWarningIsNeverReported(t: Tables, code: int, detail: string)
    requires |t.warnings| >= 2 && t.warnings[0] == GENERIC && t.warnings[1] == BACKUP
    ensures Classified(t, code, detail).warning != Some(BACKUP)
  {
    FirstIs(WarningCodes(t), 1, 0);
    assert Leading(t, BACKUP) == Some(GENERIC);
    assert GENERIC.message != BACKUP.message;
    if Classified(t, code, detail).warning == Some(BACKUP) {
      WarningIsReported(t, BACKUP);
    }
  }

  // ---------------------------------------------------------------- the two ways commands are run

  datatype RunError = NoError | NotExit(text: string) | Exit(code: int, text: string)

  function RuntimeFailure(text: string): Status {
    Failing(BorgError(-1, text, Some(text), Runtime))
  }

  /** combinedOutputToStatus. */
  function CombinedOutputToStatus(t: Tables, out: string, err: RunError): Status {
    match err
    case NoError => Classified(t, 0, "")
    case NotExit(text) => if |out| > 0 then RuntimeFailure(out + ": " + text) else RuntimeFailure(text)
    case Exit(code, _) => Classified(t, code, out)
  }

  /** gocmdToStatus. */
  function GocmdToStatus(t: Tables, err: Option<string>, exit: int, detail: string): Status {
    if err.Some? && exit == 0 then RuntimeFailure(err.value) else Classified(t, exit, detail)
  }

  /** The two agree on a command that has run to its end, whatever way it was started. */
  lemma SameStatus(t: Tables, out: string, text: string, code: int)
    ensures CombinedOutputToStatus(t, out, if code == 0 then NoError else Exit(code, text)) ==
            GocmdToStatus(t, None, code, out)
  {
  }

  /** A command that could not be run is reported as an error of its own, with what it printed before. */
  lemma NotRun(t: Tables, out: string, text: string, exit: int, detail: string)
    ensures var s := CombinedOutputToStatus(t, out, NotExit(text));
            && s.error.Some? && s.error.value.exitCode == -1 && s.error.value.category == Runtime
            && s.warning.None? && !s.canceled
            && s.error.value.message == if out == "" then text else out + ": " + text
    ensures var s := GocmdToStatus(t, Some(text), exit, detail);
            if exit == 0 then
              s.error.Some? && s.error.value == BorgError(-1, text, Some(text), Runtime) && s.warning.None? && !s.canceled
            else s == GocmdToStatus(t, None, exit, detail)
    ensures CombinedOutputToStatus(t, out, NoError) == CLEAN
  {
  }

  // ---------------------------------------------------------------- the verdict of a check

  /** The end of Check: problems found count as success of the command. */
  method CheckStatus(t: Tables, err: Option<string>, exit: int, logs: nat) returns (r: Status)
    ensures IsClean(r) <==> err.None? && (exit == 0 || (exit == 1 && logs > 0))
    ensures err.None? && exit == 1 && logs == 0 ==> r == Classified(t, 1, "")
    ensures err.Some? && exit == 1 && logs > 0 ==> r == RuntimeFailure(err.value)
    ensures exit != 1 ==> r == GocmdToStatus(t, err, exit, "")
    ensures r.canceled <==> exit == TERMINATED
  {
    var code := exit;
    if logs > 0 && code == 1 {
      code := 0;
    }
    OneMeaning(t, code, "");
    r := GocmdToStatus(t, err, code, "");
  }
}
