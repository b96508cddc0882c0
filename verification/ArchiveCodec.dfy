/** Writing an archive with its edges and reading it back (createSpec in
    backend/ent/archive_create.go, scanValues and assignValues in backend/ent/archive.go).  The edges to
    the repository and to the backup profile become foreign-key columns, which a query reads only when
    it is told to. */
module ArchiveCodec {
  import opened Prelude
  import BulkCreate

  datatype Column =
    | Id
    | CreatedAt
    | UpdatedAt
    | Name
    | Duration
    | BorgId
    | WillBePruned
    | Comment
    | RepositoryKey
    | BackupProfileKey
    | Other(name: string)

  const COLUMNS: seq<Column> := [Id, CreatedAt, UpdatedAt, Name, Duration, BorgId, WillBePruned, Comment]
  const FOREIGN_KEYS: seq<Column> := [RepositoryKey, BackupProfileKey]

  datatype Cell = Null | IntCell(i: int) | FloatCell(f: real) | BoolCell(b: bool) | TextCell(s: string) | TimeCell(t: int)

  datatype Scanned =
    | NullInt(int_: Option<int>)
    | NullFloat(float_: Option<real>)
    | NullBool(bool_: Option<bool>)
    | NullString(text: Option<string>)
    | NullTime(time: Option<int>)
    | Unknown(cell: Cell)

  /** scanValues and the scanning of one cell: None is a cell of the wrong type. */
  function Scan(c: Column, x: Cell): Option<Scanned> {
    match c
    case Other(_) => Some(Unknown(x))
    case WillBePruned => if x.Null? then Some(NullBool(None)) else if x.BoolCell? then Some(NullBool(Some(x.b))) else None
    case Duration => if x.Null? then Some(NullFloat(None)) else if x.FloatCell? then Some(NullFloat(Some(x.f))) else None
    case Name => ScanText(x)
    case BorgId => ScanText(x)
    case Comment => ScanText(x)
    case CreatedAt => ScanTime(x)
    case UpdatedAt => ScanTime(x)
    case _ => if x.Null? then Some(NullInt(None)) else if x.IntCell? then Some(NullInt(Some(x.i))) else None
  }

  function ScanText(x: Cell): Option<Scanned> {
    if x.Null? then Some(NullString(None)) else if x.TextCell? then Some(NullString(Some(x.s))) else None
  }

  function ScanTime(x: Cell): Option<Scanned> {
    if x.Null? then Some(NullTime(None)) else if x.TimeCell? then Some(NullTime(Some(x.t))) else None
  }

  /** Which cells the driver takes for a column: null, and those of the column's own type. */
  lemma ScansExactly(c: Column, x: Cell)
    ensures Scan(c, x).Some? <==>
            || x.Null?
            || match c
               case Id | RepositoryKey | BackupProfileKey => x.IntCell?
               case Name | BorgId | Comment => x.TextCell?
               case CreatedAt | UpdatedAt => x.TimeCell?
               case Duration => x.FloatCell?
               case WillBePruned => x.BoolCell?
               case Other(_) => true
  {
  }

  /** An archive's own fields. */
  datatype Node = Node(
    id: int, createdAt: int, updatedAt: int, name: string, duration: real, borgId: string,
    willBePruned: bool, comment: string, repository: Option<int>, backupProfile: Option<int>,
    selectValues: map<string, Scanned>)

  const ZERO := Node(0, 0, 0, "", 0.0, "", false, "", None, None, map[])

  function Or<T>(o: Option<T>, before: T): T {
    if o.Some? then o.value else before
  }

  /** One round of the loop in assignValues; None is an unexpected type. */
  function Assigned(n: Node, c: Column, v: Scanned): Option<Node> {
    match c
    case Id => if v.NullInt? then Some(n.(id := Or(v.int_, 0))) else None
    case CreatedAt => if v.NullTime? then Some(n.(createdAt := Or(v.time, n.createdAt))) else None
    case UpdatedAt => if v.NullTime? then Some(n.(updatedAt := Or(v.time, n.updatedAt))) else None
    case Name => if v.NullString? then Some(n.(name := Or(v.text, n.name))) else None
    case Duration => if v.NullFloat? then Some(n.(duration := Or(v.float_, n.duration))) else None
    case BorgId => if v.NullString? then Some(n.(borgId := Or(v.text, n.borgId))) else None
    case WillBePruned => if v.NullBool? then Some(n.(willBePruned := Or(v.bool_, n.willBePruned))) else None
    case Comment => if v.NullString? then Some(n.(comment := Or(v.text, n.comment))) else None
    case RepositoryKey => if v.NullInt? then Some(n.(repository := if v.int_.Some? then v.int_ else n.repository)) else None
    case BackupProfileKey =>
      if v.NullInt? then Some(n.(backupProfile := if v.int_.Some? then v.int_ else n.backupProfile)) else None
    case Other(name) => Some(n.(selectValues := n.selectValues[name := v]))
  }

  /** The whole of assignValues, from the last column back. */
  function AllAssigned(n: Node, columns: seq<Column>, values: seq<Scanned>): Option<Node>
    requires |columns| <= |values|
  {
    if columns == [] then Some(n)
    else
      var k := |columns| - 1;
      var before := AllAssigned(n, columns[..k], values);
      if before.None? then None else Assigned(before.value, columns[k], values[k])
  }

  /** The value of a field, as a cell; unknown columns have none. */
  function Shown(n: Node, c: Column): Cell {
    match c
    case Id => IntCell(n.id)
    case CreatedAt => TimeCell(n.createdAt)
    case UpdatedAt => TimeCell(n.updatedAt)
    case Name => TextCell(n.name)
    case Duration => FloatCell(n.duration)
    case BorgId => TextCell(n.borgId)
    case WillBePruned => BoolCell(n.willBePruned)
    case Comment => TextCell(n.comment)
    case RepositoryKey => if n.repository.Some? then IntCell(n.repository.value) else Null
    case BackupProfileKey => if n.backupProfile.Some? then IntCell(n.backupProfile.value) else Null
    case Other(_) => Null
  }

  /** The row shows the fields of `n`; a null may stand for a field that is zero. */
  ghost predicate Stored(row: Column -> Cell, n: Node) {
    forall c: Column :: !c.Other? ==> row(c) == Shown(n, c) || (row(c).Null? && !c.Id? && Shown(n, c) == Shown(ZERO, c))
  }

  ghost predicate ScannedFrom(columns: seq<Column>, row: Column -> Cell, values: seq<Scanned>) {
    |values| == |columns| && forall i :: 0 <= i < |columns| ==> Scan(columns[i], row(columns[i])) == Some(values[i])
  }

  lemma AssignedShows(m: Node, n: Node, c: Column, x: Cell, v: Scanned, d: Column)
    requires Scan(c, x) == Some(v) && !d.Other?
    requires c == d ==> x == Shown(n, d) || (x.Null? && !d.Id? && Shown(n, d) == Shown(ZERO, d))
    requires Shown(m, d) == Shown(n, d) || Shown(m, d) == Shown(ZERO, d)
    ensures var r := Assigned(m, c, v); r.Some? && Shown(r.value, d) == if c == d then Shown(n, d) else Shown(m, d)
  {
  }

  /** Decoding what was allocated and scanned never reports an unexpected type, whatever columns are
      read, how often and in what order; a field is the row's if its column is read, and zero if not. */
  lemma {:induction false} DecodingReads(columns: seq<Column>, row: Column -> Cell, values: seq<Scanned>, n: Node, d: Column)
    requires ScannedFrom(columns, row, values) && Stored(row, n) && !d.Other?
    ensures var r := AllAssigned(ZERO, columns, values);
            r.Some? && Shown(r.value, d) == Shown(if d in columns then n else ZERO, d)
  {
    if columns != [] {
      hide Assigned;
      hide Shown;
      hide Scan;
      var k := |columns| - 1;
      var c := columns[k];
      assert columns == columns[..k] + [c];
      DecodingReads(columns[..k], row, values[..k], n, d);
      SameValues(ZERO, columns[..k], values[..k], values);
      AssignedShows(AllAssigned(ZERO, columns[..k], values).value, n, c, row(c), values[k], d);
    }
  }

  lemma {:induction false} SameValues(n: Node, columns: seq<Column>, values: seq<Scanned>, more: seq<Scanned>)
    requires |columns| <= |values| <= |more| && values == more[..|values|]
    ensures AllAssigned(n, columns, values) == AllAssigned(n, columns, more)
  {
    if columns != [] {
      SameValues(n, columns[..|columns| - 1], values, more);
    }
  }

  // ---------------------------------------------------------------- writing

  /** What createSpec puts into the fields and edges of the row. */
  function Written(d: BulkCreate.Draft, c: Column): Option<Cell> {
    match c
    case CreatedAt => if d.createdAt.Some? then Some(TimeCell(d.createdAt.value)) else None
    case UpdatedAt => if d.updatedAt.Some? then Some(TimeCell(d.updatedAt.value)) else None
    case Name => if d.name.Some? then Some(TextCell(d.name.value)) else None
    case Duration => if d.duration.Some? then Some(FloatCell(d.duration.value)) else None
    case BorgId => if d.borgId.Some? then Some(TextCell(d.borgId.value)) else None
    case WillBePruned => if d.willBePruned.Some? then Some(BoolCell(d.willBePruned.value)) else None
    case Comment => if d.comment.Some? then Some(TextCell(d.comment.value)) else None
    case RepositoryKey => if d.repository.Some? then Some(IntCell(d.repository.value)) else None
    case BackupProfileKey => if d.backupProfile.Some? then Some(IntCell(d.backupProfile.value)) else None
    case _ => None
  }

  function Rank(c: Column): nat {
    match c
    case Id => 0
    case CreatedAt => 1
    case UpdatedAt => 2
    case Name => 3
    case Duration => 4
    case BorgId => 5
    case WillBePruned => 6
    case Comment => 7
    case RepositoryKey => 8
    case BackupProfileKey => 9
    case Other(_) => 10
  }

  /** Of the fields written, those of the first `n` columns. */
  function Fields(d: BulkCreate.Draft, n: nat): (r: map<Column, Cell>)
    ensures forall c :: c in r <==> Rank(c) < n && Written(d, c).Some?
    ensures forall c :: c in r ==> Some(r[c]) == Written(d, c)
  {
    assert forall c: Column :: !c.Other? ==> c in FIELDS;
    map c | c in FIELDS && Rank(c) < n && Written(d, c).Some? :: Written(d, c).value
  }

  const FIELDS := COLUMNS + FOREIGN_KEYS

  /** The row in the table: the id, and null where nothing was written. */
  function RowOf(fields: map<Column, Cell>, id: int): Column -> Cell {
    (c: Column) => if c.Id? then IntCell(id) else if c in fields then fields[c] else Null
  }

  /** The node of a draft with the first `n` fields set; what the draft does not have is zero. */
  function NodeUpTo(d: BulkCreate.Draft, n: nat): Node {
    Node(
      if n > 0 then Or(d.id, 0) else 0,
      if n > 1 then Or(d.createdAt, 0) else 0,
      if n > 2 then Or(d.updatedAt, 0) else 0,
      if n > 3 then Or(d.name, "") else "",
      if n > 4 then Or(d.duration, 0.0) else 0.0,
      if n > 5 then Or(d.borgId, "") else "",
      if n > 6 then Or(d.willBePruned, false) else false,
      if n > 7 then Or(d.comment, "") else "",
      if n > 8 then d.repository else None,
      if n > 9 then d.backupProfile else None,
      map[])
  }

  function NodeOf(d: BulkCreate.Draft): Node {
    NodeUpTo(d, 10)
  }

  /** The node has what is set in the draft, field by field, and zero values elsewhere. */
  predicate HasWhatIsSet(d: BulkCreate.Draft, n: Node) {
    && n.id == Or(d.id, 0) && n.createdAt == Or(d.createdAt, 0) && n.updatedAt == Or(d.updatedAt, 0)
    && n.name == Or(d.name, "") && n.duration == Or(d.duration, 0.0) && n.borgId == Or(d.borgId, "")
    && n.willBePruned == Or(d.willBePruned, false) && n.comment == Or(d.comment, "")
    && n.repository == d.repository && n.backupProfile == d.backupProfile && n.selectValues == map[]
  }

  predicate Puts(fields: map<Column, Cell>, c: Column, isSet: bool, value: Cell) {
    if isSet then c in fields && fields[c] == value else c !in fields
  }

  /** Every column is written with what is set for it, and only then. */
  ghost predicate WritesWhatIsSet(d: BulkCreate.Draft, fields: map<Column, Cell>) {
    && Puts(fields, CreatedAt, d.createdAt.Some?, TimeCell(Or(d.createdAt, 0)))
    && Puts(fields, UpdatedAt, d.updatedAt.Some?, TimeCell(Or(d.updatedAt, 0)))
    && Puts(fields, Name, d.name.Some?, TextCell(Or(d.name, "")))
    && Puts(fields, Duration, d.duration.Some?, FloatCell(Or(d.duration, 0.0)))
    && Puts(fields, BorgId, d.borgId.Some?, TextCell(Or(d.borgId, "")))
    && Puts(fields, WillBePruned, d.willBePruned.Some?, BoolCell(Or(d.willBePruned, false)))
    && Puts(fields, Comment, d.comment.Some?, TextCell(Or(d.comment, "")))
    && Puts(fields, RepositoryKey, d.repository.Some?, IntCell(Or(d.repository, 0)))
    && Puts(fields, BackupProfileKey, d.backupProfile.Some?, IntCell(Or(d.backupProfile, 0)))
    && Id !in fields && forall n :: Other(n) !in fields
  }

  lemma NodeHasWhatIsSet(d: BulkCreate.Draft)
    ensures HasWhatIsSet(d, NodeOf(d))
  {
  }

  lemma FieldsAreSet(d: BulkCreate.Draft)
    ensures WritesWhatIsSet(d, Fields(d, 10))
  {
    FieldIsSet(d, CreatedAt);
    FieldIsSet(d, UpdatedAt);
    FieldIsSet(d, Name);
    FieldIsSet(d, Duration);
    FieldIsSet(d, BorgId);
    FieldIsSet(d, WillBePruned);
    FieldIsSet(d, Comment);
    FieldIsSet(d, RepositoryKey);
    FieldIsSet(d, BackupProfileKey);
    NothingMore(d);
    hide Fields;
  }

  lemma FieldIsSet(d: BulkCreate.Draft, c: Column)
    requires !c.Other?
    ensures Puts(Fields(d, 10), c, Written(d, c).Some?, if Written(d, c).Some? then Written(d, c).value else Null)
  {
  }

  lemma NothingMore(d: BulkCreate.Draft)
    ensures Id !in Fields(d, 10) && forall n :: Other(n) !in Fields(d, 10)
  {
  }

  lemma RankIsUnique(c: Column)
    requires !c.Other?
    ensures forall b: Column :: Rank(b) == Rank(c) ==> b == c
  {
  }

  lemma NothingWritten(d: BulkCreate.Draft)
    ensures Fields(d, 0) == map[] && NodeUpTo(d, 0) == ZERO
  {
  }

  class Archive {
    var node: Node

    constructor ()
      ensures node == ZERO
    {
      node := ZERO;
    }

    /** createSpec: the fields of the row, and the node that Save returns. */
    method CreateSpec(d: BulkCreate.Draft) returns (fields: map<Column, Cell>)
      requires node == ZERO
      modifies this
      ensures fields == Fields(d, 10) && node == NodeOf(d)
      ensures HasWhatIsSet(d, node) && WritesWhatIsSet(d, fields)
    {
      FieldsAreSet(d);
      NodeHasWhatIsSet(d);
      hide HasWhatIsSet;
      hide WritesWhatIsSet;
      hide Written;
      hide Fields;
      hide NodeUpTo;
      NothingWritten(d);
      fields := SetFirstFields(d);
      fields := SetField(d, BorgId, fields, 5);
      fields := SetField(d, WillBePruned, fields, 6);
      fields := SetField(d, Comment, fields, 7);
      fields := SetField(d, RepositoryKey, fields, 8);
      fields := SetField(d, BackupProfileKey, fields, 9);
    }

    method SetFirstFields(d: BulkCreate.Draft) returns (fields: map<Column, Cell>)
      requires node == NodeUpTo(d, 0) && Fields(d, 0) == map[]
      modifies this
      ensures node == NodeUpTo(d, 5) && fields == Fields(d, 5)
    {
      hide Written;
      hide Fields;
      hide NodeUpTo;
      fields := map[];
      fields := SetField(d, Id, fields, 0);
      fields := SetField(d, CreatedAt, fields, 1);
      fields := SetField(d, UpdatedAt, fields, 2);
      fields := SetField(d, Name, fields, 3);
      fields := SetField(d, Duration, fields, 4);
    }

    /** The statement for one column. */
    method SetField(d: BulkCreate.Draft, c: Column, fields0: map<Column, Cell>, ghost i: nat)
      returns (fields: map<Column, Cell>)
      requires !c.Other? && i == Rank(c) && fields0 == Fields(d, i) && node == NodeUpTo(d, i)
      modifies this
      ensures node == NodeUpTo(d, i + 1)
      ensures fields == Fields(d, i + 1)
    {
      RankIsUnique(c);
      var cell := Written(d, c);
      fields := if cell.Some? then fields0[c := cell.value] else fields0;
      match c {
        case Id => if d.id.Some? { node := node.(id := d.id.value); }
        case CreatedAt => if cell.Some? { node := node.(createdAt := cell.value.t); }
        case UpdatedAt => if cell.Some? { node := node.(updatedAt := cell.value.t); }
        case Name => if cell.Some? { node := node.(name := cell.value.s); }
        case Duration => if cell.Some? { node := node.(duration := cell.value.f); }
        case BorgId => if cell.Some? { node := node.(borgId := cell.value.s); }
        case WillBePruned => if cell.Some? { node := node.(willBePruned := cell.value.b); }
        case Comment => if cell.Some? { node := node.(comment := cell.value.s); }
        case RepositoryKey => if cell.Some? { node := node.(repository := Some(cell.value.i)); }
        case BackupProfileKey => if cell.Some? { node := node.(backupProfile := Some(cell.value.i)); }
        case Other(_) =>
      }
    }

    /** assignValues. */
    method AssignValues(columns: seq<Column>, values: seq<Scanned>) returns (error: bool)
      modifies this
      ensures error <==> |values| < |columns| || AllAssigned(old(node), columns, values).None?
      ensures !error ==> Some(node) == AllAssigned(old(node), columns, values)
    {
      if |values| < |columns| {
        return true;
      }
      var i := 0;
      while i < |columns|
        invariant 0 <= i <= |columns|
        invariant AllAssigned(old(node), columns[..i], values) == Some(node)
      {
        assert columns[..i + 1][..i] == columns[..i];
        var next := Assigned(node, columns[i], values[i]);
        if next.None? {
          StaysBroken(old(node), columns, values, i + 1);
          return true;
        }
        node := next.value;
        i := i + 1;
      }
      assert columns[..i] == columns;
      return false;
    }
  }

  lemma {:induction false} StaysBroken(n: Node, columns: seq<Column>, values: seq<Scanned>, i: nat)
    requires i <= |columns| <= |values| && AllAssigned(n, columns[..i], values).None?
    ensures AllAssigned(n, columns, values).None?
    decreases |columns|
  {
    if i < |columns| {
      var k := |columns| - 1;
      assert columns[..k][..i] == columns[..i];
      StaysBroken(n, columns[..k], values, i);
    } else {
      assert columns[..i] == columns;
    }
  }

  lemma NodeShows(d: BulkCreate.Draft, c: Column)
    requires !c.Id? && !c.Other?
    ensures Shown(NodeOf(d), c) == if Written(d, c).Some? then Written(d, c).value else Shown(ZERO, c)
  {
  }

  /** An archive comes back from the database as Save returned it, with the id it was given there.  With
      the foreign keys, that is all of it; without them, the two keys are nil whatever was stored. */
  lemma RoundTrip(d: BulkCreate.Draft, id: int, withFKs: bool, values: seq<Scanned>, c: Column)
    requires !c.Other? && ScannedFrom(COLUMNS + if withFKs then FOREIGN_KEYS else [], RowOf(Fields(d, 10), id), values)
    ensures var r := AllAssigned(ZERO, COLUMNS + if withFKs then FOREIGN_KEYS else [], values);
            var saved := NodeOf(d).(id := id);
            r.Some? && Shown(r.value, c) == if withFKs || (c != RepositoryKey && c != BackupProfileKey) then Shown(saved, c) else Null
  {
    var columns := COLUMNS + if withFKs then FOREIGN_KEYS else [];
    var saved := NodeOf(d).(id := id);
    forall c: Column | !c.Other? && !c.Id? ensures
      var x := RowOf(Fields(d, 10), id)(c);
      x == Shown(saved, c) || (x.Null? && Shown(saved, c) == Shown(ZERO, c))
    {
      NodeShows(d, c);
      assert c in FIELDS;
    }
    DecodingReads(columns, RowOf(Fields(d, 10), id), values, saved, c);
    assert c in COLUMNS || c in FOREIGN_KEYS;
    assert c in columns <==> withFKs || c in COLUMNS;
  }

  lemma {:induction false} NothingElse(n: Node, columns: seq<Column>, values: seq<Scanned>)
    requires |columns| <= |values| && forall c :: c in columns ==> !c.Other?
    ensures var r := AllAssigned(n, columns, values); r.Some? ==> r.value.selectValues == n.selectValues
    decreases |columns|
  {
    if columns != [] {
      NothingElse(n, columns[..|columns| - 1], values);
    }
  }

  lemma SameShownIsSame(m: Node, n: Node)
    requires m.selectValues == n.selectValues
    requires forall c: Column :: !c.Other? ==> Shown(m, c) == Shown(n, c)
    ensures m == n
  {
    assert Shown(m, Id) == Shown(n, Id) && Shown(m, CreatedAt) == Shown(n, CreatedAt) && Shown(m, UpdatedAt) == Shown(n, UpdatedAt);
    assert Shown(m, Name) == Shown(n, Name) && Shown(m, Duration) == Shown(n, Duration) && Shown(m, BorgId) == Shown(n, BorgId);
    assert Shown(m, WillBePruned) == Shown(n, WillBePruned) && Shown(m, Comment) == Shown(n, Comment);
    assert Shown(m, RepositoryKey) == Shown(n, RepositoryKey) && Shown(m, BackupProfileKey) == Shown(n, BackupProfileKey);
  }

  /** The whole archive: what the caller has set comes back under the id given by the database, and the
      keys of its edges when they are read. */
  lemma WholeRoundTrip(d: BulkCreate.Draft, id: int, withFKs: bool, values: seq<Scanned>)
    requires ScannedFrom(COLUMNS + if withFKs then FOREIGN_KEYS else [], RowOf(Fields(d, 10), id), values)
    ensures var r := AllAssigned(ZERO, COLUMNS + if withFKs then FOREIGN_KEYS else [], values);
            && r.Some?
            && HasWhatIsSet(if withFKs then d.(id := Some(id)) else d.(id := Some(id), repository := None, backupProfile := None), r.value)
  {
    hide AllAssigned;
    hide Shown;
    hide Fields;
    var columns := COLUMNS + if withFKs then FOREIGN_KEYS else [];
    var d' := if withFKs then d.(id := Some(id)) else d.(id := Some(id), repository := None, backupProfile := None);
    RoundTrip(d, id, withFKs, values, Id);
    var r := AllAssigned(ZERO, columns, values).value;
    NothingElse(ZERO, columns, values);
    forall c: Column | !c.Other? ensures Shown(r, c) == Shown(NodeOf(d'), c) {
      RoundTrip(d, id, withFKs, values, c);
      KeysLeftOut(d, d', id, withFKs, c);
    }
    SameShownIsSame(r, NodeOf(d'));
    NodeHasWhatIsSet(d');
  }

  lemma KeysLeftOut(d: BulkCreate.Draft, d': BulkCreate.Draft, id: int, withFKs: bool, c: Column)
    requires d' == if withFKs then d.(id := Some(id)) else d.(id := Some(id), repository := None, backupProfile := None)
    requires !c.Other?
    ensures Shown(NodeOf(d'), c) ==
            if withFKs || (c != RepositoryKey && c != BackupProfileKey) then Shown(NodeOf(d).(id := id), c) else Null
  {
  }

  /** The last value of a column without a field is kept under its name. */
  lemma {:induction false} OthersAreKept(n: Node, columns: seq<Column>, values: seq<Scanned>, i: nat, name: string)
    requires i < |columns| <= |values| && columns[i] == Other(name) && Other(name) !in columns[i + 1..]
    requires AllAssigned(n, columns, values).Some?
    ensures var m := AllAssigned(n, columns, values).value.selectValues; name in m && m[name] == values[i]
    decreases |columns|
  {
    var k := |columns| - 1;
    if i < k {
      assert columns[k] == columns[i + 1..][k - i - 1];
      assert columns[..k][i + 1..] == columns[i + 1..][..k - i - 1];
      OthersAreKept(n, columns[..k], values, i, name);
    }
  }
}
