/** Writing a backup profile into a database row and reading it back
    (backend/ent/backupprofile_create.go, backend/ent/backupprofile.go), and the list of columns a
    query asks for (backend/ent/backupprofile_query.go). */
module RowCodec {
  import opened Prelude

  /** Column names; `Other` is any name the entity has no field for. */
  datatype Column =
    | Id
    | CreatedAt
    | UpdatedAt
    | Name
    | Prefix
    | BackupPaths
    | ExcludePaths
    | ExcludeCaches
    | Icon
    | CompressionMode
    | CompressionLevel
    | DataSectionCollapsed
    | ScheduleSectionCollapsed
    | AdvancedSectionCollapsed
    | Other(name: string)

  const COLUMNS: seq<Column> := [
    Id, CreatedAt, UpdatedAt, Name, Prefix, BackupPaths, ExcludePaths, ExcludeCaches, Icon, CompressionMode,
    CompressionLevel, DataSectionCollapsed, ScheduleSectionCollapsed, AdvancedSectionCollapsed]

  /** What a row holds. */
  datatype Cell =
    | Null
    | IntCell(i: int)
    | BoolCell(b: bool)
    | TextCell(s: string)
    | TimeCell(t: int)
    | BlobCell(bytes: string)

  /** What the driver scans a cell into: a nullable of one type. */
  datatype Scanned =
    | NullInt(number: Option<int>)
    | NullBool(flag: Option<bool>)
    | NullString(text: Option<string>)
    | NullTime(time: Option<int>)
    | Bytes(bytes: Option<string>)
    | Unknown(cell: Cell)

  datatype Kind = KInt | KBool | KString | KTime | KBytes | KUnknown

  /** The JSON codec for lists of strings; None is the nil list, and decoding may fail. */
  datatype Json = Json(encode: Option<seq<string>> -> string, decode: string -> Option<Option<seq<string>>>)

  ghost predicate RoundTrips(j: Json) {
    forall v :: j.encode(v) != "" && j.decode(j.encode(v)) == Some(v)
  }

  /** The fields of the entity. */
  datatype Profile = Profile(
    id: int, createdAt: int, updatedAt: int, name: string, prefix: string,
    backupPaths: Option<seq<string>>, excludePaths: Option<seq<string>>, excludeCaches: bool,
    icon: string, compressionMode: string, compressionLevel: Option<int>,
    dataSectionCollapsed: bool, scheduleSectionCollapsed: bool, advancedSectionCollapsed: bool,
    selectValues: map<string, Scanned>)

  const ZERO := Profile(0, 0, 0, "", "", None, None, false, "", "", None, false, false, false, map[])

  datatype DecodeError = Mismatch | UnexpectedType | BadJson

  // ---------------------------------------------------------------- reading

  /** The destination scanValues allocates for a column. */
  function KindOf(c: Column): Kind {
    match c
    case BackupPaths => KBytes
    case ExcludePaths => KBytes
    case ExcludeCaches => KBool
    case DataSectionCollapsed => KBool
    case ScheduleSectionCollapsed => KBool
    case AdvancedSectionCollapsed => KBool
    case Id => KInt
    case CompressionLevel => KInt
    case Name => KString
    case Prefix => KString
    case Icon => KString
    case CompressionMode => KString
    case CreatedAt => KTime
    case UpdatedAt => KTime
    case Other(_) => KUnknown
  }

  /** Scanning one cell; a cell of another type is the driver's error, before decoding starts. */
  function ScanInto(k: Kind, c: Cell): Option<Scanned> {
    match k
    case KInt => if c.Null? then Some(NullInt(None)) else if c.IntCell? then Some(NullInt(Some(c.i))) else None
    case KBool => if c.Null? then Some(NullBool(None)) else if c.BoolCell? then Some(NullBool(Some(c.b))) else None
    case KString => if c.Null? then Some(NullString(None)) else if c.TextCell? then Some(NullString(Some(c.s))) else None
    case KTime => if c.Null? then Some(NullTime(None)) else if c.TimeCell? then Some(NullTime(Some(c.t))) else None
    case KBytes => if c.Null? then Some(Bytes(None)) else if c.BlobCell? then Some(Bytes(Some(c.bytes))) else None
    case KUnknown => Some(Unknown(c))
  }

  /** Which cells the driver takes for a column: null, and those of the column's own type. */
  lemma ScansExactly(c: Column, x: Cell)
    ensures ScanInto(KindOf(c), x).Some? <==>
            || x.Null?
            || match c
               case Id | CompressionLevel => x.IntCell?
               case Name | Prefix | Icon | CompressionMode => x.TextCell?
               case CreatedAt | UpdatedAt => x.TimeCell?
               case BackupPaths | ExcludePaths => x.BlobCell?
               case Other(_) => true
               case _ => x.BoolCell?
  {
  }

  function GetOr<T>(o: Option<T>, default: T): T {
    if o.Some? then o.value else default
  }

  datatype Step = Next(profile: Profile) | Fail(error: DecodeError)

  function AssignList(j: Json, v: Option<string>, before: Option<seq<string>>): Option<Option<seq<string>>> {
    if v.Some? && |v.value| > 0 then j.decode(v.value) else Some(before)
  }

  /** One round of the loop in assignValues. */
  function AssignOne(j: Json, p: Profile, c: Column, v: Scanned): Step {
    match c
    case Id =>
      if !v.NullInt? then Fail(UnexpectedType) else Next(p.(id := GetOr(v.number, 0)))
    case CreatedAt =>
      if !v.NullTime? then Fail(UnexpectedType) else Next(p.(createdAt := GetOr(v.time, p.createdAt)))
    case UpdatedAt =>
      if !v.NullTime? then Fail(UnexpectedType) else Next(p.(updatedAt := GetOr(v.time, p.updatedAt)))
    case Name =>
      if !v.NullString? then Fail(UnexpectedType) else Next(p.(name := GetOr(v.text, p.name)))
    case Prefix =>
      if !v.NullString? then Fail(UnexpectedType) else Next(p.(prefix := GetOr(v.text, p.prefix)))
    case BackupPaths =>
      if !v.Bytes? then Fail(UnexpectedType)
      else
        var l := AssignList(j, v.bytes, p.backupPaths);
        if l.None? then Fail(BadJson) else Next(p.(backupPaths := l.value))
    case ExcludePaths =>
      if !v.Bytes? then Fail(UnexpectedType)
      else
        var l := AssignList(j, v.bytes, p.excludePaths);
        if l.None? then Fail(BadJson) else Next(p.(excludePaths := l.value))
    case ExcludeCaches =>
      if !v.NullBool? then Fail(UnexpectedType) else Next(p.(excludeCaches := GetOr(v.flag, p.excludeCaches)))
    case Icon =>
      if !v.NullString? then Fail(UnexpectedType) else Next(p.(icon := GetOr(v.text, p.icon)))
    case CompressionMode =>
      if !v.NullString? then Fail(UnexpectedType) else Next(p.(compressionMode := GetOr(v.text, p.compressionMode)))
    case CompressionLevel =>
      if !v.NullInt? then Fail(UnexpectedType)
      else Next(p.(compressionLevel := if v.number.Some? then v.number else p.compressionLevel))
    case DataSectionCollapsed =>
      if !v.NullBool? then Fail(UnexpectedType)
      else Next(p.(dataSectionCollapsed := GetOr(v.flag, p.dataSectionCollapsed)))
    case ScheduleSectionCollapsed =>
      if !v.NullBool? then Fail(UnexpectedType)
      else Next(p.(scheduleSectionCollapsed := GetOr(v.flag, p.scheduleSectionCollapsed)))
    case AdvancedSectionCollapsed =>
      if !v.NullBool? then Fail(UnexpectedType)
      else Next(p.(advancedSectionCollapsed := GetOr(v.flag, p.advancedSectionCollapsed)))
    case Other(n) => Next(p.(selectValues := p.selectValues[n := v]))
  }

  /** The whole loop, from an entity already holding `p`. */
  function Assigned(j: Json, p: Profile, columns: seq<Column>, values: seq<Scanned>): Step
    requires |columns| <= |values|
    decreases |columns|
  {
    if columns == [] then Next(p)
    else
      var s := AssignOne(j, p, columns[0], values[0]);
      if s.Fail? then s else Assigned(j, s.profile, columns[1..], values[1..])
  }

  class BackupProfile {
    var id: int
    var createdAt: int
    var updatedAt: int
    var name: string
    var prefix: string
    var backupPaths: Option<seq<string>>
    var excludePaths: Option<seq<string>>
    var excludeCaches: bool
    var icon: string
    var compressionMode: string
    var compressionLevel: Option<int>
    var dataSectionCollapsed: bool
    var scheduleSectionCollapsed: bool
    var advancedSectionCollapsed: bool
    var selectValues: map<string, Scanned>

    function View(): Profile
      reads this
    {
      Profile(id, createdAt, updatedAt, name, prefix, backupPaths, excludePaths, excludeCaches, icon, compressionMode,
              compressionLevel, dataSectionCollapsed, scheduleSectionCollapsed, advancedSectionCollapsed, selectValues)
    }

    constructor ()
      ensures View() == ZERO
    {
      id, createdAt, updatedAt, name, prefix := 0, 0, 0, "", "";
      backupPaths, excludePaths, excludeCaches, icon, compressionMode := None, None, false, "", "";
      compressionLevel, dataSectionCollapsed, scheduleSectionCollapsed := None, false, false;
      advancedSectionCollapsed, selectValues := false, map[];
    }

    /** One round of the loop: the entity keeps its value when it reports an error. */
    method AssignValue(j: Json, c: Column, v: Scanned) returns (error: Option<DecodeError>)
      modifies this
      ensures AssignOne(j, old(View()), c, v) ==
              if error.Some? then Fail(error.value) else Next(View())
      ensures error.Some? ==> View() == old(View())
    {
      if KindOf(c) == KString || KindOf(c) == KTime {
        error := AssignTextOrTime(j, c, v);
      } else if KindOf(c) == KBool || KindOf(c) == KInt {
        error := AssignFlagOrNumber(j, c, v);
      } else {
        error := AssignListOrOther(j, c, v);
      }
    }

    method AssignTextOrTime(j: Json, c: Column, v: Scanned) returns (error: Option<DecodeError>)
      requires KindOf(c) == KString || KindOf(c) == KTime
      modifies this
      ensures AssignOne(j, old(View()), c, v) ==
              if error.Some? then Fail(error.value) else Next(View())
      ensures error.Some? ==> View() == old(View())
    {
      error := None;
      match c {
        case CreatedAt =>
          if !v.NullTime? { return Some(UnexpectedType); }
          if v.time.Some? { createdAt := v.time.value; }
        case UpdatedAt =>
          if !v.NullTime? { return Some(UnexpectedType); }
          if v.time.Some? { updatedAt := v.time.value; }
        case Name =>
          if !v.NullString? { return Some(UnexpectedType); }
          if v.text.Some? { name := v.text.value; }
        case Prefix =>
          if !v.NullString? { return Some(UnexpectedType); }
          if v.text.Some? { prefix := v.text.value; }
        case Icon =>
          if !v.NullString? { return Some(UnexpectedType); }
          if v.text.Some? { icon := v.text.value; }
        case CompressionMode =>
          if !v.NullString? { return Some(UnexpectedType); }
          if v.text.Some? { compressionMode := v.text.value; }
      }
    }

    method AssignFlagOrNumber(j: Json, c: Column, v: Scanned) returns (error: Option<DecodeError>)
      requires KindOf(c) == KBool || KindOf(c) == KInt
      modifies this
      ensures AssignOne(j, old(View()), c, v) ==
              if error.Some? then Fail(error.value) else Next(View())
      ensures error.Some? ==> View() == old(View())
    {
      error := None;
      match c {
        case Id =>
          if !v.NullInt? { return Some(UnexpectedType); }
          id := GetOr(v.number, 0);
        case CompressionLevel =>
          if !v.NullInt? { return Some(UnexpectedType); }
          if v.number.Some? { compressionLevel := Some(v.number.value); }
        case ExcludeCaches =>
          if !v.NullBool? { return Some(UnexpectedType); }
          if v.flag.Some? { excludeCaches := v.flag.value; }
        case DataSectionCollapsed =>
          if !v.NullBool? { return Some(UnexpectedType); }
          if v.flag.Some? { dataSectionCollapsed := v.flag.value; }
        case ScheduleSectionCollapsed =>
          if !v.NullBool? { return Some(UnexpectedType); }
          if v.flag.Some? { scheduleSectionCollapsed := v.flag.value; }
        case AdvancedSectionCollapsed =>
          if !v.NullBool? { return Some(UnexpectedType); }
          if v.flag.Some? { advancedSectionCollapsed := v.flag.value; }
      }
    }

    method AssignListOrOther(j: Json, c: Column, v: Scanned) returns (error: Option<DecodeError>)
      requires KindOf(c) == KBytes || KindOf(c) == KUnknown
      modifies this
      ensures AssignOne(j, old(View()), c, v) ==
              if error.Some? then Fail(error.value) else Next(View())
      ensures error.Some? ==> View() == old(View())
    {
      error := None;
      match c {
        case BackupPaths =>
          if !v.Bytes? { return Some(UnexpectedType); }
          if v.bytes.Some? && |v.bytes.value| > 0 {
            var l := j.decode(v.bytes.value);
            if l.None? { return Some(BadJson); }
            backupPaths := l.value;
          }
        case ExcludePaths =>
          if !v.Bytes? { return Some(UnexpectedType); }
          if v.bytes.Some? && |v.bytes.value| > 0 {
            var l := j.decode(v.bytes.value);
            if l.None? { return Some(BadJson); }
            excludePaths := l.value;
          }
        case Other(n) =>
          selectValues := selectValues[n := v];
      }
    }

    method AssignValues(j: Json, columns: seq<Column>, values: seq<Scanned>) returns (error: Option<DecodeError>)
      modifies this
      ensures |values| < |columns| ==> error == Some(Mismatch)
      ensures |values| >= |columns| ==>
                Assigned(j, old(View()), columns, values) == if error.Some? then Fail(error.value) else Next(View())
    {
      if |values| < |columns| {
        return Some(Mismatch);
      }
      var i := 0;
      while i < |columns|
        invariant 0 <= i <= |columns|
        invariant Assigned(j, View(), columns[i..], values[i..]) == Assigned(j, old(View()), columns, values)
      {
        assert columns[i..][1..] == columns[i + 1..] && values[i..][1..] == values[i + 1..];
        error := AssignValue(j, columns[i], values[i]);
        if error.Some? {
          return;
        }
        i := i + 1;
      }
      return None;
    }
  }

  predicate OfKind(v: Scanned, k: Kind) {
    match k
    case KInt => v.NullInt?
    case KBool => v.NullBool?
    case KString => v.NullString?
    case KTime => v.NullTime?
    case KBytes => v.Bytes?
    case KUnknown => v.Unknown?
  }

  /** A destination of kind `k` is what decoding column `c` asks for: it rejects every value of another
      kind and none of this one, whatever the value and the entity are. */
  ghost predicate Suits(c: Column, k: Kind) {
    if c.Other? then k.KUnknown?
    else forall j, p, v :: AssignOne(j, p, c, v) != Fail(UnexpectedType) <==> OfKind(v, k)
  }

  lemma KindSuits(c: Column)
    ensures Suits(c, KindOf(c))
  {
  }

  /** The loop of scanValues: it allocates what the loop of assignValues accepts. */
  method ScanValues(columns: seq<Column>) returns (kinds: seq<Kind>)
    ensures |kinds| == |columns|
    ensures forall i :: 0 <= i < |columns| ==> Suits(columns[i], kinds[i]) && kinds[i] == KindOf(columns[i])
  {
    kinds := [];
    hide Suits;
    hide KindOf;
    for i := 0 to |columns|
      invariant |kinds| == i
      invariant forall k :: 0 <= k < i ==> Suits(columns[k], kinds[k]) && kinds[k] == KindOf(columns[k])
    {
      KindSuits(columns[i]);
      kinds := kinds + [KindOf(columns[i])];
    }
  }

  // ---------------------------------------------------------------- the columns of a query

  function SelectedColumns(fields: seq<Column>): seq<Column> {
    if fields == [] then COLUMNS else [Id] + Filter(fields, c => c != Id)
  }

  /** The column loop of querySpec. */
  method QueryColumns(fields: seq<Column>) returns (columns: seq<Column>)
    ensures columns == SelectedColumns(fields)
  {
    if |fields| == 0 {
      return COLUMNS;
    }
    columns := [Id];
    assert Filter(fields[..0], c => c != Id) == [];
    hide Filter;
    for i := 0 to |fields|
      invariant columns == [Id] + Filter(fields[..i], c => c != Id)
    {
      FilterSnoc(fields, i, c => c != Id);
      if fields[i] != Id {
        columns := columns + [fields[i]];
      }
    }
    assert fields[..|fields|] == fields;
  }

  /** Whatever fields are selected, every query reads the id, reads it first and reads it once; beside
      it exactly the selected fields are read, and without a selection every field of the entity. */
  lemma IdComesFirst(fields: seq<Column>)
    ensures var cs := SelectedColumns(fields);
            && cs != [] && cs[0] == Id && Id !in cs[1..]
            && (fields != [] ==> forall c :: c in cs <==> c == Id || c in fields)
            && (fields == [] ==> forall c :: c in cs <==> !c.Other?)
  {
    var cs := SelectedColumns(fields);
    if fields != [] {
      assert cs[1..] == Filter(fields, c => c != Id);
    } else {
      assert forall i :: 1 <= i < |COLUMNS| ==> COLUMNS[i] != Id;
      forall c ensures c in COLUMNS <==> !c.Other? {
        AllColumns(c);
      }
    }
  }

  lemma AllColumns(c: Column)
    ensures c in COLUMNS <==> !c.Other?
  {
    if !c.Other? {
      assert COLUMNS[Rank(c)] == c;
    }
  }

  // ---------------------------------------------------------------- writing

  /** A field value as the builder sees it. */
  datatype Value =
    | VInt(i: int)
    | VBool(b: bool)
    | VText(s: string)
    | VTime(t: int)
    | VList(list: Option<seq<string>>)
    | VNumber(number: Option<int>)
    | VNone

  /** The value of the field named by `c`. */
  function Field(p: Profile, c: Column): Value {
    match c
    case Id => VInt(p.id)
    case CreatedAt => VTime(p.createdAt)
    case UpdatedAt => VTime(p.updatedAt)
    case Name => VText(p.name)
    case Prefix => VText(p.prefix)
    case BackupPaths => VList(p.backupPaths)
    case ExcludePaths => VList(p.excludePaths)
    case ExcludeCaches => VBool(p.excludeCaches)
    case Icon => VText(p.icon)
    case CompressionMode => VText(p.compressionMode)
    case CompressionLevel => VNumber(p.compressionLevel)
    case DataSectionCollapsed => VBool(p.dataSectionCollapsed)
    case ScheduleSectionCollapsed => VBool(p.scheduleSectionCollapsed)
    case AdvancedSectionCollapsed => VBool(p.advancedSectionCollapsed)
    case Other(_) => VNone
  }

  /** What a caller has set; every part may be missing. */
  datatype Mutation = Mutation(
    id: Option<int>, createdAt: Option<int>, updatedAt: Option<int>, name: Option<string>, prefix: Option<string>,
    backupPaths: Option<Option<seq<string>>>, excludePaths: Option<Option<seq<string>>>, excludeCaches: Option<bool>,
    icon: Option<string>, compressionMode: Option<string>, compressionLevel: Option<int>,
    dataSectionCollapsed: Option<bool>, scheduleSectionCollapsed: Option<bool>, advancedSectionCollapsed: Option<bool>,
    repositories: seq<int>)

  function SetValue(m: Mutation, c: Column): Option<Value> {
    match c
    case Id => if m.id.Some? then Some(VInt(m.id.value)) else None
    case CreatedAt => if m.createdAt.Some? then Some(VTime(m.createdAt.value)) else None
    case UpdatedAt => if m.updatedAt.Some? then Some(VTime(m.updatedAt.value)) else None
    case Name => if m.name.Some? then Some(VText(m.name.value)) else None
    case Prefix => if m.prefix.Some? then Some(VText(m.prefix.value)) else None
    case BackupPaths => if m.backupPaths.Some? then Some(VList(m.backupPaths.value)) else None
    case ExcludePaths => if m.excludePaths.Some? then Some(VList(m.excludePaths.value)) else None
    case ExcludeCaches => if m.excludeCaches.Some? then Some(VBool(m.excludeCaches.value)) else None
    case Icon => if m.icon.Some? then Some(VText(m.icon.value)) else None
    case CompressionMode => if m.compressionMode.Some? then Some(VText(m.compressionMode.value)) else None
    case CompressionLevel => if m.compressionLevel.Some? then Some(VNumber(m.compressionLevel)) else None
    case DataSectionCollapsed => if m.dataSectionCollapsed.Some? then Some(VBool(m.dataSectionCollapsed.value)) else None
    case ScheduleSectionCollapsed =>
      if m.scheduleSectionCollapsed.Some? then Some(VBool(m.scheduleSectionCollapsed.value)) else None
    case AdvancedSectionCollapsed =>
      if m.advancedSectionCollapsed.Some? then Some(VBool(m.advancedSectionCollapsed.value)) else None
    case Other(_) => None
  }

  /** How the driver stores a written value. */
  function Stored(j: Json, v: Value): Cell {
    match v
    case VInt(i) => IntCell(i)
    case VBool(b) => BoolCell(b)
    case VText(s) => TextCell(s)
    case VTime(t) => TimeCell(t)
    case VList(l) => BlobCell(j.encode(l))
    case VNumber(n) => if n.Some? then IntCell(n.value) else Null
    case VNone => Null
  }

  /** The row the database holds afterwards: the written cells, the identifier it assigned, and NULL
      in every column that was not written. */
  function RowCell(j: Json, fields: map<Column, Value>, id: int, c: Column): Cell {
    if c == Id then IntCell(id) else if c in fields then Stored(j, fields[c]) else Null
  }

  /** The default of a field that has one. */
  function Default(c: Column, now: int): Option<Value> {
    match c
    case CreatedAt => Some(VTime(now))
    case UpdatedAt => Some(VTime(now))
    case BackupPaths => Some(VList(Some([])))
    case ExcludePaths => Some(VList(Some([])))
    case ExcludeCaches => Some(VBool(false))
    case CompressionMode => Some(VText("lz4"))
    case DataSectionCollapsed => Some(VBool(false))
    case ScheduleSectionCollapsed => Some(VBool(false))
    case AdvancedSectionCollapsed => Some(VBool(true))
    case _ => None
  }

  /** `m` with its missing fields filled in where they have a default. */
  function Completed(m: Mutation, now: int): Mutation {
    m.(createdAt := Some(GetOr(m.createdAt, now)),
       updatedAt := Some(GetOr(m.updatedAt, now)),
       backupPaths := Some(GetOr(m.backupPaths, Some([]))),
       excludePaths := Some(GetOr(m.excludePaths, Some([]))),
       excludeCaches := Some(GetOr(m.excludeCaches, false)),
       compressionMode := Some(GetOr(m.compressionMode, "lz4")),
       dataSectionCollapsed := Some(GetOr(m.dataSectionCollapsed, false)),
       scheduleSectionCollapsed := Some(GetOr(m.scheduleSectionCollapsed, false)),
       advancedSectionCollapsed := Some(GetOr(m.advancedSectionCollapsed, true)))
  }

  /** Defaults never replace what the caller has set, and set exactly the fields that have one. */
  lemma DefaultsFillGaps(m: Mutation, now: int, c: Column)
    ensures SetValue(Completed(m, now), c) == if SetValue(m, c).Some? then SetValue(m, c) else Default(c, now)
  {
  }

  /** `p` with the field named by `c` replaced. */
  function Put(p: Profile, c: Column, v: Value): Profile {
    match (c, v)
    case (CreatedAt, VTime(t)) => p.(createdAt := t)
    case (UpdatedAt, VTime(t)) => p.(updatedAt := t)
    case (Name, VText(s)) => p.(name := s)
    case (Prefix, VText(s)) => p.(prefix := s)
    case (BackupPaths, VList(l)) => p.(backupPaths := l)
    case (ExcludePaths, VList(l)) => p.(excludePaths := l)
    case (ExcludeCaches, VBool(b)) => p.(excludeCaches := b)
    case (Icon, VText(s)) => p.(icon := s)
    case (CompressionMode, VText(s)) => p.(compressionMode := s)
    case (CompressionLevel, VNumber(n)) => p.(compressionLevel := n)
    case (DataSectionCollapsed, VBool(b)) => p.(dataSectionCollapsed := b)
    case (ScheduleSectionCollapsed, VBool(b)) => p.(scheduleSectionCollapsed := b)
    case (AdvancedSectionCollapsed, VBool(b)) => p.(advancedSectionCollapsed := b)
    case _ => p
  }

  lemma PutField(m: Mutation, p: Profile, c: Column, d: Column)
    requires SetValue(m, c).Some? && c != Id
    ensures Field(Put(p, c, SetValue(m, c).value), d) == if c == d then SetValue(m, c).value else Field(p, d)
  {
  }

  /** The place of a column in createSpec. */
  function Rank(c: Column): nat {
    match c
    case Id => 0
    case CreatedAt => 1
    case UpdatedAt => 2
    case Name => 3
    case Prefix => 4
    case BackupPaths => 5
    case ExcludePaths => 6
    case ExcludeCaches => 7
    case Icon => 8
    case CompressionMode => 9
    case CompressionLevel => 10
    case DataSectionCollapsed => 11
    case ScheduleSectionCollapsed => 12
    case AdvancedSectionCollapsed => 13
    case Other(_) => 14
  }

  /** createSpec has dealt with the columns before rank `n`: exactly the set ones are to be written,
      with the values set, and the entity shows them. */
  ghost predicate Built(m: Mutation, node: Profile, fields: map<Column, Value>, n: nat) {
    Written(m, fields, n) && Shown(m, node, n)
  }

  ghost predicate Written(m: Mutation, fields: map<Column, Value>, n: nat) {
    && (forall c :: c in fields <==> 0 < Rank(c) < n && SetValue(m, c).Some?)
    && (forall c :: c in fields ==> Some(fields[c]) == SetValue(m, c))
  }

  ghost predicate Shown(m: Mutation, node: Profile, n: nat) {
    forall c :: Field(node, c) == GetOr(if Rank(c) < n then SetValue(m, c) else None, Field(ZERO, c))
  }

  /** The entity has what the caller has set, field by field, and zero values elsewhere. */
  ghost predicate HasWhatIsSet(m: Mutation, id: int, p: Profile) {
    && p.id == id && p.selectValues == map[]
    && p.createdAt == GetOr(m.createdAt, 0) && p.updatedAt == GetOr(m.updatedAt, 0)
    && p.name == GetOr(m.name, "") && p.prefix == GetOr(m.prefix, "") && p.icon == GetOr(m.icon, "")
    && p.backupPaths == GetOr(m.backupPaths, None) && p.excludePaths == GetOr(m.excludePaths, None)
    && p.excludeCaches == GetOr(m.excludeCaches, false)
    && p.compressionMode == GetOr(m.compressionMode, "") && p.compressionLevel == m.compressionLevel
    && p.dataSectionCollapsed == GetOr(m.dataSectionCollapsed, false)
    && p.scheduleSectionCollapsed == GetOr(m.scheduleSectionCollapsed, false)
    && p.advancedSectionCollapsed == GetOr(m.advancedSectionCollapsed, false)
  }

  predicate Puts(fields: map<Column, Value>, c: Column, v: Option<Value>) {
    if c in fields then v == Some(fields[c]) else v.None?
  }

  function Times(v: Option<int>): Option<Value> { if v.Some? then Some(VTime(v.value)) else None }
  function Texts(v: Option<string>): Option<Value> { if v.Some? then Some(VText(v.value)) else None }
  function Flags(v: Option<bool>): Option<Value> { if v.Some? then Some(VBool(v.value)) else None }
  function Lists(v: Option<Option<seq<string>>>): Option<Value> { if v.Some? then Some(VList(v.value)) else None }

  /** Every column is written with what is set for it, and only then. */
  ghost predicate WritesWhatIsSet(m: Mutation, fields: map<Column, Value>) {
    && Puts(fields, CreatedAt, Times(m.createdAt)) && Puts(fields, UpdatedAt, Times(m.updatedAt))
    && Puts(fields, Name, Texts(m.name)) && Puts(fields, Prefix, Texts(m.prefix)) && Puts(fields, Icon, Texts(m.icon))
    && Puts(fields, BackupPaths, Lists(m.backupPaths)) && Puts(fields, ExcludePaths, Lists(m.excludePaths))
    && Puts(fields, ExcludeCaches, Flags(m.excludeCaches)) && Puts(fields, CompressionMode, Texts(m.compressionMode))
    && Puts(fields, CompressionLevel, if m.compressionLevel.Some? then Some(VNumber(m.compressionLevel)) else None)
    && Puts(fields, DataSectionCollapsed, Flags(m.dataSectionCollapsed))
    && Puts(fields, ScheduleSectionCollapsed, Flags(m.scheduleSectionCollapsed))
    && Puts(fields, AdvancedSectionCollapsed, Flags(m.advancedSectionCollapsed))
    && Id !in fields && forall n :: Other(n) !in fields
  }

  /** What the builder's entity and fields come to, field by field. */
  lemma BuiltIsSet(m: Mutation, node: Profile, fields: map<Column, Value>)
    requires Built(m, node, fields, 14) && node.selectValues == map[]
    ensures HasWhatIsSet(m, GetOr(m.id, 0), node) && WritesWhatIsSet(m, fields)
  {
    BuiltWrites(m, fields);
    BuiltShows(m, node);
  }

  lemma BuiltWrites(m: Mutation, fields: map<Column, Value>)
    requires Written(m, fields, 14)
    ensures WritesWhatIsSet(m, fields)
  {
    ColumnOf(m, fields, CreatedAt);
    ColumnOf(m, fields, UpdatedAt);
    ColumnOf(m, fields, Name);
    ColumnOf(m, fields, Prefix);
    ColumnOf(m, fields, BackupPaths);
    ColumnOf(m, fields, ExcludePaths);
    ColumnOf(m, fields, ExcludeCaches);
    ColumnOf(m, fields, Icon);
    ColumnOf(m, fields, CompressionMode);
    ColumnOf(m, fields, CompressionLevel);
    ColumnOf(m, fields, DataSectionCollapsed);
    ColumnOf(m, fields, ScheduleSectionCollapsed);
    ColumnOf(m, fields, AdvancedSectionCollapsed);
    NothingMore(m, fields);
    hide Written;
    hide Puts;
  }

  lemma ColumnOf(m: Mutation, fields: map<Column, Value>, c: Column)
    requires Written(m, fields, 14) && c != Id && !c.Other?
    ensures Puts(fields, c, SetValue(m, c))
  {
  }

  lemma NothingMore(m: Mutation, fields: map<Column, Value>)
    requires Written(m, fields, 14)
    ensures Id !in fields && forall n :: Other(n) !in fields
  {
  }

  lemma BuiltShows(m: Mutation, node: Profile)
    requires Shown(m, node, 14) && node.selectValues == map[]
    ensures HasWhatIsSet(m, GetOr(m.id, 0), node)
  {
    FieldOf(m, node, Id);
    FieldOf(m, node, CreatedAt);
    FieldOf(m, node, UpdatedAt);
    FieldOf(m, node, Name);
    FieldOf(m, node, Prefix);
    FieldOf(m, node, BackupPaths);
    FieldOf(m, node, ExcludePaths);
    FieldOf(m, node, ExcludeCaches);
    FieldOf(m, node, Icon);
    FieldOf(m, node, CompressionMode);
    FieldOf(m, node, CompressionLevel);
    FieldOf(m, node, DataSectionCollapsed);
    FieldOf(m, node, ScheduleSectionCollapsed);
    FieldOf(m, node, AdvancedSectionCollapsed);
  }

  lemma FieldOf(m: Mutation, node: Profile, c: Column)
    requires Shown(m, node, 14) && !c.Other?
    ensures Field(node, c) == GetOr(SetValue(m, c), Field(ZERO, c))
  {
  }

  class BackupProfileCreate {
    var mutation: Mutation

    constructor (mutation: Mutation)
      ensures this.mutation == mutation
    {
      this.mutation := mutation;
    }

    /** defaults(): fills in what the caller left out and has a default. */
    method Defaults(now: int)
      modifies this
      ensures mutation == Completed(old(mutation), now)
    {
      if mutation.createdAt.None? {
        mutation := mutation.(createdAt := Some(now));
      }
      if mutation.updatedAt.None? {
        mutation := mutation.(updatedAt := Some(now));
      }
      if mutation.backupPaths.None? {
        mutation := mutation.(backupPaths := Some(Some([])));
      }
      if mutation.excludePaths.None? {
        mutation := mutation.(excludePaths := Some(Some([])));
      }
      DefaultOptions();
    }

    method DefaultOptions()
      modifies this
      ensures var m := old(mutation);
              mutation == m.(
                excludeCaches := Some(GetOr(m.excludeCaches, false)),
                compressionMode := Some(GetOr(m.compressionMode, "lz4")),
                dataSectionCollapsed := Some(GetOr(m.dataSectionCollapsed, false)),
                scheduleSectionCollapsed := Some(GetOr(m.scheduleSectionCollapsed, false)),
                advancedSectionCollapsed := Some(GetOr(m.advancedSectionCollapsed, true)))
    {
      if mutation.excludeCaches.None? {
        mutation := mutation.(excludeCaches := Some(false));
      }
      if mutation.compressionMode.None? {
        mutation := mutation.(compressionMode := Some("lz4"));
      }
      if mutation.dataSectionCollapsed.None? {
        mutation := mutation.(dataSectionCollapsed := Some(false));
      }
      if mutation.scheduleSectionCollapsed.None? {
        mutation := mutation.(scheduleSectionCollapsed := Some(false));
      }
      if mutation.advancedSectionCollapsed.None? {
        mutation := mutation.(advancedSectionCollapsed := Some(true));
      }
    }

    /** One of the blocks of createSpec: if the field is set it is written and shown. */
    method SetField(c: Column, node: Profile, fields: map<Column, Value>) returns (node': Profile, fields': map<Column, Value>)
      requires 0 < Rank(c) < 14 && Built(mutation, node, fields, Rank(c))
      ensures Built(mutation, node', fields', Rank(c) + 1) && node'.selectValues == node.selectValues
    {
      hide Built;
      hide Put;
      hide SetValue;
      SetFieldBuilds(mutation, c, node, fields);
      PutKeepsOthers(mutation, node, c);
      node', fields' := node, fields;
      var v := SetValue(mutation, c);
      if v.Some? {
        fields' := fields[c := v.value];
        node' := Put(node, c, v.value);
      }
    }

    method BeginSpec() returns (node: Profile, fields: map<Column, Value>)
      ensures Built(mutation, node, fields, 1) && node.selectValues == map[]
    {
      node, fields := ZERO, map[];
      if mutation.id.Some? {
        node := node.(id := mutation.id.value);
      }
    }

    /** createSpec(): the returned entity and the fields to write. */
    method CreateSpec() returns (node: Profile, fields: map<Column, Value>)
      ensures Built(mutation, node, fields, 14)
      ensures HasWhatIsSet(mutation, GetOr(mutation.id, 0), node) && WritesWhatIsSet(mutation, fields)
    {
      hide Built;
      node, fields := BeginSpec();
      node, fields := SetField(CreatedAt, node, fields);
      node, fields := SetField(UpdatedAt, node, fields);
      node, fields := SetField(Name, node, fields);
      node, fields := SetField(Prefix, node, fields);
      node, fields := SetField(BackupPaths, node, fields);
      node, fields := SetField(ExcludePaths, node, fields);
      node, fields := SetOptions(node, fields);
      BuiltIsSet(mutation, node, fields);
    }

    method SetOptions(node0: Profile, fields0: map<Column, Value>) returns (node: Profile, fields: map<Column, Value>)
      requires Built(mutation, node0, fields0, 7)
      ensures Built(mutation, node, fields, 14) && node.selectValues == node0.selectValues
    {
      hide Built;
      node, fields := SetField(ExcludeCaches, node0, fields0);
      node, fields := SetField(Icon, node, fields);
      node, fields := SetField(CompressionMode, node, fields);
      node, fields := SetField(CompressionLevel, node, fields);
      node, fields := SetField(DataSectionCollapsed, node, fields);
      node, fields := SetField(ScheduleSectionCollapsed, node, fields);
      node, fields := SetField(AdvancedSectionCollapsed, node, fields);
    }
  }

  lemma PutKeepsOthers(m: Mutation, p: Profile, c: Column)
    ensures SetValue(m, c).Some? ==> Put(p, c, SetValue(m, c).value).selectValues == p.selectValues
  {
  }

  lemma SetFieldBuilds(m: Mutation, c: Column, node: Profile, fields: map<Column, Value>)
    requires 0 < Rank(c) < 14 && Built(m, node, fields, Rank(c))
    ensures var v := SetValue(m, c);
            if v.Some? then Built(m, Put(node, c, v.value), fields[c := v.value], Rank(c) + 1)
            else Built(m, node, fields, Rank(c) + 1)
  {
    SetFieldWrites(m, c, fields);
    SetFieldShows(m, c, node);
  }

  lemma SetFieldWrites(m: Mutation, c: Column, fields: map<Column, Value>)
    requires 0 < Rank(c) < 14 && Written(m, fields, Rank(c))
    ensures var v := SetValue(m, c);
            Written(m, if v.Some? then fields[c := v.value] else fields, Rank(c) + 1)
  {
    RankIsUnique(c);
    hide Rank;
    hide SetValue;
  }

  lemma SetFieldShows(m: Mutation, c: Column, node: Profile)
    requires 0 < Rank(c) < 14 && Shown(m, node, Rank(c))
    ensures var v := SetValue(m, c);
            Shown(m, if v.Some? then Put(node, c, v.value) else node, Rank(c) + 1)
  {
    RankIsUnique(c);
    assert c != Id;
    if SetValue(m, c).Some? {
      forall d ensures Field(Put(node, c, SetValue(m, c).value), d) == if c == d then SetValue(m, c).value else Field(node, d) {
        PutField(m, node, c, d);
      }
    }
    hide Rank;
    hide SetValue;
    hide Field;
    hide Put;
  }

  lemma RankIsUnique(c: Column)
    requires Rank(c) < 14
    ensures forall d :: Rank(d) == Rank(c) <==> d == c
  {
  }

  // ---------------------------------------------------------------- round trip

  /** What decoding a cell of column `c` leaves in the field, which held `before`. */
  function Decoded(j: Json, c: Column, cell: Cell, before: Value): Value {
    if c == Id then VInt(if cell.IntCell? then cell.i else 0)
    else if cell.Null? then before
    else
      match KindOf(c)
      case KInt => if cell.IntCell? then VNumber(Some(cell.i)) else before
      case KBool => if cell.BoolCell? then VBool(cell.b) else before
      case KString => if cell.TextCell? then VText(cell.s) else before
      case KTime => if cell.TimeCell? then VTime(cell.t) else before
      case KBytes =>
        if cell.BlobCell? && cell.bytes != "" && j.decode(cell.bytes).Some? then VList(j.decode(cell.bytes).value) else before
      case KUnknown => before
  }

  /** A JSON cell can be decoded; an empty one counts as not set, and other columns do not hold JSON. */
  predicate Readable(j: Json, c: Column, cell: Cell) {
    KindOf(c) == KBytes && cell.BlobCell? && cell.bytes != "" ==> j.decode(cell.bytes).Some?
  }

  /** One decoding step changes the field of its own column and no other. */
  lemma AssignOneDoes(j: Json, p: Profile, c: Column, cell: Cell, d: Column)
    requires ScanInto(KindOf(c), cell).Some?
    ensures var s := AssignOne(j, p, c, ScanInto(KindOf(c), cell).value);
            && s == (if s.Next? then s else Fail(BadJson))
            && (s.Next? ==> Field(s.profile, d) == if c == d then Decoded(j, c, cell, Field(p, c)) else Field(p, d))
            && (s.Next? <==> Readable(j, c, cell))
  {
    if c == d {
      AssignOneSets(j, p, c, cell);
    } else {
      hide Decoded;
      AssignOneFrames(j, p, c, ScanInto(KindOf(c), cell).value, d);
      hide Field;
    }
  }

  lemma AssignOneSets(j: Json, p: Profile, c: Column, cell: Cell)
    requires ScanInto(KindOf(c), cell).Some?
    ensures var s := AssignOne(j, p, c, ScanInto(KindOf(c), cell).value);
            s.Next? ==> Field(s.profile, c) == Decoded(j, c, cell, Field(p, c))
  {
  }

  lemma AssignOneFrames(j: Json, p: Profile, c: Column, v: Scanned, d: Column)
    requires c != d
    ensures var s := AssignOne(j, p, c, v); s.Next? ==> Field(s.profile, d) == Field(p, d)
  {
  }

  /** What the driver hands to assignValues for a row. */
  ghost predicate ScannedRow(columns: seq<Column>, row: Column -> Cell, values: seq<Scanned>) {
    && |values| == |columns|
    && forall i :: 0 <= i < |columns| ==> ScanInto(KindOf(columns[i]), row(columns[i])) == Some(values[i])
  }

  /** Decoding what scanValues allocated never meets a value of an unexpected type, for repeated and
      unknown columns too, and leaves the fields of columns that were not read as they were. */
  lemma {:induction false} DecodingIsTyped(j: Json, p: Profile, columns: seq<Column>, row: Column -> Cell, values: seq<Scanned>, d: Column)
    requires ScannedRow(columns, row, values)
    ensures Assigned(j, p, columns, values) != Fail(UnexpectedType)
    ensures d !in columns && Assigned(j, p, columns, values).Next? ==>
              Field(Assigned(j, p, columns, values).profile, d) == Field(p, d)
    decreases |columns|
  {
    if columns != [] {
      AssignOneDoes(j, p, columns[0], row(columns[0]), d);
      var s := AssignOne(j, p, columns[0], values[0]);
      if s.Next? {
        DecodingIsTyped(j, s.profile, columns[1..], row, values[1..], d);
      }
    }
  }

  /** Decoding a scanned row succeeds exactly when its JSON cells can be decoded, and then every column
      read ends as its cell says, however often it is read. */
  lemma {:induction false} DecodingReads(j: Json, p: Profile, columns: seq<Column>, row: Column -> Cell, values: seq<Scanned>, d: Column)
    requires ScannedRow(columns, row, values)
    ensures var s := Assigned(j, p, columns, values);
            && (s.Next? <==> forall c <- columns :: Readable(j, c, row(c)))
            && (s.Fail? ==> s.error == BadJson)
            && (s.Next? ==>
                  Field(s.profile, d) == if d in columns then Decoded(j, d, row(d), Field(p, d)) else Field(p, d))
    decreases |columns|
  {
    if columns != [] {
      var c := columns[0];
      AssignOneDoes(j, p, c, row(c), d);
      AssignOneDoes(j, p, c, row(c), c);
      var s := AssignOne(j, p, c, values[0]);
      if s.Next? {
        DecodingReads(j, s.profile, columns[1..], row, values[1..], d);
        DecodedTwice(j, d, row(d), Field(p, d));
      }
      hide AssignOne;
      hide Decoded;
      hide Readable;
    }
  }

  /** `m` is what `before` becomes when the values of columns without a field are kept under their names,
      the last one of a name in the end. */
  ghost predicate KeptUnder(before: map<string, Scanned>, m: map<string, Scanned>, columns: seq<Column>, values: seq<Scanned>, n: string)
    requires |columns| <= |values|
  {
    if Other(n) !in columns then (n in m <==> n in before) && (n in m ==> m[n] == before[n])
    else
      n in m && exists i :: 0 <= i < |columns| && columns[i] == Other(n) && Other(n) !in columns[i + 1..] && m[n] == values[i]
  }

  /** Values of columns the entity has no field for are kept under their names. */
  lemma {:induction false} OthersAreKept(j: Json, p: Profile, columns: seq<Column>, values: seq<Scanned>, n: string)
    requires |columns| <= |values| && Assigned(j, p, columns, values).Next?
    ensures KeptUnder(p.selectValues, Assigned(j, p, columns, values).profile.selectValues, columns, values, n)
    decreases |columns|
  {
    if columns != [] {
      var c, rest := columns[0], columns[1..];
      var s := AssignOne(j, p, c, values[0]);
      OtherIsKept(j, p, c, values[0], n);
      hide AssignOne;
      OthersAreKept(j, s.profile, rest, values[1..], n);
      assert columns == [c] + rest;
      if Other(n) in rest {
        var i :| 0 <= i < |rest| && rest[i] == Other(n) && Other(n) !in rest[i + 1..]
                 && Assigned(j, p, columns, values).profile.selectValues[n] == values[1..][i];
        assert columns[i + 1] == Other(n) && columns[i + 2..] == rest[i + 1..] && values[i + 1] == values[1..][i];
      } else if c == Other(n) {
        assert columns[0 + 1..] == rest;
      }
    }
  }

  lemma OtherIsKept(j: Json, p: Profile, c: Column, v: Scanned, n: string)
    requires AssignOne(j, p, c, v).Next?
    ensures var m := AssignOne(j, p, c, v).profile.selectValues;
            if c == Other(n) then n in m && m[n] == v
            else (n in m <==> n in p.selectValues) && (n in m ==> m[n] == p.selectValues[n])
  {
  }

  lemma DecodedTwice(j: Json, c: Column, cell: Cell, before: Value)
    ensures Decoded(j, c, cell, Decoded(j, c, cell, before)) == Decoded(j, c, cell, before)
  {
  }

  /** The driver scans one row into what scanValues allocated, or reports a cell of another type. */
  method ScanRow(columns: seq<Column>, row: Column -> Cell) returns (values: Option<seq<Scanned>>)
    ensures values.Some? ==> ScannedRow(columns, row, values.value)
    ensures values.None? <==> exists c :: c in columns && ScanInto(KindOf(c), row(c)).None?
  {
    hide KindOf;
    hide ScanInto;
    var kinds := ScanValues(columns);
    var scanned := [];
    for i := 0 to |columns|
      invariant |scanned| == i
      invariant forall k :: 0 <= k < i ==> ScanInto(KindOf(columns[k]), row(columns[k])) == Some(scanned[k])
    {
      var v := ScanInto(kinds[i], row(columns[i]));
      if v.None? {
        return None;
      }
      scanned := scanned + [v.value];
    }
    return Some(scanned);
  }

  /** The entity shows the cells of the columns read, and what it held before in the others. */
  ghost predicate ShowsRow(j: Json, before: Profile, after: Profile, columns: seq<Column>, row: Column -> Cell) {
    forall d :: Field(after, d) == if d in columns then Decoded(j, d, row(d), Field(before, d)) else Field(before, d)
  }

  lemma DecodedShowsRow(j: Json, p: Profile, columns: seq<Column>, row: Column -> Cell, values: seq<Scanned>)
    requires ScannedRow(columns, row, values)
    ensures var s := Assigned(j, p, columns, values);
            && (s.Next? <==> forall c <- columns :: Readable(j, c, row(c)))
            && s == (if s.Next? then s else Fail(BadJson))
            && (s.Next? ==> ShowsRow(j, p, s.profile, columns, row))
  {
    var s := Assigned(j, p, columns, values);
    DecodingReads(j, p, columns, row, values, Id);
    hide Assigned;
    hide Decoded;
    hide Readable;
    hide Field;
    if s.Next? {
      forall d
        ensures Field(s.profile, d) == if d in columns then Decoded(j, d, row(d), Field(p, d)) else Field(p, d)
      {
        DecodingReads(j, p, columns, row, values, d);
      }
    }
  }

  /** Reading one row into an entity: allocate, scan, assign.  Only the driver can meet a value of the
      wrong type; when it does not, reading fails exactly when a JSON cell cannot be decoded, and
      otherwise the entity shows the row. */
  method ReadRow(j: Json, columns: seq<Column>, row: Column -> Cell, node: BackupProfile)
    returns (scanned: bool, error: Option<DecodeError>)
    modifies node
    ensures !scanned <==> exists c :: c in columns && ScanInto(KindOf(c), row(c)).None?
    ensures !scanned ==> node.View() == old(node.View())
    ensures scanned ==> error == if forall c <- columns :: Readable(j, c, row(c)) then None else Some(BadJson)
    ensures scanned && error.None? ==> ShowsRow(j, old(node.View()), node.View(), columns, row)
  {
    var values := ScanRow(columns, row);
    if values.None? {
      return false, None;
    }
    DecodedShowsRow(j, node.View(), columns, row, values.value);
    hide ShowsRow;
    hide Readable;
    hide KindOf;
    error := node.AssignValues(j, columns, values.value);
    scanned := true;
  }

  lemma StoredDecodes(j: Json, m: Mutation, fields: map<Column, Value>, id: int, c: Column)
    requires RoundTrips(j) && c in fields && c != Id && Some(fields[c]) == SetValue(m, c)
    ensures var cell := RowCell(j, fields, id, c);
            && ScanInto(KindOf(c), cell).Some?
            && (cell.BlobCell? ==> cell.bytes != "" && j.decode(cell.bytes).Some?)
            && forall before :: Decoded(j, c, cell, before) == fields[c]
  {
  }

  /** Writing and reading back: the row written by createSpec, read with any selected fields in any
      order, decodes without an error to the identifier the database assigned, exactly the values of
      the entity createSpec returned in the selected fields, and zero values elsewhere. */
  lemma RoundTrip(j: Json, m: Mutation, node: Profile, fields: map<Column, Value>, id: int,
                  selected: seq<Column>, row: Column -> Cell, values: seq<Scanned>, d: Column)
    requires RoundTrips(j) && Built(m, node, fields, 14)
    requires forall c :: row(c) == RowCell(j, fields, id, c)
    requires var columns := SelectedColumns(selected); ScannedRow(columns, row, values)
    ensures var columns := SelectedColumns(selected);
            var s := Assigned(j, ZERO, columns, values);
            && s.Next?
            && s.profile.id == id
            && Field(s.profile, d) == (
                 if d == Id then VInt(id)
                 else if d in columns then Field(node, d)
                 else Field(ZERO, d))
  {
    var columns := SelectedColumns(selected);
    IdComesFirst(selected);
    CellsDecode(j, m, node, fields, id, row);
    hide SelectedColumns;
    hide RoundTrips;
    DecodingReads(j, ZERO, columns, row, values, Id);
    DecodingReads(j, ZERO, columns, row, values, d);
    CellOf(j, m, node, fields, id, row, d);
  }

  /** Read without a selection, the row shows everything the caller has set, under the identifier the
      database assigned. */
  lemma UnselectiveRead(j: Json, m: Mutation, node: Profile, fields: map<Column, Value>, id: int,
                        row: Column -> Cell, values: seq<Scanned>)
    requires RoundTrips(j) && Built(m, node, fields, 14)
    requires forall c :: row(c) == RowCell(j, fields, id, c)
    requires ScannedRow(SelectedColumns([]), row, values)
    ensures var s := Assigned(j, ZERO, SelectedColumns([]), values);
            s.Next? && HasWhatIsSet(m, id, s.profile)
  {
    hide Assigned;
    hide RoundTrips;
    hide SelectedColumns;
    hide Built;
    hide Field;
    IdComesFirst([]);
    var s := Assigned(j, ZERO, SelectedColumns([]), values);
    RoundTrip(j, m, node, fields, id, [], row, values, Id);
    forall d ensures Field(s.profile, d) == if d == Id then VInt(id) else Field(node, d) {
      if d.Other? {
        OtherFields(s.profile, node, d);
      } else {
        RoundTrip(j, m, node, fields, id, [], row, values, d);
      }
    }
    NothingElse(j, ZERO, SelectedColumns([]), values);
    SameFields(m, id, node, fields, s.profile);
  }

  lemma OtherFields(p: Profile, q: Profile, d: Column)
    requires d.Other?
    ensures Field(p, d) == Field(q, d) == VNone
  {
  }

  lemma {:induction false} NothingElse(j: Json, p: Profile, columns: seq<Column>, values: seq<Scanned>)
    requires |columns| <= |values| && forall c :: c in columns ==> !c.Other?
    ensures var s := Assigned(j, p, columns, values); s.Next? ==> s.profile.selectValues == p.selectValues
    decreases |columns|
  {
    if columns != [] {
      var s := AssignOne(j, p, columns[0], values[0]);
      OneKeepsOthers(j, p, columns[0], values[0]);
      hide AssignOne;
      if s.Next? {
        NothingElse(j, s.profile, columns[1..], values[1..]);
      }
    }
  }

  lemma OneKeepsOthers(j: Json, p: Profile, c: Column, v: Scanned)
    requires !c.Other?
    ensures var s := AssignOne(j, p, c, v); s.Next? ==> s.profile.selectValues == p.selectValues
  {
  }

  lemma SameFields(m: Mutation, id: int, node: Profile, fields: map<Column, Value>, p: Profile)
    requires Built(m, node, fields, 14) && p.selectValues == map[]
    requires forall d :: Field(p, d) == if d == Id then VInt(id) else Field(node, d)
    ensures HasWhatIsSet(m, id, p)
  {
    var q := p.(id := GetOr(m.id, 0));
    forall d ensures Field(q, d) == Field(node, d) {
      OnlyTheId(p, q, d);
      assert d == Id ==> Field(node, d) == VInt(GetOr(m.id, 0));
    }
    BuiltShows(m, q);
    assert Field(p, Id) == VInt(id);
  }

  lemma OnlyTheId(p: Profile, q: Profile, d: Column)
    requires q == p.(id := q.id)
    ensures d != Id ==> Field(p, d) == Field(q, d)
    ensures d == Id ==> Field(q, d) == VInt(q.id)
  {
  }

  lemma CellsDecode(j: Json, m: Mutation, node: Profile, fields: map<Column, Value>, id: int, row: Column -> Cell)
    requires RoundTrips(j) && Built(m, node, fields, 14)
    requires forall c :: row(c) == RowCell(j, fields, id, c)
    ensures forall c :: row(c).BlobCell? ==> row(c).bytes != "" && j.decode(row(c).bytes).Some?
  {
    forall c ensures row(c).BlobCell? ==> row(c).bytes != "" && j.decode(row(c).bytes).Some? {
      if c in fields && c != Id {
        StoredDecodes(j, m, fields, id, c);
      }
    }
  }

  lemma CellOf(j: Json, m: Mutation, node: Profile, fields: map<Column, Value>, id: int, row: Column -> Cell, d: Column)
    requires RoundTrips(j) && Built(m, node, fields, 14)
    requires forall c :: row(c) == RowCell(j, fields, id, c)
    ensures Decoded(j, d, row(d), Field(ZERO, d)) == if d == Id then VInt(id) else Field(node, d)
  {
    if d in fields {
      StoredDecodes(j, m, fields, id, d);
    }
  }

  /** The driver can scan every such row: each written cell has the type of its column. */
  lemma WrittenRowScans(j: Json, m: Mutation, node: Profile, fields: map<Column, Value>, id: int, c: Column)
    requires Built(m, node, fields, 14) && !c.Other?
    ensures ScanInto(KindOf(c), RowCell(j, fields, id, c)).Some?
  {
  }
}
