/** The generator of union types and type functions (scripts/generate_adts.go).  What it emits is
    modelled as syntax with a meaning: the two switch functions, the constants and types they mention,
    and the struct they fill.  The structs it works on arrive in the order of Go's map iteration. */
module AdtGenerator {
  import opened Prelude

  // ---------------------------------------------------------------- what is found in a package

  /** A declaration: a marker method of a struct, returning the sum type, or anything else. */
  datatype Declaration = Marker(receiver: string, result: string) | Unrelated

  datatype StateStruct = StateStruct(name: string, variant: string, jsonField: string)

  datatype EnumInfo = EnumInfo(name: string, variants: seq<string>, structs: seq<StateStruct>)

  /** The receivers of the markers that return `enum`, in order. */
  function Receivers(declarations: seq<Declaration>, enum: string): seq<string> {
    if declarations == [] then []
    else
      var n := |declarations| - 1;
      Receivers(declarations[..n], enum) +
      if declarations[n].Marker? && declarations[n].result == enum then [declarations[n].receiver] else []
  }

  /** One receiver for every marker with this result, in their order. */
  lemma {:induction false} ReceiversAreThose(declarations: seq<Declaration>, enum: string)
    ensures var found, names := Filter(declarations, (d: Declaration) => d.Marker? && d.result == enum), Receivers(declarations, enum);
            |names| == |found| && forall k :: 0 <= k < |found| ==> found[k].Marker? && names[k] == found[k].receiver
    decreases |declarations|
  {
    if declarations != [] {
      var n := |declarations| - 1;
      ReceiversAreThose(declarations[..n], enum);
      assert declarations[..n + 1] == declarations;
      FilterSnoc(declarations, n, (d: Declaration) => d.Marker? && d.result == enum);
    }
  }

  function Raw(names: seq<string>): (r: seq<StateStruct>)
    ensures |r| == |names| && forall i :: 0 <= i < |r| ==> r[i] == StateStruct(names[i], "", "")
  {
    seq(|names|, i requires 0 <= i < |names| => StateStruct(names[i], "", ""))
  }

  /** `found` lists, for every sum type, the structs whose markers return it. */
  ghost predicate Gathered(found: map<string, seq<StateStruct>>, declarations: seq<Declaration>) {
    && (forall e :: e in found <==> Receivers(declarations, e) != [])
    && (forall e :: e in found ==> found[e] == Raw(Receivers(declarations, e)))
  }

  lemma ReceiversSnoc(declarations: seq<Declaration>, i: nat, e: string)
    requires i < |declarations|
    ensures Receivers(declarations[..i + 1], e) ==
            if declarations[i].Marker? && declarations[i].result == e
            then Receivers(declarations[..i], e) + [declarations[i].receiver]
            else Receivers(declarations[..i], e)
  {
    assert declarations[..i + 1][..i] == declarations[..i];
  }

  lemma RawSnoc(names: seq<string>, x: string)
    ensures Raw(names + [x]) == Raw(names) + [StateStruct(x, "", "")]
  {
  }

  /** One more declaration. */
  lemma GatheredSnoc(found: map<string, seq<StateStruct>>, declarations: seq<Declaration>, i: nat)
    requires i < |declarations| && Gathered(found, declarations[..i])
    ensures match declarations[i]
            case Marker(x, e) =>
              Gathered(found[e := (if e in found then found[e] else []) + [StateStruct(x, "", "")]], declarations[..i + 1])
            case Unrelated => Gathered(found, declarations[..i + 1])
  {
    hide Receivers;
    forall e ensures e in found <==> Receivers(declarations[..i], e) != [] {
    }
    if declarations[i].Marker? {
      RawSnoc(Receivers(declarations[..i], declarations[i].result), declarations[i].receiver);
    }
    assert Raw([]) == [];
    hide Raw;
    forall e
      ensures Receivers(declarations[..i + 1], e) ==
              if declarations[i].Marker? && declarations[i].result == e
              then Receivers(declarations[..i], e) + [declarations[i].receiver]
              else Receivers(declarations[..i], e)
    {
      ReceiversSnoc(declarations, i, e);
    }
  }

  /** The first pass of findAdtEnumsByMarkerMethods. */
  method CollectMarkers(declarations: seq<Declaration>) returns (found: map<string, seq<StateStruct>>)
    ensures forall e :: e in found <==> Receivers(declarations, e) != []
    ensures forall e :: e in found ==> found[e] == Raw(Receivers(declarations, e))
  {
    found := map[];
    var i := 0;
    assert Gathered(found, []);
    assert declarations[..0] == [];
    hide Receivers;
    while i < |declarations|
      invariant 0 <= i <= |declarations|
      invariant Gathered(found, declarations[..i])
    {
      GatheredSnoc(found, declarations, i);
      hide Gathered;
      match declarations[i] {
        case Marker(receiver, result) =>
          var present := if result in found then found[result] else [];
          found := found[result := present + [StateStruct(receiver, "", "")]];
        case Unrelated =>
      }
      i := i + 1;
    }
    assert declarations[..i] == declarations;
  }

  // ---------------------------------------------------------------- sorting names

  /** The order of sort.Strings. */
  predicate Leq(a: string, b: string) {
    a == "" || (b != "" && (a[0] < b[0] || (a[0] == b[0] && Leq(a[1..], b[1..]))))
  }

  lemma {:induction false} LeqIsOrder(a: string, b: string, c: string)
    ensures Leq(a, a)
    ensures Leq(a, b) || Leq(b, a)
    ensures Leq(a, b) && Leq(b, a) ==> a == b
    ensures Leq(a, b) && Leq(b, c) ==> Leq(a, c)
    decreases |a| + |b| + |c|
  {
    if a != "" && b != "" && c != "" {
      LeqIsOrder(a[1..], b[1..], c[1..]);
    } else if a != "" && b != "" {
      LeqIsOrder(a[1..], b[1..], "");
    } else if a != "" {
      LeqIsOrder(a[1..], "", "");
    }
    if a != "" && b != "" && a[0] == b[0] && a[1..] == b[1..] {
      assert a == [a[0]] + a[1..] && b == [b[0]] + b[1..];
    }
  }

  ghost predicate Ascending(s: seq<string>) {
    forall i, j :: 0 <= i < j < |s| ==> Leq(s[i], s[j])
  }

  function Insert(x: string, s: seq<string>): (r: seq<string>)
    ensures multiset(r) == multiset(s) + multiset{x}
  {
    if s == [] then [x]
    else if Leq(x, s[0]) then [x] + s
    else assert s == [s[0]] + s[1..]; [s[0]] + Insert(x, s[1..])
  }

  /** sort.Strings. */
  function Sort(s: seq<string>): (r: seq<string>)
    ensures multiset(r) == multiset(s) && |r| == |s|
  {
    if s == [] then [] else assert s == [s[0]] + s[1..]; var r := Insert(s[0], Sort(s[1..])); Sizes(r, s); r
  }

  lemma Sizes(r: seq<string>, s: seq<string>)
    requires multiset(r) == multiset(s)
    ensures |r| == |s|
  {
    assert |multiset(r)| == |r| && |multiset(s)| == |s|;
  }

  lemma {:induction false} InsertAscends(x: string, s: seq<string>)
    requires Ascending(s)
    ensures Ascending(Insert(x, s))
  {
    if s != [] {
      LeqIsOrder(x, s[0], s[0]);
      if Leq(x, s[0]) {
        forall j | 0 <= j < |s| ensures Leq(x, s[j]) {
          LeqIsOrder(x, s[0], s[j]);
          LeqIsOrder(s[0], s[0], s[0]);
        }
      } else {
        InsertAscends(x, s[1..]);
        var r := Insert(x, s[1..]);
        forall j | 0 <= j < |r| ensures Leq(s[0], r[j]) {
          assert r[j] in multiset(r);
          assert r[j] == x || r[j] in s[1..];
        }
      }
    }
  }

  lemma {:induction false} SortAscends(s: seq<string>)
    ensures Ascending(Sort(s))
  {
    if s != [] {
      SortAscends(s[1..]);
      InsertAscends(s[0], Sort(s[1..]));
    }
  }

  lemma LeastComesFirst(s: seq<string>, t: seq<string>)
    requires Ascending(s) && s != [] && t != [] && multiset(s) == multiset(t)
    ensures Leq(s[0], t[0])
  {
    assert t[0] in multiset(s);
    var j :| 0 <= j < |s| && s[j] == t[0];
    LeqIsOrder(s[0], s[0], s[0]);
  }

  lemma TailOf(s: seq<string>)
    requires s != []
    ensures multiset(s[1..]) == multiset(s) - multiset{s[0]}
    ensures Ascending(s) ==> Ascending(s[1..])
  {
    assert s == [s[0]] + s[1..];
  }

  lemma FirstAndRest(s: seq<string>)
    requires s != []
    ensures s == [s[0]] + s[1..]
  {
  }

  lemma {:induction false} AscendingIsUnique(s: seq<string>, t: seq<string>)
    requires Ascending(s) && Ascending(t) && multiset(s) == multiset(t)
    ensures s == t
    decreases |s|
  {
    hide Ascending;
    hide Leq;
    Sizes(s, t);
    if s != [] {
      LeastComesFirst(s, t);
      LeastComesFirst(t, s);
      LeqIsOrder(s[0], t[0], t[0]);
      TailOf(s);
      TailOf(t);
      AscendingIsUnique(s[1..], t[1..]);
      FirstAndRest(s);
      FirstAndRest(t);
    }
  }

  /** The list of variants does not depend on the order in which the structs are found. */
  lemma SortForgetsOrder(s: seq<string>, t: seq<string>)
    requires multiset(s) == multiset(t)
    ensures Sort(s) == Sort(t)
  {
    SortAscends(s);
    SortAscends(t);
    AscendingIsUnique(Sort(s), Sort(t));
  }

  /** `a` is the beginning of `b`, or has the smaller character where they first differ. */
  ghost predicate ComesBefore(a: string, b: string) {
    a < b || exists k :: FirstDifferent(a, b, k) && a[k] < b[k]
  }

  predicate FirstDifferent(a: string, b: string, k: int) {
    0 <= k < |a| && k < |b| && a[..k] == b[..k] && a[k] != b[k]
  }

  lemma {:induction false} LeqComesBefore(a: string, b: string)
    requires Leq(a, b) && a != b
    ensures ComesBefore(a, b)
  {
    if a != "" {
      assert a == [a[0]] + a[1..] && b == [b[0]] + b[1..];
      if a[0] < b[0] {
        assert FirstDifferent(a, b, 0);
      } else {
        LeqComesBefore(a[1..], b[1..]);
        if !(a[1..] < b[1..]) {
          var k :| FirstDifferent(a[1..], b[1..], k) && a[1..][k] < b[1..][k];
          OneFurther(a, b, k);
        }
      }
    }
  }

  lemma OneFurther(a: string, b: string, k: int)
    requires a != "" && b != "" && a[0] == b[0] && FirstDifferent(a[1..], b[1..], k)
    ensures FirstDifferent(a, b, k + 1)
  {
    assert a[..k + 1] == [a[0]] + a[1..][..k] && b[..k + 1] == [b[0]] + b[1..][..k];
  }

  lemma SortedByCharacters(s: seq<string>)
    ensures forall i, j :: 0 <= i < j < |Sort(s)| ==> Sort(s)[i] == Sort(s)[j] || ComesBefore(Sort(s)[i], Sort(s)[j])
  {
    var t := Sort(s);
    SortAscends(s);
    forall i, j | 0 <= i < j < |t| && t[i] != t[j] ensures ComesBefore(t[i], t[j]) {
      LeqComesBefore(t[i], t[j]);
    }
  }

  // ---------------------------------------------------------------- the description of a sum type

  /** variantToJsonField; `lower` is unicode.ToLower. */
  function JsonField(variant: string, lower: char -> char): string {
    if variant == "" then variant else [lower(variant[0])] + variant[1..]
  }

  function Struct(name: string, lower: char -> char): StateStruct {
    StateStruct(name, name, JsonField(name, lower))
  }

  function Structs(names: seq<string>, lower: char -> char): (r: seq<StateStruct>)
    ensures |r| == |names| && forall i :: 0 <= i < |r| ==> r[i] == Struct(names[i], lower)
  {
    seq(|names|, i requires 0 <= i < |names| => Struct(names[i], lower))
  }

  /** What the generator knows about a sum type whose structs were found in the order `names`. */
  function Info(enum: string, names: seq<string>, lower: char -> char): EnumInfo {
    EnumInfo(enum, Sort(names), Structs(names, lower))
  }

  /** The second pass of findAdtEnumsByMarkerMethods, for one sum type. */
  method Describe(enum: string, found: seq<StateStruct>, lower: char -> char, ghost names: seq<string>) returns (info: EnumInfo)
    requires found == Raw(names)
    ensures info == Info(enum, names, lower)
    ensures multiset(info.variants) == multiset(names)
    ensures forall i, j :: 0 <= i < j < |info.variants| ==>
              info.variants[i] == info.variants[j] || ComesBefore(info.variants[i], info.variants[j])
  {
    var structs, variants := found, [];
    var i := 0;
    while i < |structs|
      invariant 0 <= i <= |structs| == |names|
      invariant forall k :: 0 <= k < |structs| ==>
                  structs[k] == if k < i then Struct(names[k], lower) else StateStruct(names[k], "", "")
      invariant variants == names[..i]
    {
      var variant := structs[i].name;
      structs := structs[i := structs[i].(variant := variant, jsonField := JsonField(variant, lower))];
      variants := variants + [variant];
      i := i + 1;
    }
    assert variants == names && structs == Structs(names, lower);
    info := EnumInfo(enum, Sort(variants), structs);
    SortedByCharacters(variants);
  }

  // ---------------------------------------------------------------- the emitted code

  const VARIANT := "Variant"
  const TYPE := "Type"

  /** One case of Get...Type: the type it is for, and the constant it returns. */
  datatype TypeCase = TypeCase(guard: string, constant: string)

  /** One case of To...Union: the type it is for, the constant, and the field set to the value's data. */
  datatype UnionCase = UnionCase(guard: string, constant: string, field: string)

  datatype Field = Field(name: string, pointee: string, jsonKey: string)

  datatype Code = Code(
    constants: seq<(string, string)>,
    wrappers: seq<(string, string)>,
    typeCases: seq<TypeCase>,
    typeDefault: string,
    fields: seq<Field>,
    unionCases: seq<UnionCase>,
    unionDefault: (string, string, string))

  function Constant(enum: string, variant: string): string {
    enum + TYPE + variant
  }

  function Wrapper(variant: string): string {
    variant + VARIANT
  }

  /** getDefaultVariant. */
  function DefaultVariant(info: EnumInfo): string {
    if info.variants == [] then "" else info.variants[0]
  }

  /** The name of the first struct of a variant, or `otherwise`. */
  function StructOf(structs: seq<StateStruct>, variant: string, otherwise: string): string {
    if structs == [] then otherwise
    else if structs[0].variant == variant then structs[0].name
    else StructOf(structs[1..], variant, otherwise)
  }

  function Present(structs: seq<StateStruct>): seq<StateStruct> {
    Filter(structs, (s: StateStruct) => s.variant != "")
  }

  lemma TypeCasesSnoc(info: EnumInfo, i: nat)
    requires i < |info.structs|
    ensures var s := info.structs[i];
            TypeCases(info.(structs := info.structs[..i + 1])) ==
            TypeCases(info.(structs := info.structs[..i])) +
              if s.variant != "" then [TypeCase(Wrapper(s.variant), Constant(info.name, s.variant))] else []
  {
    FilterSnoc(info.structs, i, (s: StateStruct) => s.variant != "");
    hide Filter;
  }

  /** generateTypeFunction. */
  method GenerateTypeFunction(info: EnumInfo) returns (cases: seq<TypeCase>, otherwise: string)
    ensures cases == TypeCases(info) && otherwise == Constant(info.name, DefaultVariant(info))
  {
    cases := [];
    var i := 0;
    while i < |info.structs|
      invariant 0 <= i <= |info.structs|
      invariant cases == TypeCases(info.(structs := info.structs[..i]))
    {
      var s := info.structs[i];
      TypeCasesSnoc(info, i);
      hide TypeCases;
      if s.variant != "" {
        cases := cases + [TypeCase(Wrapper(s.variant), Constant(info.name, s.variant))];
      }
      i := i + 1;
    }
    assert info.structs[..i] == info.structs;
    otherwise := Constant(info.name, DefaultVariant(info));
  }

  function TypeCases(info: EnumInfo): (r: seq<TypeCase>)
    ensures |r| == |Present(info.structs)|
    ensures forall i :: 0 <= i < |r| ==>
              r[i] == TypeCase(Wrapper(Present(info.structs)[i].variant), Constant(info.name, Present(info.structs)[i].variant))
  {
    var p := Present(info.structs);
    seq(|p|, i requires 0 <= i < |p| => TypeCase(Wrapper(p[i].variant), Constant(info.name, p[i].variant)))
  }

  lemma UnionCasesSnoc(info: EnumInfo, i: nat)
    requires i < |info.structs|
    ensures var s := info.structs[i];
            UnionCases(info.(structs := info.structs[..i + 1])) ==
            UnionCases(info.(structs := info.structs[..i])) +
              if s.variant != "" then [UnionCase(Wrapper(s.variant), Constant(info.name, s.variant), s.variant)] else []
  {
    FilterSnoc(info.structs, i, (s: StateStruct) => s.variant != "");
    hide Filter;
  }

  /** generateFromConversion. */
  method GenerateFromConversion(info: EnumInfo) returns (cases: seq<UnionCase>, otherwise: (string, string, string))
    ensures cases == UnionCases(info) && otherwise == UnionDefault(info)
  {
    cases := [];
    var i := 0;
    while i < |info.structs|
      invariant 0 <= i <= |info.structs|
      invariant cases == UnionCases(info.(structs := info.structs[..i]))
    {
      var s := info.structs[i];
      UnionCasesSnoc(info, i);
      hide UnionCases;
      if s.variant != "" {
        cases := cases + [UnionCase(Wrapper(s.variant), Constant(info.name, s.variant), s.variant)];
      }
      i := i + 1;
    }
    assert info.structs[..i] == info.structs;
    otherwise := UnionDefault(info);
  }

  function UnionCases(info: EnumInfo): (r: seq<UnionCase>)
    ensures |r| == |Present(info.structs)|
    ensures forall i :: 0 <= i < |r| ==>
              var s := Present(info.structs)[i];
              r[i] == UnionCase(Wrapper(s.variant), Constant(info.name, s.variant), s.variant)
  {
    var p := Present(info.structs);
    seq(|p|, i requires 0 <= i < |p| => UnionCase(Wrapper(p[i].variant), Constant(info.name, p[i].variant), p[i].variant))
  }

  /** The constant, the field, and the struct of the default case. */
  function UnionDefault(info: EnumInfo): (string, string, string) {
    var d := DefaultVariant(info);
    if d == "" then ("", d, "") else (Constant(info.name, d), d, StructOf(info.structs, d, ""))
  }

  lemma FieldsSnoc(info: EnumInfo, i: nat)
    requires i < |info.structs|
    ensures var s := info.structs[i];
            Fields(info.(structs := info.structs[..i + 1])) ==
            Fields(info.(structs := info.structs[..i])) + if s.variant != "" then [Field(s.variant, s.name, s.jsonField)] else []
  {
    FilterSnoc(info.structs, i, (s: StateStruct) => s.variant != "");
    hide Filter;
  }

  /** generateUnionType. */
  method GenerateUnionType(info: EnumInfo) returns (fields: seq<Field>)
    ensures fields == Fields(info)
  {
    fields := [];
    var i := 0;
    while i < |info.structs|
      invariant 0 <= i <= |info.structs|
      invariant fields == Fields(info.(structs := info.structs[..i]))
    {
      var s := info.structs[i];
      FieldsSnoc(info, i);
      hide Fields;
      if s.variant != "" {
        fields := fields + [Field(s.variant, s.name, s.jsonField)];
      }
      i := i + 1;
    }
    assert info.structs[..i] == info.structs;
  }

  function Fields(info: EnumInfo): (r: seq<Field>)
    ensures |r| == |Present(info.structs)|
    ensures forall i :: 0 <= i < |r| ==>
              var s := Present(info.structs)[i]; r[i] == Field(s.variant, s.name, s.jsonField)
  {
    var p := Present(info.structs);
    seq(|p|, i requires 0 <= i < |p| => Field(p[i].variant, p[i].name, p[i].jsonField))
  }

  /** Everything that is emitted for one sum type. */
  function Emit(info: EnumInfo): (code: Code)
    ensures |code.constants| == |code.wrappers| == |info.variants|
    ensures forall i :: 0 <= i < |info.variants| ==>
              && code.constants[i] == (Constant(info.name, info.variants[i]), info.variants[i])
              && code.wrappers[i] == (Wrapper(info.variants[i]), StructOf(info.structs, info.variants[i], "struct{}"))
  {
    Code(
      seq(|info.variants|, i requires 0 <= i < |info.variants| => (Constant(info.name, info.variants[i]), info.variants[i])),
      seq(|info.variants|, i requires 0 <= i < |info.variants| =>
        (Wrapper(info.variants[i]), StructOf(info.structs, info.variants[i], "struct{}"))),
      TypeCases(info), Constant(info.name, DefaultVariant(info)), Fields(info), UnionCases(info), UnionDefault(info))
  }

  // ---------------------------------------------------------------- its meaning

  /** A value of the sum type, as the switches see it: a wrapper type around data, or anything else. */
  datatype Value = Wrapped(wrapper: string, data: int) | Foreign

  /** What a union holds: the discriminator, and the fields that are not nil. */
  datatype Union = Union(discriminator: Option<string>, fields: map<string, int>)

  /** The data of a struct literal without values. */
  const ZERO := 0

  /** The value of a constant; None when no such constant is declared. */
  function Lookup(constants: seq<(string, string)>, name: string): Option<string> {
    if constants == [] then None
    else if constants[0].0 == name then Some(constants[0].1)
    else Lookup(constants[1..], name)
  }

  function Chosen(cases: seq<UnionCase>, v: Value): Option<UnionCase> {
    if cases == [] || v.Foreign? then None
    else if cases[0].guard == v.wrapper then Some(cases[0])
    else Chosen(cases[1..], v)
  }

  function ChosenType(cases: seq<TypeCase>, v: Value): Option<TypeCase> {
    if cases == [] || v.Foreign? then None
    else if cases[0].guard == v.wrapper then Some(cases[0])
    else ChosenType(cases[1..], v)
  }

  /** Get...Type of a value. */
  function TypeOf(code: Code, v: Value): Option<string> {
    var c := ChosenType(code.typeCases, v);
    Lookup(code.constants, if c.Some? then c.value.constant else code.typeDefault)
  }

  /** To...Union of a value. */
  function UnionOf(code: Code, v: Value): Union {
    var c := Chosen(code.unionCases, v);
    if c.Some? then Union(Lookup(code.constants, c.value.constant), map[c.value.field := v.data])
    else Union(Lookup(code.constants, code.unionDefault.0), map[code.unionDefault.1 := ZERO])
  }

  /** The variant a value stands for: its own, if the sum type has it, else the alphabetically first. */
  function Meant(names: seq<string>, v: Value): string
    requires names != []
  {
    if Declared(names, v) then v.wrapper[..|v.wrapper| - |VARIANT|] else Sort(names)[0]
  }

  predicate Declared(names: seq<string>, v: Value) {
    v.Wrapped? && |v.wrapper| >= |VARIANT| && Wrapper(v.wrapper[..|v.wrapper| - |VARIANT|]) == v.wrapper &&
    v.wrapper[..|v.wrapper| - |VARIANT|] in names
  }

  ghost predicate Named(names: seq<string>) {
    names != [] && "" !in names
  }

  lemma {:induction false} AllPresent(s: seq<StateStruct>)
    requires forall i :: 0 <= i < |s| ==> s[i].variant != ""
    ensures Present(s) == s
  {
    if s != [] {
      assert s == [s[0]] + s[1..];
      AllPresent(s[1..]);
    }
  }

  lemma WrapperIs(variant: string, v: Value)
    requires v.Wrapped?
    ensures Wrapper(variant) == v.wrapper ==>
            |v.wrapper| >= |VARIANT| && variant == v.wrapper[..|v.wrapper| - |VARIANT|]
  {
    assert Wrapper(variant)[..|variant|] == variant;
  }

  lemma {:induction false} TypeCaseFound(cases: seq<TypeCase>, names: seq<string>, enum: string, v: Value)
    requires |cases| == |names|
    requires forall i :: 0 <= i < |cases| ==> cases[i] == TypeCase(Wrapper(names[i]), Constant(enum, names[i]))
    ensures ChosenType(cases, v) ==
            if Declared(names, v) then Some(TypeCase(v.wrapper, Constant(enum, v.wrapper[..|v.wrapper| - |VARIANT|]))) else None
  {
    if cases != [] && v.Wrapped? {
      WrapperIs(names[0], v);
      assert names == [names[0]] + names[1..];
      if cases[0].guard != v.wrapper {
        TypeCaseFound(cases[1..], names[1..], enum, v);
      }
    }
  }

  lemma {:induction false} UnionCaseFound(cases: seq<UnionCase>, names: seq<string>, enum: string, v: Value)
    requires |cases| == |names|
    requires forall i :: 0 <= i < |cases| ==> cases[i] == UnionCase(Wrapper(names[i]), Constant(enum, names[i]), names[i])
    ensures Chosen(cases, v) ==
            if Declared(names, v) then
              var x := v.wrapper[..|v.wrapper| - |VARIANT|]; Some(UnionCase(v.wrapper, Constant(enum, x), x))
            else None
  {
    if cases != [] && v.Wrapped? {
      WrapperIs(names[0], v);
      assert names == [names[0]] + names[1..];
      if cases[0].guard != v.wrapper {
        UnionCaseFound(cases[1..], names[1..], enum, v);
      }
    }
  }

  lemma {:induction false} ConstantFound(constants: seq<(string, string)>, variants: seq<string>, enum: string, x: string)
    requires |constants| == |variants| && x in variants
    requires forall i :: 0 <= i < |constants| ==> constants[i] == (Constant(enum, variants[i]), variants[i])
    ensures Lookup(constants, Constant(enum, x)) == Some(x)
  {
    assert Constant(enum, x)[|enum + TYPE|..] == x;
    assert Constant(enum, variants[0])[|enum + TYPE|..] == variants[0];
    if variants[0] != x {
      assert variants == [variants[0]] + variants[1..];
      ConstantFound(constants[1..], variants[1..], enum, x);
    }
  }

  lemma SortedNames(names: seq<string>)
    requires Named(names)
    ensures Sort(names) != [] && Sort(names)[0] != "" && forall x :: x in Sort(names) <==> x in names
  {
    assert forall x :: x in Sort(names) <==> x in multiset(Sort(names));
    assert Sort(names)[0] in Sort(names);
  }

  lemma CasesOfInfo(enum: string, names: seq<string>, lower: char -> char)
    requires Named(names)
    ensures Present(Info(enum, names, lower).structs) == Structs(names, lower)
    ensures DefaultVariant(Info(enum, names, lower)) == Sort(names)[0]
  {
    AllPresent(Structs(names, lower));
    SortedNames(names);
  }

  /** For every value, declared variant or not, the emitted Get...Type and To...Union agree: both give
      the variant the value stands for; exactly one field of the union is set, the one with that name;
      and it holds the value's data, or a blank struct for a value of no variant. */
  lemma SwitchesAgree(enum: string, names: seq<string>, lower: char -> char, v: Value)
    requires Named(names)
    ensures var code := Emit(Info(enum, names, lower));
            && TypeOf(code, v) == Some(Meant(names, v))
            && UnionOf(code, v) == Union(Some(Meant(names, v)), map[Meant(names, v) := if Declared(names, v) then v.data else ZERO])
  {
    hide Structs;
    hide Sort;
    hide StructOf;
    var info := Info(enum, names, lower);
    CasesOfInfo(enum, names, lower);
    SortedNames(names);
    TypeCaseFound(TypeCases(info), names, enum, v);
    UnionCaseFound(UnionCases(info), names, enum, v);
    ConstantFound(Emit(info).constants, Sort(names), enum, Meant(names, v));
  }

  /** A value of no variant is taken for the variant that comes before all others. */
  lemma DefaultComesFirst(enum: string, names: seq<string>, lower: char -> char, x: string)
    requires Named(names) && x in names
    ensures var d := TypeOf(Emit(Info(enum, names, lower)), Foreign);
            d.Some? && d.value in names && (d.value == x || ComesBefore(d.value, x))
  {
    hide ComesBefore;
    hide Sort;
    SwitchesAgree(enum, names, lower, Foreign);
    SortedNames(names);
    SortedByCharacters(names);
    var t := Sort(names);
    assert x in t;
    var j :| 0 <= j < |t| && t[j] == x;
    if j > 0 {
      assert t[0] == t[j] || ComesBefore(t[0], t[j]);
    }
  }

  /** The order in which the structs are found makes no difference to what the emitted code does. */
  lemma OrderDoesNotMatter(enum: string, names: seq<string>, others: seq<string>, lower: char -> char, v: Value)
    requires Named(names) && multiset(names) == multiset(others)
    ensures var code, code' := Emit(Info(enum, names, lower)), Emit(Info(enum, others, lower));
            && TypeOf(code, v) == TypeOf(code', v) && UnionOf(code, v) == UnionOf(code', v)
            && code.constants == code'.constants
  {
    hide Structs;
    hide Sort;
    hide TypeOf;
    hide UnionOf;
    assert forall x :: x in names <==> x in multiset(names);
    assert forall x :: x in others <==> x in multiset(others);
    assert others != [] by {
      Sizes(names, others);
    }
    SortForgetsOrder(names, others);
    SwitchesAgree(enum, names, lower, v);
    SwitchesAgree(enum, others, lower, v);
    assert Declared(names, v) == Declared(others, v) && Meant(names, v) == Meant(others, v);
  }

  /** The field that is set is a field of the emitted struct, and points to the struct that the wrapper
      type of the variant is around; so does the blank struct of the default case. */
  lemma FieldsMatch(enum: string, names: seq<string>, lower: char -> char, x: string)
    requires Named(names) && x in names
    ensures var code := Emit(Info(enum, names, lower));
            && Field(x, x, JsonField(x, lower)) in code.fields
            && (Wrapper(x), x) in code.wrappers
            && code.unionDefault.2 == code.unionDefault.1
  {
    hide Sort;
    var info := Info(enum, names, lower);
    CasesOfInfo(enum, names, lower);
    SortedNames(names);
    var i :| 0 <= i < |names| && names[i] == x;
    assert Fields(info)[i] == Field(x, x, JsonField(x, lower));
    assert x in info.variants;
    var j :| 0 <= j < |info.variants| && info.variants[j] == x;
    StructFound(names, lower, x, "struct{}");
    assert Emit(info).wrappers[j] == (Wrapper(x), x);
    StructFound(names, lower, Sort(names)[0], "");
  }

  lemma {:induction false} StructFound(names: seq<string>, lower: char -> char, x: string, otherwise: string)
    requires x in names
    ensures StructOf(Structs(names, lower), x, otherwise) == x
  {
    if names[0] != x {
      assert names == [names[0]] + names[1..];
      assert Structs(names, lower)[1..] == Structs(names[1..], lower);
      StructFound(names[1..], lower, x, otherwise);
    }
  }

  /** Two variants get the same JSON key exactly when they differ at most in the first letter, and there
      only as far as `lower` goes; and a variant takes the key of the discriminator exactly when its name
      is "type" up to that. */
  lemma KeysCollide(a: string, b: string, lower: char -> char)
    requires a != "" && b != ""
    ensures JsonField(a, lower) == JsonField(b, lower) <==> lower(a[0]) == lower(b[0]) && a[1..] == b[1..]
    ensures JsonField(a, lower) == "type" <==> lower(a[0]) == 't' && a[1..] == "ype"
  {
    assert JsonField(a, lower)[1..] == a[1..] && JsonField(b, lower)[1..] == b[1..];
    assert "type" == ['t'] + "ype" && "type"[1..] == "ype";
  }

  /** The constants of one sum type are told apart, but two sum types of one package may clash. */
  lemma ConstantsClash(enum: string, a: string, b: string)
    ensures Constant(enum, a) == Constant(enum, b) <==> a == b
    ensures Constant(enum, TYPE + a) == Constant(enum + TYPE, a)
  {
    assert Constant(enum, a)[|enum + TYPE|..] == a && Constant(enum, b)[|enum + TYPE|..] == b;
  }
}
