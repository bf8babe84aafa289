/** `tools/cfngen/gluecf/schema.go`: what the inferred type texts say. The meaning of a Go type is given by its shape
    alone; the texts are read by the grammar of Glue types. */
module GlueMeaning {
  import opened GoStrings
  import opened GlueTypes
  import opened GlueSchema

  /** Fields without an entry in a nested struct type: unexported ones and those tagged `json:"-"`. */
  predicate Skips(f: Field)
  {
    f.json == "-" || (f.pkgPath != "" && (!f.anonymous || !Deref(f.typ).Struct?))
  }

  /** Embedded structs, and pointers to them, that stand for their fields. */
  predicate Spread(f: Field, maps: Mappings)
  {
    f.anonymous && Deref(f.typ).Struct? && Deref(f.typ).name !in maps
  }

  /** A custom mapping means the type it spells, or else a type of that name. */
  function Custom(text: string): GlueType
  {
    if TypeIn(text).Some? then TypeIn(text).value else Named(text)
  }

  /** What a type means as an element, or as a field that is not a slice. */
  function Meaning(t: GoType, maps: Mappings): GlueType
    decreases t, 1, 0
  {
    match t
    case Struct(_, fields) => StructOf(Fields(t, |fields|, maps))
    case Map(_, key, elem) => MapOf(key, Meaning(elem, maps))
    case _ => var name := ToGlueType(t); Named(if name.Ok? then name.value else "")
  }

  function FieldMeaning(f: Field, maps: Mappings): GlueType
    decreases f.typ, 2, 0
  {
    var t := Deref(f.typ);
    if t.name in maps then Custom(maps[t.name])
    else if t.Slice? then ArrayOf(Meaning(t.elem, maps))
    else Meaning(t, maps)
  }

  /** What a field contributes to a nested struct type. */
  function Entry(f: Field, maps: Mappings): seq<FieldType>
    decreases f.typ, 3, 0
  {
    var t := Deref(f.typ);
    if Skips(f) then []
    else if Spread(f, maps) then Fields(t, |t.fields|, maps)
    else [FieldType(LogicalName(f), FieldMeaning(f, maps))]
  }

  function Fields(t: GoType, n: nat, maps: Mappings): seq<FieldType>
    requires t.Struct? && n <= |t.fields|
    decreases t, 0, n
  {
    if n == 0 then [] else Fields(t, n - 1, maps) + Entry(t.fields[n - 1], maps)
  }

  predicate AllSkipped(t: GoType, n: nat)
    requires t.Struct? && n <= |t.fields|
  {
    forall i | 0 <= i < n :: Skips(t.fields[i])
  }

  /** No comma strays: at any depth, entries with company have fields. */
  predicate Tidy(t: GoType, maps: Mappings)
    decreases t, 1, 0
  {
    match t
    case Struct(_, fields) => TidyUpTo(t, |fields|, maps)
    case Map(_, _, elem) => Tidy(elem, maps)
    case _ => true
  }

  predicate TidyField(f: Field, maps: Mappings)
    decreases f.typ, 2, 0
  {
    var t := Deref(f.typ);
    t.name in maps || if t.Slice? then Tidy(t.elem, maps) else Tidy(t, maps)
  }

  predicate TidyUpTo(t: GoType, n: nat, maps: Mappings)
    requires t.Struct? && n <= |t.fields|
    decreases t, 0, n
  {
    n == 0 || (
      var f := t.fields[n - 1];
      && TidyUpTo(t, n - 1, maps)
      && (Skips(f) || (
           && TidyField(f, maps)
           && (AllSkipped(t, n - 1) || (Fields(t, n - 1, maps) != [] && Entry(f, maps) != [])))))
  }

  // ---------------------------------------------------------------- the texts spell the meaning

  /** A text is the spelling wanted, or else longer. */
  predicate Fits(text: string, spelling: string, tidy: bool)
  {
    if tidy then text == spelling else |text| > |spelling|
  }

  lemma FitsInside(before: string, text: string, spelling: string, after: string, tidy: bool)
    requires Fits(text, spelling, tidy)
    ensures Fits(before + text + after, before + spelling + after, tidy)
  {
  }

  /** What one entry says. */
  ghost predicate EntryFits(f: Field, maps: Mappings)
    requires FieldInfo(f, maps).Ok?
  {
    var info := FieldInfo(f, maps).value;
    && info.Info?
    && Fits(PairText(info.name, info.glueType), Join(FieldTexts(Entry(f, maps)), ","), TidyField(f, maps))
  }

  /** What the first `n` fields say. */
  ghost predicate Spells(t: GoType, n: nat, maps: Mappings)
    requires t.Struct? && n <= |t.fields| && Pairs(t, n, maps).Ok?
  {
    var pairs, fields := Pairs(t, n, maps).value, Fields(t, n, maps);
    && Fits(Join(pairs, ","), Join(FieldTexts(fields), ","), TidyUpTo(t, n, maps))
    && (pairs == [] <==> AllSkipped(t, n)) && (pairs == [] ==> fields == [])
  }

  lemma FieldTextsAppend(a: seq<FieldType>, b: seq<FieldType>)
    ensures FieldTexts(a + b) == FieldTexts(a) + FieldTexts(b)
  {
  }

  lemma OneText(name: string, g: GlueType)
    ensures Join(FieldTexts([FieldType(name, g)]), ",") == name + ":" + Spelled(g)
  {
  }

  lemma CustomSpells(text: string)
    ensures Spelled(Custom(text)) == text
  {
    if TypeIn(text).Some? {
      TypeInSpells(text);
    }
  }

  lemma {:induction false} ElemSpells(t: GoType, maps: Mappings)
    requires ElemText(t, maps).Ok?
    ensures Fits(ElemText(t, maps).value, Spelled(Meaning(t, maps)), Tidy(t, maps))
    decreases t, 1, 0
  {
    match t
    case Struct(_, fields) =>
      var text := StructText(t, maps).value;
      var spelling := Join(FieldTexts(Fields(t, |fields|, maps)), ",");
      PairsSpell(t, |fields|, maps);
      SpelledStruct(Fields(t, |fields|, maps));
      FitsInside("struct<", text, spelling, ">", Tidy(t, maps));
    case Map(_, key, elem) =>
      ElemSpells(elem, maps);
      FitsInside("map<" + key + ",", ElemText(elem, maps).value, Spelled(Meaning(elem, maps)), ">", Tidy(t, maps));
    case _ =>
  }

  lemma {:induction false} FieldSpells(f: Field, maps: Mappings)
    requires FieldInfo(f, maps).Ok? && !Skips(f) && !Spread(f, maps)
    ensures
      var info := FieldInfo(f, maps).value;
      && info.Info? && info.name == LogicalName(f)
      && Fits(info.glueType, Spelled(FieldMeaning(f, maps)), TidyField(f, maps))
    decreases f.typ, 2, 0
  {
    var t := Deref(f.typ);
    if t.name in maps {
      CustomSpells(maps[t.name]);
    } else if t.Slice? {
      ElemSpells(t.elem, maps);
      FitsInside("array<", ElemText(t.elem, maps).value, Spelled(Meaning(t.elem, maps)), ">", Tidy(t.elem, maps));
    } else {
      ElemSpells(t, maps);
    }
  }

  lemma {:induction false} EntrySpells(f: Field, maps: Mappings)
    requires FieldInfo(f, maps).Ok? && !Skips(f)
    ensures EntryFits(f, maps)
    decreases f.typ, 3, 0
  {
    var t, info := Deref(f.typ), FieldInfo(f, maps).value;
    if Spread(f, maps) {
      PairsSpell(t, |t.fields|, maps);
      assert info.name == "" && info.glueType == StructText(t, maps).value;
      assert PairText("", info.glueType) == "" + info.glueType == info.glueType;
      assert TidyField(f, maps) == TidyUpTo(t, |t.fields|, maps) && Entry(f, maps) == Fields(t, |t.fields|, maps);
    } else {
      FieldSpells(f, maps);
      OneText(info.name, FieldMeaning(f, maps));
      FitsInside(info.name + ":", info.glueType, Spelled(FieldMeaning(f, maps)), "", TidyField(f, maps));
    }
  }

  lemma {:induction false} PairsSpell(t: GoType, n: nat, maps: Mappings)
    requires t.Struct? && n <= |t.fields| && Pairs(t, n, maps).Ok?
    ensures Spells(t, n, maps)
    decreases t, 0, n
  {
    if n > 0 {
      PairsSpell(t, n - 1, maps);
      var f := t.fields[n - 1];
      if Skips(f) {
        NoPair(t, n, maps);
      } else {
        EntrySpells(f, maps);
        NextPair(t, n, maps);
      }
    }
  }

  lemma NoPair(t: GoType, n: nat, maps: Mappings)
    requires t.Struct? && 0 < n <= |t.fields| && Pairs(t, n, maps).Ok? && Skips(t.fields[n - 1])
    requires Spells(t, n - 1, maps)
    ensures Spells(t, n, maps)
  {
    assert FieldInfo(t.fields[n - 1], maps) == Ok(Skip);
    assert Pairs(t, n, maps) == Pairs(t, n - 1, maps);
    assert Fields(t, n, maps) == Fields(t, n - 1, maps) + [] == Fields(t, n - 1, maps);
    assert TidyUpTo(t, n, maps) == TidyUpTo(t, n - 1, maps);
    assert AllSkipped(t, n) == AllSkipped(t, n - 1);
  }

  lemma NextPair(t: GoType, n: nat, maps: Mappings)
    requires t.Struct? && 0 < n <= |t.fields| && Pairs(t, n, maps).Ok? && !Skips(t.fields[n - 1])
    requires Spells(t, n - 1, maps) && EntryFits(t.fields[n - 1], maps)
    ensures Spells(t, n, maps)
  {
    var f, fields := t.fields[n - 1], Fields(t, n - 1, maps);
    var info := FieldInfo(f, maps).value;
    FieldTextsAppend(fields, Entry(f, maps));
    PairFits(Pairs(t, n - 1, maps).value, PairText(info.name, info.glueType), FieldTexts(fields),
      FieldTexts(Entry(f, maps)), TidyUpTo(t, n - 1, maps), TidyField(f, maps));
    assert !AllSkipped(t, n);
  }

  /** One more pair keeps the spelling exactly if it is the first, or it and those before it have fields. */
  lemma PairFits(pairs: seq<string>, pair: string, before: seq<string>, own: seq<string>, a: bool, b: bool)
    requires Fits(Join(pairs, ","), Join(before, ","), a) && Fits(pair, Join(own, ","), b)
    requires pairs == [] ==> before == []
    ensures Fits(Join(pairs + [pair], ","), Join(before + own, ","),
      a && b && (pairs == [] || (before != [] && own != [])))
  {
    JoinAppend(pairs, [pair]);
    JoinAppend(before, own);
    assert Join([pair], ",") == pair;
  }

  // ---------------------------------------------------------------- what is read

  lemma ReadsIff(text: string, g: GlueType, tidy: bool)
    requires Fits(text, Spelled(g), tidy)
    ensures TypeIn(text) == Some(g) <==> CleanType(g) && tidy
  {
    if TypeIn(text) == Some(g) {
      TypeInSpells(text);
    } else if CleanType(g) {
      SpelledReads(g);
    }
  }

  /** The text of every type reads back to the type's meaning exactly if its names are free of the marks `<>,:`, its
      custom mappings spell types, and no embedded struct without fields has company. */
  lemma TextReadsIff(t: GoType, maps: Mappings)
    requires ElemText(t, maps).Ok?
    ensures TypeIn(ElemText(t, maps).value) == Some(Meaning(t, maps)) <==>
      CleanType(Meaning(t, maps)) && Tidy(t, maps)
  {
    ElemSpells(t, maps);
    ReadsIff(ElemText(t, maps).value, Meaning(t, maps), Tidy(t, maps));
  }

  /** The kind of a field's Go type shows in the text: what is read back is an array exactly for slices, a map exactly
      for maps and a struct exactly for structs, and the texts of elements and values are read in turn. */
  lemma KindReads(f: Field, maps: Mappings)
    requires FieldInfo(f, maps).Ok? && !Skips(f) && !Spread(f, maps) && Deref(f.typ).name !in maps
    requires CleanType(FieldMeaning(f, maps)) && TidyField(f, maps)
    ensures
      var t, read := Deref(f.typ), TypeIn(FieldInfo(f, maps).value.glueType);
      && read.Some?
      && (read.value.ArrayOf? <==> t.Slice?)
      && (read.value.MapOf? <==> t.Map?)
      && (read.value.StructOf? <==> t.Struct?)
      && (t.Slice? || t.Map? ==> ElemText(t.elem, maps).Ok?)
      && (t.Slice? || t.Map? ==> TypeIn(ElemText(t.elem, maps).value) == Some(read.value.elem))
      && (t.Map? ==> read.value.key == t.key)
      && (t.Struct? ==> read.value.fields == Fields(t, |t.fields|, maps))
      && (read.value.Named? ==> ToGlueType(t) == Ok(read.value.name))
  {
    var t, g := Deref(f.typ), FieldMeaning(f, maps);
    FieldSpells(f, maps);
    ReadsIff(FieldInfo(f, maps).value.glueType, g, TidyField(f, maps));
    KindOfMeaning(f, maps, g);
    if t.Slice? || t.Map? {
      TextReadsIff(t.elem, maps);
    }
  }

  lemma KindOfMeaning(f: Field, maps: Mappings, g: GlueType)
    requires FieldInfo(f, maps).Ok? && !Skips(f) && !Spread(f, maps) && Deref(f.typ).name !in maps
    requires g == FieldMeaning(f, maps) && CleanType(g) && TidyField(f, maps)
    ensures
      var t := Deref(f.typ);
      && (t.Slice? ==> g == ArrayOf(Meaning(t.elem, maps)))
      && (t.Map? ==> g == MapOf(t.key, Meaning(t.elem, maps)))
      && (t.Slice? || t.Map? ==>
           ElemText(t.elem, maps).Ok? && CleanType(Meaning(t.elem, maps)) && Tidy(t.elem, maps))
      && (t.Struct? ==> g == StructOf(Fields(t, |t.fields|, maps)))
      && (t.Basic? || t.Ptr? ==> g.Named? && ToGlueType(t) == Ok(g.name))
  {
  }

  /** The types of a struct's fields read in turn: each entry read back is what the text of its own field means. */
  lemma {:induction false} FieldReads(t: GoType, n: nat, i: nat, maps: Mappings)
    requires t.Struct? && i < n <= |t.fields| && Pairs(t, n, maps).Ok?
    requires CleanType(StructOf(Fields(t, n, maps))) && TidyUpTo(t, n, maps)
    requires !Skips(t.fields[i]) && !Spread(t.fields[i], maps)
    ensures
      var info := FieldInfo(t.fields[i], maps);
      && info.Ok? && info.value.Info? && TypeIn(info.value.glueType).Some?
      && FieldType(info.value.name, TypeIn(info.value.glueType).value) in Fields(t, n, maps)
  {
    var before := Fields(t, n - 1, maps);
    var own := Entry(t.fields[n - 1], maps);
    assert forall k | 0 <= k < |before| :: (before + own)[k] == before[k];
    if i < n - 1 {
      FieldReads(t, n - 1, i, maps);
    } else {
      var f := t.fields[i];
      assert (before + own)[|before|] == FieldType(LogicalName(f), FieldMeaning(f, maps));
      FieldSpells(f, maps);
      ReadsIff(FieldInfo(f, maps).value.glueType, FieldMeaning(f, maps), TidyField(f, maps));
    }
  }

  // ---------------------------------------------------------------- basic types

  const BASIC: set<string> := {"bool", "string", "interface {}", "int", "int8", "int16", "int32", "int64", "uint8",
    "uint16", "uint32", "uint64", "float32", "float64"}

  lemma BasicNames(t: GoType)
    ensures ToGlueType(t).Ok? <==> t.name in BASIC
    ensures t.name == "bool" ==> ToGlueType(t) == Ok("boolean")
    ensures t.name == "string" || t.name == "interface {}" ==> ToGlueType(t) == Ok("string")
    ensures t.name == "float32" ==> ToGlueType(t) == Ok("float")
    ensures t.name == "float64" ==> ToGlueType(t) == Ok("double")
    ensures t.name !in BASIC ==> ToGlueType(t) == Panic(CannotMap(t.name))
  {
  }

  /** The values of Go's integer types on a 64-bit platform, and of Glue's. */
  predicate GoHolds(name: string, x: int)
  {
    match name
    case "int8" => -0x80 <= x < 0x80
    case "int16" => -0x8000 <= x < 0x8000
    case "int32" => -0x8000_0000 <= x < 0x8000_0000
    case "int" => -0x8000_0000_0000_0000 <= x < 0x8000_0000_0000_0000
    case "int64" => -0x8000_0000_0000_0000 <= x < 0x8000_0000_0000_0000
    case "uint8" => 0 <= x < 0x100
    case "uint16" => 0 <= x < 0x1_0000
    case "uint32" => 0 <= x < 0x1_0000_0000
    case "uint64" => 0 <= x < 0x1_0000_0000_0000_0000
    case _ => false
  }

  predicate GlueHolds(name: string, x: int)
  {
    match name
    case "tinyint" => -0x80 <= x < 0x80
    case "smallint" => -0x8000 <= x < 0x8000
    case "int" => -0x8000_0000 <= x < 0x8000_0000
    case "bigint" => -0x8000_0000_0000_0000 <= x < 0x8000_0000_0000_0000
    case _ => false
  }

  ghost predicate Fitting(go: string, glue: string) { forall x | GoHolds(go, x) :: GlueHolds(glue, x) }

  ghost predicate Within(glue: string, other: string) { forall x | GlueHolds(glue, x) :: GlueHolds(other, x) }

  /** An integer type gets the least Glue type that holds all its values. Only `uint64` has none: it gets `bigint`,
      which does not hold 2^63. */
  lemma LeastIntegerType(t: GoType)
    requires GoHolds(t.name, 0)
    ensures
      var glue := ToGlueType(t);
      && glue.Ok?
      && (t.name == "uint64" <==> !Fitting(t.name, glue.value))
      && (forall other :: Fitting(t.name, other) ==> Within(glue.value, other))
      && (t.name == "uint64" ==> glue.value == "bigint" && GoHolds("uint64", 0x8000_0000_0000_0000))
  {
    forall other | Fitting(t.name, other)
      ensures Within(ToGlueType(t).value, other)
    {
      Extremes(t.name, other);
    }
    assert GoHolds("uint64", 0x8000_0000_0000_0000);
  }

  lemma Extremes(go: string, glue: string)
    requires Fitting(go, glue)
    ensures go == "int8" ==> GlueHolds(glue, -0x80)
    ensures go == "int16" ==> GlueHolds(glue, -0x8000)
    ensures go == "int32" ==> GlueHolds(glue, -0x8000_0000)
    ensures go == "int" || go == "int64" ==> GlueHolds(glue, -0x8000_0000_0000_0000)
    ensures go == "uint8" ==> GlueHolds(glue, 0xff)
    ensures go == "uint16" ==> GlueHolds(glue, 0xffff)
    ensures go == "uint32" ==> GlueHolds(glue, 0xffff_ffff)
    ensures go == "uint64" ==> GlueHolds(glue, 0xffff_ffff_ffff_ffff)
  {
    assert go == "int8" ==> GoHolds(go, -0x80);
    assert go == "int16" ==> GoHolds(go, -0x8000);
    assert go == "int32" ==> GoHolds(go, -0x8000_0000);
    assert go == "int" || go == "int64" ==> GoHolds(go, -0x8000_0000_0000_0000);
    assert go == "uint8" ==> GoHolds(go, 0xff);
    assert go == "uint16" ==> GoHolds(go, 0xffff);
    assert go == "uint32" ==> GoHolds(go, 0xffff_ffff);
    assert go == "uint64" ==> GoHolds(go, 0xffff_ffff_ffff_ffff);
  }

  // ---------------------------------------------------------------- when a type has a text, and a table columns

  /** Every part of the type that is not skipped or custom-mapped leads down to a basic type. */
  ghost predicate Known(t: GoType, maps: Mappings)
    decreases t, 1
  {
    match t
    case Struct(_, fields) => forall i | 0 <= i < |fields| :: KnownField(fields[i], maps)
    case Map(_, _, elem) => Known(elem, maps)
    case _ => t.name in BASIC
  }

  ghost predicate KnownField(f: Field, maps: Mappings)
    decreases f.typ, 2
  {
    var t := Deref(f.typ);
    Skips(f) || t.name in maps || if t.Slice? then Known(t.elem, maps) else Known(t, maps)
  }

  /** A type has a text, and no panic, exactly if it is known. */
  lemma {:induction false} KnownIff(t: GoType, maps: Mappings)
    ensures ElemText(t, maps).Ok? <==> Known(t, maps)
    decreases t, 1, 0
  {
    match t
    case Struct(_, fields) => KnownUpTo(t, |fields|, maps);
    case Map(_, _, elem) => KnownIff(elem, maps);
    case _ => BasicNames(t);
  }

  lemma {:induction false} KnownFieldIff(f: Field, maps: Mappings)
    ensures FieldInfo(f, maps).Ok? <==> KnownField(f, maps)
    ensures FieldInfo(f, maps) == Ok(Skip) <==> Skips(f)
    decreases f.typ, 2, 0
  {
    var t := Deref(f.typ);
    if t.Slice? {
      KnownIff(t.elem, maps);
    } else {
      KnownIff(t, maps);
    }
  }

  lemma {:induction false} KnownUpTo(t: GoType, n: nat, maps: Mappings)
    requires t.Struct? && n <= |t.fields|
    ensures Pairs(t, n, maps).Ok? <==> forall i | 0 <= i < n :: KnownField(t.fields[i], maps)
    decreases t, 0, n
  {
    if n > 0 {
      KnownUpTo(t, n - 1, maps);
      KnownFieldIff(t.fields[n - 1], maps);
    }
  }

  /** `r` is `s` without the blanks around it. */
  ghost predicate Trimmed(s: string, r: string)
  {
    && (exists i, j | 0 <= i <= j <= |s| :: s[i..j] == r && BlankOutside(s, i, j))
    && (r != "" ==> !IsSpace(r[0]) && !IsSpace(r[|r| - 1]))
  }

  predicate Blank(s: string) { forall k | 0 <= k < |s| :: IsSpace(s[k]) }

  predicate BlankOutside(s: string, i: nat, j: nat) { forall k | 0 <= k < |s| && (k < i || j <= k) :: IsSpace(s[k]) }

  lemma TrimSpaceTrims(s: string)
    ensures Trimmed(s, TrimSpace(s))
    ensures TrimSpace(s) == "" <==> Blank(s)
  {
    var i, j := BlanksAround(s);
    var r := TrimSpace(s);
    assert s[i..j] == r && BlankOutside(s, i, j);
    assert r != "" ==> s[i] == r[0];
  }

  lemma {:induction false} BlanksAround(s: string) returns (i: nat, j: nat)
    ensures i <= j <= |s| && s[i..j] == TrimSpace(s) && BlankOutside(s, i, j)
    ensures i < j ==> !IsSpace(s[i]) && !IsSpace(s[j - 1])
  {
    i, j := 0, |s|;
    if s != "" && IsSpace(s[0]) {
      var tail := s[1..];
      i, j := BlanksAround(tail);
      assert forall k | 0 <= k < |tail| :: s[k + 1] == tail[k];
      assert s[i + 1..j + 1] == tail[i..j];
      i, j := i + 1, j + 1;
    } else if s != "" && IsSpace(s[|s| - 1]) {
      var head := s[..|s| - 1];
      i, j := BlanksAround(head);
      assert s[i..j] == head[i..j];
    }
  }

  // ---------------------------------------------------------------- columns

  /** The fields that have columns of their own, those of embedded structs in their place. */
  function Declared(t: GoType, n: nat): seq<Field>
    requires t.Struct? && n <= |t.fields|
    decreases t, 0, n
  {
    if n == 0 then [] else Declared(t, n - 1) + DeclaredBy(t.fields[n - 1])
  }

  function DeclaredBy(f: Field): seq<Field>
    decreases f.typ, 1, 0
  {
    if !f.anonymous then (if Skips(f) then [] else [f])
    else if f.typ.Struct? then Declared(f.typ, |f.typ.fields|)
    else []
  }

  /** A column has its field's name, meaning and requiredness, and the description without blanks around it, cut to
      255 characters. */
  ghost predicate Describes(c: Column, f: Field, maps: Mappings)
  {
    && c.name == LogicalName(f)
    && FieldInfo(f, maps).Ok? && FieldInfo(f, maps).value.Info?
    && c.typ == FieldInfo(f, maps).value.glueType
    && (TypeIn(c.typ) == Some(FieldMeaning(f, maps)) <==> CleanType(FieldMeaning(f, maps)) && TidyField(f, maps))
    && (exists d :: Trimmed(f.description, d) && c.comment == if |d| <= 255 then d else d[..252] + "...")
    && (c.required <==> exists i | 0 <= i <= |f.validate| :: "required" <= f.validate[i..])
  }

  ghost predicate Describe(cols: seq<Column>, fields: seq<Field>, maps: Mappings)
  {
    Pairwise(cols, fields, Describing(maps))
  }

  ghost function Describing(maps: Mappings): (Column, Field) -> bool { (c, f) => Describes(c, f, maps) }

  ghost predicate Pairwise<A, B>(a: seq<A>, b: seq<B>, p: (A, B) -> bool)
  {
    |a| == |b| && forall i | 0 <= i < |a| :: p(a[i], b[i])
  }

  lemma PairwiseAppend<A, B>(a: seq<A>, b: seq<B>, c: seq<A>, d: seq<B>, p: (A, B) -> bool)
    requires Pairwise(a, b, p) && Pairwise(c, d, p)
    ensures Pairwise(a + c, b + d, p)
  {
  }

  /** For every type and every mapping, whatever columns are inferred are those of the declared fields, in order. */
  lemma {:induction false} ColumnsDescribe(t: GoType, maps: Mappings)
    requires Columns(t, maps).Ok?
    ensures t.Struct? && Describe(Columns(t, maps).value, Declared(t, |t.fields|), maps)
    decreases t, 1, 0
  {
    ColumnsDescribeUpTo(t, |t.fields|, maps);
  }

  lemma {:induction false} ColumnsDescribeUpTo(t: GoType, n: nat, maps: Mappings)
    requires t.Struct? && n <= |t.fields| && ColumnsUpTo(t, n, maps).Ok?
    ensures Describe(ColumnsUpTo(t, n, maps).value, Declared(t, n), maps)
    decreases t, 0, n
  {
    if n > 0 {
      ColumnsDescribeUpTo(t, n - 1, maps);
      var f := t.fields[n - 1];
      if f.anonymous {
        ColumnsDescribe(f.typ, maps);
      } else if !Skips(f) {
        ColumnDescribes(t, f, maps);
      }
      PairwiseAppend(ColumnsUpTo(t, n - 1, maps).value, Declared(t, n - 1), FieldColumns(t, f, maps).value,
        DeclaredBy(f), Describing(maps));
    }
  }

  lemma ColumnDescribes(t: GoType, f: Field, maps: Mappings)
    requires !f.anonymous && !Skips(f) && FieldColumns(t, f, maps).Ok?
    ensures Describe(FieldColumns(t, f, maps).value, [f], maps)
  {
    FieldSpells(f, maps);
    TrimSpaceTrims(f.description);
    var c := FieldColumns(t, f, maps).value[0];
    ReadsIff(c.typ, FieldMeaning(f, maps), TidyField(f, maps));
  }

  /** Columns can be inferred. */
  ghost predicate Inferable(t: GoType, maps: Mappings)
  {
    t.Struct? && forall i | 0 <= i < |t.fields| :: InferableField(t.fields[i], maps)
  }

  ghost predicate InferableField(f: Field, maps: Mappings)
    decreases f.typ
  {
    if f.anonymous then f.typ.Struct? && forall i | 0 <= i < |f.typ.fields| :: InferableField(f.typ.fields[i], maps)
    else Skips(f) || (KnownField(f, maps) && !Blank(f.description))
  }

  /** Table columns come without a panic exactly if, at any depth, everything embedded is a struct and every other field
      that is not skipped has a known type and a description. */
  lemma {:induction false} InferableIff(t: GoType, maps: Mappings)
    ensures Columns(t, maps).Ok? <==> Inferable(t, maps)
    decreases t, 1, 0
  {
    if t.Struct? {
      InferableUpTo(t, |t.fields|, maps);
    }
  }

  lemma {:induction false} InferableUpTo(t: GoType, n: nat, maps: Mappings)
    requires t.Struct? && n <= |t.fields|
    ensures ColumnsUpTo(t, n, maps).Ok? <==> forall i | 0 <= i < n :: InferableField(t.fields[i], maps)
    decreases t, 0, n
  {
    if n > 0 {
      InferableUpTo(t, n - 1, maps);
      var f := t.fields[n - 1];
      if f.anonymous {
        InferableIff(f.typ, maps);
      } else {
        KnownFieldIff(f, maps);
        TrimSpaceTrims(f.description);
      }
    }
  }

  /** Names come from the `json` tag up to its first comma, or else from the field. */
  lemma TagNames(f: Field, name: string, options: string)
    requires ',' !in name
    ensures LogicalName(f.(json := name)) == if name != "" then name else f.name
    ensures LogicalName(f.(json := name + "," + options)) == if name != "" then name else f.name
  {
    SplitNoSep(name, ',');
    SplitHead(name, options, ',');
  }
}
