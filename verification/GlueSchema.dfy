/** `tools/cfngen/gluecf/schema.go`: Glue columns inferred from Go types. Two recursions flatten embedded structs: one
    builds the columns of a table, the other the text of a nested struct type. A panic is a result like any other. */
module GlueSchema {
  import opened GoStrings

  type FieldName = s: string | s != "" witness "F"

  /** A Go type as reflection shows it: `name` is what `String()` gives, `key` that of a map's key type. */
  datatype GoType =
    | Basic(name: string)
    | Ptr(name: string, elem: GoType)
    | Slice(name: string, elem: GoType)
    | Map(name: string, key: string, elem: GoType)
    | Struct(name: string, fields: seq<Field>)

  datatype Field = Field(
    name: FieldName, typ: GoType, anonymous: bool, pkgPath: string, json: string, description: string, validate: string)

  type Mappings = map<string, string>

  datatype Column = Column(name: string, typ: string, comment: string, required: bool)

  /** What `inferStructFieldType` returns. */
  datatype Info = Skip | Info(name: string, glueType: string, comment: string, required: bool)

  datatype Reason = NoFields(typ: string) | NoDescription(typ: string, field: string) | CannotMap(typ: string)
  datatype Result<+T> = Ok(value: T) | Panic(reason: Reason)

  const MAX_COMMENT: nat := 255

  function Deref(t: GoType): GoType { if t.Ptr? then t.elem else t }

  predicate IsSpace(c: char)
  {
    c == ' ' || c == '\t' || c == '\n' || c == '\r' || c == (11 as char) || c == (12 as char)
  }

  /** `strings.TrimSpace` on ASCII text. */
  function TrimSpace(s: string): string
  {
    if s == "" then ""
    else if IsSpace(s[0]) then TrimSpace(s[1..])
    else if IsSpace(s[|s| - 1]) then TrimSpace(s[..|s| - 1])
    else s
  }

  predicate Contains(s: string, sub: string) { exists i | 0 <= i <= |s| :: sub <= s[i..] }

  /** `parseTag`: the part of a tag before the first comma. */
  function TagName(tag: string): string { Split(tag, ',')[0] }

  function LogicalName(f: Field): (name: string)
    ensures name != ""
  {
    if TagName(f.json) == "" then f.name else TagName(f.json)
  }

  /** `toGlueType` on a 64-bit platform. */
  function ToGlueType(t: GoType): Result<string>
  {
    if t.name == "bool" then Ok("boolean")
    else if t.name == "string" || t.name == "interface {}" then Ok("string")
    else if t.name == "int8" then Ok("tinyint")
    else if t.name == "int16" || t.name == "uint8" then Ok("smallint")
    else if t.name == "int32" || t.name == "uint16" then Ok("int")
    else if t.name == "int" || t.name == "int64" || t.name == "uint32" || t.name == "uint64" then Ok("bigint")
    else if t.name == "float32" then Ok("float")
    else if t.name == "float64" then Ok("double")
    else Panic(CannotMap(t.name))
  }

  // ---------------------------------------------------------------- what the code computes

  function Wrap(before: string, inner: Result<string>, after: string): Result<string>
  {
    if inner.Panic? then inner else Ok(before + inner.value + after)
  }

  /** The type of an element of a slice or map, and of any field that is not a slice. */
  function ElemText(t: GoType, maps: Mappings): Result<string>
    decreases t, 1, 0
  {
    match t
    case Struct(_, _) => Wrap("struct<", StructText(t, maps), ">")
    case Map(_, key, elem) => Wrap("map<" + key + ",", ElemText(elem, maps), ">")
    case _ => ToGlueType(t)
  }

  /** `inferStructFieldType`. */
  function FieldInfo(f: Field, maps: Mappings): Result<Info>
    decreases f.typ, 2, 0
  {
    var t := Deref(f.typ);
    var unexported := f.pkgPath != "";
    if unexported && (!f.anonymous || !t.Struct?) then Ok(Skip)
    else if f.json == "-" then Ok(Skip)
    else
      var required := Contains(f.validate, "required");
      if t.name in maps then Ok(Info(LogicalName(f), maps[t.name], f.description, required))
      else
        var flat := t.Struct? && f.anonymous;
        var text := if t.Slice? then Wrap("array<", ElemText(t.elem, maps), ">")
                    else if flat then StructText(t, maps) else ElemText(t, maps);
        if text.Panic? then Panic(text.reason)
        else Ok(Info(if flat then "" else LogicalName(f), text.value, f.description, required))
  }

  function PairText(name: string, typ: string): string { (if name != "" then name + ":" else "") + typ }

  /** The key pairs of the first `n` fields. */
  function Pairs(t: GoType, n: nat, maps: Mappings): Result<seq<string>>
    requires t.Struct? && n <= |t.fields|
    decreases t, 0, n
  {
    if n == 0 then Ok([])
    else
      var before := Pairs(t, n - 1, maps);
      if before.Panic? then before
      else
        var info := FieldInfo(t.fields[n - 1], maps);
        if info.Panic? then Panic(info.reason)
        else if info.value.Skip? then before
        else Ok(before.value + [PairText(info.value.name, info.value.glueType)])
  }

  /** `inferStruct`. */
  function StructText(t: GoType, maps: Mappings): Result<string>
    requires t.Struct?
    decreases t, 0, |t.fields| + 1
  {
    var pairs := Pairs(t, |t.fields|, maps);
    if pairs.Panic? then Panic(pairs.reason) else Ok(Join(pairs.value, ","))
  }

  function Clip(comment: string): string
  {
    if |comment| > MAX_COMMENT then comment[..MAX_COMMENT - 3] + "..." else comment
  }

  /** The columns of one field. */
  function FieldColumns(t: GoType, f: Field, maps: Mappings): Result<seq<Column>>
    decreases f.typ, 3, 0
  {
    if f.anonymous then Columns(f.typ, maps)
    else
      var info := FieldInfo(f, maps);
      if info.Panic? then Panic(info.reason)
      else if info.value.Skip? then Ok([])
      else
        var comment := TrimSpace(info.value.comment);
        if comment == "" then Panic(NoDescription(t.name, info.value.name))
        else Ok([Column(info.value.name, info.value.glueType, Clip(comment), info.value.required)])
  }

  function ColumnsUpTo(t: GoType, n: nat, maps: Mappings): Result<seq<Column>>
    requires t.Struct? && n <= |t.fields|
    decreases t, 0, n
  {
    if n == 0 then Ok([])
    else
      var before := ColumnsUpTo(t, n - 1, maps);
      if before.Panic? then before
      else
        var own := FieldColumns(t, t.fields[n - 1], maps);
        if own.Panic? then own else Ok(before.value + own.value)
  }

  /** `inferJSONColumns`: only a struct type has fields. */
  function Columns(t: GoType, maps: Mappings): Result<seq<Column>>
    decreases t, 1, 0
  {
    if t.Struct? then ColumnsUpTo(t, |t.fields|, maps) else Panic(NoFields(t.name))
  }

  // ---------------------------------------------------------------- the code

  /** A panic at a field is the panic of the whole. */
  lemma {:induction false} PanicStays(t: GoType, n: nat, m: nat, maps: Mappings)
    requires t.Struct? && n <= m <= |t.fields|
    ensures Pairs(t, n, maps).Panic? ==> Pairs(t, m, maps) == Pairs(t, n, maps)
    ensures ColumnsUpTo(t, n, maps).Panic? ==> ColumnsUpTo(t, m, maps) == ColumnsUpTo(t, n, maps)
  {
    if n < m {
      PanicStays(t, n, m - 1, maps);
    }
  }

  lemma PanicAt(t: GoType, i: nat, maps: Mappings)
    requires t.Struct? && i < |t.fields| && ColumnsUpTo(t, i, maps).Ok? && FieldColumns(t, t.fields[i], maps).Panic?
    ensures Columns(t, maps) == FieldColumns(t, t.fields[i], maps)
  {
    PanicStays(t, i + 1, |t.fields|, maps);
  }

  method InferStruct(t: GoType, maps: Mappings) returns (r: Result<string>)
    requires t.Struct?
    ensures r == StructText(t, maps)
    decreases t, 0
  {
    var keyPairs: seq<string> := [];
    for i := 0 to |t.fields|
      invariant Pairs(t, i, maps) == Ok(keyPairs)
    {
      var info := InferStructFieldType(t.fields[i], maps);
      if info.Panic? {
        PanicStays(t, i + 1, |t.fields|, maps);
        return Panic(info.reason);
      }
      if info.value.Skip? {
        continue;
      }
      var subFieldName := info.value.name;
      if subFieldName != "" {
        subFieldName := subFieldName + ":";
      }
      keyPairs := keyPairs + [subFieldName + info.value.glueType];
    }
    return Ok(Join(keyPairs, ","));
  }

  method InferMap(t: GoType, maps: Mappings) returns (r: Result<string>)
    requires t.Map?
    ensures r == ElemText(t, maps)
    decreases t, 1
  {
    var elem := InferElem(t.elem, maps);
    return Wrap("map<" + t.key + ",", elem, ">");
  }

  method InferElem(t: GoType, maps: Mappings) returns (r: Result<string>)
    ensures r == ElemText(t, maps)
    decreases t, 2
  {
    if t.Struct? {
      r := InferStruct(t, maps);
      r := Wrap("struct<", r, ">");
    } else if t.Map? {
      r := InferMap(t, maps);
    } else {
      r := ToGlueType(t);
    }
  }

  method InferStructFieldType(sf: Field, maps: Mappings) returns (r: Result<Info>)
    ensures r == FieldInfo(sf, maps)
    decreases sf.typ, 3
  {
    var t := sf.typ;
    if t.Ptr? {
      t := t.elem;
    }
    var isUnexported := sf.pkgPath != "";
    if sf.anonymous {
      if isUnexported && !t.Struct? {
        return Ok(Skip);
      }
    } else if isUnexported {
      return Ok(Skip);
    }
    if sf.json == "-" {
      return Ok(Skip);
    }
    var fieldName := LogicalName(sf);
    var required := Contains(sf.validate, "required");
    if t.name in maps {
      return Ok(Info(fieldName, maps[t.name], sf.description, required));
    }
    var glueType;
    match t {
      case Slice(_, elem) =>
        glueType := InferElem(elem, maps);
        glueType := Wrap("array<", glueType, ">");
      case Map(_, _, _) =>
        glueType := InferMap(t, maps);
      case Struct(_, _) =>
        glueType := InferStruct(t, maps);
        if sf.anonymous {
          fieldName := "";
        } else {
          glueType := Wrap("struct<", glueType, ">");
        }
      case _ =>
        glueType := ToGlueType(t);
    }
    if glueType.Panic? {
      return Panic(glueType.reason);
    }
    return Ok(Info(fieldName, glueType.value, sf.description, required));
  }

  method InferJSONColumns(t: GoType, maps: Mappings) returns (r: Result<seq<Column>>)
    ensures r == Columns(t, maps)
    decreases t, 4
  {
    if !t.Struct? {
      return Panic(NoFields(t.name));
    }
    var cols: seq<Column> := [];
    for i := 0 to |t.fields|
      invariant ColumnsUpTo(t, i, maps) == Ok(cols)
    {
      var field := t.fields[i];
      if field.anonymous {
        var inner := InferJSONColumns(field.typ, maps);
        assert FieldColumns(t, field, maps) == inner;
        if inner.Panic? {
          PanicAt(t, i, maps);
          return inner;
        }
        cols := cols + inner.value;
      } else {
        var info := InferStructFieldType(field, maps);
        if info.Panic? {
          assert FieldColumns(t, field, maps) == Panic(info.reason);
          PanicAt(t, i, maps);
          return Panic(info.reason);
        }
        if info.value.Skip? {
          assert FieldColumns(t, field, maps) == Ok([]);
          assert cols + [] == cols;
          continue;
        }
        var comment := TrimSpace(info.value.comment);
        if |comment| == 0 {
          assert FieldColumns(t, field, maps) == Panic(NoDescription(t.name, info.value.name));
          PanicAt(t, i, maps);
          return Panic(NoDescription(t.name, info.value.name));
        }
        if |comment| > MAX_COMMENT {
          comment := comment[..MAX_COMMENT - 3] + "...";
        }
        var column := Column(info.value.name, info.value.glueType, comment, info.value.required);
        assert FieldColumns(t, field, maps) == Ok([column]);
        cols := cols + [column];
      }
    }
    return Ok(cols);
  }

  // ---------------------------------------------------------------- counting what is flattened

  /** A field of its own column. */
  predicate Shown(f: Field) { !f.anonymous && f.pkgPath == "" && f.json != "-" }

  /** An embedded struct that a nested struct type flattens, and one that it leaves out. */
  predicate Spliced(f: Field) { f.anonymous && f.json != "-" }
  predicate Hidden(f: Field) { f.anonymous && f.json == "-" }

  /** How many columns the first `n` fields have, embedded structs flattened. */
  function Width(t: GoType, n: nat): nat
    requires t.Struct? && n <= |t.fields|
    decreases t, n
  {
    if n == 0 then 0 else Width(t, n - 1) + FieldWidth(t.fields[n - 1])
  }

  function FieldWidth(f: Field): nat
    decreases f.typ, if f.typ.Struct? then |f.typ.fields| + 1 else 0
  {
    if !f.anonymous then (if Shown(f) then 1 else 0)
    else if f.typ.Struct? then Width(f.typ, |f.typ.fields|) else 0
  }

  /** How many key pairs the first `n` fields make, and how many of them stand for at least one column. */
  function Entries(t: GoType, n: nat): nat
    requires t.Struct? && n <= |t.fields|
  {
    if n == 0 then 0 else Entries(t, n - 1) + if Shown(t.fields[n - 1]) || Spliced(t.fields[n - 1]) then 1 else 0
  }

  function Groups(t: GoType, n: nat): nat
    requires t.Struct? && n <= |t.fields|
  {
    if n == 0 then 0
    else Groups(t, n - 1) + if !Hidden(t.fields[n - 1]) && FieldWidth(t.fields[n - 1]) > 0 then 1 else 0
  }

  /** The texts of columns, as a nested struct type spells them. */
  function ColumnTexts(cols: seq<Column>): (texts: seq<string>)
    ensures |texts| == |cols| && forall i | 0 <= i < |cols| :: texts[i] == cols[i].name + ":" + cols[i].typ
  {
    seq(|cols|, i requires 0 <= i < |cols| => cols[i].name + ":" + cols[i].typ)
  }

  lemma TextsAppend(a: seq<Column>, b: seq<Column>)
    ensures ColumnTexts(a + b) == ColumnTexts(a) + ColumnTexts(b)
  {
  }

  ghost function Joined(cols: seq<Column>): string { Join(ColumnTexts(cols), ",") }

  /** The joined columns of a type, the other form of its text. */
  ghost function ColumnsText(t: GoType, maps: Mappings): string
  {
    if Columns(t, maps).Ok? then Joined(Columns(t, maps).value) else ""
  }

  ghost function Text(t: GoType, maps: Mappings): string
  {
    if t.Struct? && StructText(t, maps).Ok? then StructText(t, maps).value else ""
  }

  /** What a nested struct type holds for an embedded struct: the text of its fields, or its name and custom mapping. */
  ghost function EntryText(f: Field, maps: Mappings): string
  {
    if f.typ.name in maps then PairText(LogicalName(f), maps[f.typ.name]) else Text(f.typ, maps)
  }

  /** Wherever an embedded struct, at any depth, has a custom mapping, its name and mapping spell its own columns. */
  ghost predicate MappingsAgree(t: GoType, maps: Mappings)
  {
    t.Struct? ==> forall i | 0 <= i < |t.fields| && Spliced(t.fields[i]) ::
      if t.fields[i].typ.name in maps then EntryText(t.fields[i], maps) == ColumnsText(t.fields[i].typ, maps)
      else MappingsAgree(t.fields[i].typ, maps)
  }

  /** Table columns can be inferred: nothing panics. */
  ghost predicate Good(t: GoType, maps: Mappings) { t.Struct? && Columns(t, maps).Ok? }

  lemma GoodFields(t: GoType, n: nat, maps: Mappings)
    requires Good(t, maps) && n <= |t.fields|
    ensures ColumnsUpTo(t, n, maps).Ok?
    ensures n > 0 ==> FieldColumns(t, t.fields[n - 1], maps).Ok?
    ensures n > 0 && t.fields[n - 1].anonymous ==> Good(t.fields[n - 1].typ, maps)
  {
    PanicStays(t, n, |t.fields|, maps);
    if n > 0 {
      PanicStays(t, n - 1, |t.fields|, maps);
    }
  }

  /** What the first `n` fields add up to in both recursions. */
  ghost predicate Both(t: GoType, n: nat, maps: Mappings, pairs: seq<string>, cols: seq<Column>)
    requires t.Struct? && n <= |t.fields|
  {
    Pairs(t, n, maps) == Ok(pairs) && ColumnsUpTo(t, n, maps) == Ok(cols)
  }

  /** What one more field adds: a pair and its column, a flattened struct in both forms, a hidden one in one form
      only, or nothing. */
  ghost predicate Added(f: Field, maps: Mappings, pairs: seq<string>, cols: seq<Column>, pairs': seq<string>,
      cols': seq<Column>)
  {
    if Shown(f) then
      exists c: Column :: cols' == cols + [c] && pairs' == pairs + [c.name + ":" + c.typ]
    else if f.anonymous then
      && Good(f.typ, maps) && StructText(f.typ, maps).Ok?
      && cols' == cols + Columns(f.typ, maps).value
      && pairs' == if Hidden(f) then pairs else pairs + [EntryText(f, maps)]
    else
      cols' == cols && pairs' == pairs
  }

  /** If the columns can be inferred, so can the text; the counts are those of the fields. */
  lemma {:induction false} TextInferred(t: GoType, maps: Mappings)
    requires Good(t, maps)
    ensures StructText(t, maps).Ok? && |Columns(t, maps).value| == Width(t, |t.fields|)
    decreases t, |t.fields| + 1
  {
    var pairs, cols := Prefix(t, |t.fields|, maps);
  }

  lemma {:induction false} Prefix(t: GoType, n: nat, maps: Mappings) returns (pairs: seq<string>, cols: seq<Column>)
    requires Good(t, maps) && n <= |t.fields|
    ensures Both(t, n, maps, pairs, cols) && |pairs| == Entries(t, n) && |cols| == Width(t, n)
    decreases t, n
  {
    if n == 0 {
      return [], [];
    }
    var pairs0, cols0 := Prefix(t, n - 1, maps);
    GoodFields(t, n, maps);
    var f := t.fields[n - 1];
    if f.anonymous {
      TextInferred(f.typ, maps);
    }
    FieldAdds(t, n, maps, pairs0, cols0);
    pairs, cols := Pairs(t, n, maps).value, ColumnsUpTo(t, n, maps).value;
  }

  lemma FieldAdds(t: GoType, n: nat, maps: Mappings, pairs: seq<string>, cols: seq<Column>)
    requires Good(t, maps) && 0 < n <= |t.fields| && Both(t, n - 1, maps, pairs, cols)
    requires t.fields[n - 1].anonymous ==> t.fields[n - 1].typ.Struct? && StructText(t.fields[n - 1].typ, maps).Ok?
    ensures Pairs(t, n, maps).Ok? && ColumnsUpTo(t, n, maps).Ok?
    ensures Added(t.fields[n - 1], maps, pairs, cols, Pairs(t, n, maps).value, ColumnsUpTo(t, n, maps).value)
  {
    GoodFields(t, n, maps);
    var f := t.fields[n - 1];
    var info := FieldInfo(f, maps);
    if Shown(f) {
      var c := FieldColumns(t, f, maps).value[0];
      assert PairText(c.name, c.typ) == c.name + ":" + c.typ;
    } else if !f.anonymous {
      assert info == Ok(Skip);
      assert cols + [] == cols;
    } else if !Hidden(f) && f.typ.name !in maps {
      assert info.value.name == "" && info.value.glueType == StructText(f.typ, maps).value;
      assert PairText("", info.value.glueType) == info.value.glueType;
    }
  }

  /** One step of a proof over the fields. */
  lemma StepTo(t: GoType, n: nat, maps: Mappings)
    returns (pairs: seq<string>, cols: seq<Column>, pairs': seq<string>, cols': seq<Column>)
    requires Good(t, maps) && 0 < n <= |t.fields|
    ensures Both(t, n - 1, maps, pairs, cols) && Both(t, n, maps, pairs', cols')
    ensures |pairs| == Entries(t, n - 1) && |cols| == Width(t, n - 1)
    ensures Added(t.fields[n - 1], maps, pairs, cols, pairs', cols')
    ensures t.fields[n - 1].anonymous ==> |Columns(t.fields[n - 1].typ, maps).value| == FieldWidth(t.fields[n - 1])
  {
    pairs, cols := Prefix(t, n - 1, maps);
    pairs', cols' := Prefix(t, n, maps);
    GoodFields(t, n, maps);
    if t.fields[n - 1].anonymous {
      TextInferred(t.fields[n - 1].typ, maps);
    }
    FieldAdds(t, n, maps, pairs, cols);
  }

  // ---------------------------------------------------------------- joining

  lemma {:induction false} JoinAppend(a: seq<string>, b: seq<string>)
    ensures Join(a + b, ",") == if a == [] then Join(b, ",") else if b == [] then Join(a, ",")
      else Join(a, ",") + "," + Join(b, ",")
  {
    if a == [] {
      assert a + b == b;
    } else if b == [] {
      assert a + b == a;
    } else {
      JoinAppend(a[1..], b);
      assert (a + b)[1..] == a[1..] + b;
    }
  }

  function Colons(s: string): nat
  {
    if s == "" then 0 else (if s[0] == ':' then 1 else 0) + Colons(s[1..])
  }

  lemma {:induction false} ColonsAppend(a: string, b: string)
    ensures Colons(a + b) == Colons(a) + Colons(b)
  {
    if a == "" {
      assert a + b == b;
    } else {
      ColonsAppend(a[1..], b);
      assert (a + b)[1..] == a[1..] + b;
    }
  }

  lemma ColonsJoin(a: seq<string>, b: seq<string>)
    ensures Colons(Join(a + b, ",")) == Colons(Join(a, ",")) + Colons(Join(b, ","))
  {
    JoinAppend(a, b);
    ColonsAppend(Join(a, ","), ",");
    ColonsAppend(Join(a, ",") + ",", Join(b, ","));
    assert Colons(",") == 0;
  }

  lemma {:induction false} ColonsPerColumn(cols: seq<Column>)
    ensures Colons(Join(ColumnTexts(cols), ",")) >= |cols|
  {
    if cols != [] {
      var n := |cols| - 1;
      var c := cols[n];
      ColonsPerColumn(cols[..n]);
      assert cols == cols[..n] + [c];
      TextsAppend(cols[..n], [c]);
      ColonsJoin(ColumnTexts(cols[..n]), ColumnTexts([c]));
      ColonsAppend(c.name, ":");
      ColonsAppend(c.name + ":", c.typ);
    }
  }

  function Total(parts: seq<string>): nat
  {
    if parts == [] then 0 else Total(parts[..|parts| - 1]) + |parts[|parts| - 1]|
  }

  function Commas(n: nat): nat { if n == 0 then 0 else n - 1 }

  lemma {:induction false} TotalAppend(a: seq<string>, b: seq<string>)
    ensures Total(a + b) == Total(a) + Total(b)
  {
    if b == [] {
      assert a + b == a;
    } else {
      var n := |b| - 1;
      TotalAppend(a, b[..n]);
      assert (a + b)[..|a + b| - 1] == a + b[..n];
    }
  }

  lemma {:induction false} JoinLength(parts: seq<string>)
    ensures |Join(parts, ",")| == Total(parts) + Commas(|parts|)
  {
    if parts != [] {
      var n := |parts| - 1;
      JoinLength(parts[..n]);
      assert parts == parts[..n] + [parts[n]];
      JoinAppend(parts[..n], [parts[n]]);
    }
  }

  // ---------------------------------------------------------------- when the two flattenings agree

  /** No embedded struct tagged `json:"-"`, at any depth, has columns. */
  ghost predicate NothingHidden(t: GoType, maps: Mappings)
  {
    t.Struct? ==> forall i | 0 <= i < |t.fields| :: Unhidden(t.fields[i], maps)
  }

  ghost predicate Unhidden(f: Field, maps: Mappings)
    decreases f.typ
  {
    f.anonymous ==> if Hidden(f) then FieldWidth(f) == 0 else
      f.typ.Struct? && f.typ.name !in maps ==> forall i | 0 <= i < |f.typ.fields| :: Unhidden(f.typ.fields[i], maps)
  }

  /** No embedded struct, at any depth, hides columns, and one without columns is the only entry. */
  ghost predicate Flat(t: GoType, maps: Mappings)
  {
    t.Struct? ==> forall i | 0 <= i < |t.fields| && t.fields[i].anonymous ::
      if Hidden(t.fields[i]) then FieldWidth(t.fields[i]) == 0
      else
        && (t.fields[i].typ.name in maps || Flat(t.fields[i].typ, maps))
        && (FieldWidth(t.fields[i]) > 0 || Entries(t, |t.fields|) == 1)
  }

  /** What a step adds to the numbers of colons. */
  lemma AddedColons(f: Field, maps: Mappings, pairs: seq<string>, cols: seq<Column>, pairs': seq<string>,
      cols': seq<Column>)
    requires Added(f, maps, pairs, cols, pairs', cols')
    ensures
      var s, j := Colons(Join(pairs', ",")) - Colons(Join(pairs, ",")), Colons(Joined(cols')) - Colons(Joined(cols));
      if f.anonymous then
        && j == Colons(ColumnsText(f.typ, maps)) >= |Columns(f.typ, maps).value|
        && s == if Hidden(f) then 0 else Colons(EntryText(f, maps))
      else s == j
  {
    if Shown(f) {
      var c: Column :| cols' == cols + [c] && pairs' == pairs + [c.name + ":" + c.typ];
      assert ColumnTexts([c]) == [c.name + ":" + c.typ];
      TextsAppend(cols, [c]);
      ColonsJoin(pairs, ColumnTexts([c]));
      ColonsJoin(ColumnTexts(cols), ColumnTexts([c]));
    } else if f.anonymous {
      var inner := Columns(f.typ, maps).value;
      TextsAppend(cols, inner);
      ColonsJoin(ColumnTexts(cols), ColumnTexts(inner));
      ColonsPerColumn(inner);
      ColonsJoin(pairs, [EntryText(f, maps)]);
    }
  }

  /** The text has at most as many colons as the columns, and as many only if nothing is hidden. */
  lemma {:induction false} ColonBound(t: GoType, maps: Mappings)
    requires Good(t, maps) && MappingsAgree(t, maps)
    ensures Colons(Text(t, maps)) <= Colons(ColumnsText(t, maps))
    ensures Colons(Text(t, maps)) == Colons(ColumnsText(t, maps)) ==> NothingHidden(t, maps)
    decreases t, |t.fields| + 1
  {
    TextInferred(t, maps);
    ColonBoundUpTo(t, |t.fields|, maps);
  }

  /** How many more colons the columns have than the pairs. */
  ghost function Missing(t: GoType, n: nat, maps: Mappings): int
    requires t.Struct? && n <= |t.fields|
  {
    if Pairs(t, n, maps).Ok? && ColumnsUpTo(t, n, maps).Ok? then
      Colons(Joined(ColumnsUpTo(t, n, maps).value)) - Colons(Join(Pairs(t, n, maps).value, ","))
    else 0
  }

  lemma MissingTo(t: GoType, n: nat, maps: Mappings)
    requires Good(t, maps) && 0 < n <= |t.fields|
    ensures
      var f := t.fields[n - 1];
      if Spliced(f) then
        && Good(f.typ, maps)
        && Missing(t, n, maps)
           == Missing(t, n - 1, maps) + Colons(ColumnsText(f.typ, maps)) - Colons(EntryText(f, maps))
      else if Hidden(f) then Missing(t, n, maps) >= Missing(t, n - 1, maps) + FieldWidth(f)
      else Missing(t, n, maps) == Missing(t, n - 1, maps)
  {
    var pairs, cols, pairs', cols' := StepTo(t, n, maps);
    AddedColons(t.fields[n - 1], maps, pairs, cols, pairs', cols');
  }

  lemma MissingStep(t: GoType, n: nat, maps: Mappings)
    requires Good(t, maps) && MappingsAgree(t, maps) && 0 < n <= |t.fields|
    requires
      var f := t.fields[n - 1];
      Spliced(f) && f.typ.name !in maps ==>
        && Colons(Text(f.typ, maps)) <= Colons(ColumnsText(f.typ, maps))
        && (Colons(Text(f.typ, maps)) == Colons(ColumnsText(f.typ, maps)) ==> NothingHidden(f.typ, maps))
    ensures Missing(t, n, maps) >= Missing(t, n - 1, maps)
    ensures Missing(t, n, maps) == Missing(t, n - 1, maps) ==> Unhidden(t.fields[n - 1], maps)
  {
    MissingTo(t, n, maps);
  }

  lemma {:induction false} ColonBoundUpTo(t: GoType, n: nat, maps: Mappings)
    requires Good(t, maps) && MappingsAgree(t, maps) && n <= |t.fields|
    ensures Missing(t, n, maps) >= 0
      && (Missing(t, n, maps) == 0 ==> forall i | 0 <= i < n :: Unhidden(t.fields[i], maps))
    decreases t, n
  {
    if n > 0 {
      ColonBoundUpTo(t, n - 1, maps);
      GoodFields(t, n, maps);
      var f := t.fields[n - 1];
      if Spliced(f) && f.typ.name !in maps {
        ColonBound(f.typ, maps);
      }
      MissingStep(t, n, maps);
    }
  }

  /** Which entries stand for no column. */
  lemma {:induction false} EntriesAndGroups(t: GoType, n: nat, maps: Mappings)
    requires t.Struct? && n <= |t.fields| && forall i | 0 <= i < n :: Unhidden(t.fields[i], maps)
    ensures Groups(t, n) <= Entries(t, n) && (Groups(t, n) > 0 <==> Width(t, n) > 0)
    ensures Groups(t, n) == Entries(t, n) ==> forall i | 0 <= i < n && Spliced(t.fields[i]) ::
      FieldWidth(t.fields[i]) > 0
    ensures forall i | 0 <= i < n && Spliced(t.fields[i]) :: Entries(t, n) >= 1
  {
    if n > 0 {
      EntriesAndGroups(t, n - 1, maps);
      assert Unhidden(t.fields[n - 1], maps);
    }
  }

  /** What a step adds to the lengths. */
  lemma AddedTotals(f: Field, maps: Mappings, pairs: seq<string>, cols: seq<Column>, pairs': seq<string>,
      cols': seq<Column>)
    requires Added(f, maps, pairs, cols, pairs', cols')
    ensures
      var s, j := Total(pairs') - Total(pairs), Total(ColumnTexts(cols')) - Total(ColumnTexts(cols));
      if f.anonymous then
        && j + Commas(|Columns(f.typ, maps).value|) == |ColumnsText(f.typ, maps)|
        && s == if Hidden(f) then 0 else |EntryText(f, maps)|
      else s == j
  {
    if Shown(f) {
      var c: Column :| cols' == cols + [c] && pairs' == pairs + [c.name + ":" + c.typ];
      assert ColumnTexts([c]) == [c.name + ":" + c.typ];
      TextsAppend(cols, [c]);
      TotalAppend(pairs, ColumnTexts([c]));
      TotalAppend(ColumnTexts(cols), ColumnTexts([c]));
    } else if f.anonymous {
      var inner := Columns(f.typ, maps).value;
      TextsAppend(cols, inner);
      TotalAppend(ColumnTexts(cols), ColumnTexts(inner));
      JoinLength(ColumnTexts(inner));
      TotalAppend(pairs, [EntryText(f, maps)]);
    }
  }

  /** If nothing is hidden, the text is at least as long as the joined columns, and as long only if it is flat. */
  lemma {:induction false} LengthBound(t: GoType, maps: Mappings)
    requires Good(t, maps) && MappingsAgree(t, maps) && NothingHidden(t, maps)
    ensures |ColumnsText(t, maps)| <= |Text(t, maps)|
    ensures |ColumnsText(t, maps)| == |Text(t, maps)| ==> Flat(t, maps)
    decreases t, |t.fields| + 1
  {
    var n := |t.fields|;
    LengthBoundUpTo(t, n, maps);
    EntriesAndGroups(t, n, maps);
    var pairs, cols := Prefix(t, n, maps);
    JoinLength(pairs);
    JoinLength(ColumnTexts(cols));
    if |ColumnsText(t, maps)| == |Text(t, maps)| {
      forall i | 0 <= i < n && t.fields[i].anonymous
        ensures if Hidden(t.fields[i]) then FieldWidth(t.fields[i]) == 0
          else
            && (t.fields[i].typ.name in maps || Flat(t.fields[i].typ, maps))
            && (FieldWidth(t.fields[i]) > 0 || Entries(t, n) == 1)
      {
        assert Unhidden(t.fields[i], maps);
      }
    }
  }

  ghost predicate InnerFlat(t: GoType, n: nat, maps: Mappings)
    requires t.Struct? && n <= |t.fields|
  {
    forall i | 0 <= i < n && Spliced(t.fields[i]) && t.fields[i].typ.name !in maps :: Flat(t.fields[i].typ, maps)
  }

  /** How much longer the pairs are than the columns' texts, not counting commas inside flattened structs. */
  ghost function Slack(t: GoType, n: nat, pairs: seq<string>, cols: seq<Column>): int
    requires t.Struct? && n <= |t.fields|
  {
    Total(pairs) + Groups(t, n) - Total(ColumnTexts(cols)) - Width(t, n)
  }

  /** A step adds to the slack what the flattened struct's text is longer than its joined columns. */
  lemma SlackStep(t: GoType, n: nat, maps: Mappings, pairs: seq<string>, cols: seq<Column>, pairs': seq<string>,
      cols': seq<Column>)
    requires t.Struct? && 0 < n <= |t.fields| && Unhidden(t.fields[n - 1], maps)
    requires Added(t.fields[n - 1], maps, pairs, cols, pairs', cols')
    requires t.fields[n - 1].anonymous ==> |Columns(t.fields[n - 1].typ, maps).value| == FieldWidth(t.fields[n - 1])
    ensures
      var f := t.fields[n - 1];
      Slack(t, n, pairs', cols') == Slack(t, n - 1, pairs, cols)
        + if Spliced(f) then |EntryText(f, maps)| - |ColumnsText(f.typ, maps)| else 0
  {
    var f := t.fields[n - 1];
    AddedTotals(f, maps, pairs, cols, pairs', cols');
    if Hidden(f) {
      assert Columns(f.typ, maps).value == [];
    }
  }

  lemma UnhiddenInside(f: Field, maps: Mappings)
    requires Unhidden(f, maps) && Spliced(f) && f.typ.name !in maps
    ensures NothingHidden(f.typ, maps)
  {
  }

  ghost function SlackAt(t: GoType, n: nat, maps: Mappings): int
    requires t.Struct? && n <= |t.fields|
  {
    if Pairs(t, n, maps).Ok? && ColumnsUpTo(t, n, maps).Ok? then
      Slack(t, n, Pairs(t, n, maps).value, ColumnsUpTo(t, n, maps).value)
    else 0
  }

  lemma SlackTo(t: GoType, n: nat, maps: Mappings)
    requires Good(t, maps) && 0 < n <= |t.fields| && Unhidden(t.fields[n - 1], maps)
    ensures
      var f := t.fields[n - 1];
      if Spliced(f) then
        && Good(f.typ, maps)
        && SlackAt(t, n, maps) == SlackAt(t, n - 1, maps) + |EntryText(f, maps)| - |ColumnsText(f.typ, maps)|
      else SlackAt(t, n, maps) == SlackAt(t, n - 1, maps)
  {
    var pairs, cols, pairs', cols' := StepTo(t, n, maps);
    SlackStep(t, n, maps, pairs, cols, pairs', cols');
  }

  lemma {:induction false} LengthBoundUpTo(t: GoType, n: nat, maps: Mappings)
    requires Good(t, maps) && MappingsAgree(t, maps) && n <= |t.fields| && NothingHidden(t, maps)
    ensures SlackAt(t, n, maps) >= 0 && (SlackAt(t, n, maps) == 0 ==> InnerFlat(t, n, maps))
    decreases t, n
  {
    if n > 0 {
      LengthBoundUpTo(t, n - 1, maps);
      SlackTo(t, n, maps);
      if Spliced(t.fields[n - 1]) && t.fields[n - 1].typ.name !in maps {
        UnhiddenInside(t.fields[n - 1], maps);
        LengthBound(t.fields[n - 1].typ, maps);
      }
    }
  }

  lemma {:induction false} EntriesGrow(t: GoType, n: nat, m: nat)
    requires t.Struct? && n <= m <= |t.fields|
    ensures Entries(t, n) <= Entries(t, m)
  {
    if n < m {
      EntriesGrow(t, n, m - 1);
    }
  }

  /** In a flat struct, a pair without columns is the only one. */
  lemma {:induction false} LoneEntry(t: GoType, n: nat, maps: Mappings)
    requires t.Struct? && Flat(t, maps) && n <= |t.fields|
    ensures Entries(t, n) > 0 && Width(t, n) == 0 ==> Entries(t, |t.fields|) == 1
  {
    if n > 0 {
      LoneEntry(t, n - 1, maps);
      var f := t.fields[n - 1];
      assert Width(t, n) == Width(t, n - 1) + FieldWidth(f);
      assert f.anonymous && !Hidden(f) ==> FieldWidth(f) > 0 || Entries(t, |t.fields|) == 1;
    }
  }

  /** Both forms so far are the same text, and empty together. */
  ghost predicate Same(pairs: seq<string>, cols: seq<Column>)
  {
    Join(pairs, ",") == Joined(cols) && (pairs == [] ==> cols == [])
  }

  /** A step keeps both forms the same, unless a pair without columns gets company. */
  lemma AddedSame(f: Field, maps: Mappings, pairs: seq<string>, cols: seq<Column>, pairs': seq<string>,
      cols': seq<Column>)
    requires Added(f, maps, pairs, cols, pairs', cols') && Same(pairs, cols)
    requires Shown(f) || Spliced(f) ==> pairs == [] || cols != []
    requires Hidden(f) ==> Columns(f.typ, maps).value == []
    requires Spliced(f) ==>
      EntryText(f, maps) == ColumnsText(f.typ, maps) && (Columns(f.typ, maps).value == [] ==> pairs == [])
    ensures Same(pairs', cols')
  {
    if Shown(f) {
      var c: Column :| cols' == cols + [c] && pairs' == pairs + [c.name + ":" + c.typ];
      assert ColumnTexts([c]) == [c.name + ":" + c.typ];
      TextsAppend(cols, [c]);
      JoinAppend(pairs, ColumnTexts([c]));
      JoinAppend(ColumnTexts(cols), ColumnTexts([c]));
    } else if f.anonymous {
      var inner := Columns(f.typ, maps).value;
      TextsAppend(cols, inner);
      JoinAppend(pairs, [EntryText(f, maps)]);
      JoinAppend(ColumnTexts(cols), ColumnTexts(inner));
      assert cols + [] == cols;
    }
  }

  /** A flat struct's text is its columns, joined. */
  lemma {:induction false} FlatAgrees(t: GoType, maps: Mappings)
    requires Good(t, maps) && MappingsAgree(t, maps) && Flat(t, maps)
    ensures Text(t, maps) == ColumnsText(t, maps)
    decreases t, |t.fields| + 1
  {
    FlatAgreesUpTo(t, |t.fields|, maps);
  }

  lemma {:induction false} FlatAgreesUpTo(t: GoType, n: nat, maps: Mappings)
    requires Good(t, maps) && MappingsAgree(t, maps) && Flat(t, maps) && n <= |t.fields|
    ensures Pairs(t, n, maps).Ok? && ColumnsUpTo(t, n, maps).Ok?
    ensures Same(Pairs(t, n, maps).value, ColumnsUpTo(t, n, maps).value)
    decreases t, n
  {
    if n > 0 {
      FlatAgreesUpTo(t, n - 1, maps);
      var pairs, cols, pairs', cols' := StepTo(t, n, maps);
      var f := t.fields[n - 1];
      EntriesGrow(t, n, |t.fields|);
      LoneEntry(t, n - 1, maps);
      if Spliced(f) && f.typ.name !in maps {
        FlatAgrees(f.typ, maps);
      }
      AddedSame(f, maps, pairs, cols, pairs', cols');
    }
  }

  /** For every struct type whose columns can be inferred and whose mapped embedded structs spell their own columns, the
      text of the nested struct type is the joined columns exactly when the type is flat. */
  lemma FlatteningsAgreeIff(t: GoType, maps: Mappings)
    requires MappingsAgree(t, maps) && Columns(t, maps).Ok?
    ensures StructText(t, maps) == Ok(Join(ColumnTexts(Columns(t, maps).value), ",")) <==> Flat(t, maps)
  {
    TextInferred(t, maps);
    if Flat(t, maps) {
      FlatAgrees(t, maps);
    } else if Text(t, maps) == ColumnsText(t, maps) {
      ColonBound(t, maps);
      LengthBound(t, maps);
    }
  }

  /** The types the package is written for: embedded structs, at any depth, have columns and are not left out, and
      every field with a column of its own has a description. */
  ghost predicate Described(t: GoType)
  {
    t.Struct? && forall i | 0 <= i < |t.fields| ::
      && (Shown(t.fields[i]) ==> TrimSpace(t.fields[i].description) != "")
      && (t.fields[i].anonymous ==> Spliced(t.fields[i]) && FieldWidth(t.fields[i]) > 0 && Described(t.fields[i].typ))
  }

  ghost predicate SamePanic<A, B>(a: Result<A>, b: Result<B>)
  {
    a.Panic? == b.Panic? && (a.Panic? ==> a.reason == b.reason)
  }

  lemma PlainFieldPanics(t: GoType, f: Field, maps: Mappings)
    requires !f.anonymous && (Shown(f) ==> TrimSpace(f.description) != "")
    ensures SamePanic(FieldInfo(f, maps), FieldColumns(t, f, maps))
  {
  }

  lemma {:induction false} PanicTogether(t: GoType, n: nat, maps: Mappings)
    requires PlainEmbedding(t, maps) && Described(t) && n <= |t.fields|
    ensures SamePanic(Pairs(t, n, maps), ColumnsUpTo(t, n, maps))
    decreases t, n
  {
    if n > 0 {
      PanicTogether(t, n - 1, maps);
      var f := t.fields[n - 1];
      if f.anonymous {
        PanicTogether(f.typ, |f.typ.fields|, maps);
        assert SamePanic(FieldInfo(f, maps), StructText(f.typ, maps));
      } else {
        PlainFieldPanics(t, f, maps);
      }
      assert SamePanic(FieldInfo(f, maps), FieldColumns(t, f, maps));
    }
  }

  /** Embedded types, at any depth, are structs without a custom mapping. */
  ghost predicate PlainEmbedding(t: GoType, maps: Mappings)
  {
    t.Struct? && forall i | 0 <= i < |t.fields| && t.fields[i].anonymous ::
      t.fields[i].typ.name !in maps && PlainEmbedding(t.fields[i].typ, maps)
  }

  lemma {:induction false} DescribedIsFlat(t: GoType, maps: Mappings)
    requires PlainEmbedding(t, maps) && Described(t)
    ensures Flat(t, maps) && MappingsAgree(t, maps)
  {
    forall i | 0 <= i < |t.fields| && t.fields[i].anonymous
      ensures Flat(t.fields[i].typ, maps) && MappingsAgree(t.fields[i].typ, maps)
    {
      DescribedIsFlat(t.fields[i].typ, maps);
    }
  }

  /** For every such type the two recursions agree outright: the same text, or the same panic. */
  lemma DescribedAgree(t: GoType, maps: Mappings)
    requires PlainEmbedding(t, maps) && Described(t)
    ensures StructText(t, maps) == match Columns(t, maps)
      case Ok(cols) => Ok(Join(ColumnTexts(cols), ","))
      case Panic(reason) => Panic(reason)
  {
    PanicTogether(t, |t.fields|, maps);
    if Columns(t, maps).Ok? {
      DescribedIsFlat(t, maps);
      FlatteningsAgreeIff(t, maps);
    }
  }

  // ---------------------------------------------------------------- where they part

  function Plain(name: FieldName, typ: GoType): Field { Field(name, typ, false, "", "", "a field", "") }
  function Embedded(typ: GoType, json: string): Field { Field("E", typ, true, "", json, "", "") }

  /** Both recursions, one field further. */
  lemma Unfold(t: GoType, n: nat, maps: Mappings, pairs: seq<string>, cols: seq<Column>, info: Info)
    requires t.Struct? && 0 < n <= |t.fields| && Both(t, n - 1, maps, pairs, cols)
    requires FieldInfo(t.fields[n - 1], maps) == Ok(info) && info.Info? && FieldColumns(t, t.fields[n - 1], maps).Ok?
    ensures Both(t, n, maps, pairs + [PairText(info.name, info.glueType)],
      cols + FieldColumns(t, t.fields[n - 1], maps).value)
  {
  }

  lemma PlainInt(x: FieldName, t: GoType, maps: Mappings)
    requires "int" !in maps
    ensures FieldInfo(Plain(x, Basic("int")), maps) == Ok(Info(x, "bigint", "a field", false))
    ensures FieldColumns(t, Plain(x, Basic("int")), maps) == Ok([Column(x, "bigint", "a field", false)])
  {
  }

  /** An embedded struct without fields leaves a stray comma. */
  lemma EmptyEmbeddingStrays(maps: Mappings)
    requires "int" !in maps && "E" !in maps
    ensures
      var t := Struct("T", [Plain("A", Basic("int")), Embedded(Struct("E", []), "")]);
      && Columns(t, maps) == Ok([Column("A", "bigint", "a field", false)])
      && StructText(t, maps) == Ok("A:bigint,")
  {
    var e := Struct("E", []);
    var b := Embedded(e, "");
    var t := Struct("T", [Plain("A", Basic("int")), b]);
    var column := Column("A", "bigint", "a field", false);
    FirstPlain(t, maps);
    EmptyStruct(e, maps);
    assert FieldInfo(b, maps) == Ok(Info("", "", "", false)) && FieldColumns(t, b, maps) == Ok([]);
    Unfold(t, 2, maps, ["A:bigint"], [column], Info("", "", "", false));
    assert PairText("", "") == "";
    assert ["A:bigint"] + [""] == ["A:bigint", ""] && [column] + [] == [column];
    assert Join(["A:bigint", ""], ",") == "A:bigint,";
  }

  lemma EmptyStruct(t: GoType, maps: Mappings)
    requires t.Struct? && t.fields == []
    ensures Columns(t, maps) == Ok([]) && StructText(t, maps) == Ok("")
  {
  }

  lemma FirstPlain(t: GoType, maps: Mappings)
    requires "int" !in maps && t.Struct? && t.fields != [] && t.fields[0] == Plain("A", Basic("int"))
    ensures Both(t, 1, maps, ["A:bigint"], [Column("A", "bigint", "a field", false)])
  {
    PlainInt("A", t, maps);
    assert Both(t, 0, maps, [], []);
    Unfold(t, 1, maps, [], [], FieldInfo(t.fields[0], maps).value);
    assert PairText("A", "bigint") == "A:bigint" && [] + ["A:bigint"] == ["A:bigint"];
    assert [] + [Column("A", "bigint", "a field", false)] == [Column("A", "bigint", "a field", false)];
  }

  lemma OneColumn(x: FieldName, maps: Mappings)
    requires "int" !in maps
    ensures
      var e := Struct("E", [Plain(x, Basic("int"))]);
      Columns(e, maps) == Ok([Column(x, "bigint", "a field", false)]) && ColumnsText(e, maps) == x + ":bigint"
  {
    var e, column := Struct("E", [Plain(x, Basic("int"))]), Column(x, "bigint", "a field", false);
    PlainInt(x, e, maps);
    assert Both(e, 0, maps, [], []);
    Unfold(e, 1, maps, [], [], FieldInfo(e.fields[0], maps).value);
    assert [] + [column] == [column];
    assert x + ":" + "bigint" == x + ":bigint";
    assert ColumnTexts([column]) == [x + ":bigint"];
  }

  /** A struct of one mapped embedded struct: the nested struct type names the embedded type where table columns flatten
      it, so the two agree only if name and mapping happen to spell the columns. */
  lemma MappedAloneAgreesIff(name: string, f: Field, maps: Mappings)
    requires Spliced(f) && f.typ.name in maps && Columns(f.typ, maps).Ok?
    ensures
      var t := Struct(name, [f]);
      && Columns(t, maps) == Columns(f.typ, maps)
      && StructText(t, maps) == Ok(LogicalName(f) + ":" + maps[f.typ.name])
      && (MappingsAgree(t, maps) <==> StructText(t, maps) == Ok(ColumnsText(f.typ, maps)))
  {
    var t, cols, text := Struct(name, [f]), Columns(f.typ, maps).value, EntryText(f, maps);
    assert t.fields[0] == f && FieldInfo(f, maps).Ok?;
    assert Both(t, 0, maps, [], []);
    Unfold(t, 1, maps, [], [], FieldInfo(f, maps).value);
    assert [] + cols == cols && [] + [text] == [text];
    assert Join([text], ",") == text;
  }

  /** At an input: an embedded `E` with one integer field `x` and a mapping is `E:` with the mapping in a nested struct
      type and the column `x:bigint` in a table. */
  lemma MappedEmbeddingParts(x: FieldName, maps: Mappings)
    requires "int" !in maps && "E" in maps
    ensures
      var t := Struct("T", [Embedded(Struct("E", [Plain(x, Basic("int"))]), "")]);
      && Columns(t, maps) == Ok([Column(x, "bigint", "a field", false)])
      && StructText(t, maps) == Ok("E" + ":" + maps["E"])
      && (MappingsAgree(t, maps) <==> "E" + ":" + maps["E"] == x + ":bigint")
  {
    OneColumn(x, maps);
    SplitNoSep("", ',');
    MappedAloneAgreesIff("T", Embedded(Struct("E", [Plain(x, Basic("int"))]), ""), maps);
  }

  lemma JoinTwo(a: string, b: string)
    ensures Join([a, b], ",") == a + "," + b
  {
    assert [a, b][1..] == [b];
  }

  lemma TwoMapped(name: string, e: Field, f: Field, maps: Mappings)
    requires Spliced(e) && e.typ.name in maps && Columns(e.typ, maps).Ok?
    requires Spliced(f) && f.typ.name in maps && Columns(f.typ, maps).Ok?
    ensures
      var t := Struct(name, [e, f]);
      && Columns(t, maps) == Ok(Columns(e.typ, maps).value + Columns(f.typ, maps).value)
      && StructText(t, maps) == Ok(EntryText(e, maps) + "," + EntryText(f, maps))
  {
    var t, c, d := Struct(name, [e, f]), Columns(e.typ, maps).value, Columns(f.typ, maps).value;
    var a, b := EntryText(e, maps), EntryText(f, maps);
    assert t.fields[0] == e && t.fields[1] == f;
    assert FieldInfo(e, maps).Ok? && FieldInfo(f, maps).Ok? && Both(t, 0, maps, [], []);
    Unfold(t, 1, maps, [], [], FieldInfo(e, maps).value);
    assert [] + c == c && [] + [a] == [a];
    Unfold(t, 2, maps, [a], c, FieldInfo(f, maps).value);
    assert [a] + [b] == [a, b];
    JoinTwo(a, b);
  }

  function IntColumn(x: FieldName): Column { Column(x, "bigint", "a field", false) }

  lemma TwoColumns(name: string, x: FieldName, y: FieldName, maps: Mappings)
    requires "int" !in maps
    ensures Columns(Struct(name, [Plain(x, Basic("int")), Plain(y, Basic("int"))]), maps)
      == Ok([IntColumn(x), IntColumn(y)])
  {
    var t := Struct(name, [Plain(x, Basic("int")), Plain(y, Basic("int"))]);
    PlainInt(x, t, maps);
    PlainInt(y, t, maps);
    assert Both(t, 0, maps, [], []);
    Unfold(t, 1, maps, [], [], FieldInfo(t.fields[0], maps).value);
    assert [] + [IntColumn(x)] == [IntColumn(x)];
    Unfold(t, 2, maps, [] + [PairText(x, "bigint")], [IntColumn(x)], FieldInfo(t.fields[1], maps).value);
    assert [IntColumn(x)] + [IntColumn(y)] == [IntColumn(x), IntColumn(y)];
  }

  lemma TwoTexts(x: FieldName, y: FieldName)
    ensures Joined([IntColumn(x), IntColumn(y)] + []) == PairText(x, "bigint") + "," + PairText(y, "bigint")
  {
    var cols := [IntColumn(x), IntColumn(y)];
    assert cols + [] == cols;
    var a, b := PairText(x, "bigint"), PairText(y, "bigint");
    assert ColumnTexts(cols) == [a, b];
    JoinTwo(a, b);
  }

  /** At an input: mappings that do not spell their own columns can still make up for each other. `E` has the columns
      `E` and `F` and is mapped to the first, an empty `F` is mapped to the second, and the two forms agree. */
  lemma MappingsMakeUp(maps: Mappings)
    requires "int" !in maps && "E" in maps && maps["E"] == "bigint" && "F" in maps && maps["F"] == "bigint"
    ensures
      var e := Embedded(Struct("E", [Plain("E", Basic("int")), Plain("F", Basic("int"))]), "");
      var t := Struct("T", [e, Embedded(Struct("F", []), "").(name := "F")]);
      StructText(t, maps) == Ok(ColumnsText(t, maps)) && !MappingsAgree(t, maps)
  {
    var e := Embedded(Struct("E", [Plain("E", Basic("int")), Plain("F", Basic("int"))]), "");
    var f := Embedded(Struct("F", []), "").(name := "F");
    SplitNoSep("", ',');
    TwoColumns("E", "E", "F", maps);
    EmptyStruct(f.typ, maps);
    TwoMapped("T", e, f, maps);
    TwoTexts("E", "F");
    NotBoth(Struct("T", [e, f]), maps);
  }

  lemma NotBoth(t: GoType, maps: Mappings)
    requires t.Struct? && |t.fields| == 2 && Spliced(t.fields[1]) && t.fields[1].typ.name in maps
    requires t.fields[1].typ.Struct? && t.fields[1].typ.fields == []
    ensures !MappingsAgree(t, maps)
  {
    EmptyStruct(t.fields[1].typ, maps);
    assert |EntryText(t.fields[1], maps)| > 0 == |ColumnsText(t.fields[1].typ, maps)|;
  }

  /** Table columns of a type that embeds anything but a struct, a pointer to a struct included, cannot be inferred. */
  lemma EmbeddedNonStructPanics(t: GoType, i: nat, maps: Mappings)
    requires t.Struct? && i < |t.fields| && t.fields[i].anonymous && !t.fields[i].typ.Struct?
    ensures Columns(t, maps).Panic?
  {
    PanicStays(t, i, |t.fields|, maps);
    PanicStays(t, i + 1, |t.fields|, maps);
    assert FieldColumns(t, t.fields[i], maps).Panic?;
    assert ColumnsUpTo(t, i + 1, maps).Panic?;
  }

  // ---------------------------------------------------------------- columns

  /** What CloudFormation asks of a column: a name, and a comment of 1 to 255 characters without blanks around it. */
  ghost predicate Acceptable(c: Column)
  {
    c.name != "" && 1 <= |c.comment| <= MAX_COMMENT && !IsSpace(c.comment[0]) && !IsSpace(c.comment[|c.comment| - 1])
  }

  lemma ClipAcceptable(s: string)
    requires TrimSpace(s) != ""
    ensures var c := Clip(TrimSpace(s)); 1 <= |c| <= MAX_COMMENT && !IsSpace(c[0]) && !IsSpace(c[|c| - 1])
  {
  }

  /** For every type and every mapping, whatever columns are inferred are acceptable. */
  lemma {:induction false} ColumnsAcceptable(t: GoType, maps: Mappings)
    requires Columns(t, maps).Ok?
    ensures forall c | c in Columns(t, maps).value :: Acceptable(c)
    decreases t, if t.Struct? then |t.fields| + 1 else 0
  {
    ColumnsAcceptableUpTo(t, |t.fields|, maps);
  }

  lemma {:induction false} ColumnsAcceptableUpTo(t: GoType, n: nat, maps: Mappings)
    requires t.Struct? && n <= |t.fields| && ColumnsUpTo(t, n, maps).Ok?
    ensures forall c | c in ColumnsUpTo(t, n, maps).value :: Acceptable(c)
    decreases t, n
  {
    if n > 0 {
      ColumnsAcceptableUpTo(t, n - 1, maps);
      var f := t.fields[n - 1];
      if f.anonymous {
        ColumnsAcceptable(f.typ, maps);
      } else if Shown(f) {
        ClipAcceptable(f.description);
      }
    }
  }
}
