/** The types of Glue columns, the text that spells them, and how such text reads. */
module GlueTypes {
  import opened GoStrings

  datatype GlueType =
    | Named(name: string)
    | ArrayOf(elem: GlueType)
    | MapOf(key: string, elem: GlueType)
    | StructOf(fields: seq<FieldType>)

  datatype FieldType = FieldType(name: string, typ: GlueType)

  predicate Mark(c: char) { c == '<' || c == '>' || c == ',' || c == ':' }

  /** Names without the marks that give the text its structure. */
  predicate Clean(name: string) { forall i | 0 <= i < |name| :: !Mark(name[i]) }

  predicate CleanType(g: GlueType)
  {
    match g
    case Named(name) => Clean(name)
    case ArrayOf(elem) => CleanType(elem)
    case MapOf(key, elem) => Clean(key) && CleanType(elem)
    case StructOf(fields) => forall i | 0 <= i < |fields| :: Clean(fields[i].name) && CleanType(fields[i].typ)
  }

  function Spelled(g: GlueType): string
  {
    match g
    case Named(name) => name
    case ArrayOf(elem) => "array<" + Spelled(elem) + ">"
    case MapOf(key, elem) => "map<" + key + "," + Spelled(elem) + ">"
    case StructOf(fields) =>
      "struct<" + Join(seq(|fields|, i requires 0 <= i < |fields| => fields[i].name + ":" + Spelled(fields[i].typ)),
        ",")
      + ">"
  }

  function FieldTexts(fields: seq<FieldType>): (texts: seq<string>)
    ensures |texts| == |fields|
    ensures forall i | 0 <= i < |fields| :: texts[i] == fields[i].name + ":" + Spelled(fields[i].typ)
  {
    seq(|fields|, i requires 0 <= i < |fields| => fields[i].name + ":" + Spelled(fields[i].typ))
  }

  lemma SpelledStruct(fields: seq<FieldType>)
    ensures Spelled(StructOf(fields)) == "struct<" + Join(FieldTexts(fields), ",") + ">"
  {
    assert FieldTexts(fields)
      == seq(|fields|, i requires 0 <= i < |fields| => fields[i].name + ":" + Spelled(fields[i].typ));
  }

  // ---------------------------------------------------------------- reading

  datatype Reading<T> = NotRead | Read(value: T, rest: string)

  predicate StartsWith(s: string, c: char) { s != "" && s[0] == c }

  /** The name a text begins with. */
  function ReadName(s: string): (r: (string, string))
    ensures s == r.0 + r.1 && Clean(r.0) && (r.1 == "" || Mark(r.1[0]))
  {
    if s == "" || Mark(s[0]) then ("", s)
    else
      var (name, rest) := ReadName(s[1..]);
      ([s[0]] + name, rest)
  }

  /** The type a text begins with. */
  function ReadType(s: string): (r: Reading<GlueType>)
    ensures r.Read? ==> |r.rest| <= |s|
    decreases |s|, 1
  {
    var (name, rest) := ReadName(s);
    if !StartsWith(rest, '<') then Read(Named(name), rest)
    else if name == "array" then
      var elem := ReadType(rest[1..]);
      if elem.Read? && StartsWith(elem.rest, '>') then Read(ArrayOf(elem.value), elem.rest[1..]) else NotRead
    else if name == "map" then
      var (key, more) := ReadName(rest[1..]);
      if !StartsWith(more, ',') then NotRead
      else
        var elem := ReadType(more[1..]);
        if elem.Read? && StartsWith(elem.rest, '>') then Read(MapOf(key, elem.value), elem.rest[1..]) else NotRead
    else if name == "struct" then
      if StartsWith(rest[1..], '>') then Read(StructOf([]), rest[2..])
      else
        var fields := ReadFields(rest[1..]);
        if fields.Read? && StartsWith(fields.rest, '>') then Read(StructOf(fields.value), fields.rest[1..]) else NotRead
    else NotRead
  }

  /** At least one field, with commas between them. */
  function ReadFields(s: string): (r: Reading<seq<FieldType>>)
    ensures r.Read? ==> |r.rest| <= |s|
    decreases |s|, 0
  {
    var (name, more) := ReadName(s);
    if !StartsWith(more, ':') then NotRead
    else
      var typ := ReadType(more[1..]);
      if typ.NotRead? then NotRead
      else if !StartsWith(typ.rest, ',') then Read([FieldType(name, typ.value)], typ.rest)
      else
        var others := ReadFields(typ.rest[1..]);
        if others.NotRead? then NotRead else Read([FieldType(name, typ.value)] + others.value, others.rest)
  }

  /** What a text as a whole says, if it is the text of a type. */
  function TypeIn(text: string): Option<GlueType>
  {
    var r := ReadType(text);
    if r.Read? && r.rest == "" then Some(r.value) else None
  }

  // ---------------------------------------------------------------- reading undoes spelling

  /** Where a type's text may end. */
  predicate Ends(rest: string) { rest == "" || rest[0] == '>' || rest[0] == ',' }

  lemma {:induction false} NameReads(name: string, rest: string)
    requires Clean(name) && (rest == "" || Mark(rest[0]))
    ensures ReadName(name + rest) == (name, rest)
  {
    if name == "" {
      assert name + rest == rest;
    } else {
      NameReads(name[1..], rest);
      assert (name + rest)[1..] == name[1..] + rest && name == [name[0]] + name[1..];
    }
  }

  lemma WordReads(word: string, inner: string)
    requires Clean(word)
    ensures ReadName(word + ("<" + inner)) == (word, "<" + inner) && ("<" + inner)[1..] == inner
  {
    NameReads(word, "<" + inner);
  }

  lemma ReadsArray(s: string, inner: string, elem: GlueType, rest: string)
    requires ReadName(s) == ("array", "<" + inner) && ReadType(inner) == Read(elem, ">" + rest)
    ensures ReadType(s) == Read(ArrayOf(elem), rest)
  {
    assert ("<" + inner)[1..] == inner && (">" + rest)[1..] == rest;
  }

  lemma ReadsMap(s: string, inner: string, key: string, value: string, elem: GlueType, rest: string)
    requires ReadName(s) == ("map", "<" + inner) && ReadName(inner) == (key, "," + value)
    requires ReadType(value) == Read(elem, ">" + rest)
    ensures ReadType(s) == Read(MapOf(key, elem), rest)
  {
    assert ("<" + inner)[1..] == inner && ("," + value)[1..] == value && (">" + rest)[1..] == rest;
  }

  lemma ReadsStruct(s: string, inner: string, fields: seq<FieldType>, rest: string)
    requires ReadName(s) == ("struct", "<" + inner)
    requires if fields == [] then inner == ">" + rest
             else !StartsWith(inner, '>') && ReadFields(inner) == Read(fields, ">" + rest)
    ensures ReadType(s) == Read(StructOf(fields), rest)
  {
    assert ("<" + inner)[1..] == inner && (">" + rest)[1..] == rest;
    if fields == [] {
      assert ("<" + inner)[2..] == rest;
    }
  }

  lemma SpelledInside(word: string, inner: string, rest: string)
    ensures word + "<" + inner + ">" + rest == word + ("<" + (inner + (">" + rest)))
  {
  }

  lemma SpelledMap(key: string, elem: GlueType, rest: string)
    ensures Spelled(MapOf(key, elem)) + rest == "map" + ("<" + (key + ("," + (Spelled(elem) + (">" + rest)))))
  {
    var e := Spelled(elem);
    assert Spelled(MapOf(key, elem)) == "map<" + key + "," + e + ">";
  }

  lemma SpelledArray(elem: GlueType, rest: string)
    ensures Spelled(ArrayOf(elem)) + rest == "array" + ("<" + (Spelled(elem) + (">" + rest)))
  {
    var e := Spelled(elem);
    assert Spelled(ArrayOf(elem)) == "array<" + e + ">";
  }

  lemma {:induction false} TypeReads(g: GlueType, rest: string)
    requires CleanType(g) && Ends(rest)
    ensures ReadType(Spelled(g) + rest) == Read(g, rest)
    decreases g, 1
  {
    match g
    case Named(name) => NameReads(name, rest);
    case ArrayOf(elem) =>
      var inner := Spelled(elem) + (">" + rest);
      TypeReads(elem, ">" + rest);
      WordReads("array", inner);
      SpelledArray(elem, rest);
      ReadsArray(Spelled(g) + rest, inner, elem, rest);
    case MapOf(key, elem) =>
      var value := Spelled(elem) + (">" + rest);
      TypeReads(elem, ">" + rest);
      WordReads("map", key + ("," + value));
      NameReads(key, "," + value);
      SpelledMap(key, elem, rest);
      ReadsMap(Spelled(g) + rest, key + ("," + value), key, value, elem, rest);
    case StructOf(fields) => StructReads(g, rest);
  }

  lemma {:induction false} StructReads(g: GlueType, rest: string)
    requires g.StructOf? && CleanType(g) && Ends(rest)
    ensures ReadType(Spelled(g) + rest) == Read(g, rest)
    decreases g, 0
  {
    var list := Join(FieldTexts(g.fields), ",");
    var inner := list + (">" + rest);
    SpelledStruct(g.fields);
    SpelledInside("struct", list, rest);
    assert Spelled(g) + rest == "struct" + ("<" + inner);
    WordReads("struct", inner);
    if g.fields == [] {
      assert inner == ">" + rest;
    } else {
      FieldsRead(g, 0, rest);
      assert g.fields[0..] == g.fields;
      FieldTextStarts(g.fields, rest);
    }
    ReadsStruct(Spelled(g) + rest, inner, g.fields, rest);
  }

  lemma FieldTextStarts(fields: seq<FieldType>, rest: string)
    requires fields != [] && Clean(fields[0].name)
    ensures !StartsWith(Join(FieldTexts(fields), ",") + (">" + rest), '>')
  {
    var first := FieldTexts(fields)[0];
    assert first[0] == if fields[0].name == "" then ':' else fields[0].name[0];
    assert (Join(FieldTexts(fields), ",") + (">" + rest))[0] == first[0];
  }

  lemma {:induction false} FieldsRead(g: GlueType, k: nat, rest: string)
    requires g.StructOf? && CleanType(g) && k < |g.fields|
    ensures ReadFields(Join(FieldTexts(g.fields[k..]), ",") + (">" + rest)) == Read(g.fields[k..], ">" + rest)
    decreases g, 0, |g.fields| - k
  {
    var fields := g.fields[k..];
    assert fields[0] == g.fields[k] && fields[1..] == g.fields[k + 1..];
    FieldSplits(fields, rest);
    if k + 1 < |g.fields| {
      FieldsRead(g, k + 1, rest);
      var others := Join(FieldTexts(g.fields[k + 1..]), ",") + (">" + rest);
      TypeReads(g.fields[k].typ, "," + others);
      FirstFieldReads(fields[0], others, fields[1..], ">" + rest);
      assert fields == [fields[0]] + fields[1..];
    } else {
      TypeReads(g.fields[k].typ, ">" + rest);
      LastFieldReads(fields[0], rest);
      assert fields == [fields[0]];
    }
  }

  lemma LastFieldReads(f: FieldType, rest: string)
    requires Clean(f.name) && ReadType(Spelled(f.typ) + (">" + rest)) == Read(f.typ, ">" + rest)
    ensures ReadFields(f.name + (":" + (Spelled(f.typ) + (">" + rest)))) == Read([f], ">" + rest)
  {
    var typ := Spelled(f.typ) + (">" + rest);
    NameReads(f.name, ":" + typ);
    assert (":" + typ)[1..] == typ;
  }

  lemma FirstFieldReads(f: FieldType, others: string, fields: seq<FieldType>, rest: string)
    requires Clean(f.name) && ReadType(Spelled(f.typ) + ("," + others)) == Read(f.typ, "," + others)
    requires ReadFields(others) == Read(fields, rest)
    ensures ReadFields(f.name + (":" + (Spelled(f.typ) + ("," + others)))) == Read([f] + fields, rest)
  {
    var typ := Spelled(f.typ) + ("," + others);
    NameReads(f.name, ":" + typ);
    ReadsMore(f.name + (":" + typ), typ, f, others, fields, rest);
  }

  lemma ReadsMore(s: string, typ: string, f: FieldType, others: string, fields: seq<FieldType>, rest: string)
    requires ReadName(s) == (f.name, ":" + typ) && ReadType(typ) == Read(f.typ, "," + others)
    requires ReadFields(others) == Read(fields, rest)
    ensures ReadFields(s) == Read([f] + fields, rest)
  {
    assert (":" + typ)[1..] == typ && ("," + others)[1..] == others;
  }

  /** The text of fields is the first one's name, its type, and the others. */
  lemma FieldSplits(fields: seq<FieldType>, rest: string)
    requires fields != []
    ensures
      var after := if |fields| == 1 then ">" + rest else "," + (Join(FieldTexts(fields[1..]), ",") + (">" + rest));
      Join(FieldTexts(fields), ",") + (">" + rest) == fields[0].name + (":" + (Spelled(fields[0].typ) + after))
  {
    var texts := FieldTexts(fields);
    assert texts[1..] == FieldTexts(fields[1..]);
  }

  /** The text of a type with clean names reads back to the type. */
  lemma SpelledReads(g: GlueType)
    requires CleanType(g)
    ensures TypeIn(Spelled(g)) == Some(g)
  {
    TypeReads(g, "");
    assert Spelled(g) + "" == Spelled(g);
  }

  // ---------------------------------------------------------------- spelling undoes reading

  lemma {:induction false} ReadTypeSpells(s: string)
    ensures ReadType(s).Read? ==>
      CleanType(ReadType(s).value) && s == Spelled(ReadType(s).value) + ReadType(s).rest
    decreases |s|, 1
  {
    var (name, rest) := ReadName(s);
    if StartsWith(rest, '<') && ReadType(s).Read? {
      var inner := rest[1..];
      assert rest == "<" + inner;
      if name == "array" {
        ReadTypeSpells(inner);
        ArrayReadSpells(inner, ReadType(inner));
      } else if name == "map" {
        var (key, more) := ReadName(inner);
        ReadTypeSpells(more[1..]);
        MapReadSpells(key, more, ReadType(more[1..]));
      } else if StartsWith(inner, '>') {
        assert rest[2..] == inner[1..];
        StructReadSpells(inner, [], inner);
      } else {
        ReadFieldsSpells(inner);
        StructReadSpells(inner, ReadFields(inner).value, ReadFields(inner).rest);
      }
    }
  }

  lemma ArrayReadSpells(inner: string, elem: Reading<GlueType>)
    requires elem.Read? && StartsWith(elem.rest, '>') && inner == Spelled(elem.value) + elem.rest
    ensures "array" + ("<" + inner) == Spelled(ArrayOf(elem.value)) + elem.rest[1..]
  {
    assert elem.rest == ">" + elem.rest[1..];
    SpelledArray(elem.value, elem.rest[1..]);
  }

  lemma MapReadSpells(key: string, more: string, elem: Reading<GlueType>)
    requires elem.Read? && StartsWith(elem.rest, '>') && StartsWith(more, ',')
    requires more[1..] == Spelled(elem.value) + elem.rest
    ensures "map" + ("<" + (key + more)) == Spelled(MapOf(key, elem.value)) + elem.rest[1..]
  {
    assert more == "," + more[1..] && elem.rest == ">" + elem.rest[1..];
    SpelledMap(key, elem.value, elem.rest[1..]);
  }

  lemma StructReadSpells(inner: string, fields: seq<FieldType>, rest: string)
    requires StartsWith(rest, '>') && inner == Join(FieldTexts(fields), ",") + rest
    ensures "struct" + ("<" + inner) == Spelled(StructOf(fields)) + rest[1..]
  {
    assert rest == ">" + rest[1..];
    SpelledStruct(fields);
    SpelledInside("struct", Join(FieldTexts(fields), ","), rest[1..]);
  }

  lemma {:induction false} ReadFieldsSpells(s: string)
    ensures ReadFields(s).Read? ==> ReadFields(s).value != [] && CleanType(StructOf(ReadFields(s).value))
    ensures ReadFields(s).Read? ==> s == Join(FieldTexts(ReadFields(s).value), ",") + ReadFields(s).rest
    decreases |s|, 0
  {
    var (name, more) := ReadName(s);
    if ReadFields(s).Read? {
      ReadTypeSpells(more[1..]);
      var typ := ReadType(more[1..]);
      if StartsWith(typ.rest, ',') {
        ReadFieldsSpells(typ.rest[1..]);
        MoreFields(name, more, typ, ReadFields(typ.rest[1..]));
      } else {
        OneField(name, more, typ);
      }
    }
  }

  lemma OneField(name: string, more: string, typ: Reading<GlueType>)
    requires Clean(name) && typ.Read? && CleanType(typ.value)
    requires StartsWith(more, ':') && more[1..] == Spelled(typ.value) + typ.rest
    ensures
      var fields := [FieldType(name, typ.value)];
      CleanType(StructOf(fields)) && Join(FieldTexts(fields), ",") + typ.rest == name + more
  {
    assert more == ":" + more[1..];
    assert FieldTexts([FieldType(name, typ.value)]) == [name + ":" + Spelled(typ.value)];
  }

  lemma MoreFields(name: string, more: string, typ: Reading<GlueType>, others: Reading<seq<FieldType>>)
    requires Clean(name) && typ.Read? && CleanType(typ.value)
    requires StartsWith(more, ':') && more[1..] == Spelled(typ.value) + typ.rest && StartsWith(typ.rest, ',')
    requires others.Read? && CleanType(StructOf(others.value)) && others.value != []
    requires typ.rest[1..] == Join(FieldTexts(others.value), ",") + others.rest
    ensures
      var fields := [FieldType(name, typ.value)] + others.value;
      CleanType(StructOf(fields)) && Join(FieldTexts(fields), ",") + others.rest == name + more
  {
    var fields, list := [FieldType(name, typ.value)] + others.value, Join(FieldTexts(others.value), ",");
    MoreClean(FieldType(name, typ.value), others.value);
    assert more == ":" + more[1..] && typ.rest == "," + typ.rest[1..];
    assert FieldTexts(fields)[1..] == FieldTexts(others.value);
    assert Join(FieldTexts(fields), ",") == name + ":" + Spelled(typ.value) + "," + list;
    Regroup(name, Spelled(typ.value), list, others.rest);
  }

  lemma MoreClean(f: FieldType, others: seq<FieldType>)
    requires Clean(f.name) && CleanType(f.typ) && CleanType(StructOf(others))
    ensures CleanType(StructOf([f] + others))
  {
  }

  lemma Regroup(name: string, typ: string, list: string, rest: string)
    ensures name + ":" + typ + "," + list + rest == name + (":" + (typ + ("," + (list + rest))))
  {
  }

  /** A text that reads as a type spells that type. */
  lemma TypeInSpells(text: string)
    requires TypeIn(text).Some?
    ensures CleanType(TypeIn(text).value) && Spelled(TypeIn(text).value) == text
  {
    ReadTypeSpells(text);
  }
}
