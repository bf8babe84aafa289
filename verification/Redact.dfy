/** `pkg/genericapi/redact.go`: turning a request into something that may be logged. Fields tagged `redact` show only
    whether they are nil, their kind and their length. */
module Redact {
  import opened GoStrings

  /** The name of a `reflect.Kind` is one word. */
  type KindName = k: string | ' ' !in k && ')' !in k witness "int"

  /** A Go value as reflection shows it. `Other` stands for the kinds that are passed through (numbers, booleans,
      channels, functions); `Interface` holds any value behind an interface type, or none. */
  datatype GoValue =
    | Ptr(target: Option<GoValue>)
    | Struct(fields: seq<Field>)
    | NilSlice
    | Slice(elems: seq<GoValue>)
    | NilMap
    | Map(entries: map<string, GoValue>)
    | Array(items: seq<GoValue>)
    | Time(rfc3339: string)
    | Str(text: string)
    | Interface(content: Option<GoValue>)
    | Other(kind: KindName, text: string)

  datatype Field = Field(name: string, json: string, genericapi: string, exported: bool, anonymous: bool,
      value: GoValue)
  {
    predicate Visible() { exported || anonymous }
    predicate Redacted() { genericapi == "redact" }

    /** `fieldName`: the JSON name if there is one. */
    function LogName(): string
    {
      var first := Split(json, ',')[0];
      if first == "" then name else first
    }
  }

  /** What is logged. A nil slice or map is not the same as nil. */
  datatype Logged =
    | Nil
    | Text(text: string)
    | Raw(value: GoValue)
    | NilList
    | List(items: seq<Logged>)
    | NilDict
    | Dict(entries: map<string, Logged>)
    | Object(fields: map<string, Logged>)

  function Kind(v: GoValue): KindName
  {
    match v
    case Ptr(_) => "ptr"
    case Struct(_) => "struct"
    case NilSlice => "slice"
    case Slice(_) => "slice"
    case NilMap => "map"
    case Map(_) => "map"
    case Array(_) => "array"
    case Time(_) => "struct"
    case Str(_) => "string"
    case Interface(_) => "interface"
    case Other(kind, _) => kind
  }

  predicate IsNil(v: GoValue) { (v.Ptr? && v.target.None?) || v.NilSlice? || v.NilMap? }

  /** The length of the kinds that have one. */
  function Length(v: GoValue): Option<nat>
  {
    match v
    case Slice(elems) => Some(|elems|)
    case Map(entries) => Some(|entries|)
    case Array(items) => Some(|items|)
    case Str(text) => Some(|text|)
    case _ => None
  }

  function Ending(length: Option<nat>): string { if length.Some? then " len=" + Itoa(length.value) + ")" else ")" }

  function Shown(kind: KindName, length: Option<nat>): string { "(redacted " + (kind + Ending(length)) }

  /** `redactedField`. */
  function RedactedField(v: GoValue): Logged
  {
    if IsNil(v) then Nil
    else if v.Ptr? then RedactedField(v.target.value)
    else Text(Shown(Kind(v), Length(v)))
  }

  /** `redactedInput`. */
  function Redact(v: GoValue): Logged
    decreases v, if v.Struct? then |v.fields| + 1 else 0
  {
    match v
    case Ptr(None) => Nil
    case Ptr(Some(target)) => Redact(target)
    case Struct(fields) => Object(RedactFields(v, |fields|))
    case NilSlice => NilList
    case Slice(elems) => List(seq(|elems|, i requires 0 <= i < |elems| => Redact(elems[i])))
    case NilMap => NilDict
    case Map(entries) => Dict(map k | k in entries :: Redact(entries[k]))
    case Array(items) => List(seq(|items|, i requires 0 <= i < |items| => Redact(items[i])))
    case Time(rfc3339) => Text(rfc3339)
    case Str(text) => Text(text)
    case Interface(content) => if content.Some? then Raw(content.value) else Nil
    case Other(_, _) => Raw(v)
  }

  /** The first `n` fields of a struct; of two with the same name the later one stays. */
  function RedactFields(v: GoValue, n: nat): map<string, Logged>
    requires v.Struct? && n <= |v.fields|
    decreases v, n
  {
    if n == 0 then map[]
    else
      var before, f := RedactFields(v, n - 1), v.fields[n - 1];
      if !f.Visible() then before
      else before[f.LogName() := if f.Redacted() then RedactedField(f.value) else Redact(f.value)]
  }

  // ---------------------------------------------------------------- the code

  method RedactedInput(input: GoValue) returns (r: Logged)
    ensures r == Redact(input)
    decreases input, 1
  {
    match input
    case Ptr(None) => r := Nil;
    case Ptr(Some(target)) => r := RedactedInput(target);
    case Struct(_) =>
      var fields := RedactedStruct(input);
      r := Object(fields);
    case NilSlice => r := NilList;
    case Slice(elems) =>
      var list := RedactedArray(input, elems);
      assert list == seq(|elems|, i requires 0 <= i < |elems| => Redact(elems[i]));
      r := List(list);
    case NilMap => r := NilDict;
    case Map(_) =>
      var dict := RedactedMap(input);
      r := Dict(dict);
    case Array(items) =>
      var list := RedactedArray(input, items);
      assert list == seq(|items|, i requires 0 <= i < |items| => Redact(items[i]));
      r := List(list);
    case Time(rfc3339) => r := Text(rfc3339);
    case Str(text) => r := Text(text);
    case Interface(content) => r := if content.Some? then Raw(content.value) else Nil;
    case Other(_, _) => r := Raw(input);
  }

  method RedactedArray(input: GoValue, elems: seq<GoValue>) returns (result: seq<Logged>)
    requires input == Slice(elems) || input == Array(elems)
    ensures |result| == |elems| && forall i | 0 <= i < |elems| :: result[i] == Redact(elems[i])
    decreases input, 0
  {
    result := [];
    for i := 0 to |elems|
      invariant |result| == i && forall j | 0 <= j < i :: result[j] == Redact(elems[j])
    {
      var r := RedactedInput(elems[i]);
      result := result + [r];
    }
  }

  method RedactedMap(input: GoValue) returns (result: map<string, Logged>)
    requires input.Map?
    ensures result == map k | k in input.entries :: Redact(input.entries[k])
    decreases input, 0
  {
    var entries := input.entries;
    var rest := entries.Keys;
    result := map[];
    while rest != {}
      invariant rest <= entries.Keys && result == map k | k in entries.Keys - rest :: Redact(entries[k])
      decreases rest
    {
      var k :| k in rest;
      var r := RedactedInput(entries[k]);
      result := result[k := r];
      rest := rest - {k};
    }
  }

  method RedactedStruct(input: GoValue) returns (result: map<string, Logged>)
    requires input.Struct?
    ensures result == RedactFields(input, |input.fields|)
    decreases input, 0
  {
    result := map[];
    for i := 0 to |input.fields|
      invariant result == RedactFields(input, i)
    {
      var f := input.fields[i];
      if !f.exported && !f.anonymous {
        continue;
      }
      if f.Redacted() {
        result := result[f.LogName() := RedactedField(f.value)];
      } else {
        var r := RedactedInput(f.value);
        result := result[f.LogName() := r];
      }
    }
  }

  // ---------------------------------------------------------------- what a redacted field shows

  /** Nil-ness, kind and length, with pointers followed. */
  predicate SameShape(a: GoValue, b: GoValue)
    decreases a, b
  {
    if IsNil(a) || IsNil(b) then NilInside(a) && NilInside(b)
    else if a.Ptr? then SameShape(a.target.value, b)
    else if b.Ptr? then SameShape(a, b.target.value)
    else Kind(a) == Kind(b) && Length(a) == Length(b)
  }

  predicate NilInside(v: GoValue) { IsNil(v) || (v.Ptr? && NilInside(v.target.value)) }

  lemma {:induction false} NilInsideIff(v: GoValue)
    ensures NilInside(v) <==> RedactedField(v) == Nil
  {
    if v.Ptr? && v.target.Some? {
      NilInsideIff(v.target.value);
    }
  }

  /** A redacted field shows the shape, all of it, and nothing else. */
  lemma {:induction false} RedactedFieldIff(a: GoValue, b: GoValue)
    ensures RedactedField(a) == RedactedField(b) <==> SameShape(a, b)
    decreases a, b
  {
    if IsNil(a) || IsNil(b) {
      NilInsideIff(a);
      NilInsideIff(b);
    } else if a.Ptr? {
      RedactedFieldIff(a.target.value, b);
    } else if b.Ptr? {
      RedactedFieldIff(a, b.target.value);
    } else if Shown(Kind(a), Length(a)) == Shown(Kind(b), Length(b)) {
      ShownInjective(Kind(a), Length(a), Kind(b), Length(b));
    }
  }

  lemma ShownInjective(k: KindName, m: Option<nat>, l: KindName, n: Option<nat>)
    requires Shown(k, m) == Shown(l, n)
    ensures k == l && m == n
  {
    assert Shown(k, m)[10..] == k + Ending(m) && Shown(l, n)[10..] == l + Ending(n);
    SameLength(k, Ending(m), l, Ending(n));
    assert (k + Ending(m))[..|k|] == k && (l + Ending(n))[..|l|] == l;
    assert (k + Ending(m))[|k|..] == Ending(m) && (l + Ending(n))[|l|..] == Ending(n);
    if m.Some? && n.Some? {
      var u, w := Ending(m), Ending(n);
      assert u[5..|u| - 1] == Itoa(m.value) && w[5..|w| - 1] == Itoa(n.value);
      ItoaInjective(m.value, n.value);
    }
  }

  /** A kind's name ends where the blank or the parenthesis comes. */
  lemma SameLength(k: KindName, u: string, l: KindName, w: string)
    requires k + u == l + w && u != "" && w != "" && u[0] in " )" && w[0] in " )"
    ensures |k| == |l|
  {
    assert (l + w)[|k|] == u[0] && (k + u)[|l|] == w[0];
  }

  /** The texts themselves, such as `(redacted slice len=10)`. */
  lemma RedactedTexts(v: GoValue)
    ensures v.NilSlice? || v.NilMap? || v == Ptr(None) ==> RedactedField(v) == Nil
    ensures v.Ptr? && v.target.Some? ==> RedactedField(v) == RedactedField(v.target.value)
    ensures v.Slice? ==> RedactedField(v) == Text("(redacted slice len=" + Itoa(|v.elems|) + ")")
    ensures v.Map? ==> RedactedField(v) == Text("(redacted map len=" + Itoa(|v.entries|) + ")")
    ensures v.Array? ==> RedactedField(v) == Text("(redacted array len=" + Itoa(|v.items|) + ")")
    ensures v.Str? ==> RedactedField(v) == Text("(redacted string len=" + Itoa(|v.text|) + ")")
    ensures v.Struct? || v.Time? ==> RedactedField(v) == Text("(redacted struct)")
    ensures v.Interface? ==> RedactedField(v) == Text("(redacted interface)")
    ensures v.Other? ==> RedactedField(v) == Text("(redacted " + v.kind + ")")
  {
    var n := Length(v);
    if n.Some? {
      ShownLength(Kind(v), n.value);
    }
    ShownKind(Kind(v));
  }

  lemma ShownKind(kind: KindName)
    ensures Shown(kind, None) == "(redacted " + kind + ")"
    ensures kind == "struct" ==> Shown(kind, None) == "(redacted struct)"
    ensures kind == "interface" ==> Shown(kind, None) == "(redacted interface)"
  {
  }

  lemma ShownLength(kind: KindName, n: nat)
    ensures kind == "slice" ==> Shown(kind, Some(n)) == "(redacted slice len=" + Itoa(n) + ")"
    ensures kind == "map" ==> Shown(kind, Some(n)) == "(redacted map len=" + Itoa(n) + ")"
    ensures kind == "array" ==> Shown(kind, Some(n)) == "(redacted array len=" + Itoa(n) + ")"
    ensures kind == "string" ==> Shown(kind, Some(n)) == "(redacted string len=" + Itoa(n) + ")"
  {
    var digits := Itoa(n);
    assert Shown(kind, Some(n)) == "(redacted " + (kind + (" len=" + digits + ")"));
  }

  /** The name in the log is the `json` tag up to its first comma, or else the field's own. */
  lemma LogNames(f: Field, name: string, options: string)
    requires ',' !in name
    ensures f.(json := name).LogName() == if name != "" then name else f.name
    ensures f.(json := name + "," + options).LogName() == if name != "" then name else f.name
  {
    SplitNoSep(name, ',');
    SplitHead(name, options, ',');
  }

  // ---------------------------------------------------------------- noninterference

  predicate SameTag(f: Field, g: Field)
  {
    && f.name == g.name && f.json == g.json && f.genericapi == g.genericapi
    && f.exported == g.exported && f.anonymous == g.anonymous
  }

  /** Among the first `n` fields, a visible field under whose name no later one is logged. */
  predicate Stays(fields: seq<Field>, n: nat, i: nat)
    requires n <= |fields|
  {
    && i < n && (fields[i].exported || fields[i].anonymous)
    && forall j | i < j < n && (fields[j].exported || fields[j].anonymous) :: fields[j].LogName() != fields[i].LogName()
  }

  function LoggedField(f: Field): Logged
  {
    if f.genericapi == "redact" then RedactedField(f.value) else Redact(f.value)
  }

  /** A field that stays is in the log. */
  lemma {:induction false} FieldLogged(v: GoValue, n: nat, i: nat)
    requires v.Struct? && n <= |v.fields| && Stays(v.fields, n, i)
    ensures var name := v.fields[i].LogName();
      name in RedactFields(v, n) && RedactFields(v, n)[name] == LoggedField(v.fields[i])
  {
    if i < n - 1 {
      FieldLogged(v, n - 1, i);
    }
  }

  /** Everything in the log is from a field that stays. */
  lemma {:induction false} LoggedFrom(v: GoValue, n: nat, name: string) returns (i: nat)
    requires v.Struct? && n <= |v.fields| && name in RedactFields(v, n)
    ensures Stays(v.fields, n, i) && v.fields[i].LogName() == name
  {
    var f := v.fields[n - 1];
    if f.Visible() && f.LogName() == name {
      i := n - 1;
    } else {
      i := LoggedFrom(v, n - 1, name);
    }
  }

  lemma StayTogether(fs: seq<Field>, gs: seq<Field>, i: nat)
    requires |fs| == |gs| && forall j | 0 <= j < |fs| :: SameTag(fs[j], gs[j])
    ensures Stays(fs, |fs|, i) <==> Stays(gs, |gs|, i)
  {
  }

  /** What a log may reveal: two values are alike if they differ only in fields that are not visible or give way to
      a later field of their name, in what redacted fields do not show, and in how many pointers lead to a value or
      to none. Map keys and interface contents must be equal. */
  ghost predicate Alike(a: GoValue, b: GoValue)
    decreases a, b
  {
    if a.Ptr? && a.target.Some? then Alike(a.target.value, b)
    else if b.Ptr? && b.target.Some? then Alike(a, b.target.value)
    else match (a, b)
      case (Struct(fs), Struct(gs)) =>
        |fs| == |gs| && forall i | 0 <= i < |fs| ::
          SameTag(fs[i], gs[i]) && (Stays(fs, |fs|, i) ==>
            if fs[i].Redacted() then SameShape(fs[i].value, gs[i].value) else Alike(fs[i].value, gs[i].value))
      case (Slice(xs), Slice(ys)) => |xs| == |ys| && forall i | 0 <= i < |xs| :: Alike(xs[i], ys[i])
      case (Array(xs), Array(ys)) => |xs| == |ys| && forall i | 0 <= i < |xs| :: Alike(xs[i], ys[i])
      case (Map(m), Map(n)) => m.Keys == n.Keys && forall k | k in m :: Alike(m[k], n[k])
      case (_, _) => a == b || (Nothing(a) && Nothing(b))
  }

  predicate Nothing(v: GoValue) { v == Ptr(None) || v == Interface(None) }

  lemma {:induction false} FieldAlike(a: GoValue, b: GoValue, i: nat)
    requires a.Struct? && b.Struct? && Alike(a, b) && Stays(a.fields, |a.fields|, i)
    ensures i < |b.fields| && LoggedField(a.fields[i]) == LoggedField(b.fields[i])
    decreases a, 0
  {
    var f, g := a.fields[i], b.fields[i];
    assert SameTag(f, g);
    if f.Redacted() {
      RedactedFieldIff(f.value, g.value);
    } else {
      AlikeLogsAlike(f.value, g.value);
    }
  }

  lemma {:induction false} FieldsAlike(a: GoValue, b: GoValue)
    requires a.Struct? && b.Struct? && Alike(a, b)
    ensures RedactFields(a, |a.fields|) == RedactFields(b, |b.fields|)
    decreases a, 1
  {
    var n := |a.fields|;
    var x, y := RedactFields(a, n), RedactFields(b, n);
    forall name | name in x || name in y
      ensures name in x && name in y && x[name] == y[name]
    {
      var i: nat;
      if name in x {
        i := LoggedFrom(a, n, name);
      } else {
        i := LoggedFrom(b, n, name);
      }
      StayTogether(a.fields, b.fields, i);
      FieldLogged(a, n, i);
      FieldLogged(b, n, i);
      FieldAlike(a, b, i);
      assert SameTag(a.fields[i], b.fields[i]);
    }
  }

  /** Noninterference: values that are alike are logged alike, whatever their secrets. */
  lemma {:induction false} AlikeLogsAlike(a: GoValue, b: GoValue)
    requires Alike(a, b)
    ensures Redact(a) == Redact(b)
    decreases a, 2, b
  {
    if a.Ptr? && a.target.Some? {
      AlikeLogsAlike(a.target.value, b);
    } else if b.Ptr? && b.target.Some? {
      AlikeLogsAlike(a, b.target.value);
    } else {
      match (a, b)
      case (Struct(_), Struct(_)) => FieldsAlike(a, b);
      case (Slice(xs), Slice(ys)) =>
        forall i | 0 <= i < |xs| ensures Redact(xs[i]) == Redact(ys[i]) {
          AlikeLogsAlike(xs[i], ys[i]);
        }
      case (Array(xs), Array(ys)) =>
        forall i | 0 <= i < |xs| ensures Redact(xs[i]) == Redact(ys[i]) {
          AlikeLogsAlike(xs[i], ys[i]);
        }
      case (Map(m), Map(n)) =>
        forall k | k in m ensures Redact(m[k]) == Redact(n[k]) {
          AlikeLogsAlike(m[k], n[k]);
        }
      case (_, _) =>
    }
  }

  // ---------------------------------------------------------------- and nothing else is hidden

  /** Two values of one Go type: the same constructors and tags wherever both are there. */
  ghost predicate SameType(a: GoValue, b: GoValue)
    decreases a, b
  {
    if a.Ptr? && a.target.Some? then SameType(a.target.value, b)
    else if b.Ptr? && b.target.Some? then SameType(a, b.target.value)
    else match (a, b)
      case (Struct(fs), Struct(gs)) =>
        |fs| == |gs| && forall i | 0 <= i < |fs| :: SameTag(fs[i], gs[i]) && SameType(fs[i].value, gs[i].value)
      case (Slice(xs), Slice(ys)) => forall i | 0 <= i < |xs| && i < |ys| :: SameType(xs[i], ys[i])
      case (Array(xs), Array(ys)) => forall i | 0 <= i < |xs| && i < |ys| :: SameType(xs[i], ys[i])
      case (Map(m), Map(n)) => forall k | k in m && k in n :: SameType(m[k], n[k])
      case (_, _) => a.Ptr? || b.Ptr? || SameSort(a, b)
  }

  predicate SameSort(a: GoValue, b: GoValue)
  {
    && a.Struct? == b.Struct? && a.Array? == b.Array? && a.Time? == b.Time? && a.Str? == b.Str?
    && a.Interface? == b.Interface? && a.Other? == b.Other?
    && (a.Slice? || a.NilSlice?) == (b.Slice? || b.NilSlice?) && (a.Map? || a.NilMap?) == (b.Map? || b.NilMap?)
  }

  lemma FieldShown(a: GoValue, b: GoValue, i: nat)
    requires a.Struct? && b.Struct? && SameType(a, b) && Redact(a) == Redact(b) && Stays(a.fields, |a.fields|, i)
    ensures
      var f, g := a.fields[i], b.fields[i];
      && SameTag(f, g) && SameType(f.value, g.value)
      && if f.Redacted() then SameShape(f.value, g.value) else Redact(f.value) == Redact(g.value)
  {
    assert SameTag(a.fields[i], b.fields[i]);
    StayTogether(a.fields, b.fields, i);
    FieldLogged(a, |a.fields|, i);
    FieldLogged(b, |b.fields|, i);
    RedactedFieldIff(a.fields[i].value, b.fields[i].value);
  }

  lemma {:induction false} LoggedAlikeIsAlike(a: GoValue, b: GoValue)
    requires SameType(a, b) && Redact(a) == Redact(b)
    ensures Alike(a, b)
    decreases a, b
  {
    if a.Ptr? && a.target.Some? {
      LoggedAlikeIsAlike(a.target.value, b);
    } else if b.Ptr? && b.target.Some? {
      LoggedAlikeIsAlike(a, b.target.value);
    } else {
      match (a, b)
      case (Struct(fs), Struct(gs)) =>
        forall i | 0 <= i < |fs| && Stays(fs, |fs|, i)
          ensures if fs[i].Redacted() then SameShape(fs[i].value, gs[i].value) else Alike(fs[i].value, gs[i].value)
        {
          FieldShown(a, b, i);
          if !fs[i].Redacted() {
            LoggedAlikeIsAlike(fs[i].value, gs[i].value);
          }
        }
      case (Slice(xs), Slice(ys)) =>
        forall i | 0 <= i < |xs| ensures |xs| == |ys| && Alike(xs[i], ys[i]) {
          assert Redact(a).items[i] == Redact(b).items[i];
          LoggedAlikeIsAlike(xs[i], ys[i]);
        }
      case (Array(xs), Array(ys)) =>
        forall i | 0 <= i < |xs| ensures |xs| == |ys| && Alike(xs[i], ys[i]) {
          assert Redact(a).items[i] == Redact(b).items[i];
          LoggedAlikeIsAlike(xs[i], ys[i]);
        }
      case (Map(m), Map(n)) =>
        assert Redact(a).entries.Keys == m.Keys && Redact(b).entries.Keys == n.Keys;
        forall k | k in m ensures Alike(m[k], n[k]) {
          assert Redact(a).entries[k] == Redact(b).entries[k];
          LoggedAlikeIsAlike(m[k], n[k]);
        }
      case (_, _) =>
    }
  }

  /** For two values of one type, the logs are equal exactly when the values are alike. */
  lemma LogsShowExactly(a: GoValue, b: GoValue)
    requires SameType(a, b)
    ensures Redact(a) == Redact(b) <==> Alike(a, b)
  {
    if Alike(a, b) {
      AlikeLogsAlike(a, b);
    }
    if Redact(a) == Redact(b) {
      LoggedAlikeIsAlike(a, b);
    }
  }

  function SecretHolder(secret: string): GoValue
  {
    Struct([Field("Secret", "secret", "redact", true, false, Str(secret))])
  }

  /** Behind an interface a tagged field is logged raw: two secrets of the same shape give different logs. */
  lemma InterfaceLeaks(secret: string, other: string)
    requires |secret| == |other| && secret != other
    ensures Redact(SecretHolder(secret)) == Redact(SecretHolder(other))
    ensures Redact(Interface(Some(SecretHolder(secret)))) != Redact(Interface(Some(SecretHolder(other))))
  {
    SecretsAlike(secret, other);
    AlikeLogsAlike(SecretHolder(secret), SecretHolder(other));
    assert SecretHolder(secret).fields[0].value.text != SecretHolder(other).fields[0].value.text;
  }

  lemma SecretsAlike(secret: string, other: string)
    requires |secret| == |other|
    ensures Alike(SecretHolder(secret), SecretHolder(other))
  {
    var f, g := SecretHolder(secret).fields[0], SecretHolder(other).fields[0];
    assert SameTag(f, g) && SameShape(f.value, g.value);
  }

  /** Slices, maps, strings and the kinds that are passed through. */
  ghost predicate PlainData(v: GoValue)
  {
    match v
    case Slice(elems) => forall i | 0 <= i < |elems| :: PlainData(elems[i])
    case Map(entries) => forall k | k in entries :: PlainData(entries[k])
    case _ => v.NilSlice? || v.NilMap? || v.Str? || v.Other? || v == Ptr(None)
  }

  /** What the log of plain data says. */
  function ReadLog(log: Logged): GoValue
  {
    match log
    case Nil => Ptr(None)
    case Text(text) => Str(text)
    case Raw(value) => value
    case NilList => NilSlice
    case List(items) => Slice(seq(|items|, i requires 0 <= i < |items| => ReadLog(items[i])))
    case NilDict => NilMap
    case Dict(entries) => Map(map k | k in entries :: ReadLog(entries[k]))
    case Object(_) => Struct([])
  }

  /** Plain data is logged in full: it reads back from the log. */
  lemma {:induction false} PlainDataReadsBack(v: GoValue)
    requires PlainData(v)
    ensures ReadLog(Redact(v)) == v
  {
    match v
    case Slice(elems) =>
      forall i | 0 <= i < |elems| ensures ReadLog(Redact(elems[i])) == elems[i] {
        PlainDataReadsBack(elems[i]);
      }
      assert ReadLog(Redact(v)).elems == elems;
    case Map(entries) =>
      forall k | k in entries ensures ReadLog(Redact(entries[k])) == entries[k] {
        PlainDataReadsBack(entries[k]);
      }
      assert ReadLog(Redact(v)).entries == entries;
    case _ =>
  }
}
