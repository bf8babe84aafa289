/** `tools/athenaviews/athenaviews.go`, the text of a whole view. It is read word by word and line by line: the view's
    name, the selects, and how they are joined. What is read has the meaning that SQL gives it. */
module AthenaViewText {
  import opened GoStrings
  import opened Partitions
  import opened AthenaViews

  /** `union all` keeps repeated rows, `union` does not. */
  datatype Op = All | Distinct

  datatype Query = Single(select: Select) | Joined(before: Query, op: Op, last: Select)

  datatype View = View(database: string, name: string, query: Query)

  /** `database.name`. */
  function ReadSource(text: string): Option<(string, string)>
  {
    var parts := Split(text, '.');
    if |parts| == 2 then Some((parts[0], parts[1])) else None
  }

  /** A `select` line: the list stands between the first word and the last two. */
  function ReadSelect(line: string): Option<Select>
  {
    var words := Split(line, ' ');
    var n := |words|;
    if n < 4 || words[0] != "select" || words[n - 2] != "from" then None
    else
      var source := ReadSource(words[n - 1]);
      if source.None? then None
      else Some(Select(ReadItems(Join(words[1..n - 2], " ")), source.value.0, source.value.1))
  }

  /** What stands between two selects. */
  function ReadOp(line: string): Option<Op>
  {
    var words := Split(if "\t" <= line then line[1..] else line, ' ');
    if words == ["union", "all"] then Some(All)
    else if words == ["union"] || words == ["union", "distinct"] then Some(Distinct)
    else None
  }

  function ReadQuery(lines: seq<string>): Option<Query>
  {
    var n := |lines|;
    if n == 0 then None
    else
      var last := ReadSelect(lines[n - 1]);
      if last.None? || n == 2 then None
      else if n == 1 then Some(Single(last.value))
      else
        var before, op := ReadQuery(lines[..n - 2]), ReadOp(lines[n - 2]);
        if before.None? || op.None? then None else Some(Joined(before.value, op.value, last.value))
  }

  /** The words before the query. */
  function ReadHeader(line: string): Option<(string, string)>
  {
    var words := Split(line, ' ');
    if |words| == 6 && words[..4] == ["create", "or", "replace", "view"] && words[5] == "as" then ReadSource(words[4])
    else None
  }

  /** The query stands between the header and a semicolon on a line of its own. */
  function ReadView(text: string): Option<View>
  {
    var lines := Split(text, '\n');
    var n := |lines|;
    if n < 3 || lines[n - 2..] != [";", ""] then None
    else
      var source, query := ReadHeader(lines[0]), ReadQuery(lines[1..n - 2]);
      if source.None? || query.None? then None else Some(View(source.value.0, source.value.1, query.value))
  }

  // ---------------------------------------------------------------- what a query means

  function First(q: Query): Select { if q.Single? then q.select else First(q.before) }

  function Once(rows: multiset<Row>): multiset<Row> { multiset(set row | row in rows) }

  /** The bag of rows: names come from the first `select`, values by position. */
  function QueryRows(names: seq<string>, q: Query, data: Data): multiset<Row>
  {
    match q
    case Single(s) => SelectRows(names, s.items, StoredRows(data, s))
    case Joined(before, op, s) =>
      var rows := QueryRows(names, before, data) + SelectRows(names, s.items, StoredRows(data, s));
      if op == All then rows else Once(rows)
  }

  function QueryMeaning(q: Query, data: Data): multiset<Row> { QueryRows(ItemNames(First(q).items), q, data) }

  /** Between the same selects `union` and `union all` mean the same exactly if no row comes twice. */
  lemma UnionMeansUnionAllIff(before: Query, s: Select, data: Data)
    ensures
      var rows := QueryMeaning(Joined(before, All, s), data);
      QueryMeaning(Joined(before, Distinct, s), data) == rows <==> forall row :: rows[row] <= 1
  {
    var rows := QueryMeaning(Joined(before, All, s), data);
    assert QueryMeaning(Joined(before, Distinct, s), data) == Once(rows);
  }

  /** Selects with `union all` between them. */
  function UnionOf(selects: seq<Select>): (q: Query)
    requires selects != []
    ensures First(q) == selects[0]
  {
    var n := |selects| - 1;
    if n == 0 then Single(selects[0]) else Joined(UnionOf(selects[..n]), All, selects[n])
  }

  lemma {:induction false} UnionOfMeans(selects: seq<Select>, names: seq<string>, data: Data)
    requires selects != []
    ensures QueryRows(names, UnionOf(selects), data) == UnionAll(names, selects, data)
  {
    var n := |selects| - 1;
    if n > 0 {
      UnionOfMeans(selects[..n], names, data);
    } else {
      assert selects[..0] == [];
    }
  }

  // ---------------------------------------------------------------- one line

  lemma SplitWords(columns: string, source: string)
    requires ' ' !in source
    ensures Split("select" + [' '] + columns + [' '] + "from" + [' '] + source, ' ')
      == ["select"] + Split(columns, ' ') + ["from", source]
  {
    SplitTail("select" + [' '] + columns + [' '] + "from", source, ' ');
    SplitTail("select" + [' '] + columns, "from", ' ');
    SplitHead("select", columns, ' ');
    assert ["select"] + Split(columns, ' ') + ["from"] + [source]
      == ["select"] + Split(columns, ' ') + ["from", source];
  }

  lemma LineIsWords(columns: string, database: string, table: string)
    ensures SelectLine(columns, database, table)
      == "select" + [' '] + columns + [' '] + "from" + [' '] + (database + ['.'] + table)
  {
  }

  lemma ReadWords(words: seq<string>, middle: seq<string>, source: string)
    requires words == ["select"] + middle + ["from", source] && middle != []
    ensures |words| >= 4 && words[0] == "select" && words[|words| - 2] == "from" && words[|words| - 1] == source
    ensures words[1..|words| - 2] == middle
  {
  }

  lemma SplitSource(database: string, table: string)
    requires '.' !in database && '.' !in table
    ensures ReadSource(database + ['.'] + table) == Some((database, table))
  {
    SplitHead(database, table, '.');
    SplitNoSep(table, '.');
  }

  /** A `select` line reads back to its select. */
  lemma SelectReads(s: Select)
    requires ReadItems(Join(ItemTexts(s.items), ",")) == s.items
    requires ' ' !in s.database && '.' !in s.database && ' ' !in s.table && '.' !in s.table
    ensures ReadSelect(SelectText(s)) == Some(s)
  {
    var columns, source := Join(ItemTexts(s.items), ","), s.database + ['.'] + s.table;
    var line := SelectText(s);
    LineIsWords(columns, s.database, s.table);
    SplitWords(columns, source);
    ReadWords(Split(line, ' '), Split(columns, ' '), source);
    JoinSplit(columns, ' ');
    SplitSource(s.database, s.table);
  }

  // ---------------------------------------------------------------- all lines

  lemma OpReads()
    ensures ReadOp("\tunion all") == Some(All) && ReadOp("\tunion") == Some(Distinct)
  {
    assert "\tunion all"[1..] == "union" + [' '] + "all" && "\tunion"[1..] == "union";
    SplitHead("union", "all", ' ');
    SplitNoSep("all", ' ');
    SplitNoSep("union", ' ');
  }

  lemma {:induction false} LinesRead(selects: seq<Select>)
    requires selects != []
    requires forall i | 0 <= i < |selects| :: ReadSelect(SelectText(selects[i])) == Some(selects[i])
    ensures ReadQuery(SelectLines(selects)) == Some(UnionOf(selects))
  {
    if |selects| > 1 {
      var n := |selects| - 1;
      var before, last := SelectLines(selects[..n]), SelectText(selects[n]);
      LinesRead(selects[..n]);
      OpReads();
      assert SelectLines(selects) == before + ["\tunion all", last];
      ReadsJoined(before, "\tunion all", last, UnionOf(selects[..n]), All, selects[n]);
    }
  }

  lemma ReadsJoined(before: seq<string>, a: string, b: string, q: Query, op: Op, s: Select)
    requires ReadQuery(before) == Some(q) && ReadOp(a) == Some(op) && ReadSelect(b) == Some(s)
    ensures ReadQuery(before + [a, b]) == Some(Joined(q, op, s))
  {
    var all := before + [a, b];
    assert all[..|all| - 2] == before && all[|all| - 2] == a && all[|all| - 1] == b;
  }

  /** With `union` in place of `union all` the text reads as another query, which means the same exactly if no row
      comes twice. */
  lemma UnionReads(a: Select, b: Select, data: Data)
    requires ReadSelect(SelectText(a)) == Some(a) && ReadSelect(SelectText(b)) == Some(b)
    ensures
      var q := ReadQuery([SelectText(a), "\tunion all", SelectText(b)]);
      var r := ReadQuery([SelectText(a), "\tunion", SelectText(b)]);
      && q.Some? && r.Some? && q != r
      && (QueryMeaning(q.value, data) == QueryMeaning(r.value, data) <==>
           forall row :: QueryMeaning(q.value, data)[row] <= 1)
  {
    var first, last := SelectText(a), SelectText(b);
    OpReads();
    assert ReadQuery([first]) == Some(Single(a));
    ReadsJoined([first], "\tunion all", last, Single(a), All, b);
    ReadsJoined([first], "\tunion", last, Single(a), Distinct, b);
    assert [first] + ["\tunion all", last] == [first, "\tunion all", last];
    assert [first] + ["\tunion", last] == [first, "\tunion", last];
    UnionMeansUnionAllIff(Single(a), b, data);
  }

  lemma {:induction false} OneLineEach(selects: seq<Select>)
    requires forall i | 0 <= i < |selects| :: '\n' !in SelectText(selects[i])
    ensures forall k | 0 <= k < |SelectLines(selects)| :: '\n' !in SelectLines(selects)[k]
  {
    if |selects| > 1 {
      OneLineEach(selects[..|selects| - 1]);
    }
  }

  /** The last part holds a newline of its own, which ends the text. */
  lemma {:induction false} LastNewline(lines: seq<string>)
    ensures Join(lines + [";\n"], "\n") == Join(lines + [";", ""], "\n")
  {
    if lines == [] {
      assert lines + [";\n"] == [";\n"] && lines + [";", ""] == [";", ""];
      assert [";", ""][1..] == [""];
      assert Join([";", ""], "\n") == ";" + "\n" + Join([""], "\n");
    } else {
      LastNewline(lines[1..]);
      assert (lines + [";\n"])[1..] == lines[1..] + [";\n"];
      assert (lines + [";", ""])[1..] == lines[1..] + [";", ""];
    }
  }

  lemma AllOneLine(head: string, lines: seq<string>)
    requires '\n' !in head && forall k | 0 <= k < |lines| :: '\n' !in lines[k]
    ensures forall k | 0 <= k < |[head] + lines + [";", ""]| :: '\n' !in ([head] + lines + [";", ""])[k]
  {
    assert '\n' !in ";";
  }

  lemma HeaderOneLine(viewName: string)
    requires '\n' !in viewName
    ensures '\n' !in Header(viewName)
  {
    assert '\n' !in "create or replace view panther_views." && '\n' !in " as";
  }

  lemma HeaderWords()
    ensures Split("create or replace view", ' ') == ["create", "or", "replace", "view"]
  {
    var words := ["create", "or", "replace", "view"];
    assert words[1..] == ["or", "replace", "view"] && words[1..][1..] == ["replace", "view"];
    assert words[1..][1..][1..] == ["view"];
    assert Join(words, " ") == "create or replace view";
    SplitJoin(words, ' ');
  }

  lemma SplitTwo(a: string, b: string, c: string, words: seq<string>)
    requires Split(a, ' ') == words && ' ' !in b && ' ' !in c
    ensures Split(a + [' '] + b + [' '] + c, ' ') == words + [b, c]
  {
    SplitTail(a, b, ' ');
    SplitTail(a + [' '] + b, c, ' ');
    assert words + [b] + [c] == words + [b, c];
  }

  lemma ReadsHeader(line: string, start: string, source: string)
    requires line == start + [' '] + source + [' '] + "as" && ' ' !in source
    requires Split(start, ' ') == ["create", "or", "replace", "view"]
    ensures ReadHeader(line) == ReadSource(source)
  {
    var words := Split(start, ' ');
    SplitTwo(start, source, "as", words);
    assert (words + [source, "as"])[..4] == words;
  }

  lemma HeaderIsWords(viewName: string)
    ensures Header(viewName) == "create or replace view" + [' '] + ("panther_views" + ['.'] + viewName) + [' '] + "as"
  {
  }

  predicate OneWord(s: string) { ' ' !in s && '.' !in s }

  lemma DatabaseWhole()
    ensures OneWord("panther_views")
  {
  }

  lemma SourceWhole(database: string, viewName: string)
    requires OneWord(database) && OneWord(viewName)
    ensures ' ' !in database + ['.'] + viewName
  {
  }

  lemma HeaderReads(viewName: string)
    requires OneWord(viewName)
    ensures ReadHeader(Header(viewName)) == Some(("panther_views", viewName))
  {
    var source := "panther_views" + ['.'] + viewName;
    HeaderIsWords(viewName);
    HeaderWords();
    DatabaseWhole();
    SourceWhole("panther_views", viewName);
    ReadsHeader(Header(viewName), "create or replace view", source);
    SplitSource("panther_views", viewName);
  }

  lemma ViewLines(viewName: string, selects: seq<Select>)
    requires '\n' !in viewName && forall i | 0 <= i < |selects| :: '\n' !in SelectText(selects[i])
    ensures Split(ViewText(viewName, selects), '\n') == [Header(viewName)] + SelectLines(selects) + [";", ""]
  {
    HeaderOneLine(viewName);
    OneLineEach(selects);
    SplitLines(Header(viewName), SelectLines(selects));
  }

  lemma SplitLines(head: string, lines: seq<string>)
    requires '\n' !in head && forall k | 0 <= k < |lines| :: '\n' !in lines[k]
    ensures Split(Join([head] + lines + [";\n"], "\n"), '\n') == [head] + lines + [";", ""]
  {
    LastNewline([head] + lines);
    AllOneLine(head, lines);
    SplitJoin([head] + lines + [";", ""], '\n');
  }

  /** A view's text reads back to its name and its selects; without selects it is no view. */
  lemma ViewReads(viewName: string, selects: seq<Select>)
    requires PlainName(viewName)
    requires forall i | 0 <= i < |selects| ::
      '\n' !in SelectText(selects[i]) && ReadSelect(SelectText(selects[i])) == Some(selects[i])
    ensures ReadView(ViewText(viewName, selects)) ==
      if selects == [] then None else Some(View("panther_views", viewName, UnionOf(selects)))
  {
    ViewLines(viewName, selects);
    HeaderReads(viewName);
    ReadsView(ViewText(viewName, selects), Header(viewName), SelectLines(selects));
    if selects != [] {
      LinesRead(selects);
    }
  }

  lemma ReadsView(text: string, head: string, lines: seq<string>)
    requires Split(text, '\n') == [head] + lines + [";", ""]
    ensures
      var source, query := ReadHeader(head), ReadQuery(lines);
      ReadView(text) ==
        if source.None? || query.None? then None else Some(View(source.value.0, source.value.1, query.value))
  {
    var all := [head] + lines + [";", ""];
    assert |all| >= 3 && all[0] == head && all[1..|all| - 2] == lines && all[|all| - 2..] == [";", ""];
  }

  // ---------------------------------------------------------------- generated views

  predicate PlainName(viewName: string) { OneWord(viewName) && '\n' !in viewName }

  /** Names that stay whole in the text: no blank, dot or newline in the view's name, no blank or newline in log types,
      no comma or newline in columns. */
  ghost predicate PlainNames(viewName: string, tables: seq<Table>, cols: seq<string>)
  {
    && PlainName(viewName) && (forall c | c in cols :: ',' !in c && '\n' !in c)
    && forall i | 0 <= i < |tables| :: PlainTable(tables[i])
  }

  ghost predicate PlainTable(table: Table) { ' ' !in table.logType && '\n' !in table.logType }

  lemma PlainTableName(table: Table)
    requires PlainTable(table)
    ensures ' ' !in table.Name() && '.' !in table.Name() && '\n' !in table.Name()
    ensures ' ' !in table.Database() && '.' !in table.Database() && '\n' !in table.Database()
  {
    forall k | 0 <= k < |table.Name()|
      ensures table.Name()[k] !in [' ', '.', '\n']
    {
      assert table.Name()[k] == TableChar(table.logType[k]);
      assert table.logType[k] in table.logType;
    }
  }

  lemma {:induction false} JoinLacks(parts: seq<string>, c: char)
    requires c != ',' && forall i | 0 <= i < |parts| :: c !in parts[i]
    ensures c !in Join(parts, ",")
  {
    if |parts| > 1 {
      JoinLacks(parts[1..], c);
    }
  }

  lemma SelectOnOneLine(table: Table, byTable: map<string, set<string>>, cols: seq<string>)
    requires PlainTable(table) && forall c | c in cols :: '\n' !in c
    ensures '\n' !in SelectText(SelectOf(table, byTable, cols))
  {
    var s := SelectOf(table, byTable, cols);
    forall i | 0 <= i < |s.items|
      ensures '\n' !in ItemTexts(s.items)[i]
    {
      assert cols[i] in cols;
    }
    JoinLacks(ItemTexts(s.items), '\n');
    PlainTableName(table);
  }

  /** The text that the generator makes reads as the view asked for: its name, and the selects joined by
      `union all`. Without tables it does not read as a view. */
  lemma GeneratedViewReads(viewName: string, tables: seq<Table>, extra: seq<string>, cols: seq<string>)
    requires Lists(cols, AllColumns(tables, extra)) && PlainNames(viewName, tables, cols)
    ensures
      var selects := Selects(tables, ByTable(tables, extra), cols);
      ReadView(ViewText(viewName, selects)) ==
        if tables == [] then None else Some(View("panther_views", viewName, UnionOf(selects)))
  {
    var byTable := ByTable(tables, extra);
    var selects := Selects(tables, byTable, cols);
    forall i | 0 <= i < |selects|
      ensures '\n' !in SelectText(selects[i]) && ReadSelect(SelectText(selects[i])) == Some(selects[i])
    {
      assert PlainTable(tables[i]);
      SelectOnOneLine(tables[i], byTable, cols);
      SelectListReads(tables, extra, cols, Lookup(byTable, tables[i].Name()));
      PlainTableName(tables[i]);
      SelectReads(selects[i]);
    }
    ViewReads(viewName, selects);
  }

  /** What the text of a generated view says, once read, is the bag union of all tables' rows, padded with NULL. */
  lemma TextMeansPaddedUnion(viewName: string, tables: seq<Table>, extra: seq<string>, cols: seq<string>, data: Data)
    requires tables != [] && Lists(cols, AllColumns(tables, extra)) && PlainNames(viewName, tables, cols)
    requires NamesAgree(tables, extra) && Typed(tables, extra, data)
    ensures
      var view := ReadView(ViewText(viewName, Selects(tables, ByTable(tables, extra), cols)));
      && view.Some? && view.value.database == "panther_views" && view.value.name == viewName
      && QueryMeaning(view.value.query, data) == PaddedUnion(tables, extra, AllColumns(tables, extra), data)
  {
    var selects := Selects(tables, ByTable(tables, extra), cols);
    GeneratedViewReads(viewName, tables, extra, cols);
    UnionOfMeans(selects, ItemNames(selects[0].items), data);
    ViewMeansPaddedUnion(tables, extra, cols, data);
  }
}
