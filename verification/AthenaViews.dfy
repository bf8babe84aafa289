/** `tools/athenaviews/athenaviews.go`: one SQL view over many tables. Each table contributes one `select` of the
    same sorted columns, with NULL for the columns it lacks. The text is tied to a small syntax tree, and the tree to
    what SQL makes of it: `union all` puts columns together by position, under the names of the first `select`. */
module AthenaViews {
  import opened GoStrings
  import opened TimeBins
  import opened Partitions

  datatype Table = Table(dataType: DataType, logType: string, bin: GlueTableTimebin, eventColumns: seq<string>)
  {
    function Name(): string { GetTableName(logType) }
    function Database(): string { DatabaseName(dataType) }
  }

  predicate PantherField(name: string) { "p_" <= name }

  /** The columns a view takes from a table: its Panther fields, the extra ones included, and its partition keys. */
  function OwnColumns(table: Table, extra: seq<string>): set<string>
  {
    (set c | c in table.eventColumns + extra && PantherField(c)) + KeyNames(table.bin)
  }

  function KeyNames(bin: GlueTableTimebin): set<string> { set k | k in PartitionKeys(bin) :: k.name }

  lemma OwnColumnsAre(table: Table, extra: seq<string>, c: string)
    ensures c in OwnColumns(table, extra) <==>
      || (|c| >= 2 && c[0] == 'p' && c[1] == '_' && (c in table.eventColumns || c in extra))
      || c == "year" || (c == "month" && table.bin >= 1)
      || (c == "day" && table.bin >= 2)
      || (c == "hour" && table.bin >= 3)
  {
    var keys := PartitionKeys(table.bin);
    assert keys[0].name == "year" && (table.bin >= 1 ==> keys[1].name == "month");
    assert table.bin >= 2 ==> keys[2].name == "day";
    assert table.bin >= 3 ==> keys[3].name == "hour";
  }

  function OwnSets(tables: seq<Table>, extra: seq<string>): (sets: seq<set<string>>)
    ensures |sets| == |tables| && forall i | 0 <= i < |tables| :: sets[i] == OwnColumns(tables[i], extra)
  {
    seq(|tables|, i requires 0 <= i < |tables| => OwnColumns(tables[i], extra))
  }

  function Union(sets: seq<set<string>>): set<string>
  {
    if sets == [] then {} else Union(sets[..|sets| - 1]) + sets[|sets| - 1]
  }

  lemma {:induction false} InUnion(sets: seq<set<string>>, c: string)
    ensures c in Union(sets) <==> exists i | 0 <= i < |sets| :: c in sets[i]
  {
    if sets != [] {
      InUnion(sets[..|sets| - 1], c);
    }
  }

  function AllColumns(tables: seq<Table>, extra: seq<string>): set<string> { Union(OwnSets(tables, extra)) }

  lemma AllColumnsSnoc(tables: seq<Table>, table: Table, extra: seq<string>)
    ensures AllColumns(tables + [table], extra) == AllColumns(tables, extra) + OwnColumns(table, extra)
  {
    assert OwnSets(tables + [table], extra)[..|tables|] == OwnSets(tables, extra);
  }

  predicate Owns(table: Table, extra: seq<string>, c: string) { c in OwnColumns(table, extra) }

  lemma InAllColumns(tables: seq<Table>, extra: seq<string>, c: string)
    ensures c in AllColumns(tables, extra) <==> exists i | 0 <= i < |tables| :: Owns(tables[i], extra, c)
  {
    var sets := OwnSets(tables, extra);
    InUnion(sets, c);
    assert forall i | 0 <= i < |tables| :: Owns(tables[i], extra, c) <==> c in sets[i];
  }

  // ---------------------------------------------------------------- sorting

  /** The order of Go's strings. */
  predicate Less(a: string, b: string)
  {
    b != "" && (a == "" || a[0] < b[0] || (a[0] == b[0] && Less(a[1..], b[1..])))
  }

  ghost predicate DecidedAt(a: string, b: string, k: nat)
  {
    k <= |a| && k < |b| && a[..k] == b[..k] && (k == |a| || a[k] < b[k])
  }

  /** At the first difference the smaller character decides, and a prefix comes first. */
  lemma {:induction false} LessIff(a: string, b: string)
    ensures Less(a, b) <==> exists k: nat :: DecidedAt(a, b, k)
  {
    if a == "" || b == "" || a[0] != b[0] {
      assert forall k: nat | DecidedAt(a, b, k) && k > 0 :: a[..k][0] == b[..k][0];
      assert DecidedAt(a, b, 0) <==> b != "" && (a == "" || a[0] < b[0]);
    } else {
      LessIff(a[1..], b[1..]);
      if Less(a, b) {
        var k: nat :| DecidedAt(a[1..], b[1..], k);
        DecidedInTail(a, b, k + 1);
      } else {
        forall k: nat ensures !DecidedAt(a, b, k) {
          if k > 0 {
            DecidedInTail(a, b, k);
          }
        }
      }
    }
  }

  lemma DecidedInTail(a: string, b: string, k: nat)
    requires a != "" && b != "" && a[0] == b[0] && 0 < k
    ensures DecidedAt(a, b, k) <==> DecidedAt(a[1..], b[1..], k - 1)
  {
    if k <= |a| && k < |b| {
      assert a[..k] == [a[0]] + a[1..][..k - 1] && b[..k] == [b[0]] + b[1..][..k - 1];
      assert a[..k][1..] == a[1..][..k - 1] && b[..k][1..] == b[1..][..k - 1];
    }
  }

  lemma {:induction false} LessTotal(a: string, b: string)
    ensures a == b || Less(a, b) || Less(b, a)
    ensures !(Less(a, b) && Less(b, a))
  {
    if a != "" && b != "" && a[0] == b[0] {
      LessTotal(a[1..], b[1..]);
      assert a == [a[0]] + a[1..] && b == [b[0]] + b[1..];
    }
  }

  lemma {:induction false} LessTransitive(a: string, b: string, c: string)
    requires Less(a, b) && Less(b, c)
    ensures Less(a, c)
  {
    if a != "" && a[0] == b[0] && b[0] == c[0] {
      LessTransitive(a[1..], b[1..], c[1..]);
    }
  }

  ghost predicate Sorted(s: seq<string>) { forall i, j | 0 <= i < j < |s| :: !Less(s[j], s[i]) }
  ghost predicate StrictlySorted(s: seq<string>) { forall i, j | 0 <= i < j < |s| :: Less(s[i], s[j]) }

  /** `cols` lists the set without repeats, in order. */
  ghost predicate Lists(cols: seq<string>, columns: set<string>)
  {
    StrictlySorted(cols) && forall c :: c in cols <==> c in columns
  }

  /** There is only one such list, so it does not matter in which order a map is walked. */
  lemma {:induction false} ListUnique(a: seq<string>, b: seq<string>, columns: set<string>)
    requires Lists(a, columns) && Lists(b, columns)
    ensures a == b
  {
    EmptyList(a, columns);
    EmptyList(b, columns);
    if a != [] {
      assert a[0] in b;
      assert b[0] in a;
      LessTotal(a[0], b[0]);
      TailLists(a, columns);
      TailLists(b, columns);
      ListUnique(a[1..], b[1..], columns - {a[0]});
    }
  }

  lemma EmptyList(a: seq<string>, columns: set<string>)
    requires Lists(a, columns)
    ensures a == [] <==> columns == {}
  {
    if a != [] {
      assert a[0] in a;
    }
  }

  lemma TailLists(a: seq<string>, columns: set<string>)
    requires Lists(a, columns) && a != []
    ensures Lists(a[1..], columns - {a[0]})
    ensures forall c | c in columns :: c == a[0] || Less(a[0], c)
  {
    LessTotal(a[0], a[0]);
    assert forall c | c in a[1..] :: c in a && Less(a[0], c);
    forall c | c in columns && c != a[0]
      ensures c in a[1..]
    {
      assert c in a;
    }
  }

  /** `sort.Strings`. */
  method SortStrings(s: seq<string>) returns (r: seq<string>)
    ensures Sorted(r) && multiset(r) == multiset(s)
  {
    r := [];
    for i := 0 to |s|
      invariant Sorted(r) && multiset(r) == multiset(s[..i])
    {
      var k := 0;
      while k < |r| && Less(r[k], s[i])
        invariant k <= |r| && forall j | 0 <= j < k :: Less(r[j], s[i])
      {
        k := k + 1;
      }
      InsertSorted(r, k, s[i]);
      assert r == r[..k] + r[k..];
      r := r[..k] + [s[i]] + r[k..];
      assert s[..i + 1] == s[..i] + [s[i]];
    }
    assert s[..|s|] == s;
  }

  lemma InsertSorted(r: seq<string>, k: nat, x: string)
    requires Sorted(r) && k <= |r| && (forall j | 0 <= j < k :: Less(r[j], x)) && (k < |r| ==> !Less(r[k], x))
    ensures Sorted(r[..k] + [x] + r[k..])
  {
    forall j | 0 <= j < |r|
      ensures if j < k then !Less(x, r[j]) else !Less(r[j], x)
    {
      LessTotal(r[j], x);
      if j > k && Less(r[j], x) {
        LessTotal(r[k], r[j]);
        if Less(r[k], r[j]) {
          LessTransitive(r[k], r[j], x);
        }
      }
    }
  }

  lemma CountedTwice(r: seq<string>, i: nat, j: nat)
    requires i < j < |r| && r[i] == r[j]
    ensures multiset(r)[r[i]] >= 2
  {
    assert r == r[..j] + r[j..];
    assert r[i] in r[..j] && r[i] in r[j..];
    assert multiset(r)[r[i]] == multiset(r[..j])[r[i]] + multiset(r[j..])[r[i]];
  }

  /** Distinct strings, sorted, are strictly sorted. */
  lemma DistinctSorted(r: seq<string>, columns: set<string>)
    requires Sorted(r) && multiset(r) == multiset(columns)
    ensures Lists(r, columns)
  {
    forall c ensures c in r <==> c in columns {
      assert c in r <==> c in multiset(r);
    }
    forall i, j | 0 <= i < j < |r|
      ensures Less(r[i], r[j])
    {
      LessTotal(r[i], r[j]);
      if r[i] == r[j] {
        CountedTwice(r, i, j);
      }
    }
  }

  /** The set's members, walked in any order and then sorted. */
  method SortedList(columns: set<string>) returns (cols: seq<string>)
    ensures Lists(cols, columns)
  {
    var rest := columns;
    cols := [];
    while rest != {}
      invariant rest <= columns && multiset(cols) == multiset(columns - rest)
      decreases rest
    {
      var column :| column in rest;
      assert columns - (rest - {column}) == (columns - rest) + {column};
      cols := cols + [column];
      rest := rest - {column};
    }
    assert columns - rest == columns;
    cols := SortStrings(cols);
    DistinctSorted(cols, columns);
  }

  // ---------------------------------------------------------------- the statement as a tree, and its text

  datatype Item = Col(name: string) | NullAs(name: string)
  datatype Select = Select(items: seq<Item>, database: string, table: string)

  function ItemText(item: Item): string { if item.Col? then item.name else "NULL AS " + item.name }

  function ItemTexts(items: seq<Item>): (texts: seq<string>)
    ensures |texts| == |items| && forall i | 0 <= i < |items| :: texts[i] == ItemText(items[i])
  {
    seq(|items|, i requires 0 <= i < |items| => ItemText(items[i]))
  }

  function SelectLine(columns: string, database: string, table: string): string
  {
    "select " + columns + " from " + database + "." + table
  }

  function SelectText(s: Select): string { SelectLine(Join(ItemTexts(s.items), ","), s.database, s.table) }

  /** The `select` lines with `union all` between them. */
  function SelectLines(selects: seq<Select>): seq<string>
  {
    if |selects| == 0 then []
    else if |selects| == 1 then [SelectText(selects[0])]
    else SelectLines(selects[..|selects| - 1]) + ["\tunion all", SelectText(selects[|selects| - 1])]
  }

  function ViewText(viewName: string, selects: seq<Select>): string
  {
    Join([Header(viewName)] + SelectLines(selects) + [";\n"], "\n")
  }

  function Header(viewName: string): string { "create or replace view panther_views." + viewName + " as" }

  /** Each column in order, NULL where the table has none of that name. */
  function Items(cols: seq<string>, own: set<string>): (items: seq<Item>)
    ensures |items| == |cols|
    ensures forall i | 0 <= i < |cols| :: items[i] == if cols[i] in own then Col(cols[i]) else NullAs(cols[i])
  {
    seq(|cols|, i requires 0 <= i < |cols| => if cols[i] in own then Col(cols[i]) else NullAs(cols[i]))
  }

  /** Columns by table name; of several tables with one name, the last is kept. */
  function ByTable(tables: seq<Table>, extra: seq<string>): map<string, set<string>>
  {
    if tables == [] then map[]
    else
      var t := tables[|tables| - 1];
      ByTable(tables[..|tables| - 1], extra)[t.Name() := OwnColumns(t, extra)]
  }

  function Lookup(columnsByTable: map<string, set<string>>, name: string): set<string>
  {
    if name in columnsByTable then columnsByTable[name] else {}
  }

  function SelectOf(table: Table, byTable: map<string, set<string>>, cols: seq<string>): Select
  {
    Select(Items(cols, Lookup(byTable, table.Name())), table.Database(), table.Name())
  }

  /** The view's statement. */
  function Selects(tables: seq<Table>, byTable: map<string, set<string>>, cols: seq<string>): (r: seq<Select>)
    ensures |r| == |tables| && forall i | 0 <= i < |tables| :: r[i] == SelectOf(tables[i], byTable, cols)
  {
    seq(|tables|, i requires 0 <= i < |tables| => SelectOf(tables[i], byTable, cols))
  }

  // ---------------------------------------------------------------- the generator

  class PantherViewColumns {
    var allColumns: seq<string>
    var allColumnsSet: set<string>
    var columnsByTable: map<string, set<string>>

    /** `newPantherViewColumns`. */
    constructor (tables: seq<Table>, extraColumns: seq<string>)
      ensures Lists(allColumns, AllColumns(tables, extraColumns))
      ensures columnsByTable == ByTable(tables, extraColumns)
    {
      allColumns, allColumnsSet, columnsByTable := [], {}, map[];
      new;
      for i := 0 to |tables|
        invariant allColumnsSet == AllColumns(tables[..i], extraColumns)
        invariant columnsByTable == ByTable(tables[..i], extraColumns)
      {
        InferViewColumns(tables[i], extraColumns);
        AllColumnsSnoc(tables[..i], tables[i], extraColumns);
        assert tables[..i + 1] == tables[..i] + [tables[i]];
      }
      assert tables[..|tables|] == tables;
      allColumns := SortedList(allColumnsSet);
    }

    method InferViewColumns(table: Table, extraColumns: seq<string>)
      modifies this`allColumnsSet, this`columnsByTable
      ensures columnsByTable == old(columnsByTable)[table.Name() := OwnColumns(table, extraColumns)]
      ensures allColumnsSet == old(allColumnsSet) + OwnColumns(table, extraColumns)
    {
      var columns := table.eventColumns + extraColumns;
      var selectColumns: seq<string> := [];
      for i := 0 to |columns|
        invariant forall c :: c in selectColumns <==> c in columns[..i] && PantherField(c)
      {
        if PantherField(columns[i]) {
          selectColumns := selectColumns + [columns[i]];
        }
      }
      assert columns[..|columns|] == columns;
      var keys := PartitionKeys(table.bin);
      ghost var fields := selectColumns;
      for i := 0 to |keys|
        invariant forall c :: c in selectColumns <==> c in fields || exists j | 0 <= j < i :: keys[j].name == c
      {
        selectColumns := selectColumns + [keys[i].name];
      }
      SelectedColumns(table, extraColumns, fields, selectColumns);
      var tableColumns: set<string> := {};
      for i := 0 to |selectColumns|
        invariant tableColumns == set c | c in selectColumns[..i]
        invariant allColumnsSet == old(allColumnsSet) + tableColumns
        invariant columnsByTable == old(columnsByTable)
      {
        tableColumns := tableColumns + {selectColumns[i]};
        if selectColumns[i] !in allColumnsSet {
          allColumnsSet := allColumnsSet + {selectColumns[i]};
        }
      }
      assert selectColumns[..|selectColumns|] == selectColumns;
      columnsByTable := columnsByTable[table.Name() := tableColumns];
    }

    /** `viewColumns`: the text of one table's select list. */
    method ViewColumns(table: Table) returns (text: string)
      ensures text == Join(ItemTexts(Items(allColumns, Lookup(columnsByTable, table.Name()))), ",")
    {
      var tableColumns := Lookup(columnsByTable, table.Name());
      ghost var items := Items(allColumns, tableColumns);
      var selectColumns: seq<string> := [];
      for i := 0 to |allColumns|
        invariant selectColumns == ItemTexts(items)[..i]
      {
        var selectColumn := allColumns[i];
        if allColumns[i] !in tableColumns {
          selectColumn := "NULL AS " + selectColumn;
        }
        selectColumns := selectColumns + [selectColumn];
      }
      assert ItemTexts(items)[..|allColumns|] == ItemTexts(items);
      text := Join(selectColumns, ",");
    }
  }

  lemma SelectedColumns(table: Table, extra: seq<string>, fields: seq<string>, selected: seq<string>)
    requires forall c :: c in fields <==> c in table.eventColumns + extra && PantherField(c)
    requires var keys := PartitionKeys(table.bin);
      forall c :: c in selected <==> c in fields || exists j | 0 <= j < |keys| :: keys[j].name == c
    ensures (set c | c in selected) == OwnColumns(table, extra)
  {
  }

  /** Names and types, run together. */
  function GenKey(keys: seq<PartitionKey>): string
  {
    if keys == [] then "" else GenKey(keys[..|keys| - 1]) + keys[|keys| - 1].name + keys[|keys| - 1].typ
  }

  /** Comparing the run-together text is comparing the keys. */
  lemma GenKeyTellsKeys(a: GlueTableTimebin, b: GlueTableTimebin)
    ensures GenKey(PartitionKeys(a)) == GenKey(PartitionKeys(b)) <==> PartitionKeys(a) == PartitionKeys(b)
  {
    if |PartitionKeys(a)| <= |PartitionKeys(b)| {
      GenKeyGrows(PartitionKeys(a), PartitionKeys(b));
    } else {
      GenKeyGrows(PartitionKeys(b), PartitionKeys(a));
    }
  }

  lemma {:induction false} GenKeyGrows(a: seq<PartitionKey>, b: seq<PartitionKey>)
    requires a <= b && forall i | 0 <= i < |b| :: b[i].name != ""
    ensures |GenKey(a)| <= |GenKey(b)| && (a != b ==> |GenKey(a)| < |GenKey(b)|)
  {
    if a != b {
      GenKeyGrows(a, b[..|b| - 1]);
    }
  }

  ghost predicate SameKeys(tables: seq<Table>)
  {
    forall i | 0 <= i < |tables| :: PartitionKeys(tables[i].bin) == PartitionKeys(tables[0].bin)
  }

  /** The check on partition keys, by comparing the run-together texts. */
  method CheckKeys(tables: seq<Table>) returns (ok: bool)
    ensures ok <==> SameKeys(tables)
  {
    if |tables| > 1 {
      var referenceKey := GenKey(PartitionKeys(tables[0].bin));
      for i := 1 to |tables|
        invariant forall j | 0 <= j < i :: PartitionKeys(tables[j].bin) == PartitionKeys(tables[0].bin)
      {
        GenKeyTellsKeys(tables[0].bin, tables[i].bin);
        if referenceKey != GenKey(PartitionKeys(tables[i].bin)) {
          return false;
        }
      }
    }
    return true;
  }

  /** The loop over the tables. */
  method SelectBlock(view: PantherViewColumns, tables: seq<Table>) returns (lines: seq<string>)
    ensures lines == SelectLines(Selects(tables, view.columnsByTable, view.allColumns))
  {
    ghost var selects := Selects(tables, view.columnsByTable, view.allColumns);
    lines := [];
    for i := 0 to |tables|
      invariant lines == OpenLines(selects[..i], i < |tables|)
    {
      var columns := view.ViewColumns(tables[i]);
      var line := SelectLine(columns, tables[i].Database(), tables[i].Name());
      lines := lines + [line];
      assert line == SelectText(selects[i]);
      LinesSnoc(selects[..i], selects[i]);
      assert selects[..i + 1] == selects[..i] + [selects[i]];
      assert lines == SelectLines(selects[..i + 1]);
      if i < |tables| - 1 {
        lines := lines + ["\tunion all"];
      }
    }
    assert selects[..|tables|] == selects;
  }

  /** `generateViewAllHelper`: an error exactly when two tables differ in their partition keys, and otherwise the
      text of the view's statement. */
  method GenerateViewAll(viewName: string, tables: seq<Table>, extraColumns: seq<string>)
    returns (sql: Option<string>, ghost cols: seq<string>)
    ensures sql.Some? <==> SameKeys(tables)
    ensures sql.Some? ==>
      && Lists(cols, AllColumns(tables, extraColumns))
      && sql.value == ViewText(viewName, Selects(tables, ByTable(tables, extraColumns), cols))
  {
    var ok := CheckKeys(tables);
    if !ok {
      return None, [];
    }
    var view := new PantherViewColumns(tables, extraColumns);
    cols := view.allColumns;
    var lines := SelectBlock(view, tables);
    sql := Some(Join([Header(viewName)] + lines + [";\n"], "\n"));
  }

  /** The lines so far: one more `union all` while another `select` is to come. */
  function OpenLines(selects: seq<Select>, more: bool): seq<string>
  {
    SelectLines(selects) + if more && selects != [] then ["\tunion all"] else []
  }

  lemma LinesSnoc(selects: seq<Select>, s: Select)
    ensures SelectLines(selects + [s]) == OpenLines(selects, true) + [SelectText(s)]
  {
  }

  // ---------------------------------------------------------------- reading a select list back

  function ReadItem(text: string): Item { if "NULL AS " <= text then NullAs(text[8..]) else Col(text) }

  function ReadItems(text: string): seq<Item>
  {
    var parts := Split(text, ',');
    seq(|parts|, i requires 0 <= i < |parts| => ReadItem(parts[i]))
  }

  /** The text of a select list determines the list, for columns whose names have no comma. */
  lemma SelectListReads(tables: seq<Table>, extra: seq<string>, cols: seq<string>, own: set<string>)
    requires tables != [] && Lists(cols, AllColumns(tables, extra))
    requires forall c | c in cols :: ',' !in c
    ensures ReadItems(Join(ItemTexts(Items(cols, own)), ",")) == Items(cols, own)
  {
    var items := Items(cols, own);
    var texts := ItemTexts(items);
    forall i | 0 <= i < |items|
      ensures ',' !in texts[i] && ReadItem(texts[i]) == items[i]
    {
      assert cols[i] in cols;
      ColumnNames(tables, extra, cols[i]);
      ItemReads(items[i]);
    }
    InAllColumns(tables, extra, "year");
    YearOwned(tables[0], extra);
    SplitJoin(texts, ',');
  }

  lemma ItemReads(item: Item)
    requires ',' !in item.name && item.name != "" && item.name[0] != 'N'
    ensures ',' !in ItemText(item) && ReadItem(ItemText(item)) == item
  {
  }

  lemma ColumnNames(tables: seq<Table>, extra: seq<string>, c: string)
    requires c in AllColumns(tables, extra)
    ensures c != "" && c[0] != 'N'
  {
    InAllColumns(tables, extra, c);
    var t :| 0 <= t < |tables| && Owns(tables[t], extra, c);
    OwnNames(tables[t], extra, c);
  }

  lemma OwnNames(table: Table, extra: seq<string>, c: string)
    requires Owns(table, extra, c)
    ensures c != "" && c[0] != 'N'
  {
  }

  lemma YearOwned(table: Table, extra: seq<string>)
    ensures Owns(table, extra, "year")
  {
  }

  // ---------------------------------------------------------------- what the view means

  datatype Value = Null | Value(text: string)
  type Row = map<string, Value>

  /** The rows stored under a database and a table name. */
  type Data = map<(string, string), seq<Row>>

  function RowsOf(data: Data, table: Table): seq<Row>
  {
    if (table.Database(), table.Name()) in data then data[(table.Database(), table.Name())] else []
  }

  /** Every table's rows have the columns that the view takes from it. */
  ghost predicate Typed(tables: seq<Table>, extra: seq<string>, data: Data)
  {
    forall i | 0 <= i < |tables| :: forall row | row in RowsOf(data, tables[i]) ::
      OwnColumns(tables[i], extra) <= row.Keys
  }

  /** SQL rejects a `select` of a column that the table does not have. */
  ghost predicate Resolves(items: seq<Item>, row: Row)
  {
    forall i | 0 <= i < |items| && items[i].Col? :: items[i].name in row.Keys
  }

  function ItemValue(item: Item, row: Row): Value
  {
    if item.Col? && item.name in row.Keys then row[item.name] else Null
  }

  /** One row of a `select`: values by position. */
  function Tuple(items: seq<Item>, row: Row): (tuple: seq<Value>)
    ensures |tuple| == |items| && forall i | 0 <= i < |items| :: tuple[i] == ItemValue(items[i], row)
  {
    seq(|items|, i requires 0 <= i < |items| => ItemValue(items[i], row))
  }

  function ItemNames(items: seq<Item>): (names: seq<string>)
    ensures |names| == |items| && forall i | 0 <= i < |items| :: names[i] == items[i].name
  {
    seq(|items|, i requires 0 <= i < |items| => items[i].name)
  }

  /** A tuple read under column names. */
  function Named(names: seq<string>, tuple: seq<Value>): Row
  {
    if names == [] || tuple == [] then map[] else Named(names[1..], tuple[1..])[names[0] := tuple[0]]
  }

  function SelectRows(names: seq<string>, items: seq<Item>, rows: seq<Row>): multiset<Row>
  {
    if rows == [] then multiset{}
    else SelectRows(names, items, rows[..|rows| - 1]) + multiset{Named(names, Tuple(items, rows[|rows| - 1]))}
  }

  function StoredRows(data: Data, s: Select): seq<Row>
  {
    if (s.database, s.table) in data then data[(s.database, s.table)] else []
  }

  /** The bag of rows of a `union all`: the names come from outside (the first `select`), the values by position. */
  function UnionAll(names: seq<string>, selects: seq<Select>, data: Data): multiset<Row>
  {
    if selects == [] then multiset{}
    else
      var s := selects[|selects| - 1];
      UnionAll(names, selects[..|selects| - 1], data) + SelectRows(names, s.items, StoredRows(data, s))
  }

  /** The meaning of a view. */
  function Meaning(selects: seq<Select>, data: Data): multiset<Row>
  {
    if selects == [] then multiset{} else UnionAll(ItemNames(selects[0].items), selects, data)
  }

  /** What it should mean: each table's rows with NULL for the columns the table lacks. */
  function Padded(row: Row, own: set<string>, all: set<string>): Row
  {
    map c | c in all :: if c in own && c in row then row[c] else Null
  }

  function PaddedRows(rows: seq<Row>, own: set<string>, all: set<string>): multiset<Row>
  {
    if rows == [] then multiset{}
    else PaddedRows(rows[..|rows| - 1], own, all) + multiset{Padded(rows[|rows| - 1], own, all)}
  }

  function PaddedUnion(tables: seq<Table>, extra: seq<string>, all: set<string>, data: Data): multiset<Row>
  {
    if tables == [] then multiset{}
    else
      var t := tables[|tables| - 1];
      PaddedUnion(tables[..|tables| - 1], extra, all, data) + PaddedRows(RowsOf(data, t), OwnColumns(t, extra), all)
  }

  /** Tables that share a name share their columns: always so when names are distinct. */
  ghost predicate NamesAgree(tables: seq<Table>, extra: seq<string>)
  {
    forall i, j | 0 <= i < |tables| && 0 <= j < |tables| && tables[i].Name() == tables[j].Name() ::
      OwnColumns(tables[i], extra) == OwnColumns(tables[j], extra)
  }

  /** Each `select` fills with NULL exactly the columns its own table lacks. */
  ghost predicate FillsExactly(tables: seq<Table>, extra: seq<string>, selects: seq<Select>, cols: seq<string>)
    requires |selects| == |tables|
  {
    forall i | 0 <= i < |tables| :: selects[i].items == Items(cols, OwnColumns(tables[i], extra))
  }

  lemma {:induction false} NamedAt(names: seq<string>, tuple: seq<Value>, i: nat)
    requires |names| == |tuple| && StrictlySorted(names) && i < |names|
    ensures names[i] in Named(names, tuple) && Named(names, tuple)[names[i]] == tuple[i]
  {
    if i > 0 {
      LessTotal(names[0], names[i]);
      NamedAt(names[1..], tuple[1..], i - 1);
    }
  }

  lemma {:induction false} NamedKeys(names: seq<string>, tuple: seq<Value>)
    requires |names| == |tuple|
    ensures forall c :: c in Named(names, tuple) <==> c in names
  {
    if names != [] {
      NamedKeys(names[1..], tuple[1..]);
      assert names == [names[0]] + names[1..];
    }
  }

  /** A row selected by position and named again is the padded row. */
  lemma TupleIsPadded(cols: seq<string>, own: set<string>, all: set<string>, row: Row)
    requires Lists(cols, all)
    ensures Named(cols, Tuple(Items(cols, own), row)) == Padded(row, own, all)
  {
    var tuple := Tuple(Items(cols, own), row);
    NamedKeys(cols, tuple);
    forall c | c in all
      ensures Named(cols, tuple)[c] == Padded(row, own, all)[c]
    {
      var i :| 0 <= i < |cols| && cols[i] == c;
      NamedAt(cols, tuple, i);
    }
    assert Named(cols, tuple).Keys == Padded(row, own, all).Keys;
  }

  lemma {:induction false} SelectIsPadded(cols: seq<string>, own: set<string>, all: set<string>, rows: seq<Row>)
    requires Lists(cols, all)
    ensures SelectRows(cols, Items(cols, own), rows) == PaddedRows(rows, own, all)
  {
    if rows != [] {
      SelectIsPadded(cols, own, all, rows[..|rows| - 1]);
      TupleIsPadded(cols, own, all, rows[|rows| - 1]);
    }
  }

  lemma {:induction false} UnionIsPadded(
      tables: seq<Table>, extra: seq<string>, byTable: map<string, set<string>>, cols: seq<string>, all: set<string>,
      data: Data)
    requires Lists(cols, all) && FillsExactly(tables, extra, Selects(tables, byTable, cols), cols)
    ensures UnionAll(cols, Selects(tables, byTable, cols), data) == PaddedUnion(tables, extra, all, data)
  {
    if tables != [] {
      var n := |tables| - 1;
      var selects := Selects(tables, byTable, cols);
      assert selects[..n] == Selects(tables[..n], byTable, cols);
      UnionIsPadded(tables[..n], extra, byTable, cols, all, data);
      SelectIsPadded(cols, OwnColumns(tables[n], extra), all, RowsOf(data, tables[n]));
    }
  }

  lemma {:induction false} ByTableIsSomeTable(tables: seq<Table>, extra: seq<string>, i: nat)
    requires i < |tables|
    ensures exists j | 0 <= j < |tables| && tables[j].Name() == tables[i].Name() ::
              Lookup(ByTable(tables, extra), tables[i].Name()) == OwnColumns(tables[j], extra)
  {
    var n := |tables| - 1;
    if tables[i].Name() == tables[n].Name() {
      assert Lookup(ByTable(tables, extra), tables[i].Name()) == OwnColumns(tables[n], extra);
    } else {
      ByTableIsSomeTable(tables[..n], extra, i);
      var j :| 0 <= j < n && tables[..n][j].Name() == tables[..n][i].Name()
        && Lookup(ByTable(tables[..n], extra), tables[..n][i].Name()) == OwnColumns(tables[..n][j], extra);
      assert tables[j].Name() == tables[i].Name();
    }
  }

  lemma OwnWithinAll(tables: seq<Table>, extra: seq<string>, i: nat)
    requires i < |tables|
    ensures OwnColumns(tables[i], extra) <= AllColumns(tables, extra)
  {
    forall c | c in OwnColumns(tables[i], extra)
      ensures c in AllColumns(tables, extra)
    {
      assert Owns(tables[i], extra, c);
      InAllColumns(tables, extra, c);
    }
  }

  lemma ItemsTellOwn(cols: seq<string>, all: set<string>, a: set<string>, b: set<string>)
    requires Lists(cols, all) && a <= all && b <= all && Items(cols, a) == Items(cols, b)
    ensures a == b
  {
  }

  /** Exactly when tables of one name agree on their columns, every `select` fills with NULL the columns its table
      lacks and no others. */
  lemma FillsExactlyIff(tables: seq<Table>, extra: seq<string>, cols: seq<string>)
    requires Lists(cols, AllColumns(tables, extra))
    ensures FillsExactly(tables, extra, Selects(tables, ByTable(tables, extra), cols), cols) <==>
      NamesAgree(tables, extra)
  {
    var byTable := ByTable(tables, extra);
    forall i | 0 <= i < |tables|
      ensures Items(cols, Lookup(byTable, tables[i].Name())) == Items(cols, OwnColumns(tables[i], extra))
        <==> Lookup(byTable, tables[i].Name()) == OwnColumns(tables[i], extra)
      ensures NamesAgree(tables, extra) ==> Lookup(byTable, tables[i].Name()) == OwnColumns(tables[i], extra)
    {
      ByTableIsSomeTable(tables, extra, i);
      var j :| 0 <= j < |tables| && tables[j].Name() == tables[i].Name()
        && Lookup(byTable, tables[i].Name()) == OwnColumns(tables[j], extra);
      OwnWithinAll(tables, extra, i);
      OwnWithinAll(tables, extra, j);
      if Items(cols, Lookup(byTable, tables[i].Name())) == Items(cols, OwnColumns(tables[i], extra)) {
        ItemsTellOwn(cols, AllColumns(tables, extra), Lookup(byTable, tables[i].Name()), OwnColumns(tables[i], extra));
      }
    }
    if FillsExactly(tables, extra, Selects(tables, byTable, cols), cols) {
      forall i, j | 0 <= i < |tables| && 0 <= j < |tables| && tables[i].Name() == tables[j].Name()
        ensures OwnColumns(tables[i], extra) == OwnColumns(tables[j], extra)
      {
        assert Selects(tables, byTable, cols)[i].items == Items(cols, OwnColumns(tables[i], extra));
        assert Selects(tables, byTable, cols)[j].items == Items(cols, OwnColumns(tables[j], extra));
      }
    }
  }

  lemma ItemsResolve(cols: seq<string>, own: set<string>, row: Row)
    requires own <= row.Keys
    ensures Resolves(Items(cols, own), row)
  {
  }

  /** The view means the bag union of all tables' rows, padded with NULL, over the union of their columns. */
  lemma ViewMeansPaddedUnion(tables: seq<Table>, extra: seq<string>, cols: seq<string>, data: Data)
    requires Lists(cols, AllColumns(tables, extra)) && NamesAgree(tables, extra) && Typed(tables, extra, data)
    ensures var selects := Selects(tables, ByTable(tables, extra), cols);
      Meaning(selects, data) == PaddedUnion(tables, extra, AllColumns(tables, extra), data)
    ensures forall i | 0 <= i < |tables| :: forall row | row in RowsOf(data, tables[i]) ::
              Resolves(SelectOf(tables[i], ByTable(tables, extra), cols).items, row)
  {
    var byTable := ByTable(tables, extra);
    FillsExactlyIff(tables, extra, cols);
    forall i, row | 0 <= i < |tables| && row in RowsOf(data, tables[i])
      ensures Resolves(SelectOf(tables[i], byTable, cols).items, row)
    {
      assert Selects(tables, byTable, cols)[i].items == Items(cols, OwnColumns(tables[i], extra));
      ItemsResolve(cols, OwnColumns(tables[i], extra), row);
    }
    UnionIsPadded(tables, extra, byTable, cols, AllColumns(tables, extra), data);
    if tables != [] {
      assert ItemNames(Selects(tables, byTable, cols)[0].items) == cols;
    }
  }

  /** Once the partition-key check passes, no `select` fills a partition column with NULL, whatever the names. */
  lemma PartitionColumnsNeverNull(tables: seq<Table>, extra: seq<string>, cols: seq<string>, i: nat, k: nat)
    requires SameKeys(tables) && i < |tables| && k < |cols| && cols[k] in KeyNames(tables[0].bin)
    ensures Selects(tables, ByTable(tables, extra), cols)[i].items[k] == Col(cols[k])
  {
  }

  /** Of two tables with one name the earlier one loses what the later one lacks: its `select` fills the column with
      NULL although the table has it. */
  lemma LaterTableStays(a: Table, b: Table, extra: seq<string>, c: string, cols: seq<string>)
    requires a.Name() == b.Name() && c in OwnColumns(a, extra) && c !in OwnColumns(b, extra)
    requires Lists(cols, AllColumns([a, b], extra))
    ensures exists k | 0 <= k < |cols| :: Selects([a, b], ByTable([a, b], extra), cols)[0].items[k] == NullAs(c)
  {
    var byTable := ByTable([a, b], extra);
    assert Lookup(byTable, a.Name()) == OwnColumns(b, extra);
    OwnWithinAll([a, b], extra, 0);
    assert c in OwnColumns([a, b][0], extra) && c in cols;
    var k :| 0 <= k < |cols| && cols[k] == c;
    assert Selects([a, b], byTable, cols)[0] == SelectOf(a, byTable, cols);
    assert Selects([a, b], byTable, cols)[0].items[k] == NullAs(c);
  }

  lemma DotIsUnderscore()
    ensures GetTableName("a.b") == GetTableName("a_b")
  {
  }

  /** At an input: two log types that differ only in a dot and an underscore share a table name. */
  lemma SharedNameLosesColumn(bin: GlueTableTimebin, cols: seq<string>)
    requires Lists(cols, AllColumns([Table(LogData, "a.b", bin, ["p_x"]), Table(LogData, "a_b", bin, [])], []))
    ensures
      var a, b := Table(LogData, "a.b", bin, ["p_x"]), Table(LogData, "a_b", bin, []);
      && "p_x" in OwnColumns(a, [])
      && exists k | 0 <= k < |cols| :: Selects([a, b], ByTable([a, b], []), cols)[0].items[k] == NullAs("p_x")
  {
    var a, b := Table(LogData, "a.b", bin, ["p_x"]), Table(LogData, "a_b", bin, []);
    DotIsUnderscore();
    assert "p_x" in a.eventColumns + [] && PantherField("p_x");
    assert b.eventColumns + [] == [];
    NotKey(bin);
    LaterTableStays(a, b, [], "p_x", cols);
  }

  lemma NotKey(bin: GlueTableTimebin)
    ensures "p_x" !in KeyNames(bin)
  {
  }
}
