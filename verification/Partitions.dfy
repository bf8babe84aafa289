/** `pkg/awsglue/partition.go` and the naming parts of `pkg/awsglue/glue.go`: time bins printed as
    S3 prefixes, and S3 object keys parsed back into partitions. */
module Partitions {
  import opened GoStrings
  import opened Calendar
  import opened TimeBins

  datatype DataType = LogData | RuleData
  datatype PartitionKey = PartitionKey(name: string, typ: string)
  datatype Column = Column(key: string, value: string)

  /** `PartitionKeys`. */
  function PartitionKeys(tb: GlueTableTimebin): seq<PartitionKey>
  {
    [PartitionKey("year", "int")]
    + (if tb >= MONTHLY then [PartitionKey("month", "int")] else [])
    + (if tb >= DAILY then [PartitionKey("day", "int")] else [])
    + (if tb >= HOURLY then [PartitionKey("hour", "int")] else [])
  }

  /** `partitionValues`. */
  function PartitionValues(tb: GlueTableTimebin, t: Time): seq<string>
  {
    [Itoa(DateOf(t).year)]
    + (if tb >= MONTHLY then [Pad2(DateOf(t).month)] else [])
    + (if tb >= DAILY then [Pad2(DateOf(t).day)] else [])
    + (if tb >= HOURLY then [Pad2(HourOf(t))] else [])
  }

  function Segment(name: string, value: string): string { name + "=" + value }
  function YearSegment(t: Time): string { Segment("year", Itoa(DateOf(t).year)) }
  function MonthSegment(t: Time): string { Segment("month", Pad2(DateOf(t).month)) }
  function DaySegment(t: Time): string { Segment("day", Pad2(DateOf(t).day)) }
  function HourSegment(t: Time): string { Segment("hour", Pad2(HourOf(t))) }

  /** `getTimePartitionPrefix`: anything that is neither hourly nor daily is printed as monthly. */
  function TimePartitionPrefix(tb: GlueTableTimebin, t: Time): string
  {
    if tb == HOURLY then
      YearSegment(t) + "/" + MonthSegment(t) + "/" + DaySegment(t) + "/" + HourSegment(t) + "/"
    else if tb == DAILY then
      YearSegment(t) + "/" + MonthSegment(t) + "/" + DaySegment(t) + "/"
    else
      YearSegment(t) + "/" + MonthSegment(t) + "/"
  }

  function DatabaseName(dt: DataType): string { if dt.LogData? then "panther_logs" else "panther_rule_matches" }
  function S3Root(dt: DataType): string { if dt.LogData? then "logs" else "rules" }

  /** `getTablePrefix`. */
  function TablePrefix(dt: DataType, tableName: string): string { S3Root(dt) + "/" + tableName + "/" }

  function TableChar(c: char): char
  {
    if c == '.' then '_' else if 'A' <= c <= 'Z' then (c as int + 32) as char else c
  }

  /** `GetTableName`: dots become underscores, letters lower case. */
  function GetTableName(logType: string): (r: string)
    ensures |r| == |logType|
    ensures forall i | 0 <= i < |r| :: r[i] == TableChar(logType[i])
  {
    seq(|logType|, i requires 0 <= i < |logType| => TableChar(logType[i]))
  }

  predicate SameButCaseOrDot(c: char, d: char)
  {
    || c == d || (c in "._" && d in "._")
    || ('A' <= c <= 'Z' && d as int == c as int + 32) || ('A' <= d <= 'Z' && c as int == d as int + 32)
  }

  /** Table names have no dots and no capital letters, such names stay as they are, and two log types share a table
      name exactly when they differ in case, dots and underscores alone. */
  lemma TableNames(a: string, b: string)
    ensures forall i | 0 <= i < |GetTableName(a)| :: GetTableName(a)[i] != '.' && !('A' <= GetTableName(a)[i] <= 'Z')
    ensures GetTableName(GetTableName(a)) == GetTableName(a)
    ensures (forall i | 0 <= i < |a| :: a[i] != '.' && !('A' <= a[i] <= 'Z')) ==> GetTableName(a) == a
    ensures GetTableName(a) == GetTableName(b) <==>
      |a| == |b| && forall i | 0 <= i < |a| :: SameButCaseOrDot(a[i], b[i])
  {
    if |a| == |b| {
      forall i | 0 <= i < |a|
        ensures GetTableName(a)[i] == GetTableName(b)[i] <==> SameButCaseOrDot(a[i], b[i])
      {
      }
    }
  }

  /** `GetPartitionPrefix`. */
  function GetPartitionPrefix(dt: DataType, logType: string, tb: GlueTableTimebin, t: Time): string
  {
    TablePrefix(dt, GetTableName(logType)) + TimePartitionPrefix(tb, t)
  }

  /** The segments of a time prefix. */
  function TimeSegments(tb: GlueTableTimebin, t: Time): seq<string>
  {
    if tb == HOURLY then [YearSegment(t), MonthSegment(t), DaySegment(t), HourSegment(t)]
    else if tb == DAILY then [YearSegment(t), MonthSegment(t), DaySegment(t)]
    else [YearSegment(t), MonthSegment(t)]
  }

  lemma TimePrefixIsPath(tb: GlueTableTimebin, t: Time)
    ensures TimePartitionPrefix(tb, t) == PathText(TimeSegments(tb, t))
    ensures SlashFree(TimeSegments(tb, t))
  {
    PathTextSmall(YearSegment(t), MonthSegment(t), DaySegment(t), HourSegment(t));
    SegmentsHaveNoSlash(t);
  }

  /** The `name=value` segments of a partition. */
  function NameValues(names: seq<PartitionKey>, values: seq<string>): seq<string>
    requires |names| == |values|
  {
    seq(|names|, i requires 0 <= i < |names| => Segment(names[i].name, values[i]))
  }

  /** The printed prefix spells the partition keys with the partition values exactly for the bins
      that `Validate` accepts; for any other bin number the two disagree at every time. */
  lemma PrefixSpellsKeys(tb: GlueTableTimebin, t: Time)
    ensures |PartitionKeys(tb)| == |PartitionValues(tb, t)|
    ensures TimePartitionPrefix(tb, t) == PathText(NameValues(PartitionKeys(tb), PartitionValues(tb, t))) <==>
      Validate(tb)
  {
    TimePrefixIsPath(tb, t);
    SpelledSegments(tb, t);
    var spelled := NameValues(PartitionKeys(tb), PartitionValues(tb, t));
    if !Validate(tb) && TimePartitionPrefix(tb, t) == PathText(spelled) {
      PathPrefix(TimeSegments(tb, t), spelled);
      PathPrefix(spelled, TimeSegments(tb, t));
    }
  }

  lemma SpelledSegments(tb: GlueTableTimebin, t: Time)
    ensures |PartitionKeys(tb)| == |PartitionValues(tb, t)|
    ensures
      var spelled := NameValues(PartitionKeys(tb), PartitionValues(tb, t));
      SlashFree(spelled) && (if Validate(tb) then spelled == TimeSegments(tb, t)
        else |spelled| != |TimeSegments(tb, t)|)
  {
    SegmentsHaveNoSlash(t);
    var names, values := PartitionKeys(tb), PartitionValues(tb, t);
    var spelled := NameValues(names, values);
    assert spelled[0] == YearSegment(t);
    if tb >= MONTHLY { assert spelled[1] == MonthSegment(t); }
    if tb >= DAILY { assert spelled[2] == DaySegment(t); }
    if tb >= HOURLY { assert spelled[3] == HourSegment(t); }
  }

  /** Same calendar fields are the only way for one time prefix to begin another. */
  lemma TimePrefixFree(tb: GlueTableTimebin, t: Time, u: Time)
    requires Validate(tb) && TimePartitionPrefix(tb, t) <= TimePartitionPrefix(tb, u)
    ensures SameFields(tb, t, u)
  {
    TimePrefixIsPath(tb, t);
    TimePrefixIsPath(tb, u);
    var a, b := TimeSegments(tb, t), TimeSegments(tb, u);
    PathPrefix(a, b);
    assert |a| == |b| && a[0] == b[0] && a[1] == b[1];
    SegmentValue("year", Itoa(DateOf(t).year), Itoa(DateOf(u).year));
    ItoaInjective(DateOf(t).year, DateOf(u).year);
    SameNumber("month", DateOf(t).month, DateOf(u).month);
    if tb >= DAILY {
      assert a[2] == b[2];
      SameNumber("day", DateOf(t).day, DateOf(u).day);
    }
    if tb == HOURLY {
      assert a[3] == b[3];
      SameNumber("hour", HourOf(t), HourOf(u));
    }
  }

  lemma SameNumber(name: string, m: nat, n: nat)
    requires m < 100 && n < 100 && Segment(name, Pad2(m)) == Segment(name, Pad2(n))
    ensures m == n
  {
    SegmentValue(name, Pad2(m), Pad2(n));
    Pad2Injective(m, n);
  }

  lemma SegmentValue(name: string, v: string, w: string)
    requires Segment(name, v) == Segment(name, w)
    ensures v == w
  {
    assert Segment(name, v)[|name| + 1..] == v && Segment(name, w)[|name| + 1..] == w;
  }

  lemma SegmentsHaveNoSlash(t: Time)
    ensures '/' !in YearSegment(t) && '/' !in MonthSegment(t) && '/' !in DaySegment(t) && '/' !in HourSegment(t)
  {
  }

  /** Two times get the same prefix exactly when no bin boundary separates them;
      otherwise neither prefix begins the other. */
  lemma PrefixSeparatesBins(dt: DataType, logType: string, tb: GlueTableTimebin, t: Time, u: Time)
    requires Validate(tb)
    ensures
      var p, q := GetPartitionPrefix(dt, logType, tb, t), GetPartitionPrefix(dt, logType, tb, u);
      (p == q <==> SameBin(tb, t, u)) && (p <= q || q <= p ==> SameBin(tb, t, u))
  {
    SameFieldsIffSameBin(tb, t, u);
    var p, q := TimePartitionPrefix(tb, t), TimePartitionPrefix(tb, u);
    SharedHead(TablePrefix(dt, GetTableName(logType)), p, q);
    if p <= q { TimePrefixFree(tb, t, u); }
    if q <= p { TimePrefixFree(tb, u, t); }
  }

  lemma SharedHead(head: string, p: string, q: string)
    ensures head + p <= head + q <==> p <= q
    ensures head + q <= head + p <==> q <= p
    ensures head + p == head + q <==> p == q
  {
    assert (head + p)[|head|..] == p && (head + q)[|head|..] == q;
  }

  /** An object listed under a bin's prefix belongs to that bin only. */
  lemma ListingSeesOneBin(dt: DataType, logType: string, tb: GlueTableTimebin, t: Time, u: Time, key: string)
    requires Validate(tb)
    requires GetPartitionPrefix(dt, logType, tb, t) <= key && GetPartitionPrefix(dt, logType, tb, u) <= key
    ensures SameBin(tb, t, u)
  {
    var p, q := GetPartitionPrefix(dt, logType, tb, t), GetPartitionPrefix(dt, logType, tb, u);
    assert p == key[..|p|] && q == key[..|q|];
    assert p <= q || q <= p;
    PrefixSeparatesBins(dt, logType, tb, t, u);
  }

  /** The partition columns are declared as integers, and every value is one, for years that fit 64 bits. */
  lemma ValuesAreIntegers(tb: GlueTableTimebin, t: Time)
    requires INT_MIN <= DateOf(t).year <= INT_MAX
    ensures |PartitionKeys(tb)| == |PartitionValues(tb, t)|
    ensures forall i | 0 <= i < |PartitionKeys(tb)| ::
      PartitionKeys(tb)[i].typ == "int" && Atoi(PartitionValues(tb, t)[i]).Some?
  {
    PrintedNumbers(t);
    var keys, values := PartitionKeys(tb), PartitionValues(tb, t);
    forall i | 0 <= i < |keys|
      ensures keys[i].typ == "int" && Atoi(values[i]).Some?
    {
      if i == 0 {
        assert values[0] == Itoa(DateOf(t).year);
      } else if i == 1 {
        assert values[1] == Pad2(DateOf(t).month);
      } else if i == 2 {
        assert values[2] == Pad2(DateOf(t).day);
      } else {
        assert values[3] == Pad2(HourOf(t));
      }
    }
  }

  /** Partition values name a bin: distinct bins have distinct values. */
  lemma ValuesNameBin(tb: GlueTableTimebin, t: Time, u: Time)
    requires Validate(tb)
    ensures PartitionValues(tb, t) == PartitionValues(tb, u) <==> SameBin(tb, t, u)
  {
    SameFieldsIffSameBin(tb, t, u);
    if PartitionValues(tb, t) == PartitionValues(tb, u) {
      PrefixSpellsKeys(tb, t);
      PrefixSpellsKeys(tb, u);
      TimePrefixFree(tb, t, u);
    }
  }

  // ---------------------------------------------------------------- parsing

  datatype ParseError = NotGzipJson | TooFewSegments | UnsupportedPrefix | MissingColumn(name: string)
      | NotAnInteger(name: string)
  datatype Result<+T> = Success(value: T) | Failure(error: ParseError)

  datatype GluePartition = GluePartition(
    dataType: DataType,
    databaseName: string,
    tableName: string,
    s3Bucket: string,
    dataFormat: string,
    compression: string,
    hour: Time,
    columns: seq<Column>)

  /** `inferPartitionColumnInfo`. */
  function InferColumn(input: string, name: string): Result<Column>
  {
    var fields := Split(input, '=');
    if |fields| != 2 || fields[0] != name then Failure(MissingColumn(name))
    else if Atoi(fields[1]).None? then Failure(NotAnInteger(name))
    else Success(Column(name, fields[1]))
  }

  const SUFFIX := ".json.gz"
  predicate HasSuffix(s: string, suffix: string) { |suffix| <= |s| && s[|s| - |suffix|..] == suffix }

  /** `time.Date` at a whole hour, UTC. */
  function DateHour(y: int, m: int, d: int, h: int): Time { DayNumber(y, m, d) * DAY + h * HOUR }

  /** As many of the columns as were read in a row; year and month are required. */
  function ReadInRow(year: Result<Column>, month: Result<Column>, day: Result<Column>,
      hour: Result<Column>): Result<seq<Column>>
  {
    if year.Failure? then Failure(year.error)
    else if month.Failure? then Failure(month.error)
    else if day.Failure? then Success([year.value, month.value])
    else if hour.Failure? then Success([year.value, month.value, day.value])
    else Success([year.value, month.value, day.value, hour.value])
  }

  function ColumnAt(segments: seq<string>, i: nat, name: string): Result<Column>
  {
    if i < |segments| then InferColumn(segments[i], name) else Failure(TooFewSegments)
  }

  function KeyColumns(segments: seq<string>): Result<seq<Column>>
  {
    ReadInRow(ColumnAt(segments, 2, "year"), ColumnAt(segments, 3, "month"),
              ColumnAt(segments, 4, "day"), ColumnAt(segments, 5, "hour"))
  }

  /** What an object key says about its partition; the hour is known when all four columns are there. */
  function ParseKey(bucket: string, key: string): Result<GluePartition>
  {
    var segments := Split(key, '/');
    if !HasSuffix(key, SUFFIX) then Failure(NotGzipJson)
    else if |segments| < 4 then Failure(TooFewSegments)
    else if segments[0] != "logs" && segments[0] != "rules" then Failure(UnsupportedPrefix)
    else
      var columns := KeyColumns(segments);
      if columns.Failure? then Failure(columns.error)
      else
        var dt := if segments[0] == "logs" then LogData else RuleData;
        Success(GluePartition(dt, DatabaseName(dt), segments[1], bucket, "json", "gzip",
                              HourOfColumns(columns.value), columns.value))
  }

  /** The hour named by four columns; Go's zero time otherwise. */
  function HourOfColumns(columns: seq<Column>): Time
  {
    if |columns| == 4 && forall i | 0 <= i < 4 :: Atoi(columns[i].value).Some? then
      DateHour(Atoi(columns[0].value).value, Atoi(columns[1].value).value,
               Atoi(columns[2].value).value, Atoi(columns[3].value).value)
    else 0
  }

  /** The column-reading part of `GetPartitionFromS3`.  The early returns for keys of four and five
      segments are dead code: the last segment ends in `.json.gz`, so it is never a column. */
  method ReadColumns(s3Keys: seq<string>) returns (r: Result<seq<Column>>)
    requires |s3Keys| >= 4 && !EndsInDigit(s3Keys[|s3Keys| - 1])
    ensures r == KeyColumns(s3Keys)
    ensures r.Success? ==> forall i | 0 <= i < |r.value| :: Atoi(r.value[i].value).Some?
  {
    var year := InferColumn(s3Keys[2], "year");
    if year.Failure? {
      return Failure(year.error);
    }
    var month := InferColumn(s3Keys[3], "month");
    if month.Failure? {
      return Failure(month.error);
    }
    InferColumnSpells(s3Keys[3], "month");
    if |s3Keys| == 4 {
      assert false;
    }
    var day := InferColumn(s3Keys[4], "day");
    if day.Failure? {
      return Success([year.value, month.value]);
    }
    InferColumnSpells(s3Keys[4], "day");
    if |s3Keys| == 5 {
      assert false;
    }
    var hour := InferColumn(s3Keys[5], "hour");
    if hour.Failure? {
      return Success([year.value, month.value, day.value]);
    }
    return Success([year.value, month.value, day.value, hour.value]);
  }

  /** `GetPartitionFromS3`.  The late `Atoi` failures are dead code, since every value was read before. */
  method GetPartitionFromS3(s3Bucket: string, s3ObjectKey: string) returns (r: Result<GluePartition>)
    ensures r == ParseKey(s3Bucket, s3ObjectKey)
  {
    var partition := GluePartition(LogData, "", "", s3Bucket, "", "", 0, []);
    if !HasSuffix(s3ObjectKey, SUFFIX) {
      return Failure(NotGzipJson);
    }
    partition := partition.(compression := "gzip", dataFormat := "json");
    var s3Keys := Split(s3ObjectKey, '/');
    if |s3Keys| < 4 {
      return Failure(TooFewSegments);
    }
    if s3Keys[0] == "logs" {
      partition := partition.(databaseName := "panther_logs", dataType := LogData);
    } else if s3Keys[0] == "rules" {
      partition := partition.(databaseName := "panther_rule_matches", dataType := RuleData);
    } else {
      return Failure(UnsupportedPrefix);
    }
    partition := partition.(tableName := s3Keys[1]);
    LastSegmentEndsInZ(s3ObjectKey);
    var columns := ReadColumns(s3Keys);
    if columns.Failure? {
      return Failure(columns.error);
    }
    partition := partition.(columns := columns.value);
    if |columns.value| == 4 {
      var year, month := Atoi(columns.value[0].value), Atoi(columns.value[1].value);
      var day, hour := Atoi(columns.value[2].value), Atoi(columns.value[3].value);
      if year.None? || month.None? || day.None? || hour.None? {
        assert false;
      }
      partition := partition.(hour := DateHour(year.value, month.value, day.value, hour.value));
    }
    return Success(partition);
  }

  /** `GetPartitionLocation`. */
  method GetPartitionLocation(gp: GluePartition) returns (prefix: string)
    ensures prefix == Location(gp)
  {
    prefix := "s3://" + gp.s3Bucket + "/" + TablePrefix(gp.dataType, gp.tableName);
    ghost var base := prefix;
    var i := 0;
    while i < |gp.columns|
      invariant 0 <= i <= |gp.columns|
      invariant prefix == base + PathText(ColumnSegments(gp.columns)[..i])
    {
      var field := gp.columns[i];
      prefix := prefix + field.key + "=" + field.value + "/";
      ghost var segments := ColumnSegments(gp.columns);
      ColumnAppended(base + PathText(segments[..i]), field);
      PathTextSnoc(segments[..i], segments[i]);
      assert segments[..i + 1] == segments[..i] + [segments[i]];
      ConcatAssoc(base, PathText(segments[..i]), segments[i]);
      ConcatAssoc(base, PathText(segments[..i]) + segments[i], "/");
      i := i + 1;
    }
    assert ColumnSegments(gp.columns)[..i] == ColumnSegments(gp.columns);
  }

  lemma ColumnAppended(prefix: string, field: Column)
    ensures prefix + field.key + "=" + field.value + "/" == prefix + Segment(field.key, field.value) + "/"
  {
  }

  function ColumnSegments(columns: seq<Column>): seq<string>
  {
    seq(|columns|, i requires 0 <= i < |columns| => Segment(columns[i].key, columns[i].value))
  }

  function Location(gp: GluePartition): string
  {
    "s3://" + gp.s3Bucket + "/" + TablePrefix(gp.dataType, gp.tableName) + PathText(ColumnSegments(gp.columns))
  }

  /** The last part of a split ends like the whole text. */
  lemma {:induction false} SplitLast(s: string, sep: char)
    requires s != "" && s[|s| - 1] != sep
    ensures var parts := Split(s, sep); var last := parts[|parts| - 1]; last != "" && last[|last| - 1] == s[|s| - 1]
  {
    if |s| > 1 {
      SplitLast(s[1..], sep);
    } else {
      assert s[1..] == "";
    }
  }

  predicate EndsInDigit(s: string) { s != "" && IsDigit(s[|s| - 1]) }

  lemma EndsInZ(key: string)
    requires HasSuffix(key, SUFFIX)
    ensures key != "" && key[|key| - 1] == 'z'
  {
  }

  /** The last segment of a `.json.gz` key cannot be a `name=integer` column. */
  lemma LastSegmentEndsInZ(key: string)
    requires HasSuffix(key, SUFFIX)
    ensures var segments := Split(key, '/'); !EndsInDigit(segments[|segments| - 1])
  {
    EndsInZ(key);
    SplitLast(key, '/');
  }

  lemma InferColumnSpells(input: string, name: string)
    requires InferColumn(input, name).Success?
    ensures var c := InferColumn(input, name).value;
      input == Segment(c.key, c.value) && c.key == name && Atoi(c.value).Some?
    ensures EndsInDigit(input)
  {
    JoinSplit(input, '=');
    var fields := Split(input, '=');
    assert fields == [fields[0], fields[1]];
    assert Join(fields[1..], "=") == fields[1];
    AtoiEndsInDigit(fields[1]);
  }

  lemma AtoiEndsInDigit(s: string)
    requires Atoi(s).Some?
    ensures EndsInDigit(s)
  {
  }

  /** An accepted key spells out its partition's columns one by one, and goes on after them. */
  lemma AcceptedKeySpellsColumns(bucket: string, key: string)
    requires ParseKey(bucket, key).Success?
    ensures
      var gp, segments := ParseKey(bucket, key).value, Split(key, '/');
      && 2 <= |gp.columns| <= 4 && 2 + |gp.columns| < |segments|
      && segments[0] == S3Root(gp.dataType) && segments[1] == gp.tableName && gp.s3Bucket == bucket
      && segments[2..2 + |gp.columns|] == ColumnSegments(gp.columns)
      && |key| >= 8 && key[|key| - 8..] == ".json.gz" && gp.compression == "gzip" && gp.dataFormat == "json"
  {
    LastSegmentEndsInZ(key);
    SpelledColumns(Split(key, '/'));
  }

  /** `name=integer`. */
  ghost predicate IsColumn(segment: string, name: string)
  {
    exists v :: segment == name + "=" + v && Atoi(v).Some?
  }

  lemma AtoiHasNoEquals(v: string)
    requires Atoi(v).Some?
    ensures '=' !in v
  {
    forall i | 0 <= i < |v|
      ensures v[i] != '='
    {
      assert i == 0 || v[i] == v[1..][i - 1];
    }
  }

  lemma InferColumnIff(segment: string, name: string)
    requires '=' !in name
    ensures InferColumn(segment, name).Success? <==> IsColumn(segment, name)
  {
    if InferColumn(segment, name).Success? {
      InferColumnSpells(segment, name);
      assert segment == name + "=" + InferColumn(segment, name).value.value;
    }
    if v :| segment == name + "=" + v && Atoi(v).Some? {
      AtoiHasNoEquals(v);
      InferPrinted(name, v);
    }
  }

  /** A key is accepted exactly if it ends in `.json.gz` and begins with `logs` or `rules`, a table, a year and a month.
      A day is read if one follows, and an hour if one follows the day. */
  lemma KeyAcceptedIff(bucket: string, key: string)
    ensures
      var r, s := ParseKey(bucket, key), Split(key, '/');
      && (r.Success? <==>
           && |key| >= 8 && key[|key| - 8..] == ".json.gz" && |s| >= 5 && (s[0] == "logs" || s[0] == "rules")
           && IsColumn(s[2], "year") && IsColumn(s[3], "month"))
      && (r.Success? ==> (|r.value.columns| > 2 <==> IsColumn(s[4], "day")))
      && (r.Success? ==>
           (|r.value.columns| > 3 <==> IsColumn(s[4], "day") && |s| >= 6 && IsColumn(s[5], "hour")))
  {
    var s := Split(key, '/');
    if HasSuffix(key, SUFFIX) && |s| >= 4 {
      LastSegmentEndsInZ(key);
      InferColumnIff(s[2], "year");
      InferColumnIff(s[3], "month");
      if InferColumn(s[3], "month").Success? {
        InferColumnSpells(s[3], "month");
      }
      if |s| >= 5 {
        InferColumnIff(s[4], "day");
      }
      if |s| >= 6 {
        InferColumnIff(s[5], "hour");
      }
    }
  }

  /** What a successful read of segment `i` says about it. */
  ghost predicate Spells(segments: seq<string>, i: nat, r: Result<Column>)
  {
    r.Success? ==> i < |segments| && segments[i] == Segment(r.value.key, r.value.value) && EndsInDigit(segments[i])
  }

  lemma ColumnAtSpells(segments: seq<string>, i: nat, name: string)
    ensures Spells(segments, i, ColumnAt(segments, i, name))
  {
    if ColumnAt(segments, i, name).Success? {
      InferColumnSpells(segments[i], name);
    }
  }

  lemma SpelledInRow(segments: seq<string>, year: Result<Column>, month: Result<Column>, day: Result<Column>,
      hour: Result<Column>)
    requires segments != [] && !EndsInDigit(segments[|segments| - 1])
    requires Spells(segments, 2, year) && Spells(segments, 3, month) && Spells(segments, 4, day)
      && Spells(segments, 5, hour)
    requires ReadInRow(year, month, day, hour).Success?
    ensures
      var columns := ReadInRow(year, month, day, hour).value;
      && 2 <= |columns| <= 4 && 2 + |columns| < |segments|
      && segments[2..2 + |columns|] == ColumnSegments(columns)
  {
    var columns := ReadInRow(year, month, day, hour).value;
    forall i | 0 <= i < |columns|
      ensures 2 + i < |segments| && segments[2 + i] == ColumnSegments(columns)[i]
    {
    }
  }

  lemma SpelledColumns(segments: seq<string>)
    requires segments != [] && KeyColumns(segments).Success? && !EndsInDigit(segments[|segments| - 1])
    ensures
      var columns := KeyColumns(segments).value;
      && 2 <= |columns| <= 4 && 2 + |columns| < |segments|
      && segments[2..2 + |columns|] == ColumnSegments(columns)
  {
    ColumnAtSpells(segments, 2, "year");
    ColumnAtSpells(segments, 3, "month");
    ColumnAtSpells(segments, 4, "day");
    ColumnAtSpells(segments, 5, "hour");
    SpelledInRow(segments, ColumnAt(segments, 2, "year"), ColumnAt(segments, 3, "month"),
                 ColumnAt(segments, 4, "day"), ColumnAt(segments, 5, "hour"));
  }

  /** For every accepted key, the partition's location is a proper prefix of the object's URL:
      the object lies strictly inside its partition. */
  lemma LocationHoldsObject(bucket: string, key: string)
    requires ParseKey(bucket, key).Success?
    ensures Location(ParseKey(bucket, key).value) < "s3://" + bucket + "/" + key
  {
    AcceptedKeySpellsColumns(bucket, key);
    var gp, segments := ParseKey(bucket, key).value, Split(key, '/');
    JoinSplit(key, '/');
    EndsInZ(key);
    SegmentsHoldObject(gp, segments, key);
  }

  lemma SegmentsHoldObject(gp: GluePartition, segments: seq<string>, key: string)
    requires 2 + |gp.columns| < |segments| && segments[0] == S3Root(gp.dataType) && segments[1] == gp.tableName
    requires segments[2..2 + |gp.columns|] == ColumnSegments(gp.columns)
    requires key == Join(segments, "/") && key != "" && key[|key| - 1] != '/'
    ensures Location(gp) < "s3://" + gp.s3Bucket + "/" + key
  {
    var k := 2 + |gp.columns|;
    var table, columns := [segments[0], segments[1]], ColumnSegments(gp.columns);
    var rest := Join(segments[k..], "/");
    JoinAsPath(segments, k);
    assert segments[..k] == table + columns;
    PathTextAppend(table, columns);
    TablePrefixIsPath(gp.dataType, gp.tableName);
    PathEndsInSlash(segments[..k]);
    assert rest != "";
    ConcatAssoc("s3://" + gp.s3Bucket + "/", PathText(table), PathText(columns));
    ConcatAssoc("s3://" + gp.s3Bucket + "/", PathText(table + columns), rest);
    GoesOn(Location(gp), rest);
  }

  lemma GoesOn(s: string, rest: string)
    requires rest != ""
    ensures s < s + rest
  {
  }

  lemma TablePrefixIsPath(dt: DataType, tableName: string)
    ensures TablePrefix(dt, tableName) == PathText([S3Root(dt), tableName])
  {
    PathTextSmall(S3Root(dt), tableName, "", "");
  }

  lemma PathEndsInSlash(segments: seq<string>)
    requires segments != []
    ensures var p := PathText(segments); p != "" && p[|p| - 1] == '/'
  {
  }

  // ---------------------------------------------------------------- round trip

  lemma InferPrinted(name: string, value: string)
    requires '=' !in name && '=' !in value && Atoi(value).Some?
    ensures InferColumn(Segment(name, value), name) == Success(Column(name, value))
  {
    assert Segment(name, value) == name + ['='] + value;
    SplitHead(name, value, '=');
    SplitNoSep(value, '=');
  }

  lemma PrintedNumbers(t: Time)
    requires INT_MIN <= DateOf(t).year <= INT_MAX
    ensures Atoi(Itoa(DateOf(t).year)) == Some(DateOf(t).year) && Atoi(Pad2(DateOf(t).month)) == Some(DateOf(t).month)
    ensures Atoi(Pad2(DateOf(t).day)) == Some(DateOf(t).day) && Atoi(Pad2(HourOf(t))) == Some(HourOf(t))
  {
    AtoiItoa(DateOf(t).year);
    AtoiPad2(DateOf(t).month);
    AtoiPad2(DateOf(t).day);
    AtoiPad2(HourOf(t));
  }

  /** The four printed segments are read back as the columns of `t`. */
  lemma PrintedColumns(t: Time)
    requires INT_MIN <= DateOf(t).year <= INT_MAX
    ensures InferColumn(YearSegment(t), "year") == Success(Column("year", Itoa(DateOf(t).year)))
    ensures InferColumn(MonthSegment(t), "month") == Success(Column("month", Pad2(DateOf(t).month)))
    ensures InferColumn(DaySegment(t), "day") == Success(Column("day", Pad2(DateOf(t).day)))
    ensures InferColumn(HourSegment(t), "hour") == Success(Column("hour", Pad2(HourOf(t))))
  {
    PrintedHasNo(DateOf(t).year, DateOf(t).month, '=');
    PrintedHasNo(0, DateOf(t).day, '=');
    PrintedHasNo(0, HourOf(t), '=');
    PrintedNumbers(t);
    InferPrinted("year", Itoa(DateOf(t).year));
    InferPrinted("month", Pad2(DateOf(t).month));
    InferPrinted("day", Pad2(DateOf(t).day));
    InferPrinted("hour", Pad2(HourOf(t)));
  }

  /** The columns a bin's objects carry. */
  function BinColumns(tb: GlueTableTimebin, t: Time): seq<Column>
  {
    var y, m := Column("year", Itoa(DateOf(t).year)), Column("month", Pad2(DateOf(t).month));
    var d, h := Column("day", Pad2(DateOf(t).day)), Column("hour", Pad2(HourOf(t)));
    if tb == HOURLY then [y, m, d, h] else if tb == DAILY then [y, m, d] else [y, m]
  }

  /** Splitting a key under a bin's prefix gives the root, the table, the bin's segments, then the name. */
  lemma KeySegments(dt: DataType, logType: string, tb: GlueTableTimebin, t: Time, name: string)
    requires Validate(tb) && '/' !in logType
    ensures Split(GetPartitionPrefix(dt, logType, tb, t) + name, '/')
         == [S3Root(dt), GetTableName(logType)] + TimeSegments(tb, t) + Split(name, '/')
  {
    var table := [S3Root(dt), GetTableName(logType)];
    TimePrefixIsPath(tb, t);
    TablePrefixIsPath(dt, GetTableName(logType));
    PathTextAppend(table, TimeSegments(tb, t));
    SplitPath(table + TimeSegments(tb, t), name);
  }

  lemma SuffixStays(prefix: string, name: string)
    requires HasSuffix(name, SUFFIX)
    ensures HasSuffix(prefix + name, SUFFIX)
  {
    var key := prefix + name;
    assert key[|key| - |SUFFIX|..] == name[|name| - |SUFFIX|..];
  }

  lemma PartsInOrder(head: seq<string>, middle: seq<string>, tail: seq<string>)
    requires |head| == 2
    ensures
      var all := head + middle + tail;
      all[0] == head[0] && all[1] == head[1] && all[2..2 + |middle|] == middle
        && (tail != [] ==> all[2 + |middle|] == tail[0])
  {
  }

  /** Round trip: parsing an object key written under a bin's prefix gives back the database, the table,
      exactly the bin's columns and, for an hourly bin, the time truncated to the hour.  Daily and monthly
      names must not continue the path, since a further `day=` or `hour=` segment would be taken for a column. */
  lemma ParsePrintedKey(bucket: string, dt: DataType, logType: string, tb: GlueTableTimebin, t: Time, name: string)
    requires Validate(tb) && '/' !in logType
    requires INT_MIN <= DateOf(t).year <= INT_MAX
    requires HasSuffix(name, ".json.gz") && (tb == HOURLY || '/' !in name)
    ensures
      ParseKey(bucket, GetPartitionPrefix(dt, logType, tb, t) + name)
      == Success(GluePartition(dt, DatabaseName(dt), GetTableName(logType), bucket, "json", "gzip",
                               if tb == HOURLY then Truncate(t, HOUR) else 0, BinColumns(tb, t)))
  {
    var key := GetPartitionPrefix(dt, logType, tb, t) + name;
    SuffixStays(GetPartitionPrefix(dt, logType, tb, t), name);
    KeySegments(dt, logType, tb, t, name);
    if tb != HOURLY {
      SplitNoSep(name, '/');
      LastSegmentEndsInZ(key);
    }
    PartsInOrder([S3Root(dt), GetTableName(logType)], TimeSegments(tb, t), Split(name, '/'));
    ReadBackColumns(Split(key, '/'), tb, t);
    ReadBackHour(tb, t);
    ParseRead(bucket, key, dt, GetTableName(logType), BinColumns(tb, t));
  }

  lemma ParseRead(bucket: string, key: string, dt: DataType, table: string, columns: seq<Column>)
    requires HasSuffix(key, SUFFIX) && |Split(key, '/')| >= 4
    requires Split(key, '/')[0] == S3Root(dt) && Split(key, '/')[1] == table
    requires KeyColumns(Split(key, '/')) == Success(columns)
    ensures ParseKey(bucket, key)
         == Success(GluePartition(dt, DatabaseName(dt), table, bucket, "json", "gzip", HourOfColumns(columns), columns))
  {
  }

  lemma ReadBackColumns(segments: seq<string>, tb: GlueTableTimebin, t: Time)
    requires Validate(tb) && INT_MIN <= DateOf(t).year <= INT_MAX
    requires 2 + |TimeSegments(tb, t)| < |segments| && segments[2..2 + |TimeSegments(tb, t)|] == TimeSegments(tb, t)
    requires tb != HOURLY ==> !EndsInDigit(segments[2 + |TimeSegments(tb, t)|])
    ensures KeyColumns(segments) == Success(BinColumns(tb, t))
  {
    PrintedColumns(t);
    var times := TimeSegments(tb, t);
    ReadSegment(segments, times, 0, "year");
    ReadSegment(segments, times, 1, "month");
    if tb == MONTHLY {
      ColumnAtSpells(segments, 4, "day");
    } else {
      ReadSegment(segments, times, 2, "day");
      if tb == DAILY {
        ColumnAtSpells(segments, 5, "hour");
      } else {
        ReadSegment(segments, times, 3, "hour");
      }
    }
    InRowIsBin(ColumnAt(segments, 2, "year"), ColumnAt(segments, 3, "month"),
               ColumnAt(segments, 4, "day"), ColumnAt(segments, 5, "hour"), tb, t);
  }

  lemma InRowIsBin(
      year: Result<Column>, month: Result<Column>, day: Result<Column>, hour: Result<Column>,
      tb: GlueTableTimebin, t: Time)
    requires Validate(tb)
    requires year == Success(Column("year", Itoa(DateOf(t).year)))
    requires month == Success(Column("month", Pad2(DateOf(t).month)))
    requires if tb == MONTHLY then day.Failure? else day == Success(Column("day", Pad2(DateOf(t).day)))
    requires tb == DAILY ==> hour.Failure?
    requires tb == HOURLY ==> hour == Success(Column("hour", Pad2(HourOf(t))))
    ensures ReadInRow(year, month, day, hour) == Success(BinColumns(tb, t))
  {
  }

  lemma ReadSegment(segments: seq<string>, times: seq<string>, i: nat, name: string)
    requires i < |times| && 2 + |times| <= |segments| && segments[2..2 + |times|] == times
    requires InferColumn(times[i], name).Success?
    ensures ColumnAt(segments, 2 + i, name) == InferColumn(times[i], name)
  {
    assert segments[2 + i] == times[i];
  }

  lemma ReadBackHour(tb: GlueTableTimebin, t: Time)
    requires Validate(tb) && INT_MIN <= DateOf(t).year <= INT_MAX
    ensures HourOfColumns(BinColumns(tb, t)) == if tb == HOURLY then Truncate(t, HOUR) else 0
  {
    if tb == HOURLY {
      PrintedNumbers(t);
      HourOfNumbers(BinColumns(tb, t), DateOf(t).year, DateOf(t).month, DateOf(t).day, HourOf(t));
      DateHourOf(t);
    }
  }

  lemma HourOfNumbers(columns: seq<Column>, y: int, m: int, d: int, h: int)
    requires |columns| == 4
    requires Atoi(columns[0].value) == Some(y) && Atoi(columns[1].value) == Some(m)
    requires Atoi(columns[2].value) == Some(d) && Atoi(columns[3].value) == Some(h)
    ensures HourOfColumns(columns) == DateHour(y, m, d, h)
  {
  }

  lemma DateHourOf(t: Time)
    ensures DateHour(DateOf(t).year, DateOf(t).month, DateOf(t).day, HourOf(t)) == Truncate(t, HOUR)
  {
    HourStart(t);
    DayNumberOfCivil(DayOf(t));
  }
}
