/** The parts of Go's `strings`, `strconv` and `fmt` packages that the modelled code relies on:
    splitting on one character, joining, decimal printing (`%d`, `%02d`) and `Atoi`. */
module GoStrings {

  datatype Option<+T> = None | Some(value: T)

  /** `strings.Join`. */
  function Join(parts: seq<string>, sep: string): string
  {
    if |parts| == 0 then "" else if |parts| == 1 then parts[0] else parts[0] + sep + Join(parts[1..], sep)
  }

  /** `strings.Split` on a one-character separator. */
  function Split(s: string, sep: char): (parts: seq<string>)
    ensures |parts| >= 1
    ensures forall i | 0 <= i < |parts| :: sep !in parts[i]
  {
    if s == "" then [""]
    else
      var rest := Split(s[1..], sep);
      if s[0] == sep then [""] + rest else [[s[0]] + rest[0]] + rest[1..]
  }

  /** Joining undoes splitting. */
  lemma {:induction false} JoinSplit(s: string, sep: char)
    ensures Join(Split(s, sep), [sep]) == s
  {
    if s != "" {
      JoinSplit(s[1..], sep);
      var rest := Split(s[1..], sep);
      if s[0] == sep {
        assert ([""] + rest)[1..] == rest;
      } else if |rest| > 1 {
        var parts := [[s[0]] + rest[0]] + rest[1..];
        assert parts[1..] == rest[1..];
        assert s == [s[0]] + s[1..];
      }
    }
  }

  /** Text without the separator is a single part. */
  lemma {:induction false} SplitNoSep(a: string, sep: char)
    requires sep !in a
    ensures Split(a, sep) == [a]
  {
    if a != "" {
      SplitNoSep(a[1..], sep);
      assert a == [a[0]] + a[1..];
    }
  }

  /** A separator-free head splits off as the first part. */
  lemma {:induction false} SplitHead(a: string, rest: string, sep: char)
    requires sep !in a
    ensures Split(a + [sep] + rest, sep) == [a] + Split(rest, sep)
  {
    if a == "" {
      assert (a + [sep] + rest)[1..] == rest;
    } else {
      SplitHead(a[1..], rest, sep);
      assert (a + [sep] + rest)[1..] == a[1..] + [sep] + rest;
      assert a == [a[0]] + a[1..];
      var tail := [a[1..]] + Split(rest, sep);
      assert tail[1..] == Split(rest, sep);
    }
  }

  /** Splitting undoes joining. */
  lemma {:induction false} SplitJoin(parts: seq<string>, sep: char)
    requires parts != [] && forall i | 0 <= i < |parts| :: sep !in parts[i]
    ensures Split(Join(parts, [sep]), sep) == parts
  {
    if |parts| == 1 {
      SplitNoSep(parts[0], sep);
    } else {
      SplitJoin(parts[1..], sep);
      SplitHead(parts[0], Join(parts[1..], [sep]), sep);
      assert parts == [parts[0]] + parts[1..];
    }
  }

  /** A separator-free tail splits off as the last part. */
  lemma {:induction false} SplitTail(a: string, last: string, sep: char)
    requires sep !in last
    ensures Split(a + [sep] + last, sep) == Split(a, sep) + [last]
  {
    if a == "" {
      assert a + [sep] + last == [sep] + last && ([sep] + last)[1..] == last;
      SplitNoSep(last, sep);
    } else {
      SplitTail(a[1..], last, sep);
      assert (a + [sep] + last)[1..] == a[1..] + [sep] + last;
      var rest := Split(a[1..], sep);
      assert (rest + [last])[0] == rest[0] && (rest + [last])[1..] == rest[1..] + [last];
    }
  }

  /** Separator-terminated segments are prefix-free: a prefix relation forces the heads to agree. */
  lemma SegmentPrefix(a: string, ra: string, b: string, rb: string, sep: char)
    requires sep !in a && sep !in b
    requires a + [sep] + ra <= b + [sep] + rb
    ensures a == b && ra <= rb
  {
    var x, y := a + [sep] + ra, b + [sep] + rb;
    assert forall i | 0 <= i < |x| :: x[i] == y[i];
    assert y[|a|] == sep;
    assert y[|b|] == sep;
    assert |a| == |b|;
    forall i | 0 <= i < |a| ensures a[i] == b[i] { assert x[i] == y[i]; }
    forall i | 0 <= i < |ra| ensures ra[i] == rb[i] { assert x[|a| + 1 + i] == y[|a| + 1 + i]; }
  }

  /** A directory path: every segment followed by a slash. */
  function PathText(segments: seq<string>): string
  {
    if segments == [] then "" else segments[0] + "/" + PathText(segments[1..])
  }

  ghost predicate SlashFree(segments: seq<string>)
  {
    forall i | 0 <= i < |segments| :: '/' !in segments[i]
  }

  lemma {:induction false} PathTextAppend(a: seq<string>, b: seq<string>)
    ensures PathText(a + b) == PathText(a) + PathText(b)
  {
    if a == [] {
      assert a + b == b;
    } else {
      PathTextAppend(a[1..], b);
      assert (a + b)[1..] == a[1..] + b;
    }
  }

  /** A path begins another path exactly when it does so segment by segment. */
  lemma {:induction false} PathPrefix(a: seq<string>, b: seq<string>)
    requires SlashFree(a) && SlashFree(b) && PathText(a) <= PathText(b)
    ensures a <= b
  {
    if a != [] {
      assert b != [];
      SegmentPrefix(a[0], PathText(a[1..]), b[0], PathText(b[1..]), '/');
      PathPrefix(a[1..], b[1..]);
    }
  }

  lemma PathTextSmall(a: string, b: string, c: string, d: string)
    ensures PathText([a]) == a + "/"
    ensures PathText([a, b]) == a + "/" + b + "/"
    ensures PathText([a, b, c]) == a + "/" + b + "/" + c + "/"
    ensures PathText([a, b, c, d]) == a + "/" + b + "/" + c + "/" + d + "/"
  {
    PathTextSnoc([a], b);
    PathTextSnoc([a, b], c);
    PathTextSnoc([a, b, c], d);
    assert [a] + [b] == [a, b] && [a, b] + [c] == [a, b, c] && [a, b, c] + [d] == [a, b, c, d];
  }

  lemma PathTextSnoc(path: seq<string>, last: string)
    ensures PathText(path + [last]) == PathText(path) + last + "/"
  {
    PathTextAppend(path, [last]);
    ConcatAssoc(PathText(path), last, "/");
  }

  lemma ConcatAssoc(a: string, b: string, c: string)
    ensures a + b + c == a + (b + c)
  {
  }

  lemma {:induction false} SplitPath(a: seq<string>, name: string)
    requires SlashFree(a)
    ensures Split(PathText(a) + name, '/') == a + Split(name, '/')
  {
    if a == [] {
      assert PathText(a) + name == name;
    } else {
      var rest := PathText(a[1..]) + name;
      SplitPath(a[1..], name);
      ConcatAssoc(a[0] + "/", PathText(a[1..]), name);
      SplitHead(a[0], rest, '/');
      ConsAppend(a, Split(name, '/'));
    }
  }

  lemma ConsAppend(a: seq<string>, b: seq<string>)
    requires a != []
    ensures [a[0]] + (a[1..] + b) == a + b
  {
  }

  lemma {:induction false} JoinAsPath(segments: seq<string>, k: nat)
    requires k < |segments|
    ensures Join(segments, "/") == PathText(segments[..k]) + Join(segments[k..], "/")
  {
    if k == 0 {
      assert segments[0..] == segments;
    } else {
      var rest := Join(segments[k..], "/");
      JoinAsPath(segments[1..], k - 1);
      assert segments[..k][1..] == segments[1..][..k - 1];
      assert segments[1..][k - 1..] == segments[k..];
      assert PathText(segments[..k]) == segments[0] + "/" + PathText(segments[1..][..k - 1]);
      ConcatAssoc(segments[0] + "/", PathText(segments[1..][..k - 1]), rest);
    }
  }

  predicate IsDigit(c: char) { '0' <= c <= '9' }

  function DigitChar(d: nat): (c: char)
    requires d < 10
    ensures IsDigit(c)
  {
    (48 + d) as char
  }

  predicate AllDigits(s: string) { forall i | 0 <= i < |s| :: IsDigit(s[i]) }

  /** Decimal digits of a natural number, without leading zeros. */
  function Digits(n: nat): (s: string)
    ensures |s| >= 1 && AllDigits(s)
  {
    if n < 10 then [DigitChar(n)] else Digits(n / 10) + [DigitChar(n % 10)]
  }

  /** `%d` and `strconv.Itoa`. */
  function Itoa(n: int): string
  {
    if n < 0 then "-" + Digits(-n) else Digits(n)
  }

  /** `%02d` on a non-negative number. */
  function Pad2(n: nat): (s: string)
    ensures AllDigits(s)
  {
    if n < 10 then "0" + Digits(n) else Digits(n)
  }

  function DigitsValue(s: string): nat
    requires AllDigits(s)
  {
    if s == "" then 0 else 10 * DigitsValue(s[..|s| - 1]) + (s[|s| - 1] as int - 48)
  }

  const INT_MIN := -0x8000_0000_0000_0000
  const INT_MAX := 0x7fff_ffff_ffff_ffff

  /** `strconv.Atoi` on a 64-bit platform: optional sign, at least one digit, and the value must fit. */
  function Atoi(s: string): Option<int>
  {
    var signed := s != "" && (s[0] == '+' || s[0] == '-');
    var body := if signed then s[1..] else s;
    if body == "" || !AllDigits(body) then None
    else
      var v: int := if signed && s[0] == '-' then -(DigitsValue(body) as int) else DigitsValue(body);
      if INT_MIN <= v <= INT_MAX then Some(v) else None
  }

  lemma {:induction false} DigitsValueOfDigits(n: nat)
    ensures DigitsValue(Digits(n)) == n
  {
    if n >= 10 {
      DigitsValueOfDigits(n / 10);
      var s := Digits(n);
      assert s[..|s| - 1] == Digits(n / 10);
    } else {
      assert Digits(n)[..0] == "";
    }
  }

  function Fitting(v: int): Option<int>
  {
    if -0x8000_0000_0000_0000 <= v < 0x8000_0000_0000_0000 then Some(v) else None
  }

  /** Numbers must fit 64 bits, and a sign may come first. */
  lemma AtoiDigits(d: string)
    requires d != "" && AllDigits(d)
    ensures Atoi(d) == Fitting(DigitsValue(d)) && Atoi("+" + d) == Fitting(DigitsValue(d))
    ensures Atoi("-" + d) == Fitting(-(DigitsValue(d) as int))
  {
    var plus, minus := "+" + d, "-" + d;
    assert plus[1..] == d && minus[1..] == d;
  }

  /** Reading back a printed number gives the number, if it fits. */
  lemma AtoiItoa(n: int)
    ensures Atoi(Itoa(n)) == Fitting(n)
  {
    DigitsValueOfDigits(if n < 0 then -n else n);
    AtoiDigits(Digits(if n < 0 then -n else n));
  }

  /** Zeros before the digits do not count. */
  lemma {:induction false} ZeroFirst(s: string)
    requires AllDigits(s)
    ensures AllDigits("0" + s) && DigitsValue("0" + s) == DigitsValue(s)
  {
    var z := "0" + s;
    if s != "" {
      ZeroFirst(s[..|s| - 1]);
      assert z[..|z| - 1] == "0" + s[..|s| - 1];
    } else {
      assert z[..0] == "";
    }
  }

  lemma AtoiPad2(n: nat)
    ensures Atoi(Pad2(n)) == Fitting(n)
  {
    DigitsValueOfDigits(n);
    ZeroFirst(Digits(n));
    AtoiDigits(Pad2(n));
  }

  lemma ItoaInjective(m: int, n: int)
    requires Itoa(m) == Itoa(n)
    ensures m == n
  {
    DigitsValueOfDigits(if m < 0 then -m else m);
    DigitsValueOfDigits(if n < 0 then -n else n);
    if m < 0 { assert Itoa(m)[0] == '-' && Itoa(m)[1..] == Digits(-m); }
    if n < 0 { assert Itoa(n)[0] == '-' && Itoa(n)[1..] == Digits(-n); }
  }

  /** Two digits, the tens first. */
  lemma Pad2Digits(n: nat)
    requires n < 100
    ensures |Pad2(n)| == 2 && IsDigit(Pad2(n)[0]) && IsDigit(Pad2(n)[1])
    ensures n == 10 * (Pad2(n)[0] as int - '0' as int) + (Pad2(n)[1] as int - '0' as int)
  {
    if n >= 10 {
      assert Digits(n) == Digits(n / 10) + Digits(n % 10);
    }
  }

  lemma Pad2Injective(m: nat, n: nat)
    requires m < 100 && n < 100 && Pad2(m) == Pad2(n)
    ensures m == n
  {
    Pad2Digits(m);
    Pad2Digits(n);
  }

  /** Printed numbers never contain a separator that is neither a digit nor a minus sign. */
  lemma PrintedHasNo(n: int, k: nat, c: char)
    requires !IsDigit(c) && c != '-'
    ensures c !in Itoa(n) && c !in Pad2(k)
  {
  }
}
