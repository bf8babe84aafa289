/** Items grouped by table, as both DynamoDB wrappers in `pkg/awsbatch/dynamodbbatch` handle them. */
module DynamoTables {

  type PerTable<T> = map<string, seq<T>>

  function Get<T>(m: PerTable<T>, t: string): seq<T> { if t in m then m[t] else [] }

  ghost function TotalOver<T>(m: PerTable<T>, tables: set<string>): nat
  {
    if tables == {} then 0 else var t :| t in tables; |Get(m, t)| + TotalOver(m, tables - {t})
  }

  /** How many items there are in all. */
  ghost function Total<T>(m: PerTable<T>): nat { TotalOver(m, m.Keys) }

  /** The sum does not depend on the order of the tables. */
  lemma {:induction false} TotalPick<T>(m: PerTable<T>, tables: set<string>, t: string)
    requires t in tables
    ensures TotalOver(m, tables) == |Get(m, t)| + TotalOver(m, tables - {t})
    decreases |tables|
  {
    var p :| p in tables && TotalOver(m, tables) == |Get(m, p)| + TotalOver(m, tables - {p});
    if p != t {
      TotalPick(m, tables - {p}, t);
      TotalPick(m, tables - {t}, p);
      assert tables - {p} - {t} == tables - {t} - {p};
    }
  }

  lemma {:induction false} TotalExtra<T>(m: PerTable<T>, tables: set<string>)
    requires m.Keys <= tables
    ensures TotalOver(m, tables) == Total(m)
    decreases |tables|
  {
    if t :| t in tables && t !in m {
      TotalPick(m, tables, t);
      TotalExtra(m, tables - {t});
    } else {
      assert tables == m.Keys;
    }
  }

  lemma {:induction false} BalanceOver<T>(a: PerTable<T>, b: PerTable<T>, c: PerTable<T>, d: PerTable<T>,
      tables: set<string>)
    requires forall t | t in tables :: |Get(a, t)| + |Get(b, t)| == |Get(c, t)| + |Get(d, t)|
    ensures TotalOver(a, tables) + TotalOver(b, tables) == TotalOver(c, tables) + TotalOver(d, tables)
    decreases |tables|
  {
    if tables != {} {
      var t :| t in tables;
      TotalPick(a, tables, t);
      TotalPick(b, tables, t);
      TotalPick(c, tables, t);
      TotalPick(d, tables, t);
      BalanceOver(a, b, c, d, tables - {t});
    }
  }

  /** Totals balance when every table balances. */
  lemma Balance<T>(a: PerTable<T>, b: PerTable<T>, c: PerTable<T>, d: PerTable<T>)
    requires forall t :: |Get(a, t)| + |Get(b, t)| == |Get(c, t)| + |Get(d, t)|
    ensures Total(a) + Total(b) == Total(c) + Total(d)
  {
    var tables := a.Keys + b.Keys + c.Keys + d.Keys;
    BalanceOver(a, b, c, d, tables);
    TotalExtra(a, tables);
    TotalExtra(b, tables);
    TotalExtra(c, tables);
    TotalExtra(d, tables);
  }

  lemma TotalOne<T>(t: string, items: seq<T>)
    ensures Total(map[t := items]) == |items|
  {
    var m := map[t := items];
    assert m.Keys == {t} && m.Keys - {t} == {};
    TotalPick(m, {t}, t);
    assert TotalOver(m, {t} - {t}) == 0;
  }

  lemma TotalEmpty<T>(m: PerTable<T>)
    ensures Total(m) == 0 <==> forall t | t in m :: m[t] == []
  {
    if t :| t in m && m[t] != [] {
      TotalPick(m, m.Keys, t);
    } else {
      Balance(m, map[], map[], map[]);
    }
  }

  /** Adding one item adds one. */
  lemma TotalPush<T>(m: PerTable<T>, t: string, x: T)
    ensures Total(m[t := Get(m, t) + [x]]) == Total(m) + 1
  {
    Balance(m[t := Get(m, t) + [x]], map[t := Get(m, t)], m, map[t := Get(m, t) + [x]]);
    TotalOne(t, Get(m, t));
    TotalOne(t, Get(m, t) + [x]);
  }

  /** One table has these items by now; the other tables are as before. */
  ghost predicate Extends<T>(moved: PerTable<T>, moved': PerTable<T>, t: string, items: seq<T>)
  {
    Get(moved', t) == items && forall u | u != t :: SameTable(moved, moved', u)
  }

  ghost predicate SameTable<T>(moved: PerTable<T>, moved': PerTable<T>, u: string) { Get(moved', u) == Get(moved, u) }

  lemma ExtendsPush<T>(moved0: PerTable<T>, moved: PerTable<T>, t: string, items: seq<T>, x: T)
    requires Extends(moved0, moved, t, items)
    ensures Extends(moved0, moved[t := Get(moved, t) + [x]], t, items + [x])
  {
    var moved' := moved[t := Get(moved, t) + [x]];
    forall u | u != t
      ensures SameTable(moved0, moved', u)
    {
      assert SameTable(moved0, moved, u);
    }
  }
}
