/**
 * The SQL texts the searcher builds with f-strings: the row-count, sampling,
 * value-search and distinct-value (MST) statements, for the two dialects
 * (`conn_type == 'SQL'` and anything else).
 */
module Statements {
  import opened PyValues

  const TopPrefix: string := "SELECT TOP 1 * FROM "
  const PlainPrefix: string := "SELECT * FROM "
  const LimitSuffix: string := " LIMIT 1"

  function Dotted2(a: string, b: string): string {
    a + "." + b
  }

  function Dotted3(a: string, b: string, c: string): string {
    a + "." + b + "." + c
  }

  function Bracketed2(a: string, b: string): string {
    "[" + a + "].[" + b + "]"
  }

  function Bracketed3(a: string, b: string, c: string): string {
    "[" + a + "].[" + b + "].[" + c + "]"
  }

  const CountPrefix: string := "SELECT COUNT(*) FROM "

  /** `"<db>"."<table>"`, the double-quoted qualified name. */
  function Quoted(db: string, table: string): string {
    "\"" + db + "\".\"" + table + "\""
  }

  /** A name with no double quote in it. */
  predicate NoQuote(s: string) {
    forall i :: 0 <= i < |s| ==> s[i] != '"'
  }

  /** `SELECT COUNT(*) FROM "<db>"."<table>"` (Table mode and the row-count prefetch). */
  function CountStatement(db: string, table: string): (s: string)
    ensures |s| == |CountPrefix| + |db| + |table| + 5
    ensures s[..|CountPrefix|] == CountPrefix && s[|CountPrefix|..] == Quoted(db, table)
  {
    CountPrefix + Quoted(db, table)
  }

  /** The first double quote after a quote-free name is the one that ends it. */
  lemma FirstQuote(a: string, r: string)
    requires NoQuote(a)
    ensures (a + "\"" + r)[|a|] == '"'
    ensures forall i :: 0 <= i < |a| ==> (a + "\"" + r)[i] != '"'
  {
    assert forall i :: 0 <= i < |a| ==> (a + "\"" + r)[i] == a[i];
  }

  /** The text up to the first double quote determines the quote-free name before it. */
  lemma UpToQuote(a: string, r1: string, b: string, r2: string)
    requires NoQuote(a) && NoQuote(b)
    requires a + "\"" + r1 == b + "\"" + r2
    ensures a == b && r1 == r2
  {
    var s := a + "\"" + r1;
    FirstQuote(a, r1);
    FirstQuote(b, r2);
    assert |a| == |b|;
    assert a == s[..|a|] == b;
    assert r1 == s[|a| + 1..] == r2;
  }

  /** For quote-free names, the quoted qualified name determines the database and the table. */
  lemma QuotedInjective(db1: string, table1: string, db2: string, table2: string)
    requires NoQuote(db1) && NoQuote(table1) && NoQuote(db2) && NoQuote(table2)
    requires Quoted(db1, table1) == Quoted(db2, table2)
    ensures db1 == db2 && table1 == table2
  {
    assert Quoted(db1, table1)[1..] == db1 + "\"" + ("." + "\"" + table1 + "\"");
    assert Quoted(db2, table2)[1..] == db2 + "\"" + ("." + "\"" + table2 + "\"");
    UpToQuote(db1, "." + "\"" + table1 + "\"", db2, "." + "\"" + table2 + "\"");
    assert ("." + "\"" + table1 + "\"")[2..] == table1 + "\"";
    assert ("." + "\"" + table2 + "\"")[2..] == table2 + "\"";
    UpToQuote(table1, "", table2, "");
  }

  /**
   * Different tables of a database get different row-count statements, so each count
   * fetched belongs to the table it is recorded for.
   */
  lemma CountStatementInjective(db1: string, table1: string, db2: string, table2: string)
    requires NoQuote(db1) && NoQuote(table1) && NoQuote(db2) && NoQuote(table2)
    requires CountStatement(db1, table1) == CountStatement(db2, table2)
    ensures db1 == db2 && table1 == table2
  {
    QuotedInjective(db1, table1, db2, table2);
  }

  /**
   * The one-row sampling statement. The dialect test compares the search type,
   * not the connection type, with 'SQL'.
   */
  function SampleStatement(searchType: PyVal, db: string, table: string): (s: string)
    ensures |s| >= 20
    ensures s[..13] == "SELECT TOP 1 " <==> searchType == PStr("SQL")
    ensures searchType != PStr("SQL") ==> s[..14] == PlainPrefix && s[|s| - 8..] == LimitSuffix
    // the sampled table, double-quoted with its database, in both dialects
    ensures s == if searchType == PStr("SQL") then TopPrefix + Quoted(db, table)
                 else PlainPrefix + Quoted(db, table) + LimitSuffix
  {
    var quoted := Quoted(db, table);
    if searchType == PStr("SQL") then TopPrefix + quoted
    else
      var s := PlainPrefix + quoted + LimitSuffix;
      assert s[7] == '*';
      s
  }

  /** ` WHERE UPPER(<target>) LIKE UPPER('<value>')`, the search predicate. */
  function SearchPredicate(target: string, value: string): string {
    " WHERE UPPER(" + target + ") LIKE UPPER('" + value + "')"
  }

  /** `AND <target> LIKE '<likeValue>'`, the extra clause when `__internal_reference` is non-empty. */
  function AndClause(target: string, likeValue: string): string {
    "AND " + target + " LIKE '" + likeValue + "'"
  }

  /**
   * The value-search statement for column `column`; `withAnd` is whether
   * `__internal_reference` is non-empty. No blank separates the search predicate
   * from the `AND` clause.
   */
  function SearchStatement(connType: PyVal, withAnd: bool, db: string, table: string, column: string,
                           value: string, andColumn: string, likeValue: string): (s: string)
    ensures |s| >= 20
    ensures s[..13] == "SELECT TOP 1 " <==> connType == PStr("SQL")
    ensures connType == PStr("SQL") ==> s[..20] == TopPrefix
    ensures connType != PStr("SQL") ==> s[..14] == PlainPrefix && s[|s| - 8..] == LimitSuffix
    // the SQL dialect brackets the WHERE and AND identifiers but names the table dotted
    ensures connType == PStr("SQL") ==>
              s == TopPrefix + Body(withAnd, Dotted2(db, table), Bracketed3(db, table, column),
                                    Bracketed3(db, table, andColumn), value, likeValue)
    ensures connType != PStr("SQL") ==>
              s == PlainPrefix + PlainBody(withAnd, db, table, column, value, andColumn, likeValue) + LimitSuffix
  {
    if connType == PStr("SQL") then
      var body := Body(withAnd, Dotted2(db, table), Bracketed3(db, table, column), Bracketed3(db, table, andColumn),
                       value, likeValue);
      Prefixed(TopPrefix, body);
      TopPrefix + body
    else
      var body := PlainBody(withAnd, db, table, column, value, andColumn, likeValue);
      Prefixed(PlainPrefix, body + LimitSuffix);
      assert PlainPrefix + body + LimitSuffix == PlainPrefix + (body + LimitSuffix);
      EndsWith(PlainPrefix + body, LimitSuffix);
      var s := PlainPrefix + body + LimitSuffix;
      assert s[7] == '*';
      s
  }

  /**
   * What a search statement carries after its `SELECT ... FROM `: the table `q2`, the
   * predicate on the column `qc`, and the `AND` clause on the column `qa` when `withAnd`.
   */
  function Body(withAnd: bool, q2: string, qc: string, qa: string, value: string, likeValue: string): string {
    q2 + SearchPredicate(qc, value) + (if withAnd then AndClause(qa, likeValue) else "")
  }

  lemma Prefixed(p: string, rest: string)
    ensures (p + rest)[..|p|] == p
  {
  }

  /** `SELECT <q3>, COUNT(<q3>) FROM <q2> GROUP BY <q3>` for a quoted column `q3` of table `q2`. */
  function MstText(q3: string, q2: string): string {
    "SELECT " + q3 + ", COUNT(" + q3 + ") FROM " + q2 + " GROUP BY " + q3
  }

  /** The distinct-value statement: each value of the column with its count, no row limit. */
  function MstStatement(connType: PyVal, db: string, table: string, column: string): (s: string)
    ensures |s| >= 7 && s[..7] == "SELECT "
    ensures connType == PStr("SQL") ==> s == MstText(Bracketed3(db, table, column), Bracketed2(db, table))
    ensures connType != PStr("SQL") ==> s == MstText(Dotted3(db, table, column), Dotted2(db, table))
  {
    if connType == PStr("SQL") then MstText(Bracketed3(db, table, column), Bracketed2(db, table))
    else MstText(Dotted3(db, table, column), Dotted2(db, table))
  }

  // ---- Relating the two dialects: they differ only in the bracket quoting ----

  predicate NoBrackets(s: string) {
    forall i :: 0 <= i < |s| ==> s[i] != '[' && s[i] != ']'
  }

  /** The text with every '[' and ']' removed. */
  function StripBrackets(s: string): (r: string)
    decreases |s|
  {
    if s == [] then []
    else (if s[0] == '[' || s[0] == ']' then [] else [s[0]]) + StripBrackets(s[1..])
  }

  lemma {:induction false} StripConcat(a: string, b: string)
    ensures StripBrackets(a + b) == StripBrackets(a) + StripBrackets(b)
    decreases |a|
  {
    if a == [] {
      assert a + b == b;
    } else {
      assert (a + b)[0] == a[0];
      assert (a + b)[1..] == a[1..] + b;
      StripConcat(a[1..], b);
    }
  }

  lemma {:induction false} StripPlain(s: string)
    requires NoBrackets(s)
    ensures StripBrackets(s) == s
    decreases |s|
  {
    if s != [] {
      StripPlain(s[1..]);
    }
  }

  /** Stripping `p + b + q` around a bracket-free frame strips only `b`. */
  lemma StripFramed(p: string, b: string, q: string)
    requires NoBrackets(p) && NoBrackets(q)
    ensures StripBrackets(p + b + q) == p + StripBrackets(b) + q
  {
    StripPlain(p); StripPlain(q);
    StripConcat(p, b);
    StripConcat(p + b, q);
  }

  /** A leading '[' disappears. */
  lemma StripOpen(x: string)
    ensures StripBrackets("[" + x) == StripBrackets(x)
  {
    assert ("[" + x)[0] == '[';
    assert ("[" + x)[1..] == x;
  }

  /** A trailing ']' disappears. */
  lemma StripClose(x: string)
    ensures StripBrackets(x + "]") == StripBrackets(x)
  {
    StripConcat(x, "]");
    assert StripBrackets("]") == [] by {
      assert "]"[1..] == [];
    }
    assert StripBrackets(x) + [] == StripBrackets(x);
  }

  /** A `].[` separator becomes `.`. */
  lemma StripMid(x: string, y: string)
    ensures StripBrackets(x + "].[" + y) == StripBrackets(x) + "." + StripBrackets(y)
  {
    StripSeparator();
    StripConcat(x, "].[");
    StripConcat(x + "].[", y);
  }

  lemma StripSeparator()
    ensures StripBrackets("].[") == "."
  {
    StripConcat("]", ".[");
    StripConcat(".", "[");
    assert "].[" == "]" + ".[";
    assert ".[" == "." + "[";
  }

  /** `[a].[b].[c]` without brackets is `a.b.c`. */
  lemma StripBracketed3(a: string, b: string, c: string)
    requires NoBrackets(a) && NoBrackets(b) && NoBrackets(c)
    ensures StripBrackets(Bracketed3(a, b, c)) == Dotted3(a, b, c)
  {
    StripPlain(a); StripPlain(b); StripPlain(c);
    StripOpen(a);
    StripMid("[" + a, b);
    StripMid("[" + a + "].[" + b, c);
    StripClose("[" + a + "].[" + b + "].[" + c);
  }

  /** `[a].[b]` without brackets is `a.b`. */
  lemma StripBracketed2(a: string, b: string)
    requires NoBrackets(a) && NoBrackets(b)
    ensures StripBrackets(Bracketed2(a, b)) == Dotted2(a, b)
  {
    StripPlain(a); StripPlain(b);
    StripOpen(a);
    StripMid("[" + a, b);
    StripClose("[" + a + "].[" + b);
  }

  lemma StripMstText(p1: string, p2: string, p3: string, p4: string, b3: string, d3: string, b2: string, d2: string)
    requires NoBrackets(p1) && NoBrackets(p2) && NoBrackets(p3) && NoBrackets(p4)
    requires StripBrackets(b3) == d3 && StripBrackets(b2) == d2
    ensures StripBrackets(p1 + b3 + p2 + b3 + p3 + b2 + p4 + b3) == p1 + d3 + p2 + d3 + p3 + d2 + p4 + d3
  {
    StripPlain(p1); StripPlain(p2); StripPlain(p3); StripPlain(p4);
    var s1 := p1 + b3; StripConcat(p1, b3);
    var s2 := s1 + p2; StripConcat(s1, p2);
    var s3 := s2 + b3; StripConcat(s2, b3);
    var s4 := s3 + p3; StripConcat(s3, p3);
    var s5 := s4 + b2; StripConcat(s4, b2);
    var s6 := s5 + p4; StripConcat(s5, p4);
    StripConcat(s6, b3);
  }

  /** With bracket-free names, the SQL-dialect MST statement minus its brackets is the other dialect's. */
  lemma MstDialectsAgree(db: string, table: string, column: string)
    requires NoBrackets(db) && NoBrackets(table) && NoBrackets(column)
    ensures StripBrackets(MstStatement(PStr("SQL"), db, table, column)) == MstStatement(PStr("OTH"), db, table, column)
  {
    StripBracketed3(db, table, column);
    StripBracketed2(db, table);
    StripMstText("SELECT ", ", COUNT(", ") FROM ", " GROUP BY ",
                 Bracketed3(db, table, column), Dotted3(db, table, column),
                 Bracketed2(db, table), Dotted2(db, table));
  }

  /** The search-predicate shape, generically in its literal parts. */
  lemma StripPredicate(p1: string, p2: string, p3: string, b: string, d: string, v: string)
    requires NoBrackets(p1) && NoBrackets(p2) && NoBrackets(p3) && NoBrackets(v)
    requires StripBrackets(b) == d
    ensures StripBrackets(p1 + b + p2 + v + p3) == p1 + d + p2 + v + p3
  {
    StripPlain(p1); StripPlain(p2); StripPlain(p3); StripPlain(v);
    var s1 := p1 + b; StripConcat(p1, b);
    var s2 := s1 + p2; StripConcat(s1, p2);
    var s3 := s2 + v; StripConcat(s2, v);
    StripConcat(s3, p3);
  }

  lemma StripSearchPredicate(b: string, d: string, v: string)
    requires NoBrackets(v) && StripBrackets(b) == d
    ensures StripBrackets(SearchPredicate(b, v)) == SearchPredicate(d, v)
  {
    StripPredicate(" WHERE UPPER(", ") LIKE UPPER('", "')", b, d, v);
  }

  lemma StripAndClause(b: string, d: string, v: string)
    requires NoBrackets(v) && StripBrackets(b) == d
    ensures StripBrackets(AndClause(b, v)) == AndClause(d, v)
  {
    StripPredicate("AND ", " LIKE '", "'", b, d, v);
  }

  /** What both dialects' search statements carry after the prefix, with dotted names. */
  function PlainBody(withAnd: bool, db: string, table: string, column: string,
                     value: string, andColumn: string, likeValue: string): string {
    Body(withAnd, Dotted2(db, table), Dotted3(db, table, column), Dotted3(db, table, andColumn), value, likeValue)
  }

  lemma NoBracketsConcat(a: string, b: string)
    requires NoBrackets(a) && NoBrackets(b)
    ensures NoBrackets(a + b)
  {
    forall i | 0 <= i < |a + b|
      ensures (a + b)[i] != '[' && (a + b)[i] != ']'
    {
      if i < |a| {
        assert (a + b)[i] == a[i];
      } else {
        assert (a + b)[i] == b[i - |a|];
      }
    }
  }

  lemma DottedPlain(a: string, b: string)
    requires NoBrackets(a) && NoBrackets(b)
    ensures NoBrackets(Dotted2(a, b))
  {
    assert NoBrackets(".");
    NoBracketsConcat(a, ".");
    NoBracketsConcat(a + ".", b);
  }

  /** Stripping a body with a bracket-free table strips the predicate's and the clause's columns. */
  lemma StripBody(withAnd: bool, d: string, bc: string, dc: string, ba: string, da: string, value: string, likeValue: string)
    requires NoBrackets(d) && NoBrackets(value) && NoBrackets(likeValue)
    requires StripBrackets(bc) == dc && StripBrackets(ba) == da
    ensures StripBrackets(Body(withAnd, d, bc, ba, value, likeValue)) == Body(withAnd, d, dc, da, value, likeValue)
  {
    StripPlain(d);
    var bp := SearchPredicate(bc, value);
    StripSearchPredicate(bc, dc, value);
    StripConcat(d, bp);
    var be := if withAnd then AndClause(ba, likeValue) else "";
    var de := if withAnd then AndClause(da, likeValue) else "";
    if withAnd {
      StripAndClause(ba, da, likeValue);
    } else {
      assert StripBrackets(be) == de;
    }
    StripConcat(d + bp, be);
  }

  /** The SQL-dialect search statement without its brackets. */
  lemma StripSqlSearch(withAnd: bool, db: string, table: string, column: string,
                       value: string, andColumn: string, likeValue: string)
    requires NoBrackets(db) && NoBrackets(table) && NoBrackets(column)
    requires NoBrackets(value) && NoBrackets(andColumn) && NoBrackets(likeValue)
    ensures StripBrackets(SearchStatement(PStr("SQL"), withAnd, db, table, column, value, andColumn, likeValue))
         == TopPrefix + PlainBody(withAnd, db, table, column, value, andColumn, likeValue)
  {
    DottedPlain(db, table);
    StripBracketed3(db, table, column);
    StripBracketed3(db, table, andColumn);
    var body := Body(withAnd, Dotted2(db, table), Bracketed3(db, table, column), Bracketed3(db, table, andColumn),
                     value, likeValue);
    StripBody(withAnd, Dotted2(db, table), Bracketed3(db, table, column), Dotted3(db, table, column),
              Bracketed3(db, table, andColumn), Dotted3(db, table, andColumn), value, likeValue);
    assert NoBrackets(TopPrefix);
    StripPlain(TopPrefix);
    StripConcat(TopPrefix, body);
  }

  /** What the plain-dialect search statement carries between its prefix and its ` LIMIT 1`. */
  lemma PlainSearchBody(withAnd: bool, db: string, table: string, column: string,
                        value: string, andColumn: string, likeValue: string)
    ensures var oth := SearchStatement(PStr("OTH"), withAnd, db, table, column, value, andColumn, likeValue);
            oth[14..|oth| - 8] == PlainBody(withAnd, db, table, column, value, andColumn, likeValue)
  {
    var body := PlainBody(withAnd, db, table, column, value, andColumn, likeValue);
    Framed(PlainPrefix, body, LimitSuffix);
  }

  lemma Framed(p: string, body: string, q: string)
    ensures (p + body + q)[|p|..|p + body + q| - |q|] == body
  {
  }

  /**
   * With bracket-free names and values, the SQL-dialect search statement minus its
   * brackets is the other dialect's statement with `TOP 1` in place of `LIMIT 1`:
   * both carry the same predicate.
   */
  lemma SearchDialectsAgree(withAnd: bool, db: string, table: string, column: string,
                            value: string, andColumn: string, likeValue: string)
    requires NoBrackets(db) && NoBrackets(table) && NoBrackets(column)
    requires NoBrackets(value) && NoBrackets(andColumn) && NoBrackets(likeValue)
    ensures var sql := SearchStatement(PStr("SQL"), withAnd, db, table, column, value, andColumn, likeValue);
            var oth := SearchStatement(PStr("OTH"), withAnd, db, table, column, value, andColumn, likeValue);
            StripBrackets(sql) == TopPrefix + oth[14..|oth| - 8]
  {
    StripSqlSearch(withAnd, db, table, column, value, andColumn, likeValue);
    PlainSearchBody(withAnd, db, table, column, value, andColumn, likeValue);
  }

  lemma StripHeadGeneric(p: string, dot: string, db: string, table: string, x: string, y: string)
    requires NoBrackets(p) && NoBrackets(dot) && NoBrackets(db) && NoBrackets(table)
    ensures StripBrackets(p + (db + dot + table) + x + y) == p + (db + dot + table) + StripBrackets(x) + StripBrackets(y)
  {
    var h := p + (db + dot + table);
    assert NoBrackets(h);
    StripPlain(h);
    StripConcat(h, x);
    StripConcat(h + x, y);
  }

  lemma EndsWith(a: string, b: string)
    ensures (a + b)[|a + b| - |b|..] == b
  {
  }

  lemma PredicateCloses(target: string, value: string)
    ensures var p := SearchPredicate(target, value); |p| >= 2 && p[|p| - 2..] == "')"
  {
    EndsWith(" WHERE UPPER(" + target + ") LIKE UPPER('" + value, "')");
  }

  /**
   * The statement with the `AND` clause is the one without it with the clause
   * inserted right after the closing `')` of the search predicate (in front of
   * the ` LIMIT 1` of the plain dialect), with no blank before `AND`.
   */
  lemma AndClauseExtends(connType: PyVal, db: string, table: string, column: string,
                         value: string, andColumn: string, likeValue: string)
    ensures var plain := SearchStatement(connType, false, db, table, column, value, andColumn, likeValue);
            var full := SearchStatement(connType, true, db, table, column, value, andColumn, likeValue);
            && (connType == PStr("SQL") ==>
                  && plain[|plain| - 2..] == "')"
                  && full == plain + AndClause(Bracketed3(db, table, andColumn), likeValue))
            && (connType != PStr("SQL") ==>
                  && plain[|plain| - 10..|plain| - 8] == "')"
                  && full == plain[..|plain| - 8] + AndClause(Dotted3(db, table, andColumn), likeValue) + LimitSuffix)
  {
    if connType == PStr("SQL") {
      PredicateCloses(Bracketed3(db, table, column), value);
      InsertAtEnd(TopPrefix, Dotted2(db, table), SearchPredicate(Bracketed3(db, table, column), value),
                  AndClause(Bracketed3(db, table, andColumn), likeValue));
    } else {
      PredicateCloses(Dotted3(db, table, column), value);
      InsertBeforeSuffix(PlainPrefix, Dotted2(db, table), SearchPredicate(Dotted3(db, table, column), value),
                         AndClause(Dotted3(db, table, andColumn), likeValue), LimitSuffix);
    }
  }

  /** A clause added after a predicate that closes with `')` goes at the very end. */
  lemma InsertAtEnd(p: string, d: string, pred: string, a: string)
    requires |pred| >= 2 && pred[|pred| - 2..] == "')"
    ensures var plain := p + (d + pred + "");
            && plain[|plain| - 2..] == "')"
            && p + (d + pred + a) == plain + a
  {
    var plain := p + (d + pred + "");
    assert plain == (p + d) + pred;
    EndsWith(p + d, pred);
  }

  /** A clause added after a predicate that closes with `')` goes in front of the suffix q. */
  lemma InsertBeforeSuffix(p: string, d: string, pred: string, a: string, q: string)
    requires |pred| >= 2 && pred[|pred| - 2..] == "')"
    ensures var plain := p + (d + pred + "") + q;
            && plain[|plain| - |q| - 2..|plain| - |q|] == "')"
            && p + (d + pred + a) + q == plain[..|plain| - |q|] + a + q
  {
    var plain := p + (d + pred + "") + q;
    var head := (p + d) + pred;
    assert plain == head + q;
    assert plain[..|plain| - |q|] == head;
    EndsWith(p + d, pred);
  }
}
