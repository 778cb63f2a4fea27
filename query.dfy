/**
 * db_get_sql and db_get_sql_like: SELECT statements assembled as text. Each
 * condition value is escaped (db_addslashes) and then encoded (db_encode)
 * before it is inlined between apostrophes; keys, field names, the table name
 * and the sort string are inlined as given.
 */
module QueryBuilder {
  import opened Php
  import opened Escaping
  import opened Encoding

  /** implode($sep, $parts). */
  function Join(parts: seq<string>, sep: string): string {
    if parts == [] then ""
    else if |parts| == 1 then parts[0]
    else parts[0] + sep + Join(parts[1..], sep)
  }

  /** db_encode applied to a string, read back as the string PHP interpolates. */
  function EncodeText(s: string, dbenc: Cell, convert: Converter): string {
    match Encode(Leaf(Some(s)), dbenc, convert)
    case Leaf(c) => AsString(c)
    case Arr(_) => ""
  }

  /**
   * The literal text a condition value becomes: db_addslashes runs first and
   * db_encode converts its output, so the escapes are inserted in UTF-8 and
   * then converted along with the text.
   */
  function Literal(value: string, quoting: Cell, dbenc: Cell, convert: Converter): string {
    EncodeText(AddSlashes(value, quoting), dbenc, convert)
  }

  /** One WHERE term: `key = 'value'`, or `key LIKE '%value%'` for db_get_sql_like. */
  function Term(key: string, value: string, like: bool, quoting: Cell, dbenc: Cell, convert: Converter): string {
    var lit := Literal(value, quoting, dbenc, convert);
    if like then key + " LIKE '%" + lit + "%'" else key + " = '" + lit + "'"
  }

  /** The `$where` list the foreach loop builds: one term per condition, in order. */
  function Terms(conditions: seq<(string, string)>, like: bool, quoting: Cell, dbenc: Cell, convert: Converter): (ts: seq<string>)
    ensures |ts| == |conditions|
    ensures forall i :: 0 <= i < |conditions| ==>
      ts[i] == Term(conditions[i].0, conditions[i].1, like, quoting, dbenc, convert)
  {
    if conditions == [] then []
    else ([Term(conditions[0].0, conditions[0].1, like, quoting, dbenc, convert)]
          + Terms(conditions[1..], like, quoting, dbenc, convert))
  }

  /** The four variable parts of the statement after the ternaries of the source. */
  datatype Clauses = Clauses(distinct: string, projection: string, where: string, order: string)

  function SelectClauses(conditions: seq<(string, string)>, fields: seq<string>, distinct: bool, sort: string,
                         like: bool, quoting: Cell, dbenc: Cell, convert: Converter): Clauses
  {
    var ts := Terms(conditions, like, quoting, dbenc, convert);
    Clauses(
      if distinct then "DISTINCT" else "",
      if fields != [] then Join(fields, ",") else "*",
      if ts != [] then "WHERE " + Join(ts, " AND ") else "",
      if TruthyString(sort) then "ORDER BY " + sort else "")
  }

  /** The template string of the source, line breaks and indentation included. */
  function Layout(table: string, c: Clauses): string {
    "SELECT " + c.distinct + " " + c.projection
      + "\n                  FROM " + table
      + "\n                 " + c.where
      + "\n                  " + c.order
  }

  function GetSql(table: string, conditions: seq<(string, string)>, fields: seq<string>, distinct: bool, sort: string,
                  quoting: Cell, dbenc: Cell, convert: Converter): string
  {
    Layout(table, SelectClauses(conditions, fields, distinct, sort, false, quoting, dbenc, convert))
  }

  function GetSqlLike(table: string, conditions: seq<(string, string)>, fields: seq<string>, distinct: bool, sort: string,
                      quoting: Cell, dbenc: Cell, convert: Converter): string
  {
    Layout(table, SelectClauses(conditions, fields, distinct, sort, true, quoting, dbenc, convert))
  }

  /**
   * What each clause holds: `*` for an empty field list and the fields joined by
   * commas otherwise; a WHERE clause exactly when there are conditions, with
   * one term per condition joined by " AND "; ORDER BY exactly for a truthy
   * sort string; DISTINCT exactly when asked for.
   */
  lemma {:induction false} ClausesMeaning(conditions: seq<(string, string)>, fields: seq<string>, distinct: bool, sort: string,
                                          like: bool, quoting: Cell, dbenc: Cell, convert: Converter)
    ensures var c := SelectClauses(conditions, fields, distinct, sort, like, quoting, dbenc, convert);
      && (fields == [] ==> c.projection == "*")
      && (fields != [] ==> c.projection == Join(fields, ","))
      && (c.where == "" <==> conditions == [])
      && (conditions != [] ==> c.where == "WHERE " + Join(Terms(conditions, like, quoting, dbenc, convert), " AND "))
      && (c.order == "" <==> !TruthyString(sort))
      && (TruthyString(sort) ==> c.order == "ORDER BY " + sort)
      && (c.distinct == "DISTINCT" <==> distinct)
      && (!distinct ==> c.distinct == "")
  {
    var ts := Terms(conditions, like, quoting, dbenc, convert);
    assert |ts| == |conditions|;
    if conditions != [] {
      assert ("WHERE " + Join(ts, " AND "))[..6] == "WHERE ";
    }
    if TruthyString(sort) {
      assert ("ORDER BY " + sort)[..9] == "ORDER BY ";
    }
  }

  /** The pieces of `s` between occurrences of the character `c` (explode with a one-character separator). */
  function Split(s: string, c: char): (pieces: seq<string>)
    ensures |pieces| >= 1
  {
    if s == [] then [""]
    else
      var rest := Split(s[1..], c);
      if s[0] == c then [""] + rest else [[s[0]] + rest[0]] + rest[1..]
  }

  /** A text without the separator is one piece. */
  lemma {:induction false} SplitNone(s: string, c: char)
    requires c !in s
    ensures Split(s, c) == [s]
  {
    if s != [] {
      assert s[0] in s;
      assert forall x :: x in s[1..] ==> x in s;
      SplitNone(s[1..], c);
      assert [s[0]] + s[1..] == s;
    }
  }

  /** A separator after a piece without one ends that piece. */
  lemma {:induction false} SplitAfter(p: string, c: char, s: string)
    requires c !in p
    ensures Split(p + [c] + s, c) == [p] + Split(s, c)
  {
    if p == [] {
      assert p + [c] + s == [c] + s;
      assert ([c] + s)[1..] == s;
    } else {
      assert (p + [c] + s)[0] == p[0];
      assert (p + [c] + s)[1..] == p[1..] + [c] + s;
      SplitAfter(p[1..], c, s);
      assert [p[0]] + p[1..] == p;
    }
  }

  /**
   * The field list of a statement reads back as the fields: when no field
   * name contains the separator, splitting `implode(',', $fields)` at the
   * separator recovers the list, so every field appears exactly once, in order.
   */
  lemma {:induction false} JoinSplit(parts: seq<string>, c: char)
    requires parts != []
    requires forall i :: 0 <= i < |parts| ==> c !in parts[i]
    ensures Split(Join(parts, [c]), c) == parts
  {
    if |parts| == 1 {
      SplitNone(parts[0], c);
    } else {
      JoinSplit(parts[1..], c);
      SplitAfter(parts[0], c, Join(parts[1..], [c]));
      assert [parts[0]] + parts[1..] == parts;
    }
  }

  /** The projection of a statement with fields recovers the field list. */
  lemma ProjectionFields(conditions: seq<(string, string)>, fields: seq<string>, distinct: bool, sort: string,
                         like: bool, quoting: Cell, dbenc: Cell, convert: Converter)
    requires fields != []
    requires forall i :: 0 <= i < |fields| ==> ',' !in fields[i]
    ensures Split(SelectClauses(conditions, fields, distinct, sort, like, quoting, dbenc, convert).projection, ',') == fields
  {
    JoinSplit(fields, ',');
  }

  /**
   * With the identity encoding and the default quoting, the literal of every
   * condition is the value with apostrophes doubled, so collapsing them gives
   * the value back: the text between the apostrophes of a term stands for
   * exactly the condition's value.
   */
  lemma TermValueRecovered(key: string, value: string, quoting: Cell, dbenc: Cell, convert: Converter)
    requires !Truthy(quoting) && PassThrough(dbenc)
    ensures var lit := Literal(value, quoting, dbenc, convert);
      Term(key, value, false, quoting, dbenc, convert) == key + " = '" + lit + "'" && CollapseQuotes(lit) == value
  {
    StandardRoundTrip(value, quoting);
  }

  /** The same with sybase quoting on: stripping the backslash escapes gives the value back. */
  lemma TermValueRecoveredSybase(key: string, value: string, quoting: Cell, dbenc: Cell, convert: Converter)
    requires Truthy(quoting) && PassThrough(dbenc)
    ensures var lit := Literal(value, quoting, dbenc, convert);
      Term(key, value, false, quoting, dbenc, convert) == key + " = '" + lit + "'" && StripSlashes(lit) == value
  {
    SybaseRoundTrip(value, quoting);
  }

  /** The statement the job sends for each external table: DISTINCT, every column, no WHERE and no ORDER BY clause. */
  lemma FullScan(table: string, quoting: Cell, dbenc: Cell, convert: Converter)
    ensures GetSql(table, [], [], true, "", quoting, dbenc, convert) == Layout(table, Clauses("DISTINCT", "*", "", ""))
  {
  }
}
