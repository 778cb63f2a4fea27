/**
 * The external database as the job uses it through ADOdb: a connector that
 * either yields a connection or fails (db_init), and a connection that
 * answers a statement with a record set or with false, and can be closed.
 *
 * What a statement returns is fixed up front by `answer`; the connection
 * logs every statement sent and counts the calls to Close.
 */
module External {
  import opened Php
  import opened Encoding

  /** The rows of a record set, each the column array FetchRow returns. */
  type Rows = seq<seq<Item>>

  class Connection {
    /** What Execute returns for each statement: the rows, or None for false. */
    const answer: string -> Option<Rows>
    /** The statements sent so far, in order. */
    var executed: seq<string>
    /** How many times Close has been called. */
    var closeCount: nat

    constructor (answer: string -> Option<Rows>)
      ensures this.answer == answer && executed == [] && closeCount == 0
    {
      this.answer := answer;
      executed := [];
      closeCount := 0;
    }

    /** `$extdb->Execute($sql)`. */
    method Execute(sql: string) returns (rs: Option<Rows>)
      modifies this
      ensures rs == answer(sql)
      ensures executed == old(executed) + [sql] && closeCount == old(closeCount)
    {
      rs := answer(sql);
      executed := executed + [sql];
    }

    /** `$extdb->Close()`. */
    method Close()
      modifies this
      ensures closeCount == old(closeCount) + 1 && executed == old(executed)
    {
      closeCount := closeCount + 1;
    }
  }

  /** db_init: connecting either succeeds, giving `link`, or fails, giving null. */
  class Connector {
    const link: Connection?
    var initCalls: nat

    constructor (link: Connection?)
      ensures this.link == link && initCalls == 0
    {
      this.link := link;
      initCalls := 0;
    }

    method Init() returns (c: Connection?)
      modifies this
      ensures c == link && initCalls == old(initCalls) + 1
    {
      c := link;
      initCalls := initCalls + 1;
    }
  }

  /**
   * `while ($fields = $rs->FetchRow())`, each row passed through `norm`
   * (array_change_key_case, then db_decode): the loop stops at the end of
   * the record set and also at an empty array, which PHP reads as false. The
   * result is the normalised rows before the first empty one.
   */
  function Fetched(rows: Rows, norm: seq<Item> -> Value): (r: seq<Value>)
    ensures |r| <= |rows|
    ensures forall i :: 0 <= i < |r| ==> |rows[i]| > 0 && r[i] == norm(rows[i])
    ensures |r| < |rows| ==> |rows[|r|]| == 0
  {
    if |rows| == 0 || |rows[0]| == 0 then []
    else [norm(rows[0])] + Fetched(rows[1..], norm)
  }

  /** The contract of Fetched determines its result. */
  lemma FetchedUnique(rows: Rows, norm: seq<Item> -> Value, out: seq<Value>)
    requires |out| <= |rows|
    requires forall i :: 0 <= i < |out| ==> |rows[i]| > 0 && out[i] == norm(rows[i])
    requires |out| < |rows| ==> |rows[|out|]| == 0
    ensures out == Fetched(rows, norm)
  {
    var r := Fetched(rows, norm);
    assert |r| == |out|;
  }

  /** The fetch loop itself. */
  method FetchAll(rows: Rows, norm: seq<Item> -> Value) returns (out: seq<Value>)
    ensures out == Fetched(rows, norm)
  {
    out := [];
    var i := 0;
    while i < |rows| && |rows[i]| > 0
      invariant 0 <= i <= |rows| && |out| == i
      invariant forall j :: 0 <= j < i ==> |rows[j]| > 0 && out[j] == norm(rows[j])
    {
      out := out + [norm(rows[i])];
      i := i + 1;
    }
    FetchedUnique(rows, norm, out);
  }
}
