/**
 * The scheduled task object: its plugin-setting cache (get_config,
 * set_config, load_config), the query helpers that read the cache, and
 * execute, which connects, reads both external tables, builds the indexes
 * and runs the update loop over the local tables.
 */
module Task {
  import opened Php
  import opened Encoding
  import opened QueryBuilder
  import ConfigCache
  import opened Index
  import opened LocalStore
  import opened Reconcile
  import opened External

  class AssessmentSettingsTask {
    /** The plugin's stored settings, what `get_config("local_<name>")` returns. */
    const stored: map<string, string>
    /** core_text::convert, used by db_decode on the fetched rows. */
    const convert: Converter
    /** `$this->config`: None until load_config has run. */
    var config: Option<map<string, string>>

    constructor (stored: map<string, string>, convert: Converter)
      ensures this.stored == stored && this.convert == convert && config == None
    {
      this.stored := stored;
      this.convert := convert;
      config := None;
    }

    /** The settings as get_config sees them: the cache, or the stored settings it will be loaded from. */
    function Settings(): map<string, string>
      reads this
    {
      if config.Some? then config.value else stored
    }

    /** load_config: the stored settings are read once, on first use. */
    method LoadConfig()
      modifies this
      ensures config == Some(old(Settings()))
      ensures old(config).Some? ==> config == old(config)
    {
      if config.None? {
        config := Some(stored);
      }
    }

    /** get_config($name, $default): the cached value, or the default when it is not set. */
    method GetConfig(name: string, default: Cell) returns (v: Cell)
      modifies this
      ensures config == Some(old(Settings()))
      ensures v == ConfigCache.Lookup(Settings(), name, default)
    {
      LoadConfig();
      v := if name in config.value then Some(config.value[name]) else default;
    }

    /** The cache half of set_config($name, $value): null unsets, anything else replaces. */
    method SetConfig(name: string, value: Cell)
      modifies this
      ensures config == Some(ConfigCache.Set(old(Settings()), name, value))
    {
      LoadConfig();
      if value.None? {
        config := Some(config.value - {name});
      } else {
        config := Some(config.value[name := value.value]);
      }
    }

    /** db_get_sql, reading the quoting and encoding settings from the cache. */
    method DbGetSql(table: string, conditions: seq<(string, string)>, fields: seq<string>, distinct: bool, sort: string)
      returns (sql: string)
      modifies this
      ensures config == Some(old(Settings()))
      ensures sql == GetSql(table, conditions, fields, distinct, sort,
                            ConfigCache.Lookup(Settings(), "dbsybasequoting", None), ConfigCache.Lookup(Settings(), "dbencoding", None), convert)
    {
      var quoting := GetConfig("dbsybasequoting", None);
      var dbenc := GetConfig("dbencoding", None);
      sql := GetSql(table, conditions, fields, distinct, sort, quoting, dbenc, convert);
    }

    /** db_get_sql_like, reading the quoting and encoding settings from the cache. */
    method DbGetSqlLike(table: string, conditions: seq<(string, string)>, fields: seq<string>, distinct: bool, sort: string)
      returns (sql: string)
      modifies this
      ensures config == Some(old(Settings()))
      ensures sql == GetSqlLike(table, conditions, fields, distinct, sort,
                                ConfigCache.Lookup(Settings(), "dbsybasequoting", None), ConfigCache.Lookup(Settings(), "dbencoding", None), convert)
    {
      var quoting := GetConfig("dbsybasequoting", None);
      var dbenc := GetConfig("dbencoding", None);
      sql := GetSqlLike(table, conditions, fields, distinct, sort, quoting, dbenc, convert);
    }

    /** The statement that reads a whole external table: `db_get_sql($table, array(), array(), true)`. */
    function ScanQuery(cfg: map<string, string>, table: string): string
      reads this
    {
      GetSql(AsString(ConfigCache.Lookup(cfg, table, None)), [], [], true, "",
             ConfigCache.Lookup(cfg, "dbsybasequoting", None), ConfigCache.Lookup(cfg, "dbencoding", None), convert)
    }

    /** array_change_key_case and db_decode on one fetched row. */
    function Normalizer(cfg: map<string, string>): seq<Item> -> Value
      reads this
    {
      (raw: seq<Item>) => Normalize(raw, ConfigCache.Lookup(cfg, "dbencoding", None), convert)
    }

    /**
     * Lines 107-122 (and 138-153): the table named by the setting `table` is
     * read with `SELECT DISTINCT *`; None when Execute returns false,
     * otherwise the fetched rows, each normalised.
     */
    method ReadTable(extdb: Connection, table: string) returns (rows: Option<seq<Value>>)
      modifies this, extdb
      ensures config == Some(old(Settings()))
      ensures rows == match extdb.answer(ScanQuery(Settings(), table))
                      case None => None
                      case Some(rs) => Some(Fetched(rs, Normalizer(Settings())))
      ensures extdb.executed == old(extdb.executed) + [ScanQuery(Settings(), table)]
      ensures extdb.closeCount == old(extdb.closeCount)
    {
      var name := GetConfig(table, None);
      var sql := DbGetSql(AsString(name), [], [], true, "");
      var rs := extdb.Execute(sql);
      if rs.None? {
        rows := None;
      } else if |rs.value| == 0 {
        // `$rs->EOF`: an empty record set is not fetched from.
        rows := Some([]);
      } else {
        // db_decode reads the encoding setting from the loaded cache for every row.
        var fetched := FetchAll(rs.value, Normalizer(Settings()));
        rows := Some(fetched);
      }
    }

    /**
     * execute(): 0 when `dbtype` or `remotetable` is not set, before any
     * connection is attempted; 1 when db_init fails; 4, after closing the
     * connection once, when either external table cannot be read; and
     * otherwise nothing (None), after updating the local tables as the
     * update loop prescribes and closing the connection once. The early
     * returns leave the local tables untouched, and before db_init the
     * connection is untouched too. After a successful run the local tables
     * are a fixed point of the update: a second run against the same
     * external answers writes them back unchanged.
     *
     * `sqldates` is the result of get_records_sql, which keys its rows by
     * `a.id`, so no two rows share an assignment id.
     */
    method Execute(connector: Connector, db: LocalDb, sqldates: seq<LocalRow>, guard: TurnitinGuard)
      returns (status: Option<int>)
      requires DistinctIds(sqldates)
      modifies this, connector, connector.link, db
      ensures config == Some(old(Settings()))
      ensures var cfg := old(Settings());
        var configured := Truthy(ConfigCache.Lookup(cfg, "dbtype", None)) && Truthy(ConfigCache.Lookup(cfg, "remotetable", None));
        var link := connector.link;
        && (!configured ==>
              && status == Some(0) && connector.initCalls == old(connector.initCalls) && db.State() == old(db.State())
              && (link != null ==> link.executed == old(link.executed) && link.closeCount == old(link.closeCount)))
        && (configured ==> connector.initCalls == old(connector.initCalls) + 1)
        && (configured && link == null ==> status == Some(1) && db.State() == old(db.State()))
        && (configured && link != null ==>
              var q1, q2 := ScanQuery(cfg, "remotetable"), ScanQuery(cfg, "remotegradestable");
              && link.closeCount == old(link.closeCount) + 1
              && (link.answer(q1).None? ==>
                    status == Some(4) && link.executed == old(link.executed) + [q1] && db.State() == old(db.State()))
              && (link.answer(q1).Some? ==> link.executed == old(link.executed) + [q1, q2])
              && (link.answer(q1).Some? && link.answer(q2).None? ==>
                    status == Some(4) && db.State() == old(db.State()))
              && (link.answer(q1).Some? && link.answer(q2).Some? ==>
                    var assessments := Fetched(link.answer(q1).value, Normalizer(cfg));
                    && status == None
                    && db.State() == ApplyAll(old(db.State()), AssignMdl(sqldates).Entries(), AssessExt(assessments), guard)
                    && ApplyAll(db.State(), AssignMdl(sqldates).Entries(), AssessExt(assessments), guard) == db.State()))
    {
      var dbtype := GetConfig("dbtype", None);
      if !Truthy(dbtype) {
        return Some(0);
      }
      var remotetable := GetConfig("remotetable", None);
      if !Truthy(remotetable) {
        return Some(0);
      }
      var extdb := connector.Init();
      if extdb == null {
        return Some(1);
      }

      status := Synchronise(extdb, db, sqldates, guard);
    }

    /**
     * Lines 89-291, once connected: both external tables are read (status 4
     * after closing the connection when either read fails), the indexes are
     * built, the update loop runs and the connection is closed.
     */
    method Synchronise(extdb: Connection, db: LocalDb, sqldates: seq<LocalRow>, guard: TurnitinGuard)
      returns (status: Option<int>)
      requires config.Some? && DistinctIds(sqldates)
      modifies this, extdb, db
      ensures config == old(config)
      ensures var cfg := Settings();
        var q1, q2 := ScanQuery(cfg, "remotetable"), ScanQuery(cfg, "remotegradestable");
        && extdb.closeCount == old(extdb.closeCount) + 1
        && (extdb.answer(q1).None? ==>
              status == Some(4) && extdb.executed == old(extdb.executed) + [q1] && db.State() == old(db.State()))
        && (extdb.answer(q1).Some? ==> extdb.executed == old(extdb.executed) + [q1, q2])
        && (extdb.answer(q1).Some? && extdb.answer(q2).None? ==>
              status == Some(4) && db.State() == old(db.State()))
        && (extdb.answer(q1).Some? && extdb.answer(q2).Some? ==>
              var assessments := Fetched(extdb.answer(q1).value, Normalizer(cfg));
              && status == None
              && db.State() == ApplyAll(old(db.State()), AssignMdl(sqldates).Entries(), AssessExt(assessments), guard)
              && ApplyAll(db.State(), AssignMdl(sqldates).Entries(), AssessExt(assessments), guard) == db.State())
    {
      var assessments := ReadTable(extdb, "remotetable");
      if assessments.None? {
        extdb.Close();
        return Some(4);
      }
      // `remotegradestable` is not checked: an unset name reads as the empty table name.
      var extensions := ReadTable(extdb, "remotegradestable");
      if extensions.None? {
        extdb.Close();
        return Some(4);
      }

      UpdateLocal(db, sqldates, assessments.value, extensions.value, guard);
      extdb.Close();
      status := None;
    }

    /**
     * Lines 155-286: the three indexes are built from the rows read, then the
     * update loop runs over `$assign_mdl` against `$assess_ext`.
     */
    method UpdateLocal(db: LocalDb, sqldates: seq<LocalRow>, assessments: seq<Value>, extensions: seq<Value>, guard: TurnitinGuard)
      requires DistinctIds(sqldates)
      modifies db
      ensures db.State() == ApplyAll(old(db.State()), AssignMdl(sqldates).Entries(), AssessExt(assessments), guard)
      ensures ApplyAll(db.State(), AssignMdl(sqldates).Entries(), AssessExt(assessments), guard) == db.State()
    {
      var assignMdl := BuildAssignMdl(sqldates);
      var assessExt := BuildAssessExt(assessments);
      // The student extension index is built and never read.
      var student := BuildStudents(extensions);
      UpdateSettings(db, assignMdl, assessExt, guard);
      UpdateLoopIdempotent(old(db.State()), sqldates, assessExt, guard);
    }
  }
}
