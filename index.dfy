/**
 * The index phase of the run: three foreach loops turn row lists into PHP
 * arrays keyed by link code (`$assign_mdl`, `$assess_ext`) or by student code
 * followed by link code (`$student`). In all three a later row with the same
 * key overwrites the earlier entry, which keeps its position.
 *
 * The loops share one shape, the fold `Fold`; its lemmas are proved once and
 * the properties of each index follow from them.
 */
module Index {
  import opened Php
  import opened Encoding

  /** A record of the local join of course modules, assignments and module types (a.id, m.id, m.idnumber, a.name). */
  datatype LocalRow = LocalRow(id: int, cm: int, linkcode: string, name: string)

  /** `$assign_mdl[lc]`: the local assignment id, its course module id, its link code and its name. */
  datatype AssignEntry = AssignEntry(id: int, cm: int, lc: string, name: string)

  /** `$assess_ext[lc]`: identity, link code, name, due date, feedback date and mark scheme code of an external assessment. */
  datatype AssessEntry = AssessEntry(id: Cell, lc: Cell, name: Cell, dd: Cell, fb: Cell, ms: Cell)

  /** `$student[key]`: an external student extension. */
  datatype StudentEntry = StudentEntry(stucode: Cell, lc: Cell, extdate: Cell, exttime: Cell, fbdate: Cell, fbtime: Cell)

  /** Each kept row is stored under its key; a later row overwrites an earlier one. */
  function Fold<R, V>(rows: seq<R>, keep: R -> bool, key: R -> string, entry: R -> V): (m: PArray<V>)
    ensures m.Valid()
  {
    if rows == [] then EmptyArray()
    else
      var r := rows[|rows| - 1];
      var m := Fold(rows[..|rows| - 1], keep, key, entry);
      if keep(r) then Put(m, key(r), entry(r)) else m
  }

  /** The keys of the fold are exactly the keys of the kept rows. */
  lemma {:induction false} FoldKeys<R, V>(rows: seq<R>, keep: R -> bool, key: R -> string, entry: R -> V, k: string)
    ensures k in Fold(rows, keep, key, entry).values <==>
      exists i :: 0 <= i < |rows| && keep(rows[i]) && key(rows[i]) == k
  {
    if rows != [] {
      var init := rows[..|rows| - 1];
      FoldKeys(init, keep, key, entry, k);
      if exists i :: 0 <= i < |init| && keep(init[i]) && key(init[i]) == k {
        var i :| 0 <= i < |init| && keep(init[i]) && key(init[i]) == k;
        assert rows[i] == init[i];
      }
      if exists i :: 0 <= i < |rows| && keep(rows[i]) && key(rows[i]) == k {
        var i :| 0 <= i < |rows| && keep(rows[i]) && key(rows[i]) == k;
        if i < |init| {
          assert init[i] == rows[i];
        }
      }
    }
  }

  /** Every stored entry is the entry of the last kept row with its key. */
  lemma {:induction false} FoldLastWins<R, V>(rows: seq<R>, keep: R -> bool, key: R -> string, entry: R -> V, i: nat)
    requires i < |rows| && keep(rows[i])
    requires forall j :: i < j < |rows| && keep(rows[j]) ==> key(rows[j]) != key(rows[i])
    ensures key(rows[i]) in Fold(rows, keep, key, entry).values
    ensures Fold(rows, keep, key, entry).values[key(rows[i])] == entry(rows[i])
  {
    if i < |rows| - 1 {
      var init := rows[..|rows| - 1];
      FoldLastWins(init, keep, key, entry, i);
    }
  }

  /** Every stored entry comes from some kept row with that key. */
  lemma {:induction false} FoldStoredRow<R, V>(rows: seq<R>, keep: R -> bool, key: R -> string, entry: R -> V, k: string)
    requires k in Fold(rows, keep, key, entry).values
    ensures exists i :: (0 <= i < |rows| && keep(rows[i]) && key(rows[i]) == k
                         && Fold(rows, keep, key, entry).values[k] == entry(rows[i]))
  {
    var init := rows[..|rows| - 1];
    var r := rows[|rows| - 1];
    if keep(r) && key(r) == k {
      assert rows[|rows| - 1] == r;
    } else {
      FoldStoredRow(init, keep, key, entry, k);
      var i :| 0 <= i < |init| && keep(init[i]) && key(init[i]) == k
        && Fold(init, keep, key, entry).values[k] == entry(init[i]);
      assert rows[i] == init[i];
    }
  }

  /** A row the filter rejects adds nothing. */
  lemma FoldSkips<R, V>(rows: seq<R>, r: R, keep: R -> bool, key: R -> string, entry: R -> V)
    requires !keep(r)
    ensures Fold(rows + [r], keep, key, entry) == Fold(rows, keep, key, entry)
  {
    assert (rows + [r])[..|rows|] == rows;
  }

  // ----- $assign_mdl (source lines 156-162) -----

  function AssignKey(r: LocalRow): string { r.linkcode }

  function AssignOf(r: LocalRow): AssignEntry { AssignEntry(r.id, r.cm, r.linkcode, r.name) }

  function AssignMdl(rows: seq<LocalRow>): PArray<AssignEntry> {
    Fold(rows, (r: LocalRow) => true, AssignKey, AssignOf)
  }

  method BuildAssignMdl(sqldates: seq<LocalRow>) returns (m: PArray<AssignEntry>)
    ensures m == AssignMdl(sqldates)
  {
    m := EmptyArray();
    for i := 0 to |sqldates|
      invariant m == AssignMdl(sqldates[..i])
    {
      var sd := sqldates[i];
      m := Put(m, sd.linkcode, AssignEntry(sd.id, sd.cm, sd.linkcode, sd.name));
      assert sqldates[..i + 1][..i] == sqldates[..i];
    }
    assert sqldates[..|sqldates|] == sqldates;
  }

  /**
   * `$assign_mdl` holds exactly the link codes of the local rows; each entry's
   * `lc` is its own key and comes from the last row with that link code.
   */
  lemma AssignMdlKeys(rows: seq<LocalRow>, k: string)
    ensures k in AssignMdl(rows).values <==> exists i :: 0 <= i < |rows| && rows[i].linkcode == k
    ensures k in AssignMdl(rows).values ==> AssignMdl(rows).values[k].lc == k
  {
    FoldKeys(rows, (r: LocalRow) => true, AssignKey, AssignOf, k);
    if k in AssignMdl(rows).values {
      FoldStoredRow(rows, (r: LocalRow) => true, AssignKey, AssignOf, k);
    }
  }

  lemma AssignMdlLastWins(rows: seq<LocalRow>, i: nat)
    requires i < |rows|
    requires forall j :: i < j < |rows| ==> rows[j].linkcode != rows[i].linkcode
    ensures rows[i].linkcode in AssignMdl(rows).values
    ensures AssignMdl(rows).values[rows[i].linkcode] == AssignEntry(rows[i].id, rows[i].cm, rows[i].linkcode, rows[i].name)
  {
    FoldLastWins(rows, (r: LocalRow) => true, AssignKey, AssignOf, i);
  }

  /** Entries that act on disjoint parts of the local tables: no two share an assignment id or a link code. */
  ghost predicate Disjoint(es: seq<AssignEntry>) {
    forall i, j :: 0 <= i < j < |es| ==> es[i].id != es[j].id && es[i].lc != es[j].lc
  }

  /** No two local rows share an assignment id. */
  predicate DistinctIds(rows: seq<LocalRow>) {
    forall p, q :: 0 <= p < q < |rows| ==> rows[p].id != rows[q].id
  }

  /**
   * get_records_sql keys its result by the first column (a.id), so the local
   * rows never repeat an assignment id; the entries of `$assign_mdl` are then
   * disjoint.
   */
  lemma AssignMdlDisjoint(rows: seq<LocalRow>)
    requires DistinctIds(rows)
    ensures Disjoint(AssignMdl(rows).Entries())
  {
    var m := AssignMdl(rows);
    var es := m.Entries();
    forall i, j | 0 <= i < j < |es| ensures es[i].id != es[j].id && es[i].lc != es[j].lc {
      var ki, kj := m.keys[i], m.keys[j];
      assert ki in m.values && kj in m.values;
      FoldStoredRow(rows, (r: LocalRow) => true, AssignKey, AssignOf, ki);
      FoldStoredRow(rows, (r: LocalRow) => true, AssignKey, AssignOf, kj);
      var p :| 0 <= p < |rows| && rows[p].linkcode == ki && m.values[ki] == AssignOf(rows[p]);
      var q :| 0 <= q < |rows| && rows[q].linkcode == kj && m.values[kj] == AssignOf(rows[q]);
      assert ki != kj;
      assert p != q;
    }
  }

  // ----- $assess_ext (source lines 164-172) -----

  function AssessKey(row: Value): string { AsString(Field(row, "assessment_idcode")) }

  function AssessOf(row: Value): AssessEntry {
    AssessEntry(Field(row, "id"), Field(row, "assessment_idcode"), Field(row, "assessment_name"),
                Field(row, "assessment_duedate"), Field(row, "assessment_feedbackdate"),
                Field(row, "assessment_markscheme_code"))
  }

  function AssessExt(rows: seq<Value>): PArray<AssessEntry> {
    Fold(rows, (r: Value) => true, AssessKey, AssessOf)
  }

  method BuildAssessExt(assessments: seq<Value>) returns (m: PArray<AssessEntry>)
    ensures m == AssessExt(assessments)
  {
    m := EmptyArray();
    for i := 0 to |assessments|
      invariant m == AssessExt(assessments[..i])
    {
      var am := assessments[i];
      var idcode := Field(am, "assessment_idcode");
      m := Put(m, AsString(idcode),
               AssessEntry(Field(am, "id"), idcode, Field(am, "assessment_name"), Field(am, "assessment_duedate"),
                           Field(am, "assessment_feedbackdate"), Field(am, "assessment_markscheme_code")));
      assert assessments[..i + 1][..i] == assessments[..i];
    }
    assert assessments[..|assessments|] == assessments;
  }

  /**
   * `$assess_ext` holds exactly the `assessment_idcode` values of the external
   * rows (null reading as the key ""); each entry is taken from the last row
   * with its code, its `lc` is that code and its `ms` the row's
   * `assessment_markscheme_code`.
   */
  lemma AssessExtKeys(rows: seq<Value>, k: string)
    ensures k in AssessExt(rows).values <==>
      exists i :: 0 <= i < |rows| && AsString(Field(rows[i], "assessment_idcode")) == k
    ensures k in AssessExt(rows).values ==> AsString(AssessExt(rows).values[k].lc) == k
  {
    FoldKeys(rows, (r: Value) => true, AssessKey, AssessOf, k);
    if k in AssessExt(rows).values {
      FoldStoredRow(rows, (r: Value) => true, AssessKey, AssessOf, k);
    }
  }

  lemma AssessExtLastWins(rows: seq<Value>, i: nat)
    requires i < |rows|
    requires forall j :: i < j < |rows| ==> AssessKey(rows[j]) != AssessKey(rows[i])
    ensures AssessKey(rows[i]) in AssessExt(rows).values
    ensures var e := AssessExt(rows).values[AssessKey(rows[i])];
      e.lc == Field(rows[i], "assessment_idcode") && e.ms == Field(rows[i], "assessment_markscheme_code")
      && e == AssessOf(rows[i])
  {
    FoldLastWins(rows, (r: Value) => true, AssessKey, AssessOf, i);
  }

  // ----- $student (source lines 174-185) -----

  /** The test of line 177: a truthy link code and a truthy extension date or time. */
  predicate IsExtension(row: Value) {
    Truthy(Field(row, "assessment_idcode"))
      && (Truthy(Field(row, "student_ext_duedate")) || Truthy(Field(row, "student_ext_duetime")))
  }

  function StudentKey(row: Value): string {
    AsString(Field(row, "student_code")) + AsString(Field(row, "assessment_idcode"))
  }

  function StudentOf(row: Value): StudentEntry {
    StudentEntry(Field(row, "student_code"), Field(row, "assessment_idcode"), Field(row, "student_ext_duedate"),
                 Field(row, "student_ext_duetime"), Field(row, "student_fbdue_date"), Field(row, "student_fbdue_time"))
  }

  function Students(rows: seq<Value>): PArray<StudentEntry> {
    Fold(rows, IsExtension, StudentKey, StudentOf)
  }

  method BuildStudents(extensions: seq<Value>) returns (m: PArray<StudentEntry>)
    ensures m == Students(extensions)
  {
    m := EmptyArray();
    for i := 0 to |extensions|
      invariant m == Students(extensions[..i])
    {
      var e := extensions[i];
      var key := AsString(Field(e, "student_code")) + AsString(Field(e, "assessment_idcode"));
      if Truthy(Field(e, "assessment_idcode"))
        && (Truthy(Field(e, "student_ext_duedate")) || Truthy(Field(e, "student_ext_duetime")))
      {
        m := Put(m, key, StudentEntry(Field(e, "student_code"), Field(e, "assessment_idcode"),
                                      Field(e, "student_ext_duedate"), Field(e, "student_ext_duetime"),
                                      Field(e, "student_fbdue_date"), Field(e, "student_fbdue_time")));
      }
      assert extensions[..i + 1][..i] == extensions[..i];
    }
    assert extensions[..|extensions|] == extensions;
  }

  /**
   * A key is stored exactly when some row passing the extension test has it;
   * the stored entry copies the six fields of the last such row unchanged; a
   * row failing the test adds nothing.
   */
  lemma StudentsKeys(rows: seq<Value>, k: string)
    ensures k in Students(rows).values <==> exists i :: 0 <= i < |rows| && IsExtension(rows[i]) && StudentKey(rows[i]) == k
    ensures k in Students(rows).values ==>
      exists i :: (0 <= i < |rows| && IsExtension(rows[i]) && StudentKey(rows[i]) == k
                   && Students(rows).values[k] == StudentOf(rows[i]))
  {
    FoldKeys(rows, IsExtension, StudentKey, StudentOf, k);
    if k in Students(rows).values {
      FoldStoredRow(rows, IsExtension, StudentKey, StudentOf, k);
    }
  }

  lemma StudentsLastWins(rows: seq<Value>, i: nat)
    requires i < |rows| && IsExtension(rows[i])
    requires forall j :: i < j < |rows| && IsExtension(rows[j]) ==> StudentKey(rows[j]) != StudentKey(rows[i])
    ensures StudentKey(rows[i]) in Students(rows).values
    ensures Students(rows).values[StudentKey(rows[i])] == StudentOf(rows[i])
  {
    FoldLastWins(rows, IsExtension, StudentKey, StudentOf, i);
  }

  lemma StudentsSkip(rows: seq<Value>, r: Value)
    requires !IsExtension(r)
    ensures Students(rows + [r]) == Students(rows)
  {
    FoldSkips(rows, r, IsExtension, StudentKey, StudentOf);
  }
}
