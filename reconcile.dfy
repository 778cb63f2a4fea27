/**
 * The update phase: for every entry of `$assign_mdl` with a non-empty id, a
 * fixed sequence of guarded writes to the local tables.
 *
 * `ApplyEntry` follows the writes one by one, in the order of the source;
 * `Expected` says in one step what they amount to. The lemmas prove the two
 * agree and then state the policies, the frame conditions and the
 * idempotence of a whole run on `Expected`.
 */
module Reconcile {
  import opened Php
  import opened Index
  import opened LocalStore

  /**
   * The Turnitin test `get_field(...) == 0`. Its outcome for the string
   * "use_turnitin" depends on the PHP version, so it is a parameter; it is
   * applied to the name the row holds, or to None when there is no row.
   */
  type TurnitinGuard = Cell -> bool

  /** `get_field(...) == n` on a flag column: a missing row reads false, which equals 0 and nothing else. */
  predicate FlagIs(v: Option<int>, n: int) {
    match v
    case None => n == 0
    case Some(x) => x == n
  }

  /** `if (get_field(f) == test) set_field(f, write)` on the row with this id. */
  function FlagStep(t: Tables, id: int, f: AssignField, test: int, write: int): Tables {
    if FlagIs(GetAssign(t, id, f), test) then SetAssign(t, id, f, write) else t
  }

  /** The Use-Turnitin step: the guard reads the `name` column, the write sets the `value` column to 1. */
  function TurnitinStep(t: Tables, cm: int, guard: TurnitinGuard): Tables {
    if guard(TurnitinName(t, cm, UseTurnitin)) then SetTurnitin(t, cm, UseTurnitin, "1") else t
  }

  /** `$gradeitem->scaleid`: the grade item's scale, 0 for NULL and for a missing item (null). */
  function CurrentScale(t: Tables, lc: string): nat {
    if lc in t.gradeItems then t.gradeItems[lc].scaleid else 0
  }

  /** `$assess_ext[lc]['ms']`: the mark-scheme code, null when the link code is not in the external map. */
  function MarkScheme(ext: PArray<AssessEntry>, lc: string): Cell {
    if lc in ext.values then ext.values[lc].ms else None
  }

  /** The scale id the external mark-scheme code names, 0 when none does. */
  function FoundScale(t: Tables, ext: PArray<AssessEntry>, lc: string): nat {
    ScaleId(t.scale, MarkScheme(ext, lc))
  }

  /** The grading-scale step, writes in the order of the source. */
  function ScaleStep(t: Tables, id: int, lc: string, ext: PArray<AssessEntry>): Tables {
    var cur := CurrentScale(t, lc);
    var found := FoundScale(t, ext, lc);
    if cur == found then t
    else if found > 0 then SetGradeType(SetAssign(SetScaleId(t, lc, found), id, Grade, -(found as int)), lc, 2)
    else SetGradeType(SetAssign(SetScaleId(t, lc, 0), id, Grade, 100), lc, 1)
  }

  /** The six guarded flag writes on the assign row with this id, in source order. */
  function FlagSteps(t: Tables, id: int): Tables {
    var t1 := FlagStep(t, id, MarkingWorkflow, 0, 1);
    var t2 := FlagStep(t1, id, SubmissionDrafts, 0, 1);
    var t3 := FlagStep(t2, id, RequireSubmissionStatement, 0, 1);
    var t4 := FlagStep(t3, id, SendNotifications, 1, 0);
    var t5 := FlagStep(t4, id, SendLateNotifications, 0, 0);
    FlagStep(t5, id, SendStudentNotifications, 1, 0)
  }

  /** One pass of the body of the update loop, step by step; an empty id skips the entry. */
  function ApplyEntry(t: Tables, e: AssignEntry, ext: PArray<AssessEntry>, guard: TurnitinGuard): Tables {
    if e.id == 0 then t
    else ScaleStep(TurnitinStep(FlagSteps(t, e.id), e.cm, guard), e.id, e.lc, ext)
  }

  /** The update loop over the entries of `$assign_mdl`, in order. */
  function ApplyAll(t: Tables, es: seq<AssignEntry>, ext: PArray<AssessEntry>, guard: TurnitinGuard): Tables {
    if es == [] then t
    else ApplyEntry(ApplyAll(t, es[..|es| - 1], ext, guard), es[|es| - 1], ext, guard)
  }

  // ---------------------------------------------------------------------------
  // What one entry amounts to

  function TurnOn(v: int): int { if v == 0 then 1 else v }
  function TurnOff(v: int): int { if v == 1 then 0 else v }

  /** `assign.grade` for a scale id: its negation for a scale, 100 points without one. */
  function GradeFor(found: nat): int { if found > 0 then -(found as int) else 100 }

  /** The grade item once the scale step has written it. */
  function ItemFor(found: nat): GradeItem { if found > 0 then GradeItem(found, 2) else GradeItem(0, 1) }

  /** The assign row after one entry: the flag policy, plus the grade when the scale step writes. */
  function RowAfter(r: AssignRow, rescale: bool, found: nat): AssignRow {
    var s := Settle(r);
    if rescale then s.(grade := GradeFor(found)) else s
  }

  /** The assign table after one entry: only the entry's row changes. */
  function SettleRow(assign: map<int, AssignRow>, id: int, rescale: bool, found: nat): map<int, AssignRow> {
    if id in assign then assign[id := RowAfter(assign[id], rescale, found)] else assign
  }

  /** The grade items after one entry: only the entry's item changes, and only when rescaled. */
  function Regrade(items: map<string, GradeItem>, lc: string, rescale: bool, found: nat): map<string, GradeItem> {
    if lc in items && rescale then items[lc := ItemFor(found)] else items
  }

  /** The Turnitin settings after one entry. */
  function MarkTurnitin(settings: map<(int, string), string>, cm: int, guard: TurnitinGuard): map<(int, string), string> {
    var key := (cm, UseTurnitin);
    if key in settings && guard(Some(UseTurnitin)) then settings[key := "1"] else settings
  }

  /** The tables after one entry, in closed form. */
  function Expected(t: Tables, e: AssignEntry, ext: PArray<AssessEntry>, guard: TurnitinGuard): Tables {
    if e.id == 0 then t
    else
      var found := FoundScale(t, ext, e.lc);
      var rescale := CurrentScale(t, e.lc) != found;
      Tables(SettleRow(t.assign, e.id, rescale, found), Regrade(t.gradeItems, e.lc, rescale, found),
             MarkTurnitin(t.turnitin, e.cm, guard), t.scale)
  }

  /** The flag policy on one row. */
  function Settle(r: AssignRow): AssignRow {
    r.(markingworkflow := TurnOn(r.markingworkflow),
       submissiondrafts := TurnOn(r.submissiondrafts),
       requiresubmissionstatement := TurnOn(r.requiresubmissionstatement),
       sendnotifications := TurnOff(r.sendnotifications),
       sendstudentnotifications := TurnOff(r.sendstudentnotifications))
  }

  /** A guarded flag write on a row. */
  function RowFlag(r: AssignRow, f: AssignField, test: int, write: int): AssignRow {
    if Get(r, f) == test then With(r, f, write) else r
  }

  lemma FlagStepRow(t: Tables, id: int, f: AssignField, test: int, write: int)
    ensures FlagStep(t, id, f, test, write)
      == if id in t.assign then t.(assign := t.assign[id := RowFlag(t.assign[id], f, test, write)]) else t
  {
    if id in t.assign && Get(t.assign[id], f) != test {
      assert t.assign[id := t.assign[id]] == t.assign;
    }
  }

  /** A guarded flag write on a table whose row `id` was already rewritten to `r`. */
  lemma FlagStepAfter(t: Tables, id: int, r: AssignRow, f: AssignField, test: int, write: int)
    requires id in t.assign
    ensures FlagStep(t.(assign := t.assign[id := r]), id, f, test, write)
      == t.(assign := t.assign[id := RowFlag(r, f, test, write)])
  {
    var t' := t.(assign := t.assign[id := r]);
    FlagStepRow(t', id, f, test, write);
    assert t'.assign[id := RowFlag(r, f, test, write)] == t.assign[id := RowFlag(r, f, test, write)];
  }

  lemma FlagStepsEffect(t: Tables, id: int)
    ensures FlagSteps(t, id) == if id in t.assign then t.(assign := t.assign[id := Settle(t.assign[id])]) else t
  {
    if id in t.assign {
      var r0 := t.assign[id];
      var r1 := RowFlag(r0, MarkingWorkflow, 0, 1);
      var r2 := RowFlag(r1, SubmissionDrafts, 0, 1);
      var r3 := RowFlag(r2, RequireSubmissionStatement, 0, 1);
      var r4 := RowFlag(r3, SendNotifications, 1, 0);
      var r5 := RowFlag(r4, SendLateNotifications, 0, 0);
      FlagStepAfter(t, id, r0, MarkingWorkflow, 0, 1);
      FlagStepAfter(t, id, r1, SubmissionDrafts, 0, 1);
      FlagStepAfter(t, id, r2, RequireSubmissionStatement, 0, 1);
      FlagStepAfter(t, id, r3, SendNotifications, 1, 0);
      FlagStepAfter(t, id, r4, SendLateNotifications, 0, 0);
      FlagStepAfter(t, id, r5, SendStudentNotifications, 1, 0);
      assert t.(assign := t.assign[id := r0]) == t;
      SettleSteps(r0);
    } else {
      var t1 := FlagStep(t, id, MarkingWorkflow, 0, 1);
      var t2 := FlagStep(t1, id, SubmissionDrafts, 0, 1);
      var t3 := FlagStep(t2, id, RequireSubmissionStatement, 0, 1);
      var t4 := FlagStep(t3, id, SendNotifications, 1, 0);
      var t5 := FlagStep(t4, id, SendLateNotifications, 0, 0);
      assert t1 == t && t2 == t && t3 == t && t4 == t && t5 == t;
    }
  }

  lemma SettleSteps(r0: AssignRow)
    ensures var r1 := RowFlag(r0, MarkingWorkflow, 0, 1);
      var r2 := RowFlag(r1, SubmissionDrafts, 0, 1);
      var r3 := RowFlag(r2, RequireSubmissionStatement, 0, 1);
      var r4 := RowFlag(r3, SendNotifications, 1, 0);
      var r5 := RowFlag(r4, SendLateNotifications, 0, 0);
      RowFlag(r5, SendStudentNotifications, 1, 0) == Settle(r0)
  {
  }

  lemma TurnitinStepEffect(t: Tables, cm: int, guard: TurnitinGuard)
    ensures var key := (cm, UseTurnitin);
      TurnitinStep(t, cm, guard)
        == if key in t.turnitin && guard(Some(UseTurnitin)) then t.(turnitin := t.turnitin[key := "1"]) else t
  {
  }

  lemma ScaleStepEffect(t: Tables, id: int, lc: string, ext: PArray<AssessEntry>)
    ensures var found := FoundScale(t, ext, lc);
      ScaleStep(t, id, lc, ext)
        == if CurrentScale(t, lc) == found then t
           else t.(assign := if id in t.assign then t.assign[id := t.assign[id].(grade := GradeFor(found))] else t.assign,
                   gradeItems := if lc in t.gradeItems then t.gradeItems[lc := ItemFor(found)] else t.gradeItems)
  {
    var found := FoundScale(t, ext, lc);
    if CurrentScale(t, lc) != found {
      if found > 0 {
        RescaleWrites(t, id, lc, found, -(found as int), 2);
      } else {
        RescaleWrites(t, id, lc, 0, 100, 1);
      }
    }
  }

  /** The three writes of either branch of the scale step, in closed form. */
  lemma RescaleWrites(t: Tables, id: int, lc: string, s: nat, g: int, gt: int)
    ensures SetGradeType(SetAssign(SetScaleId(t, lc, s), id, Grade, g), lc, gt)
      == t.(assign := if id in t.assign then t.assign[id := t.assign[id].(grade := g)] else t.assign,
            gradeItems := if lc in t.gradeItems then t.gradeItems[lc := GradeItem(s, gt)] else t.gradeItems)
  {
  }

  /** The step-by-step writes of one entry and the closed form agree. */
  lemma ApplyEntryClosedForm(t: Tables, e: AssignEntry, ext: PArray<AssessEntry>, guard: TurnitinGuard)
    ensures ApplyEntry(t, e, ext, guard) == Expected(t, e, ext, guard)
  {
    if e.id != 0 {
      var key := (e.cm, UseTurnitin);
      var assign6 := if e.id in t.assign then t.assign[e.id := Settle(t.assign[e.id])] else t.assign;
      var turnitin7 := if key in t.turnitin && guard(Some(UseTurnitin)) then t.turnitin[key := "1"] else t.turnitin;
      var t6 := FlagSteps(t, e.id);
      assert t6 == t.(assign := assign6) by {
        FlagStepsEffect(t, e.id);
      }
      var t7 := TurnitinStep(t6, e.cm, guard);
      assert t7 == Tables(assign6, t.gradeItems, turnitin7, t.scale) by {
        TurnitinStepEffect(t6, e.cm, guard);
      }
      ScaleAfterSettle(t, e, ext, guard, t7);
    }
  }

  /** The last step of ApplyEntryClosedForm: the scale step on the settled tables. */
  lemma ScaleAfterSettle(t: Tables, e: AssignEntry, ext: PArray<AssessEntry>, guard: TurnitinGuard, t7: Tables)
    requires e.id != 0
    requires var key := (e.cm, UseTurnitin);
      t7 == Tables(if e.id in t.assign then t.assign[e.id := Settle(t.assign[e.id])] else t.assign,
                   t.gradeItems,
                   if key in t.turnitin && guard(Some(UseTurnitin)) then t.turnitin[key := "1"] else t.turnitin,
                   t.scale)
    ensures ScaleStep(t7, e.id, e.lc, ext) == Expected(t, e, ext, guard)
  {
    ScaleStepEffect(t7, e.id, e.lc, ext);
    var found := FoundScale(t, ext, e.lc);
    assert FoundScale(t7, ext, e.lc) == found;
    assert CurrentScale(t7, e.lc) == CurrentScale(t, e.lc);
    if CurrentScale(t, e.lc) != found && e.id in t.assign {
      assert t7.assign[e.id := t7.assign[e.id].(grade := GradeFor(found))]
        == t.assign[e.id := RowAfter(t.assign[e.id], true, found)];
    }
  }

  // ---------------------------------------------------------------------------
  // The policies of one entry

  /**
   * Only entries with a non-empty id touch the tables. Three flags go from 0
   * to 1 and are otherwise kept; two go from 1 to 0 and are otherwise kept;
   * sendlatenotifications keeps its value; no other assign row changes.
   */
  lemma FlagPolicies(t: Tables, e: AssignEntry, ext: PArray<AssessEntry>, guard: TurnitinGuard)
    ensures e.id == 0 ==> ApplyEntry(t, e, ext, guard) == t
    ensures var t' := ApplyEntry(t, e, ext, guard);
      && t'.assign.Keys == t.assign.Keys
      && (forall i :: i in t.assign && i != e.id ==> t'.assign[i] == t.assign[i])
      && (e.id != 0 && e.id in t.assign ==>
            var r, r' := t.assign[e.id], t'.assign[e.id];
            && r'.markingworkflow == (if r.markingworkflow == 0 then 1 else r.markingworkflow)
            && r'.submissiondrafts == (if r.submissiondrafts == 0 then 1 else r.submissiondrafts)
            && r'.requiresubmissionstatement == (if r.requiresubmissionstatement == 0 then 1 else r.requiresubmissionstatement)
            && r'.sendnotifications == (if r.sendnotifications == 1 then 0 else r.sendnotifications)
            && r'.sendstudentnotifications == (if r.sendstudentnotifications == 1 then 0 else r.sendstudentnotifications)
            && r'.sendlatenotifications == r.sendlatenotifications)
  {
    ApplyEntryClosedForm(t, e, ext, guard);
  }

  /**
   * The grading-scale policy, relating the tables before (`t`) and after
   * (`t'`) an entry: when the found scale differs from the grade item's and
   * is a scale, the item takes that scale and grade type 2 and the
   * assignment's grade becomes its negation; when it differs and no scale was
   * found, the item's scale becomes NULL, its type 1 and the grade 100; when
   * they are equal, neither the item nor the grade is written. No other grade
   * item changes and the scale table is only read.
   */
  ghost predicate ScalePolicy(t: Tables, t': Tables, e: AssignEntry, ext: PArray<AssessEntry>) {
    var cur, found := CurrentScale(t, e.lc), FoundScale(t, ext, e.lc);
    && t'.gradeItems.Keys == t.gradeItems.Keys
    && t'.assign.Keys == t.assign.Keys
    && t'.scale == t.scale
    && (forall l :: l in t.gradeItems && l != e.lc ==> t'.gradeItems[l] == t.gradeItems[l])
    && (cur != found && found > 0 ==>
          (e.lc in t.gradeItems ==> t'.gradeItems[e.lc] == GradeItem(found, 2)) &&
          (e.id in t.assign ==> t'.assign[e.id].grade == -(found as int)))
    && (cur != found && found == 0 ==>
          (e.lc in t.gradeItems ==> t'.gradeItems[e.lc] == GradeItem(0, 1)) &&
          (e.id in t.assign ==> t'.assign[e.id].grade == 100))
    && (cur == found ==>
          t'.gradeItems == t.gradeItems &&
          (e.id in t.assign ==> t'.assign[e.id].grade == t.assign[e.id].grade))
  }

  lemma ExpectedScale(t: Tables, e: AssignEntry, ext: PArray<AssessEntry>, guard: TurnitinGuard)
    requires e.id != 0
    ensures ScalePolicy(t, Expected(t, e, ext, guard), e, ext)
  {
  }

  /** Every entry with a non-empty id follows the grading-scale policy. */
  lemma GradeScalePolicy(t: Tables, e: AssignEntry, ext: PArray<AssessEntry>, guard: TurnitinGuard)
    requires e.id != 0
    ensures ScalePolicy(t, ApplyEntry(t, e, ext, guard), e, ext)
  {
    ApplyEntryClosedForm(t, e, ext, guard);
    ExpectedScale(t, e, ext, guard);
  }

  /**
   * A link code the external table does not list has no mark scheme, so no
   * scale is found: a grade item that has a scale is reset to points out of 100.
   */
  lemma MissingAssessmentFallback(t: Tables, e: AssignEntry, ext: PArray<AssessEntry>, guard: TurnitinGuard)
    requires e.id != 0 && e.lc !in ext.values
    requires e.lc in t.gradeItems && t.gradeItems[e.lc].scaleid != 0
    ensures FoundScale(t, ext, e.lc) == 0
    ensures ScalePolicy(t, ApplyEntry(t, e, ext, guard), e, ext)
    ensures ApplyEntry(t, e, ext, guard).gradeItems[e.lc] == GradeItem(0, 1)
  {
    GradeScalePolicy(t, e, ext, guard);
  }

  /**
   * The Turnitin policy between the tables before (`t`) and after (`t'`) an
   * entry: the use_turnitin setting of the entry's course module gets value 1
   * when the row exists and the guard lets the write through, and keeps its
   * value otherwise; no other Turnitin setting changes and no row appears.
   */
  ghost predicate TurnitinWritten(t: Tables, t': Tables, e: AssignEntry, guard: TurnitinGuard) {
    var key := (e.cm, UseTurnitin);
    && t'.turnitin.Keys == t.turnitin.Keys
    && (forall k :: k in t.turnitin && k != key ==> t'.turnitin[k] == t.turnitin[k])
    && (key in t.turnitin ==> t'.turnitin[key] == if guard(Some(UseTurnitin)) then "1" else t.turnitin[key])
  }

  lemma ExpectedTurnitin(t: Tables, e: AssignEntry, ext: PArray<AssessEntry>, guard: TurnitinGuard)
    requires e.id != 0
    ensures TurnitinWritten(t, Expected(t, e, ext, guard), e, guard)
  {
  }

  /** Every entry with a non-empty id follows the Turnitin policy. */
  lemma TurnitinPolicy(t: Tables, e: AssignEntry, ext: PArray<AssessEntry>, guard: TurnitinGuard)
    requires e.id != 0
    ensures TurnitinWritten(t, ApplyEntry(t, e, ext, guard), e, guard)
  {
    ApplyEntryClosedForm(t, e, ext, guard);
    ExpectedTurnitin(t, e, ext, guard);
  }

  // ---------------------------------------------------------------------------
  // Whole runs

  /** Entries `a` and `b` write to different rows of `assign` and `grade_items`. */
  predicate Apart(a: AssignEntry, b: AssignEntry) {
    a.id != b.id && a.lc != b.lc
  }

  /** One entry applied twice is the entry applied once. */
  lemma EntryIdempotent(t: Tables, e: AssignEntry, ext: PArray<AssessEntry>, guard: TurnitinGuard)
    ensures Expected(Expected(t, e, ext, guard), e, ext, guard) == Expected(t, e, ext, guard)
  {
    if e.id != 0 {
      var t1 := Expected(t, e, ext, guard);
      var found := FoundScale(t, ext, e.lc);
      assert FoundScale(t1, ext, e.lc) == found;
      var rescale := CurrentScale(t, e.lc) != found;
      var rescale' := CurrentScale(t1, e.lc) != found;
      assert rescale' ==> rescale;
      SettleRowTwice(t.assign, e.id, rescale, rescale', found);
      RegradeTwice(t.gradeItems, e.lc, rescale, rescale', found);
    }
  }

  /** The second pass over an assign row writes what the first wrote. */
  lemma SettleRowTwice(m: map<int, AssignRow>, id: int, r1: bool, r2: bool, found: nat)
    requires r2 ==> r1
    ensures SettleRow(SettleRow(m, id, r1, found), id, r2, found) == SettleRow(m, id, r1, found)
  {
  }

  /** The second pass over a grade item writes what the first wrote. */
  lemma RegradeTwice(items: map<string, GradeItem>, lc: string, r1: bool, r2: bool, found: nat)
    requires r2 ==> r1
    ensures Regrade(Regrade(items, lc, r1, found), lc, r2, found) == Regrade(items, lc, r1, found)
  {
  }

  lemma SettleRowCommute(m: map<int, AssignRow>, a: int, ra: bool, fa: nat, b: int, rb: bool, fb: nat)
    requires a != b
    ensures SettleRow(SettleRow(m, a, ra, fa), b, rb, fb) == SettleRow(SettleRow(m, b, rb, fb), a, ra, fa)
  {
  }

  lemma RegradeCommute(m: map<string, GradeItem>, a: string, ra: bool, fa: nat, b: string, rb: bool, fb: nat)
    requires a != b
    ensures Regrade(Regrade(m, a, ra, fa), b, rb, fb) == Regrade(Regrade(m, b, rb, fb), a, ra, fa)
  {
  }

  lemma MarkTurnitinCommute(m: map<(int, string), string>, a: int, b: int, guard: TurnitinGuard)
    ensures MarkTurnitin(MarkTurnitin(m, a, guard), b, guard) == MarkTurnitin(MarkTurnitin(m, b, guard), a, guard)
  {
  }

  /** Entries that write to different rows can be applied in either order. */
  lemma EntriesCommute(t: Tables, a: AssignEntry, b: AssignEntry, ext: PArray<AssessEntry>, guard: TurnitinGuard)
    requires Apart(a, b)
    ensures Expected(Expected(t, a, ext, guard), b, ext, guard) == Expected(Expected(t, b, ext, guard), a, ext, guard)
  {
    if a.id != 0 && b.id != 0 {
      var ta := Expected(t, a, ext, guard);
      var tb := Expected(t, b, ext, guard);
      var fa, fb := FoundScale(t, ext, a.lc), FoundScale(t, ext, b.lc);
      var ra, rb := CurrentScale(t, a.lc) != fa, CurrentScale(t, b.lc) != fb;
      assert CurrentScale(ta, b.lc) == CurrentScale(t, b.lc) && FoundScale(ta, ext, b.lc) == fb;
      assert CurrentScale(tb, a.lc) == CurrentScale(t, a.lc) && FoundScale(tb, ext, a.lc) == fa;
      SettleRowCommute(t.assign, a.id, ra, fa, b.id, rb, fb);
      RegradeCommute(t.gradeItems, a.lc, ra, fa, b.lc, rb, fb);
      MarkTurnitinCommute(t.turnitin, a.cm, b.cm, guard);
    }
  }

  /** An entry apart from every entry of a run can be moved past the whole run. */
  lemma {:induction false} CommutePastRun(t: Tables, es: seq<AssignEntry>, e: AssignEntry, ext: PArray<AssessEntry>, guard: TurnitinGuard)
    requires forall i :: 0 <= i < |es| ==> Apart(es[i], e)
    ensures ApplyAll(ApplyEntry(t, e, ext, guard), es, ext, guard) == ApplyEntry(ApplyAll(t, es, ext, guard), e, ext, guard)
  {
    if es != [] {
      var init, f := es[..|es| - 1], es[|es| - 1];
      var x := ApplyAll(t, init, ext, guard);
      CommutePastRun(t, init, e, ext, guard);
      ApplyEntryClosedForm(ApplyEntry(x, e, ext, guard), f, ext, guard);
      ApplyEntryClosedForm(x, e, ext, guard);
      ApplyEntryClosedForm(x, f, ext, guard);
      ApplyEntryClosedForm(ApplyEntry(x, f, ext, guard), e, ext, guard);
      EntriesCommute(x, e, f, ext, guard);
    }
  }

  /**
   * State idempotence: with the same external map, running the update loop
   * again on the tables the first run produced changes nothing, provided the
   * entries write to disjoint rows (which `$assign_mdl` built from the local
   * query guarantees, see `Index.AssignMdlDisjoint`).
   */
  lemma {:induction false} RunIdempotent(t: Tables, es: seq<AssignEntry>, ext: PArray<AssessEntry>, guard: TurnitinGuard)
    requires Disjoint(es)
    ensures ApplyAll(ApplyAll(t, es, ext, guard), es, ext, guard) == ApplyAll(t, es, ext, guard)
  {
    if es != [] {
      var init, e := es[..|es| - 1], es[|es| - 1];
      var x := ApplyAll(t, init, ext, guard);
      var u := ApplyEntry(x, e, ext, guard);
      assert ApplyAll(t, es, ext, guard) == u;
      assert Disjoint(init);
      assert forall i :: 0 <= i < |init| ==> Apart(init[i], e) by {
        forall i | 0 <= i < |init| ensures Apart(init[i], e) {
          assert init[i] == es[i];
        }
      }
      CommutePastRun(x, init, e, ext, guard);
      RunIdempotent(t, init, ext, guard);
      // ApplyAll(u, init) == ApplyEntry(ApplyAll(x, init), e) == ApplyEntry(x, e) == u
      assert ApplyAll(u, init, ext, guard) == u;
      ApplyEntryClosedForm(x, e, ext, guard);
      ApplyEntryClosedForm(u, e, ext, guard);
      EntryIdempotent(x, e, ext, guard);
    }
  }

  /**
   * The update loop as execute runs it, over `$assign_mdl` built from the
   * local rows: a second run with the same external map leaves every table
   * as the first run left it. The local rows never repeat an assignment id,
   * since get_records_sql keys them by `a.id`.
   */
  lemma UpdateLoopIdempotent(t: Tables, sqldates: seq<LocalRow>, ext: PArray<AssessEntry>, guard: TurnitinGuard)
    requires DistinctIds(sqldates)
    ensures var es := AssignMdl(sqldates).Entries();
      ApplyAll(ApplyAll(t, es, ext, guard), es, ext, guard) == ApplyAll(t, es, ext, guard)
  {
    AssignMdlDisjoint(sqldates);
    RunIdempotent(t, AssignMdl(sqldates).Entries(), ext, guard);
  }

  /** No entry of `es` names assignment `id`. */
  predicate NoEntryFor(es: seq<AssignEntry>, id: int) {
    forall i :: 0 <= i < |es| ==> es[i].id != id
  }

  /** No entry of `es` names grade item `lc`. */
  predicate NoEntryLinks(es: seq<AssignEntry>, lc: string) {
    forall i :: 0 <= i < |es| ==> es[i].lc != lc
  }

  /** No entry of `es` names course module `cm`. */
  predicate NoEntryCm(es: seq<AssignEntry>, cm: int) {
    forall i :: 0 <= i < |es| ==> es[i].cm != cm
  }

  /**
   * "Nothing else changes" between the tables `t` before and `t'` after the
   * entries `es`: no row is added to or removed from any table, the scale
   * table is untouched, the assign rows and grade items no entry names keep
   * their values, Turnitin settings other than use_turnitin keep theirs, the
   * use_turnitin settings of course modules no entry names keep theirs, and
   * sendlatenotifications keeps its value everywhere.
   */
  ghost predicate Framed(t: Tables, t': Tables, es: seq<AssignEntry>) {
    && t'.assign.Keys == t.assign.Keys
    && t'.gradeItems.Keys == t.gradeItems.Keys
    && t'.turnitin.Keys == t.turnitin.Keys
    && t'.scale == t.scale
    && (forall id :: id in t.assign ==> t'.assign[id].sendlatenotifications == t.assign[id].sendlatenotifications)
    && (forall id :: id in t.assign && NoEntryFor(es, id) ==> t'.assign[id] == t.assign[id])
    && (forall l :: l in t.gradeItems && NoEntryLinks(es, l) ==> t'.gradeItems[l] == t.gradeItems[l])
    && (forall k :: k in t.turnitin && k.1 != UseTurnitin ==> t'.turnitin[k] == t.turnitin[k])
    && (forall k :: k in t.turnitin && NoEntryCm(es, k.0) ==> t'.turnitin[k] == t.turnitin[k])
  }

  lemma ExpectedFramed(t: Tables, e: AssignEntry, ext: PArray<AssessEntry>, guard: TurnitinGuard)
    ensures Framed(t, Expected(t, e, ext, guard), [e])
  {
    assert [e][0] == e;
    assert forall id :: NoEntryFor([e], id) ==> e.id != id;
    assert forall l :: NoEntryLinks([e], l) ==> e.lc != l;
    assert forall cm :: NoEntryCm([e], cm) ==> e.cm != cm;
  }

  lemma FramedExtend(t: Tables, u: Tables, v: Tables, es: seq<AssignEntry>, e: AssignEntry)
    requires Framed(t, u, es) && Framed(u, v, [e])
    ensures Framed(t, v, es + [e])
  {
    forall id | id in t.assign && NoEntryFor(es + [e], id) ensures v.assign[id] == t.assign[id] {
      assert NoEntryFor(es, id) by {
        forall i | 0 <= i < |es| ensures es[i].id != id {
          assert (es + [e])[i] == es[i];
        }
      }
      assert (es + [e])[|es|] == e;
    }
    forall l | l in t.gradeItems && NoEntryLinks(es + [e], l) ensures v.gradeItems[l] == t.gradeItems[l] {
      assert NoEntryLinks(es, l) by {
        forall i | 0 <= i < |es| ensures es[i].lc != l {
          assert (es + [e])[i] == es[i];
        }
      }
      assert (es + [e])[|es|] == e;
    }
    forall k | k in t.turnitin && NoEntryCm(es + [e], k.0) ensures v.turnitin[k] == t.turnitin[k] {
      assert NoEntryCm(es, k.0) by {
        forall i | 0 <= i < |es| ensures es[i].cm != k.0 {
          assert (es + [e])[i] == es[i];
        }
      }
      assert (es + [e])[|es|] == e;
    }
  }

  /** A whole run keeps the frame of `Framed`. */
  lemma {:induction false} RunFrame(t: Tables, es: seq<AssignEntry>, ext: PArray<AssessEntry>, guard: TurnitinGuard)
    ensures Framed(t, ApplyAll(t, es, ext, guard), es)
  {
    if es != [] {
      var init, e := es[..|es| - 1], es[|es| - 1];
      var x := ApplyAll(t, init, ext, guard);
      RunFrame(t, init, ext, guard);
      ApplyEntryClosedForm(x, e, ext, guard);
      ExpectedFramed(x, e, ext, guard);
      FramedExtend(t, x, ApplyAll(t, es, ext, guard), init, e);
      assert init + [e] == es;
    }
  }

  /** Marking workflow, the submit button and the submission statement on; grader and student notifications not at 1. */
  predicate FlagsSettled(r: AssignRow) {
    r.markingworkflow != 0 && r.submissiondrafts != 0 && r.requiresubmissionstatement != 0 &&
    r.sendnotifications != 1 && r.sendstudentnotifications != 1
  }

  /**
   * After a run every assignment an entry names has its flags settled,
   * whatever order the entries came in and whether or not they repeat.
   */
  lemma {:induction false} RunSettlesFlags(t: Tables, es: seq<AssignEntry>, ext: PArray<AssessEntry>, guard: TurnitinGuard, i: nat)
    requires i < |es| && es[i].id != 0 && es[i].id in t.assign
    ensures es[i].id in ApplyAll(t, es, ext, guard).assign
    ensures FlagsSettled(ApplyAll(t, es, ext, guard).assign[es[i].id])
  {
    var init, e := es[..|es| - 1], es[|es| - 1];
    var x := ApplyAll(t, init, ext, guard);
    var id := es[i].id;
    assert id in x.assign by {
      RunFrame(t, init, ext, guard);
    }
    assert ApplyAll(t, es, ext, guard) == Expected(x, e, ext, guard) by {
      ApplyEntryClosedForm(x, e, ext, guard);
    }
    if i < |es| - 1 {
      assert init[i] == es[i];
      RunSettlesFlags(t, init, ext, guard, i);
    }
  }

  /**
   * After a run the grade item of every entry carries the scale the
   * external mark-scheme code names (0 when it names none), given that no two
   * entries share a link code.
   */
  lemma {:induction false} RunSyncsScale(t: Tables, es: seq<AssignEntry>, ext: PArray<AssessEntry>, guard: TurnitinGuard, i: nat)
    requires Disjoint(es)
    requires i < |es| && es[i].id != 0 && es[i].lc in t.gradeItems
    ensures es[i].lc in ApplyAll(t, es, ext, guard).gradeItems
    ensures ApplyAll(t, es, ext, guard).gradeItems[es[i].lc].scaleid == FoundScale(t, ext, es[i].lc)
  {
    var init, e := es[..|es| - 1], es[|es| - 1];
    var x := ApplyAll(t, init, ext, guard);
    var lc := es[i].lc;
    assert lc in x.gradeItems && x.scale == t.scale by {
      RunFrame(t, init, ext, guard);
    }
    assert ApplyAll(t, es, ext, guard) == Expected(x, e, ext, guard) by {
      ApplyEntryClosedForm(x, e, ext, guard);
    }
    ExpectedItem(x, e, ext, guard, lc);
    if i < |es| - 1 {
      assert init[i] == es[i];
      assert Disjoint(init);
      RunSyncsScale(t, init, ext, guard, i);
    }
  }

  /** One entry sets its own grade item's scale to the one found, and leaves every other item as it was. */
  lemma ExpectedItem(t: Tables, e: AssignEntry, ext: PArray<AssessEntry>, guard: TurnitinGuard, lc: string)
    requires lc in t.gradeItems
    ensures lc in Expected(t, e, ext, guard).gradeItems
    ensures e.id != 0 && lc == e.lc ==> Expected(t, e, ext, guard).gradeItems[lc].scaleid == FoundScale(t, ext, lc)
    ensures e.id == 0 || lc != e.lc ==> Expected(t, e, ext, guard).gradeItems[lc] == t.gradeItems[lc]
  {
  }

  // ---------------------------------------------------------------------------
  // The loop in mutable form

  /** `if (get_field(f) == test) set_field(f, write)` on the live tables. */
  method GuardedFlagWrite(db: LocalDb, id: int, f: AssignField, test: int, write: int)
    modifies db
    ensures db.State() == FlagStep(old(db.State()), id, f, test, write)
  {
    var v := db.GetAssignField(id, f);
    if FlagIs(v, test) {
      db.SetAssignField(id, f, write);
    }
  }

  /** The six flag writes of lines 207-242. */
  method UpdateFlags(db: LocalDb, id: int)
    modifies db
    ensures db.State() == FlagSteps(old(db.State()), id)
  {
    GuardedFlagWrite(db, id, MarkingWorkflow, 0, 1);
    GuardedFlagWrite(db, id, SubmissionDrafts, 0, 1);
    GuardedFlagWrite(db, id, RequireSubmissionStatement, 0, 1);
    GuardedFlagWrite(db, id, SendNotifications, 1, 0);
    GuardedFlagWrite(db, id, SendLateNotifications, 0, 0);
    GuardedFlagWrite(db, id, SendStudentNotifications, 1, 0);
  }

  method UpdateTurnitin(db: LocalDb, cm: int, guard: TurnitinGuard)
    modifies db
    ensures db.State() == TurnitinStep(old(db.State()), cm, guard)
  {
    var name := db.GetTurnitinName(cm, UseTurnitin);
    if guard(name) {
      db.SetTurnitinValue(cm, UseTurnitin, "1");
    }
  }

  method UpdateScale(db: LocalDb, id: int, lc: string, ext: PArray<AssessEntry>)
    modifies db
    ensures db.State() == ScaleStep(old(db.State()), id, lc, ext)
  {
    var item := db.GetGradeItem(lc);
    var cur: nat := if item.Some? then item.value.scaleid else 0;
    var found := db.GetScaleId(MarkScheme(ext, lc));
    if cur != found {
      if found > 0 {
        db.SetGradeItemScaleId(lc, found);
        db.SetAssignField(id, Grade, -(found as int));
        db.SetGradeItemType(lc, 2);
      } else {
        db.SetGradeItemScaleId(lc, 0);
        db.SetAssignField(id, Grade, 100);
        db.SetGradeItemType(lc, 1);
      }
    }
  }

  /** The body of the update loop on the live tables, each `$DB` call in source order. */
  method UpdateAssignment(db: LocalDb, e: AssignEntry, ext: PArray<AssessEntry>, guard: TurnitinGuard)
    modifies db
    ensures db.State() == ApplyEntry(old(db.State()), e, ext, guard)
  {
    if e.id != 0 {
      UpdateFlags(db, e.id);
      UpdateTurnitin(db, e.cm, guard);
      UpdateScale(db, e.id, e.lc, ext);
    }
  }

  /** `foreach ($assign_mdl as $k => $v)`: every entry in the array's order. */
  method UpdateSettings(db: LocalDb, assignMdl: PArray<AssignEntry>, ext: PArray<AssessEntry>, guard: TurnitinGuard)
    requires assignMdl.Valid()
    modifies db
    ensures db.State() == ApplyAll(old(db.State()), assignMdl.Entries(), ext, guard)
  {
    var es := assignMdl.Entries();
    for i := 0 to |assignMdl.keys|
      invariant db.State() == ApplyAll(old(db.State()), es[..i], ext, guard)
    {
      var k := assignMdl.keys[i];
      UpdateAssignment(db, assignMdl.values[k], ext, guard);
      assert es[..i + 1][..i] == es[..i];
    }
    assert es[..|es|] == es;
  }
}
