/**
 * The local tables the job reads and writes through `$DB`: `assign` rows by
 * id, `grade_items` by idnumber (the link code), `plagiarism_turnitin_config`
 * by course module and setting name, and `scale` ids by scale name. Only the
 * columns the job touches are modelled.
 *
 * `$DB->set_field` is an UPDATE: when no row matches, nothing changes.
 * `$DB->get_field` yields false when no row matches, modelled as None.
 */
module LocalStore {
  import opened Php

  /** The setting name the Turnitin step looks up. */
  const UseTurnitin: string := "use_turnitin"

  /** The columns of an `assign` row that the job reads or writes. */
  datatype AssignRow = AssignRow(markingworkflow: int, submissiondrafts: int, requiresubmissionstatement: int,
                                 sendnotifications: int, sendlatenotifications: int, sendstudentnotifications: int,
                                 grade: int)

  datatype AssignField =
    | MarkingWorkflow | SubmissionDrafts | RequireSubmissionStatement
    | SendNotifications | SendLateNotifications | SendStudentNotifications | Grade

  function Get(r: AssignRow, f: AssignField): int {
    match f
    case MarkingWorkflow => r.markingworkflow
    case SubmissionDrafts => r.submissiondrafts
    case RequireSubmissionStatement => r.requiresubmissionstatement
    case SendNotifications => r.sendnotifications
    case SendLateNotifications => r.sendlatenotifications
    case SendStudentNotifications => r.sendstudentnotifications
    case Grade => r.grade
  }

  /** The row with one column replaced and every other column kept. */
  function With(r: AssignRow, f: AssignField, v: int): AssignRow {
    match f
    case MarkingWorkflow => r.(markingworkflow := v)
    case SubmissionDrafts => r.(submissiondrafts := v)
    case RequireSubmissionStatement => r.(requiresubmissionstatement := v)
    case SendNotifications => r.(sendnotifications := v)
    case SendLateNotifications => r.(sendlatenotifications := v)
    case SendStudentNotifications => r.(sendstudentnotifications := v)
    case Grade => r.(grade := v)
  }

  /** The columns of a `grade_items` row the job writes; a scaleid of 0 stands for NULL. */
  datatype GradeItem = GradeItem(scaleid: nat, gradetype: int)

  datatype Tables = Tables(
    assign: map<int, AssignRow>,
    gradeItems: map<string, GradeItem>,
    turnitin: map<(int, string), string>,
    scale: map<string, nat>)

  /** `$DB->get_field('assign', f, ['id' => id])`. */
  function GetAssign(t: Tables, id: int, f: AssignField): Option<int> {
    if id in t.assign then Some(Get(t.assign[id], f)) else None
  }

  /** `$DB->set_field('assign', f, v, ['id' => id])`. */
  function SetAssign(t: Tables, id: int, f: AssignField, v: int): Tables {
    if id in t.assign then t.(assign := t.assign[id := With(t.assign[id], f, v)]) else t
  }

  /** `$DB->set_field('grade_items', 'scaleid', s, ['idnumber' => idnumber])`, 0 writing NULL. */
  function SetScaleId(t: Tables, idnumber: string, s: nat): Tables {
    if idnumber in t.gradeItems then t.(gradeItems := t.gradeItems[idnumber := t.gradeItems[idnumber].(scaleid := s)]) else t
  }

  /** `$DB->set_field('grade_items', 'gradetype', g, ['idnumber' => idnumber])`. */
  function SetGradeType(t: Tables, idnumber: string, g: int): Tables {
    if idnumber in t.gradeItems then t.(gradeItems := t.gradeItems[idnumber := t.gradeItems[idnumber].(gradetype := g)]) else t
  }

  /** `$DB->get_field('plagiarism_turnitin_config', 'name', ['cm' => cm, 'name' => name])`: the name column of the row, if any. */
  function TurnitinName(t: Tables, cm: int, name: string): Cell {
    if (cm, name) in t.turnitin then Some(name) else None
  }

  /** `$DB->set_field('plagiarism_turnitin_config', 'value', v, ['cm' => cm, 'name' => name])`. */
  function SetTurnitin(t: Tables, cm: int, name: string, v: string): Tables {
    if (cm, name) in t.turnitin then t.(turnitin := t.turnitin[(cm, name) := v]) else t
  }

  /**
   * `$DB->get_field('scale', 'id', ['name' => name])`: the scale's id, 0 when
   * no scale has that name (false) and when the name is null (the
   * condition becomes `name IS NULL`, and a scale always has a name).
   */
  function ScaleId(scale: map<string, nat>, name: Cell): nat {
    if name.Some? && name.value in scale then scale[name.value] else 0
  }

  /** The local database as the job sees it: one table per field. */
  class LocalDb {
    var assign: map<int, AssignRow>
    var gradeItems: map<string, GradeItem>
    var turnitin: map<(int, string), string>
    var scale: map<string, nat>

    function State(): Tables
      reads this
    {
      Tables(assign, gradeItems, turnitin, scale)
    }

    constructor (t: Tables)
      ensures State() == t
    {
      assign, gradeItems, turnitin, scale := t.assign, t.gradeItems, t.turnitin, t.scale;
    }

    method GetAssignField(id: int, f: AssignField) returns (v: Option<int>)
      ensures v == GetAssign(State(), id, f)
    {
      v := if id in assign then Some(Get(assign[id], f)) else None;
    }

    method SetAssignField(id: int, f: AssignField, v: int)
      modifies this
      ensures State() == SetAssign(old(State()), id, f, v)
    {
      if id in assign {
        assign := assign[id := With(assign[id], f, v)];
      }
    }

    /** `$DB->get_record('grade_items', ['idnumber' => idnumber])`; false when there is none. */
    method GetGradeItem(idnumber: string) returns (g: Option<GradeItem>)
      ensures g == if idnumber in gradeItems then Some(gradeItems[idnumber]) else None
    {
      g := if idnumber in gradeItems then Some(gradeItems[idnumber]) else None;
    }

    method SetGradeItemScaleId(idnumber: string, s: nat)
      modifies this
      ensures State() == SetScaleId(old(State()), idnumber, s)
    {
      if idnumber in gradeItems {
        gradeItems := gradeItems[idnumber := gradeItems[idnumber].(scaleid := s)];
      }
    }

    method SetGradeItemType(idnumber: string, g: int)
      modifies this
      ensures State() == SetGradeType(old(State()), idnumber, g)
    {
      if idnumber in gradeItems {
        gradeItems := gradeItems[idnumber := gradeItems[idnumber].(gradetype := g)];
      }
    }

    method GetTurnitinName(cm: int, name: string) returns (n: Cell)
      ensures n == TurnitinName(State(), cm, name)
    {
      n := if (cm, name) in turnitin then Some(name) else None;
    }

    method SetTurnitinValue(cm: int, name: string, v: string)
      modifies this
      ensures State() == SetTurnitin(old(State()), cm, name, v)
    {
      if (cm, name) in turnitin {
        turnitin := turnitin[(cm, name) := v];
      }
    }

    method GetScaleId(name: Cell) returns (id: nat)
      ensures id == ScaleId(scale, name)
    {
      id := if name.Some? && name.value in scale then scale[name.value] else 0;
    }
  }
}
