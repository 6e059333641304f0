/**
 * `SemesterPanel.Populate`: the rows of a semester's subject table. Old
 * rows are removed, one row per subject is added in order, then
 * placeholder rows until there are at least six.
 */
module SemesterRows {
  import opened Common

  const MinRows := 6

  /** `CurriculumConfig.SubjectEntry`. */
  datatype Subject = Subject(name: Option<string>, credits: int)

  /** A `SubjectRow` bound to a subject, or bound as a placeholder ("—"). */
  datatype Row = SubjectRow(name: Option<string>, credits: int) | Placeholder

  /** The subject list of a semester that may be `null` or hold a `null` list. */
  function SubjectsOf(sem: Option<Option<seq<Subject>>>): seq<Subject>
  {
    if sem.Some? && sem.value.Some? then sem.value.value else []
  }

  /**
   * The rows `Populate(sem)` leaves: the subjects first, in order, each with
   * its name and credits, then placeholders; at least six rows in all.
   */
  function Rows(sem: Option<Option<seq<Subject>>>): (r: seq<Row>)
    ensures var subjects := SubjectsOf(sem);
      && |r| == (if |subjects| < MinRows then MinRows else |subjects|)
      && (forall i :: 0 <= i < |subjects| ==> r[i] == SubjectRow(subjects[i].name, subjects[i].credits))
      && (forall i :: |subjects| <= i < |r| ==> r[i] == Placeholder)
  {
    var subjects := SubjectsOf(sem);
    var bound := seq(|subjects|, i requires 0 <= i < |subjects| => SubjectRow(subjects[i].name, subjects[i].credits));
    var pad := if |subjects| < MinRows then seq(MinRows - |subjects|, _ => Placeholder) else [];
    bound + pad
  }

  /** A missing semester or subject list shows six placeholders. */
  lemma MissingSemesterShowsSixPlaceholders(sem: Option<Option<seq<Subject>>>)
    requires sem.None? || sem.value.None?
    ensures Rows(sem) == [Placeholder, Placeholder, Placeholder, Placeholder, Placeholder, Placeholder]
  {
    var r := Rows(sem);
    assert |r| == 6;
    assert forall i :: 0 <= i < 6 ==> r[i] == Placeholder;
  }

  /** Placeholders are only padding: a semester with six or more subjects shows none. */
  lemma FullSemesterHasNoPlaceholder(sem: Option<Option<seq<Subject>>>)
    requires |SubjectsOf(sem)| >= MinRows
    ensures Placeholder !in Rows(sem)
  {
    var r := Rows(sem);
    forall i | 0 <= i < |r|
      ensures r[i] != Placeholder
    {
      assert i < |SubjectsOf(sem)|;
    }
  }

  /** The subjects can be read back from the rows: binding loses nothing. */
  lemma SubjectsReadBack(sem: Option<Option<seq<Subject>>>)
    ensures var subjects := SubjectsOf(sem);
      var r := Rows(sem);
      seq(|subjects|, i requires 0 <= i < |subjects| => Subject(r[i].name, r[i].credits)) == subjects
  {
  }

  /** `s` last element first. */
  function Reversed(s: seq<Row>): (r: seq<Row>)
    ensures |r| == |s|
    ensures forall i :: 0 <= i < |s| ==> r[i] == s[|s| - 1 - i]
  {
    if s == [] then [] else Reversed(s[1..]) + [s[0]]
  }

  // ---------------------------------------------------------------------
  // The component, rebuilding its rows in place
  // ---------------------------------------------------------------------

  class SemesterPanel {
    /** The rows under `contentRoot`. */
    var rows: seq<Row>
    /** Rows handed to `Destroy`, most recent last. */
    var destroyed: seq<Row>

    constructor ()
      ensures rows == [] && destroyed == []
    {
      rows, destroyed := [], [];
    }

    /** `Populate(sem)`: destroys the old rows from the last one down, then adds the new ones. */
    method Populate(sem: Option<Option<seq<Subject>>>)
      modifies this
      ensures rows == Rows(sem)
      ensures destroyed == old(destroyed) + Reversed(old(rows))
    {
      var i := |rows| - 1;
      while i >= 0
        invariant -1 <= i < |old(rows)|
        invariant rows == old(rows)[..i + 1]
        invariant destroyed == old(destroyed) + Reversed(old(rows)[i + 1..])
      {
        assert old(rows)[i..][1..] == old(rows)[i + 1..];
        destroyed := destroyed + [rows[i]];
        rows := rows[..i];
        i := i - 1;
      }
      assert old(rows)[0..] == old(rows);
      ghost var log := destroyed;

      var count := if sem.Some? && sem.value.Some? then |sem.value.value| else 0;
      ghost var subjects := SubjectsOf(sem);
      if sem.Some? && sem.value.Some? {
        var j := 0;
        while j < |sem.value.value|
          invariant 0 <= j <= |subjects|
          invariant |rows| == j && destroyed == log
          invariant forall k :: 0 <= k < j ==> rows[k] == SubjectRow(subjects[k].name, subjects[k].credits)
        {
          var s := sem.value.value[j];
          rows := rows + [SubjectRow(s.name, s.credits)];
          j := j + 1;
        }
      }

      var k := count;
      while k < MinRows
        invariant count <= k && |rows| == k && (k <= MinRows || k == count)
        invariant count == |subjects| && destroyed == log
        invariant forall m :: 0 <= m < count ==> rows[m] == SubjectRow(subjects[m].name, subjects[m].credits)
        invariant forall m :: count <= m < |rows| ==> rows[m] == Placeholder
      {
        rows := rows + [Placeholder];
        k := k + 1;
      }
      assert |rows| == |Rows(sem)|;
    }
  }
}
