/**
 * The record normaliser: raw result dictionaries from the results API are turned
 * into flat rows with tolerant numeric coercion, a latest-SGPA scan, a CGPA fallback
 * and positionally numbered subject columns. Also the SGPA bracketing and the
 * conjunctive row filter.
 */
module DataProcessor {
  import opened Optional
  import opened Text
  import opened Numbers
  import opened Json
  import opened Seqs

  // ---------------------------------------------------------------------------
  // Tolerant numeric coercion
  // ---------------------------------------------------------------------------

  /** The upper-cased spellings the upstream data uses for "no value". */
  const NullSentinels: set<string> := {"NULL", "NE", "N/A", "-", ""}

  /** `str(v).strip().upper()` is one of the null-sentinels. */
  predicate IsNullSentinel(v: Json)
  {
    match PyStr(v)
    case Plain(s) => Upper(Strip(s)) in NullSentinels
    case Repr(_) => false
  }

  /** What both coercions treat as absent: `None` (a missing key or JSON null) or a null-sentinel. */
  predicate IsAbsent(v: Option<Json>)
  {
    v == None || v == Some(JNull) || IsNullSentinel(v.value)
  }

  /**
   * `safe_float(value, default)`; `None` in the result stands for `default`.
   * Absent values give the default; anything else is `float()` of its text, and a
   * text `float()` rejects gives the default too.
   */
  function SafeFloat(v: Option<Json>): (r: Option<Float>)
    ensures IsAbsent(v) ==> r == None
    ensures !IsAbsent(v) && PyStr(v.value).Plain? ==> r == ParseFloat(PyStr(v.value).s)
    ensures v.Some? && PyStr(v.value).Repr? ==> r == None
  {
    if v.None? || v.value.JNull? then None
    else
      match PyStr(v.value)
      case Repr(_) => None
      case Plain(t) =>
        var s := Strip(t);
        ParseFloatOfStripped(t);
        if Upper(s) in NullSentinels then None else ParseFloat(s)
  }

  /**
   * `safe_int(value, default)` = `int(float(s))`; `None` stands for `default`.
   * The integer is the float's value truncated toward zero; an infinity or NaN makes
   * `int()` raise, which also gives the default.
   */
  function SafeInt(v: Option<Json>): (r: Option<int>)
    ensures r.Some? <==> SafeFloat(v).Some? && SafeFloat(v).value.Finite?
    ensures r.Some? ==>
      var x := SafeFloat(v).value.value;
      (x >= 0.0 ==> r.value as real <= x < r.value as real + 1.0) &&
      (x < 0.0 ==> r.value as real - 1.0 < x <= r.value as real)
  {
    match SafeFloat(v)
    case Some(Finite(x)) => Some(Truncate(x))
    case _ => None
  }

  // ---------------------------------------------------------------------------
  // Latest numeric SGPA
  // ---------------------------------------------------------------------------

  /** The number an SGPA history entry yields, if any: `safe_float(v, None)`. */
  function Reading(v: Json): Option<Float>
  {
    SafeFloat(Some(v))
  }

  /** The entry is not `None`, not a sentinel, and `float()` accepts it. */
  predicate Readable(v: Json)
  {
    Reading(v).Some?
  }

  /** `latest_numeric_sgpa`: the reading of the last readable entry, NaN if there is none. */
  function LatestReading(history: seq<Json>): Float
  {
    LastSome(history, Reading, NaN)
  }

  /** Entry `k` is readable and no later entry is. */
  predicate LastReadable(history: seq<Json>, k: int)
  {
    0 <= k < |history| && Readable(history[k]) && forall j :: k < j < |history| ==> !Readable(history[j])
  }

  /** With no readable entry the scan gives NaN. */
  lemma LatestReadingNone(history: seq<Json>)
    requires forall i :: 0 <= i < |history| ==> !Readable(history[i])
    ensures LatestReading(history) == NaN
  {
    LastSomeNone(history, Reading, NaN);
  }

  /** Otherwise the scan gives the reading of the last readable entry. */
  lemma LatestReadingIsLast(history: seq<Json>, k: int)
    requires LastReadable(history, k)
    ensures LatestReading(history) == Reading(history[k]).value
  {
    LastSomeAt(history, Reading, NaN, k);
  }

  /** The reverse loop with early return of `latest_numeric_sgpa`. */
  method LatestNumericSgpa(history: seq<Json>) returns (r: Float)
    ensures r == LatestReading(history)
  {
    if |history| == 0 {
      return NaN;
    }
    var i := |history|;
    assert history[..i] == history;
    while i > 0
      invariant 0 <= i <= |history|
      invariant LatestReading(history) == LatestReading(history[..i])
    {
      i := i - 1;
      assert history[..i + 1][..i] == history[..i];
      var v := history[i];
      if !v.JNull? && PyStr(v).Plain? {
        var s := Strip(PyStr(v).s);
        if Upper(s) !in NullSentinels {
          var parsed := ParseFloat(s);
          if parsed.Some? {
            return parsed.value;
          }
        }
      }
    }
    assert history[..0] == [];
    return NaN;
  }

  // ---------------------------------------------------------------------------
  // Rows
  // ---------------------------------------------------------------------------

  /** A value in a flat output row. `Value(JNull)` is Python's `None`. */
  datatype Cell =
    | Value(v: Json)       // a raw field passed through unchanged
    | Shown(t: PyText)     // `str()` of a raw field
    | Number(f: Float)
    | Integer(i: int)

  type Row = map<string, Cell>

  function NumberOrNone(o: Option<Float>): Cell
  {
    match o
    case Some(f) => Number(f)
    case None => Value(JNull)
  }

  function IntegerOrNone(o: Option<int>): Cell
  {
    match o
    case Some(i) => Integer(i)
    case None => Value(JNull)
  }

  const CurrentSgpaColumn := "Current SGPA"
  const CgpaColumn := "CGPA"
  const StatusColumn := "Status"
  const CollegeNameColumn := "College Name"
  const CourseColumn := "Course"
  const TotalSubjectsColumn := "Total Subjects"
  const TheorySubjectsColumn := "Theory Subjects"
  const PracticalSubjectsColumn := "Practical Subjects"

  /** The sixteen columns every row has. */
  const BaseColumns: set<string> := {
    "Registration No.", "Student Name", "Father's Name", "Mother's Name", "College Code",
    "College Name", "Course Code", "Course", "Semester", "Exam Held", "Current SGPA", "CGPA",
    "Status", "Total Subjects", "Theory Subjects", "Practical Subjects"}

  /** The four per-subject column suffixes. */
  const SubjectFields: set<string> := {"Name", "Grade", "Total", "Credit"}

  /** The column `f"{group}_{index}_{field}"`, e.g. `Theory_2_Grade`. */
  function ColumnKey(group: string, index: nat, field: string): string
  {
    group + "_" + NatStr(index) + "_" + field
  }

  /**
   * `record.get(key, []) or []` for a subject group; `None` when the value is truthy
   * but not a list, which makes the later concatenation, `len()` or iteration raise.
   */
  function SubjectList(v: Option<Json>): Option<seq<Json>>
  {
    if !TruthyOpt(v) then Some([])
    else if v.value.JArr? then Some(v.value.items)
    else None
  }

  /**
   * `record.get("sgpa") or []` as `reversed()` iterates it: a list's items, a string's
   * characters, a dict's keys; `None` for a truthy number or boolean, which `reversed()`
   * rejects with TypeError.
   */
  function SgpaHistory(v: Option<Json>): Option<seq<Json>>
  {
    if !TruthyOpt(v) then Some([])
    else
      match v.value
      case JArr(xs) => Some(xs)
      case JStr(s) => Some(seq(|s|, i requires 0 <= i < |s| => JStr([s[i]])))
      case JObj(fs) => Some(seq(|fs|, i requires 0 <= i < |fs| => JStr(fs[i].0)))
      case _ => None
  }

  /** Every subject is a dict; `subject.get` raises AttributeError on anything else. */
  predicate AllObjects(subjects: seq<Json>)
  {
    forall i :: 0 <= i < |subjects| ==> subjects[i].JObj?
  }

  /** The four cells one subject contributes, in column order. */
  datatype SubjectEntry = SubjectEntry(name: Cell, grade: Cell, total: Cell, credit: Cell)

  /** `name` and `grade` as given (empty when missing), `total` through `safe_int`, `credit` through `safe_float`. */
  function EntryOf(subject: seq<(string, Json)>): SubjectEntry
  {
    SubjectEntry(
      Value(GetOr(subject, "name", JStr(""))),
      Value(GetOr(subject, "grade", JStr(""))),
      IntegerOrNone(SafeInt(Get(subject, "total"))),
      NumberOrNone(SafeFloat(Get(subject, "credit"))))
  }

  /** The entries of a list of dict subjects, in order. */
  function Entries(subjects: seq<Json>): (es: seq<SubjectEntry>)
    requires AllObjects(subjects)
    ensures |es| == |subjects| && forall i :: 0 <= i < |subjects| ==> es[i] == EntryOf(subjects[i].fields)
  {
    seq(|subjects|, i requires 0 <= i < |subjects| => EntryOf(subjects[i].fields))
  }

  /** The cell of an entry under column suffix `field`. */
  function FieldOf(e: SubjectEntry, field: string): Cell
  {
    if field == "Name" then e.name
    else if field == "Grade" then e.grade
    else if field == "Total" then e.total
    else e.credit
  }

  /** The four columns of subject number `index` (counting from 1). */
  function EntryCells(group: string, index: nat, e: SubjectEntry): Row
  {
    map[
      ColumnKey(group, index, "Name") := e.name,
      ColumnKey(group, index, "Grade") := e.grade,
      ColumnKey(group, index, "Total") := e.total,
      ColumnKey(group, index, "Credit") := e.credit
    ]
  }

  /** The columns the `enumerate` loop adds for one subject group. */
  function EntryColumns(group: string, entries: seq<SubjectEntry>): Row
  {
    if entries == [] then map[]
    else EntryColumns(group, entries[..|entries| - 1]) + EntryCells(group, |entries|, entries[|entries| - 1])
  }

  /** The row dict as first built, before the subject loops. */
  function BaseRow(record: seq<(string, Json)>, currentSgpa: Float, cgpa: Float, theoryCount: nat, practicalCount: nat): Row
  {
    map[
      "Registration No." := Shown(PyStr(GetOr(record, "redg_no", JStr("")))),
      "Student Name" := Value(GetOr(record, "name", JStr(""))),
      "Father's Name" := Value(GetOr(record, "father_name", JStr(""))),
      "Mother's Name" := Value(GetOr(record, "mother_name", JStr(""))),
      "College Code" := Shown(PyStr(GetOr(record, "college_code", JStr("")))),
      "College Name" := Value(GetOr(record, "college_name", JStr(""))),
      "Course Code" := Shown(PyStr(GetOr(record, "course_code", JStr("")))),
      "Course" := Value(GetOr(record, "course", JStr(""))),
      "Semester" := Value(GetOr(record, "semester", JStr(""))),
      "Exam Held" := Value(GetOr(record, "exam_held", JStr(""))),
      "Current SGPA" := Number(currentSgpa),
      "CGPA" := Number(cgpa),
      "Status" := Value(GetOr(record, "fail_any", JStr("PASS"))),
      "Total Subjects" := Integer(theoryCount + practicalCount),
      "Theory Subjects" := Integer(theoryCount),
      "Practical Subjects" := Integer(practicalCount)
    ]
  }

  /** The CGPA column: the parsed `cgpa`, or the current SGPA when that is NaN (absent, sentinel or `nan`). */
  function CgpaOrFallback(cgpa: Option<Float>, currentSgpa: Float): Float
  {
    if cgpa.None? || cgpa.value.NaN? then currentSgpa else cgpa.value
  }

  /** The three lists the `try` block reads from a record, `None` where reading one raises. */
  function TheoryOf(record: seq<(string, Json)>): Option<seq<Json>>
  {
    SubjectList(Get(record, "theorySubjects"))
  }

  function PracticalOf(record: seq<(string, Json)>): Option<seq<Json>>
  {
    SubjectList(Get(record, "practicalSubjects"))
  }

  function HistoryOf(record: seq<(string, Json)>): Option<seq<Json>>
  {
    SgpaHistory(Get(record, "sgpa"))
  }

  /** The CGPA column value of a record whose current SGPA is `currentSgpa`. */
  function CgpaOf(record: seq<(string, Json)>, currentSgpa: Float): Float
  {
    CgpaOrFallback(SafeFloat(Get(record, "cgpa")), currentSgpa)
  }

  /** The body of the `try` block for one dict record; `None` when it raises and the record is skipped. */
  function RowOf(record: seq<(string, Json)>): Option<Row>
  {
    var theory, practical, history := TheoryOf(record), PracticalOf(record), HistoryOf(record);
    if theory.None? || practical.None? || history.None? then None
    else if !AllObjects(theory.value) || !AllObjects(practical.value) then None
    else
      var current := LatestReading(history.value);
      Some(BaseRow(record, current, CgpaOf(record, current), |theory.value|, |practical.value|) +
           EntryColumns("Theory", Entries(theory.value)) + EntryColumns("Practical", Entries(practical.value)))
  }

  /**
   * One `enumerate` loop: adds the four columns of each subject in turn;
   * `None` when a subject is not a dict and `subject.get` raises.
   */
  method AddSubjectColumns(row: Row, group: string, subjects: seq<Json>) returns (r: Option<Row>)
    ensures AllObjects(subjects) ==> r == Some(row + EntryColumns(group, Entries(subjects)))
    ensures !AllObjects(subjects) ==> r == None
  {
    var acc := row;
    for idx := 0 to |subjects|
      invariant AllObjects(subjects[..idx])
      invariant acc == row + EntryColumns(group, Entries(subjects[..idx]))
    {
      if !subjects[idx].JObj? {
        return None;
      }
      var subject := subjects[idx].fields;
      EntriesStep(subjects, idx);
      ghost var before := acc;
      var name, grade := Value(GetOr(subject, "name", JStr(""))), Value(GetOr(subject, "grade", JStr("")));
      var total, credit := IntegerOrNone(SafeInt(Get(subject, "total"))), NumberOrNone(SafeFloat(Get(subject, "credit")));
      acc := acc[ColumnKey(group, idx + 1, "Name") := name];
      acc := acc[ColumnKey(group, idx + 1, "Grade") := grade];
      acc := acc[ColumnKey(group, idx + 1, "Total") := total];
      acc := acc[ColumnKey(group, idx + 1, "Credit") := credit];
      UpdateFour(before, ColumnKey(group, idx + 1, "Name"), ColumnKey(group, idx + 1, "Grade"),
        ColumnKey(group, idx + 1, "Total"), ColumnKey(group, idx + 1, "Credit"), name, grade, total, credit);
      assert EntryCells(group, idx + 1, SubjectEntry(name, grade, total, credit)) ==
        map[ColumnKey(group, idx + 1, "Name") := name, ColumnKey(group, idx + 1, "Grade") := grade,
            ColumnKey(group, idx + 1, "Total") := total, ColumnKey(group, idx + 1, "Credit") := credit];
      UnionAssociative(row, EntryColumns(group, Entries(subjects[..idx])), EntryCells(group, idx + 1, EntryOf(subject)));
    }
    assert subjects[..|subjects|] == subjects;
    return Some(acc);
  }

  /** One more subject is one more entry, whose four columns are added last. */
  lemma EntriesStep(subjects: seq<Json>, idx: nat)
    requires idx < |subjects| && AllObjects(subjects[..idx + 1])
    ensures AllObjects(subjects[..idx])
    ensures Entries(subjects[..idx + 1]) == Entries(subjects[..idx]) + [EntryOf(subjects[idx].fields)]
    ensures Entries(subjects[..idx + 1])[..idx] == Entries(subjects[..idx])
  {
    assert Entries(subjects[..idx + 1]) == Entries(subjects[..idx]) + [EntryOf(subjects[idx].fields)];
  }

  lemma UnionAssociative(a: Row, b: Row, c: Row)
    ensures (a + b) + c == a + (b + c)
  {
  }

  /** Four successive updates of a map add the four entries. */
  lemma UpdateFour(m: Row, k1: string, k2: string, k3: string, k4: string, a: Cell, b: Cell, c: Cell, d: Cell)
    ensures m[k1 := a][k2 := b][k3 := c][k4 := d] == m + map[k1 := a, k2 := b, k3 := c, k4 := d]
  {
  }

  /** The row construction of `process_student_results` for one dict record. */
  method BuildRow(record: seq<(string, Json)>) returns (r: Option<Row>)
    ensures r == RowOf(record)
  {
    var theory, practical, history := TheoryOf(record), PracticalOf(record), HistoryOf(record);
    if theory.None? || practical.None? || history.None? {
      return None;
    }
    var currentSgpa := LatestNumericSgpa(history.value);
    var cgpa := CgpaOrFallback(SafeFloat(Get(record, "cgpa")), currentSgpa);
    var row := BaseRow(record, currentSgpa, cgpa, |theory.value|, |practical.value|);
    var withTheory := AddSubjectColumns(row, "Theory", theory.value);
    if withTheory.None? {
      return None;
    }
    r := AddSubjectColumns(withTheory.value, "Practical", practical.value);
  }

  // ---------------------------------------------------------------------------
  // Column keys
  // ---------------------------------------------------------------------------

  /** Within a group, a subject column's name determines its index and its field. */
  lemma ColumnKeyInjective(group: string, i: nat, f: string, j: nat, h: string)
    ensures ColumnKey(group, i, f) == ColumnKey(group, j, h) <==> i == j && f == h
  {
    if ColumnKey(group, i, f) == ColumnKey(group, j, h) {
      ColumnKeyTail(group, i, f);
      ColumnKeyTail(group, j, h);
      NatStrDigits(i);
      NatStrDigits(j);
      DigitsThenField(NatStr(i), f);
      DigitsThenField(NatStr(j), h);
      NatStrInjective(i, j);
    }
  }

  /** What follows the group and its underscore in a column name. */
  lemma ColumnKeyTail(group: string, i: nat, f: string)
    ensures ColumnKey(group, i, f)[|group| + 1..] == NatStr(i) + "_" + f
  {
    assert ColumnKey(group, i, f) == group + "_" + (NatStr(i) + "_" + f);
  }

  /** In digits, an underscore, then a field, the first underscore separates the two. */
  lemma DigitsThenField(digits: string, f: string)
    requires forall k :: 0 <= k < |digits| ==> IsDigit(digits[k])
    ensures IndexOf(digits + "_" + f, '_') == |digits|
    ensures (digits + "_" + f)[..|digits|] == digits && (digits + "_" + f)[|digits| + 1..] == f
  {
    var t := digits + "_" + f;
    assert t[|digits|] == '_';
    assert forall k :: 0 <= k < |digits| ==> t[k] == digits[k];
  }

  /** Subject columns of the two groups never share a name. */
  lemma ColumnKeyGroups(i: nat, f: string, j: nat, h: string)
    ensures ColumnKey("Theory", i, f) != ColumnKey("Practical", j, h)
  {
    assert ColumnKey("Theory", i, f)[0] != ColumnKey("Practical", j, h)[0];
  }

  /** No subject column is one of the base columns (none of which holds an underscore). */
  lemma ColumnKeyNotBase(group: string, i: nat, f: string)
    ensures ColumnKey(group, i, f) !in BaseColumns
  {
    var k := ColumnKey(group, i, f);
    assert k[|group|] == '_';
    assert forall b :: b in BaseColumns ==> '_' !in b;
  }

  /** The four columns of one subject are distinct, each holding its own cell. */
  lemma EntryCellsAt(group: string, i: nat, e: SubjectEntry, f: string)
    requires f in SubjectFields
    ensures ColumnKey(group, i, f) in EntryCells(group, i, e)
    ensures EntryCells(group, i, e)[ColumnKey(group, i, f)] == FieldOf(e, f)
  {
    ColumnKeyInjective(group, i, f, i, "Grade");
    ColumnKeyInjective(group, i, f, i, "Total");
    ColumnKeyInjective(group, i, f, i, "Credit");
  }

  /** Column `i` of a field exists exactly for the entries 1..n, and holds the cell of entry `i`. */
  lemma {:induction false} EntryColumnsAt(group: string, entries: seq<SubjectEntry>, i: nat, f: string)
    requires f in SubjectFields
    ensures ColumnKey(group, i, f) in EntryColumns(group, entries) <==> 1 <= i <= |entries|
    ensures 1 <= i <= |entries| ==> EntryColumns(group, entries)[ColumnKey(group, i, f)] == FieldOf(entries[i - 1], f)
  {
    if entries != [] {
      var n := |entries|;
      var front := entries[..n - 1];
      EntryColumnsAt(group, front, i, f);
      var cells := EntryCells(group, n, entries[n - 1]);
      var k := ColumnKey(group, i, f);
      if i == n {
        EntryCellsAt(group, n, entries[n - 1], f);
      } else {
        ColumnKeyInjective(group, i, f, n, "Name");
        ColumnKeyInjective(group, i, f, n, "Grade");
        ColumnKeyInjective(group, i, f, n, "Total");
        ColumnKeyInjective(group, i, f, n, "Credit");
        assert k !in cells;
        if 1 <= i < n {
          assert front[i - 1] == entries[i - 1];
        }
      }
    }
  }

  /** Every column the loop of a group adds is a subject column of that group. */
  lemma {:induction false} EntryColumnsKeys(group: string, entries: seq<SubjectEntry>)
    ensures forall k :: k in EntryColumns(group, entries) ==>
      exists i: nat, f :: 1 <= i <= |entries| && f in SubjectFields && k == ColumnKey(group, i, f)
  {
    if entries != [] {
      var n := |entries|;
      var front := entries[..n - 1];
      EntryColumnsKeys(group, front);
      var cells := EntryCells(group, n, entries[n - 1]);
      forall k | k in EntryColumns(group, entries)
        ensures exists i: nat, f :: 1 <= i <= n && f in SubjectFields && k == ColumnKey(group, i, f)
      {
        if k in EntryColumns(group, front) {
          var i: nat, f :| 1 <= i <= n - 1 && f in SubjectFields && k == ColumnKey(group, i, f);
        } else {
          assert k in cells.Keys;
          var f :| f in SubjectFields && k == ColumnKey(group, n, f);
        }
      }
    }
  }

  /** The subject loops leave the base columns alone. */
  lemma EntryColumnsNotBase(group: string, entries: seq<SubjectEntry>, k: string)
    requires k in BaseColumns
    ensures k !in EntryColumns(group, entries)
  {
    EntryColumnsKeys(group, entries);
    if k in EntryColumns(group, entries) {
      var i: nat, f :| 1 <= i <= |entries| && f in SubjectFields && k == ColumnKey(group, i, f);
      ColumnKeyNotBase(group, i, f);
    }
  }

  /** Neither subject loop touches the other group's columns. */
  lemma EntryColumnsOtherGroup(entries: seq<SubjectEntry>, i: nat, f: string)
    ensures ColumnKey("Theory", i, f) !in EntryColumns("Practical", entries)
    ensures ColumnKey("Practical", i, f) !in EntryColumns("Theory", entries)
  {
    EntryColumnsKeys("Practical", entries);
    EntryColumnsKeys("Theory", entries);
    if ColumnKey("Theory", i, f) in EntryColumns("Practical", entries) {
      var j: nat, h :| 1 <= j <= |entries| && h in SubjectFields && ColumnKey("Theory", i, f) == ColumnKey("Practical", j, h);
      ColumnKeyGroups(i, f, j, h);
    }
    if ColumnKey("Practical", i, f) in EntryColumns("Theory", entries) {
      var j: nat, h :| 1 <= j <= |entries| && h in SubjectFields && ColumnKey("Practical", i, f) == ColumnKey("Theory", j, h);
      ColumnKeyGroups(j, h, i, f);
    }
  }

  // ---------------------------------------------------------------------------
  // What a row holds
  // ---------------------------------------------------------------------------

  /** A base column of a produced row holds what the row dict was first built with. */
  lemma RowOfBase(record: seq<(string, Json)>, k: string)
    requires RowOf(record).Some? && k in BaseColumns
    ensures var current := LatestReading(HistoryOf(record).value);
      RowOf(record).value[k] ==
      BaseRow(record, current, CgpaOf(record, current), |TheoryOf(record).value|, |PracticalOf(record).value|)[k]
  {
    EntryColumnsNotBase("Theory", Entries(TheoryOf(record).value), k);
    EntryColumnsNotBase("Practical", Entries(PracticalOf(record).value), k);
  }

  /** The cells of the base row that the row lemmas below read. */
  lemma BaseRowCells(record: seq<(string, Json)>, currentSgpa: Float, cgpa: Float, theoryCount: nat, practicalCount: nat)
    ensures var row := BaseRow(record, currentSgpa, cgpa, theoryCount, practicalCount);
      row[CurrentSgpaColumn] == Number(currentSgpa) && row[CgpaColumn] == Number(cgpa) &&
      row[StatusColumn] == Value(GetOr(record, "fail_any", JStr("PASS"))) &&
      row[TotalSubjectsColumn] == Integer(theoryCount + practicalCount) &&
      row[TheorySubjectsColumn] == Integer(theoryCount) && row[PracticalSubjectsColumn] == Integer(practicalCount)
  {
  }

  /** The Current SGPA of a row is the latest readable SGPA of its history. */
  lemma RowCurrentSgpa(record: seq<(string, Json)>)
    requires RowOf(record).Some?
    ensures RowOf(record).value[CurrentSgpaColumn] == Number(LatestReading(HistoryOf(record).value))
  {
    var current := LatestReading(HistoryOf(record).value);
    RowOfBase(record, CurrentSgpaColumn);
    BaseRowCells(record, current, CgpaOf(record, current), |TheoryOf(record).value|, |PracticalOf(record).value|);
  }

  /**
   * The CGPA of a row is the parsed `cgpa` when there is one that is not NaN; when `cgpa`
   * is missing, null, a sentinel, unparseable or NaN it is the row's Current SGPA.
   */
  lemma RowCgpa(record: seq<(string, Json)>)
    requires RowOf(record).Some?
    ensures var v := Get(record, "cgpa");
      var row := RowOf(record).value;
      if !IsAbsent(v) && PyStr(v.value).Plain? && ParseFloat(PyStr(v.value).s).Some? &&
         !ParseFloat(PyStr(v.value).s).value.NaN?
      then row[CgpaColumn] == Number(ParseFloat(PyStr(v.value).s).value)
      else row[CgpaColumn] == row[CurrentSgpaColumn]
  {
    var current := LatestReading(HistoryOf(record).value);
    RowOfBase(record, CgpaColumn);
    RowOfBase(record, CurrentSgpaColumn);
    BaseRowCells(record, current, CgpaOf(record, current), |TheoryOf(record).value|, |PracticalOf(record).value|);
  }

  /** The Status of a row is the record's `fail_any`, `PASS` when the record has none. */
  lemma RowStatus(record: seq<(string, Json)>)
    requires RowOf(record).Some?
    ensures Get(record, "fail_any").Some? ==> RowOf(record).value[StatusColumn] == Value(Get(record, "fail_any").value)
    ensures Get(record, "fail_any").None? ==> RowOf(record).value[StatusColumn] == Value(JStr("PASS"))
  {
    RowOfBase(record, StatusColumn);
  }

  /** The three counts: theory, practical, and their sum. */
  lemma RowCounts(record: seq<(string, Json)>)
    requires RowOf(record).Some?
    ensures var row := RowOf(record).value;
      row[TheorySubjectsColumn] == Integer(|TheoryOf(record).value|) &&
      row[PracticalSubjectsColumn] == Integer(|PracticalOf(record).value|) &&
      row[TotalSubjectsColumn] == Integer(|TheoryOf(record).value| + |PracticalOf(record).value|)
  {
    RowOfBase(record, TheorySubjectsColumn);
    RowOfBase(record, PracticalSubjectsColumn);
    RowOfBase(record, TotalSubjectsColumn);
  }

  /**
   * The theory columns: `Theory_i_<field>` exists exactly for i = 1..n, and holds
   * that field of the i-th theory subject, in source order.
   */
  lemma RowTheory(record: seq<(string, Json)>, i: nat, f: string)
    requires RowOf(record).Some? && f in SubjectFields
    ensures var theory := TheoryOf(record).value;
      (ColumnKey("Theory", i, f) in RowOf(record).value <==> 1 <= i <= |theory|) &&
      (1 <= i <= |theory| ==> RowOf(record).value[ColumnKey("Theory", i, f)] == FieldOf(EntryOf(theory[i - 1].fields), f))
  {
    var theory, practical := TheoryOf(record).value, PracticalOf(record).value;
    EntryColumnsAt("Theory", Entries(theory), i, f);
    EntryColumnsOtherGroup(Entries(practical), i, f);
    ColumnKeyNotBase("Theory", i, f);
  }

  /** The practical columns, likewise for the practical subjects. */
  lemma RowPractical(record: seq<(string, Json)>, i: nat, f: string)
    requires RowOf(record).Some? && f in SubjectFields
    ensures var practical := PracticalOf(record).value;
      (ColumnKey("Practical", i, f) in RowOf(record).value <==> 1 <= i <= |practical|) &&
      (1 <= i <= |practical| ==> RowOf(record).value[ColumnKey("Practical", i, f)] == FieldOf(EntryOf(practical[i - 1].fields), f))
  {
    var theory, practical := TheoryOf(record).value, PracticalOf(record).value;
    EntryColumnsAt("Practical", Entries(practical), i, f);
    EntryColumnsOtherGroup(Entries(theory), i, f);
    ColumnKeyNotBase("Practical", i, f);
  }

  // ---------------------------------------------------------------------------
  // The whole batch
  // ---------------------------------------------------------------------------

  /** The row one record contributes: `None` for a dict whose processing raises. */
  function RecordRow(record: Json): Option<Row>
  {
    if record.JObj? then RowOf(record.fields) else None
  }

  /**
   * The rows `process_student_results` collects, before the DataFrame is built.
   * A record that is not a dict raises again inside the `except` handler (it calls
   * `student_data.get`), which ends the whole call.
   */
  function ProcessAll(records: seq<Json>): Result<seq<Row>>
  {
    if records == [] then Ok([])
    else
      match ProcessAll(records[..|records| - 1])
      case Raises => Raises
      case Ok(rows) =>
        var last := records[|records| - 1];
        if !last.JObj? then Raises
        else if RowOf(last.fields).Some? then Ok(rows + [RowOf(last.fields).value])
        else Ok(rows)
  }

  predicate AllDicts(records: seq<Json>)
  {
    forall i :: 0 <= i < |records| ==> records[i].JObj?
  }

  /**
   * The call raises exactly when some record is not a dict; otherwise the rows are, in
   * input order, those of the records whose processing does not raise.
   */
  lemma {:induction false} ProcessAllIsFilterMap(records: seq<Json>)
    ensures ProcessAll(records).Raises? <==> !AllDicts(records)
    ensures AllDicts(records) ==> ProcessAll(records) == Ok(FilterMap(records, RecordRow))
  {
    if records != [] {
      var front := records[..|records| - 1];
      assert forall i :: 0 <= i < |front| ==> front[i] == records[i];
      ProcessAllIsFilterMap(front);
      if !AllDicts(front) {
        var i :| 0 <= i < |front| && !front[i].JObj?;
        assert !records[i].JObj?;
      }
    }
  }

  /** At most one row per record, and exactly one each when no record is skipped. */
  lemma ProcessAllLength(records: seq<Json>)
    requires ProcessAll(records).Ok?
    ensures |ProcessAll(records).value| <= |records|
    ensures |ProcessAll(records).value| == |records| <==> forall i :: 0 <= i < |records| ==> RecordRow(records[i]).Some?
  {
    ProcessAllIsFilterMap(records);
    FilterMapLength(records, RecordRow);
  }

  /** Every row comes from some record, and every record that normalises gives its row. */
  lemma ProcessAllRows(records: seq<Json>)
    requires ProcessAll(records).Ok?
    ensures forall row :: row in ProcessAll(records).value <==>
      exists i :: 0 <= i < |records| && RecordRow(records[i]) == Some(row)
  {
    ProcessAllIsFilterMap(records);
    var rows := FilterMap(records, RecordRow);
    assert ProcessAll(records).value == rows;
    FilterMapMembers(records, RecordRow);
    assert forall i :: 0 <= i < |records| ==> RecordRow(records[i]) == (RecordRow)(records[i]);
  }

  /** A record whose processing raises is skipped without affecting the rows of the others. */
  lemma ProcessAllSkips(before: seq<Json>, record: Json, after: seq<Json>)
    requires record.JObj? && RowOf(record.fields).None?
    ensures ProcessAll(before + [record] + after) == ProcessAll(before + after)
  {
    ProcessAllIsFilterMap(before + [record] + after);
    ProcessAllIsFilterMap(before + after);
    AllDictsSkip(before, record, after);
    if AllDicts(before + after) {
      FilterMapSkip(before, record, after, RecordRow);
    }
  }

  lemma AllDictsSkip(before: seq<Json>, record: Json, after: seq<Json>)
    requires record.JObj?
    ensures AllDicts(before + [record] + after) <==> AllDicts(before + after)
  {
    var all, rest := before + [record] + after, before + after;
    if !AllDicts(rest) {
      var i :| 0 <= i < |rest| && !rest[i].JObj?;
      if i < |before| { assert all[i] == rest[i]; } else { assert all[i + 1] == rest[i]; }
    }
    if !AllDicts(all) {
      var i :| 0 <= i < |all| && !all[i].JObj?;
      if i < |before| { assert all[i] == rest[i]; } else { assert all[i] == rest[i - 1]; }
    }
  }

  /** The loop of `process_student_results`: one row per record that normalises, appended in order. */
  method ProcessStudentResults(records: seq<Json>) returns (r: Result<seq<Row>>)
    ensures r == ProcessAll(records)
  {
    var rows: seq<Row> := [];
    for i := 0 to |records|
      invariant ProcessAll(records[..i]) == Ok(rows)
    {
      assert records[..i + 1][..i] == records[..i];
      if !records[i].JObj? {
        ProcessAllIsFilterMap(records);
        return Raises;
      }
      var row := BuildRow(records[i].fields);
      if row.Some? {
        rows := rows + [row.value];
      }
    }
    assert records[..|records|] == records;
    return Ok(rows);
  }

  // ---------------------------------------------------------------------------
  // Worked cases
  // ---------------------------------------------------------------------------

  /** A text that starts and ends with a digit is not a null-sentinel. */
  lemma DigitLedNotSentinel(s: string)
    requires |s| > 0 && IsDigit(s[0]) && IsDigit(s[|s| - 1])
    ensures !IsNullSentinel(JStr(s)) && !IsNullSentinel(JNum(s))
  {
    DigitLedStrip(s);
    DigitLedUpper(s);
    DigitLedNotListed(Upper(s));
  }

  lemma DigitLedStrip(s: string)
    requires |s| > 0 && IsDigit(s[0]) && IsDigit(s[|s| - 1])
    ensures Strip(s) == s
  {
  }

  lemma DigitLedUpper(s: string)
    requires |s| > 0 && IsDigit(s[0])
    ensures |Upper(s)| > 0 && IsDigit(Upper(s)[0])
  {
  }

  lemma DigitLedNotListed(t: string)
    requires |t| > 0 && IsDigit(t[0])
    ensures t !in NullSentinels
  {
    assert t[0] != "NULL"[0] && t[0] != "NE"[0] && t[0] != "N/A"[0] && t[0] != "-"[0];
  }

  /** A text that is no sentinel is read by `safe_float` as `float()` reads it. */
  lemma SafeFloatOfText(v: Json, s: string, x: Float)
    requires v == JStr(s) || v == JNum(s)
    requires !IsNullSentinel(v) && ParseFloat(s) == Some(x)
    ensures SafeFloat(Some(v)) == Some(x)
  {
    assert !IsAbsent(Some(v));
    assert PyStr(v) == Plain(s);
  }

  /** `int()` of a float that holds an integer is that integer. */
  lemma SafeIntOfWhole(v: Option<Json>, n: int)
    requires SafeFloat(v) == Some(Finite(n as real))
    ensures SafeInt(v) == Some(n)
  {
  }

  /** A text that is no sentinel and that `float()` reads as the integer `n` gives `n` under `safe_int`. */
  lemma SafeIntOfText(v: Json, s: string, n: int)
    requires v == JStr(s) || v == JNum(s)
    requires !IsNullSentinel(v) && ParseFloat(s) == Some(Finite(n as real))
    ensures SafeInt(Some(v)) == Some(n)
  {
    SafeFloatOfText(v, s, Finite(n as real));
    SafeIntOfWhole(Some(v), n);
  }

  /** `safe_int` truncates through `float`: `"57"`, `"57.0"` and the number 57 all give 57. */
  lemma SafeIntOfNatText(n: nat)
    ensures SafeInt(Some(JStr(NatStr(n)))) == Some(n)
    ensures SafeInt(Some(JStr(NatStr(n) + ".0"))) == Some(n)
    ensures SafeInt(Some(JNum(NatStr(n)))) == Some(n)
  {
    var s, t := NatStr(n), NatStr(n) + ".0";
    NatStrDigits(n);
    ParseNatStr(n);
    ParseNatStrPointZero(n);
    DigitLedNotSentinel(s);
    assert t[|t| - 1] == '0' && t[0] == s[0];
    DigitLedNotSentinel(t);
    SafeIntOfText(JStr(s), s, n);
    SafeIntOfText(JStr(t), t, n);
    SafeIntOfText(JNum(s), s, n);
  }

  /** The SGPA history of the `test_cgpa_null.py` fixture. */
  const SampleHistory: seq<Json> := [JStr("NULL"), JStr("NULL"), JStr("7.67"), JNull, JNull, JNull, JNull, JNull]

  lemma SampleEntryReading()
    ensures Reading(JStr("7.67")) == Some(Finite(7.67))
  {
    SampleParse();
    SampleDigits();
    DigitLedNotSentinel("7.67");
    SafeFloatOfText(JStr("7.67"), "7.67", Finite(7.67));
  }

  lemma SampleDigits()
    ensures |"7.67"| > 0 && IsDigit("7.67"[0]) && IsDigit("7.67"[|"7.67"| - 1])
  {
  }

  lemma SampleParse()
    ensures ParseFloat("7.67") == Some(Finite(7.67))
  {
    ParsePointDigits(7, "67");
    SampleText();
    SampleFraction();
  }

  lemma SampleFraction()
    ensures Fraction("67") == 0.67
  {
    assert DigitsValue("67") == 67 by { assert "67"[..1] == "6"; assert "6"[..0] == []; }
    assert Pow10(2) == 100;
  }

  lemma SampleText()
    ensures NatStr(7) + "." + "67" == "7.67"
  {
  }

  /** The fixture's history reads 7.67: the two leading `NULL`s and the trailing `None`s are passed over. */
  lemma SampleHistoryReading()
    ensures LatestReading(SampleHistory) == Finite(7.67)
  {
    var nulls := [JNull, JNull, JNull, JNull, JNull];
    SampleSplit(nulls);
    SampleEntryReading();
    NullNotReadable();
    LatestReadingBeforeUnreadable([JStr("NULL"), JStr("NULL")], JStr("7.67"), nulls);
  }

  lemma SampleSplit(nulls: seq<Json>)
    requires nulls == [JNull, JNull, JNull, JNull, JNull]
    ensures SampleHistory == [JStr("NULL"), JStr("NULL")] + [JStr("7.67")] + nulls
    ensures forall j :: 0 <= j < |nulls| ==> nulls[j] == JNull
  {
  }

  /** A readable entry followed only by unreadable ones is the one the scan returns. */
  lemma LatestReadingBeforeUnreadable(before: seq<Json>, x: Json, after: seq<Json>)
    requires Readable(x) && forall j :: 0 <= j < |after| ==> !Readable(after[j])
    ensures LatestReading(before + [x] + after) == Reading(x).value
  {
    var h := before + [x] + after;
    assert h[|before|] == x;
    assert forall j :: |before| < j < |h| ==> h[j] == after[j - |before| - 1];
    LatestReadingIsLast(h, |before|);
  }

  lemma NullNotReadable()
    ensures !Readable(JNull)
  {
  }

  /**
   * A record whose subject lists are missing, falsy or lists of dicts, and whose `sgpa` is
   * missing, falsy or a list (as the fixture record's are), makes a row.
   */
  lemma RowOfShaped(record: seq<(string, Json)>)
    requires DictList(Get(record, "theorySubjects")) && DictList(Get(record, "practicalSubjects"))
    requires !TruthyOpt(Get(record, "sgpa")) || Get(record, "sgpa").value.JArr?
    ensures RowOf(record).Some?
  {
  }

  /** Missing, falsy, or a list whose items are all dicts. */
  predicate DictList(v: Option<Json>)
  {
    !TruthyOpt(v) || (v.value.JArr? && AllObjects(v.value.items))
  }

  /**
   * A record with that history, `cgpa` `"NULL"`, and subject lists of dicts (or none), such
   * as the fixture record, gets 7.67 as both its Current SGPA and its CGPA.
   */
  lemma CgpaNullFixture(record: seq<(string, Json)>)
    requires DictList(Get(record, "theorySubjects")) && DictList(Get(record, "practicalSubjects"))
    requires Get(record, "sgpa") == Some(JArr(SampleHistory)) && Get(record, "cgpa") == Some(JStr("NULL"))
    ensures RowOf(record).Some?
    ensures RowOf(record).value[CurrentSgpaColumn] == Number(Finite(7.67))
    ensures RowOf(record).value[CgpaColumn] == Number(Finite(7.67))
  {
    RowOfShaped(record);
    HistoryOfList(record, SampleHistory);
    SampleHistoryReading();
    RowCurrentSgpa(record);
    NullTextAbsent();
    RowCgpa(record);
  }

  lemma HistoryOfList(record: seq<(string, Json)>, xs: seq<Json>)
    requires Get(record, "sgpa") == Some(JArr(xs)) && xs != []
    ensures HistoryOf(record) == Some(xs)
  {
  }

  lemma NullTextAbsent()
    ensures IsAbsent(Some(JStr("NULL")))
  {
    var s := "NULL";
    assert s[0] == 'N' && s[|s| - 1] == 'L';
    assert !IsSpace('N') && !IsSpace('L');
    assert Strip(s) == s && Upper(s) == s;
  }

  // ---------------------------------------------------------------------------
  // SGPA brackets
  // ---------------------------------------------------------------------------

  /** The six performance brackets, lowest first. */
  datatype Bracket = BelowAverage | Average | Good | VeryGood | Excellent | Outstanding

  /** The text `get_grade_category` returns for a bracket. */
  function Label(b: Bracket): string
  {
    match b
    case Outstanding => "Outstanding (9.0+)"
    case Excellent => "Excellent (8.0-8.9)"
    case VeryGood => "Very Good (7.0-7.9)"
    case Good => "Good (6.0-6.9)"
    case Average => "Average (5.0-5.9)"
    case BelowAverage => "Below Average (<5.0)"
  }

  function Rank(b: Bracket): nat
  {
    match b
    case BelowAverage => 0
    case Average => 1
    case Good => 2
    case VeryGood => 3
    case Excellent => 4
    case Outstanding => 5
  }

  /** The SGPA a bracket starts at; the lowest bracket has none. */
  function Threshold(b: Bracket): Option<real>
  {
    match b
    case BelowAverage => None
    case Average => Some(5.0)
    case Good => Some(6.0)
    case VeryGood => Some(7.0)
    case Excellent => Some(8.0)
    case Outstanding => Some(9.0)
  }

  /** An SGPA reaches a bracket when it is at least the bracket's threshold; every SGPA reaches the lowest. */
  predicate Reaches(sgpa: Float, b: Bracket)
  {
    Threshold(b).None? || AtLeast(sgpa, Threshold(b).value)
  }

  /** `get_grade_category`: the highest bracket the SGPA reaches. NaN reaches none above the lowest. */
  function GradeCategory(sgpa: Float): (b: Bracket)
    ensures Reaches(sgpa, b)
    ensures forall c :: Rank(c) > Rank(b) ==> !Reaches(sgpa, c)
  {
    if AtLeast(sgpa, 9.0) then Outstanding
    else if AtLeast(sgpa, 8.0) then Excellent
    else if AtLeast(sgpa, 7.0) then VeryGood
    else if AtLeast(sgpa, 6.0) then Good
    else if AtLeast(sgpa, 5.0) then Average
    else BelowAverage
  }

  /** No two brackets share a label. */
  lemma LabelsDistinct(b: Bracket, c: Bracket)
    ensures Label(b) == Label(c) <==> b == c
  {
    if b != c {
      assert Label(b)[0] != Label(c)[0];
    }
  }

  /** A higher SGPA never falls in a lower bracket. */
  lemma GradeCategoryMonotone(x: Float, y: Float)
    requires Le(x, y)
    ensures Rank(GradeCategory(x)) <= Rank(GradeCategory(y))
  {
    var b := GradeCategory(x);
    if Threshold(b).Some? {
      AtLeastMonotone(x, y, Threshold(b).value);
    }
    assert Reaches(y, b);
  }

  // ---------------------------------------------------------------------------
  // Filtering
  // ---------------------------------------------------------------------------

  /** A DataFrame built from a list of row dicts: every key of any row is a column. */
  datatype Frame = Frame(columns: set<string>, rows: seq<Row>)

  function ColumnsOf(rows: seq<Row>): set<string>
  {
    if rows == [] then {} else ColumnsOf(rows[..|rows| - 1]) + rows[|rows| - 1].Keys
  }

  /** `pd.DataFrame(rows)`. */
  function FrameOf(rows: seq<Row>): Frame
  {
    Frame(ColumnsOf(rows), rows)
  }

  /** A column of the frame is a key of some row. */
  lemma {:induction false} ColumnsOfMembers(rows: seq<Row>)
    ensures forall k :: k in ColumnsOf(rows) <==> exists i :: 0 <= i < |rows| && k in rows[i]
  {
    if rows != [] {
      var front := rows[..|rows| - 1];
      ColumnsOfMembers(front);
      assert forall i :: 0 <= i < |front| ==> front[i] == rows[i];
    }
  }

  /** The cell of a row under a column of its frame; a row without that key holds NaN there. */
  function CellAt(row: Row, column: string): Cell
  {
    if column in row then row[column] else Number(NaN)
  }

  /**
   * `cell == text` for a str. Only a text cell equal to it matches; numbers, None and NaN
   * never do. (The columns filtered on hold raw values, never `str()` of a container.)
   */
  predicate CellIs(c: Cell, text: string)
  {
    match c
    case Value(v) => v == JStr(text)
    case Shown(t) => t == Plain(text)
    case _ => false
  }

  /** `cell >= bound` on the numeric SGPA column; NaN compares false. */
  predicate CellAtLeast(c: Cell, bound: real)
  {
    match c
    case Number(f) => AtLeast(f, bound)
    case Integer(i) => i as real >= bound
    case _ => false
  }

  /** `cell <= bound` on the numeric SGPA column; NaN compares false. */
  predicate CellAtMost(c: Cell, bound: real)
  {
    match c
    case Number(f) => AtMost(f, bound)
    case Integer(i) => i as real <= bound
    case _ => false
  }

  /** One boolean mask of `filter_dataframe`. */
  datatype Test = Equals(column: string, text: string) | SgpaAtLeast(min: real) | SgpaAtMost(max: real)

  function TestColumn(t: Test): string
  {
    match t
    case Equals(column, _) => column
    case SgpaAtLeast(_) => CurrentSgpaColumn
    case SgpaAtMost(_) => CurrentSgpaColumn
  }

  predicate Passes(row: Row, t: Test)
  {
    match t
    case Equals(column, text) => CellIs(CellAt(row, column), text)
    case SgpaAtLeast(min) => CellAtLeast(CellAt(row, CurrentSgpaColumn), min)
    case SgpaAtMost(max) => CellAtMost(CellAt(row, CurrentSgpaColumn), max)
  }

  predicate PassesAll(row: Row, tests: seq<Test>)
  {
    forall i :: 0 <= i < |tests| ==> Passes(row, tests[i])
  }

  /** The keyword arguments of `filter_dataframe`; `None` is an omitted argument. */
  datatype Criteria = Criteria(
    college: Option<string>, course: Option<string>, status: Option<string>,
    sgpaMin: Option<real>, sgpaMax: Option<real>)

  /** `if college:` — a text criterion applies when it is given and not empty. */
  predicate Given(s: Option<string>)
  {
    s.Some? && s.value != ""
  }

  /** The masks applied, in the order the source applies them. */
  function Tests(c: Criteria): seq<Test>
  {
    (if Given(c.college) then [Equals(CollegeNameColumn, c.college.value)] else []) +
    (if Given(c.course) then [Equals(CourseColumn, c.course.value)] else []) +
    (if Given(c.status) then [Equals(StatusColumn, c.status.value)] else []) +
    (if c.sgpaMin.Some? then [SgpaAtLeast(c.sgpaMin.value)] else []) +
    (if c.sgpaMax.Some? then [SgpaAtMost(c.sgpaMax.value)] else [])
  }

  /** `result = result[mask]`; selecting a column the frame lacks raises KeyError. */
  function Step(df: Frame, t: Test): Result<Frame>
  {
    if TestColumn(t) !in df.columns then Raises
    else Ok(Frame(df.columns, Filter(df.rows, row => Passes(row, t))))
  }

  /** The chain of masks, applied one after another to a copy of the frame. */
  function ApplyTests(df: Frame, tests: seq<Test>): Result<Frame>
  {
    if tests == [] then Ok(df)
    else
      match ApplyTests(df, tests[..|tests| - 1])
      case Raises => Raises
      case Ok(d) => Step(d, tests[|tests| - 1])
  }

  /** `filter_dataframe(df, college, course, status, sgpa_min, sgpa_max)`. */
  function FilterDataframe(df: Frame, c: Criteria): Result<Frame>
  {
    ApplyTests(df, Tests(c))
  }

  /** A row meets the criteria: it satisfies every criterion given, and an omitted one constrains nothing. */
  predicate Matches(row: Row, c: Criteria)
  {
    (Given(c.college) ==> CellIs(CellAt(row, CollegeNameColumn), c.college.value)) &&
    (Given(c.course) ==> CellIs(CellAt(row, CourseColumn), c.course.value)) &&
    (Given(c.status) ==> CellIs(CellAt(row, StatusColumn), c.status.value)) &&
    (c.sgpaMin.Some? ==> CellAtLeast(CellAt(row, CurrentSgpaColumn), c.sgpaMin.value)) &&
    (c.sgpaMax.Some? ==> CellAtMost(CellAt(row, CurrentSgpaColumn), c.sgpaMax.value))
  }

  /** Some criterion is given whose column the frame does not have. */
  predicate MissingColumn(columns: set<string>, c: Criteria)
  {
    (Given(c.college) && CollegeNameColumn !in columns) ||
    (Given(c.course) && CourseColumn !in columns) ||
    (Given(c.status) && StatusColumn !in columns) ||
    ((c.sgpaMin.Some? || c.sgpaMax.Some?) && CurrentSgpaColumn !in columns)
  }

  /** The chain raises exactly when a mask names a missing column, and otherwise keeps the rows passing every mask. */
  lemma {:induction false} ApplyTestsSpec(df: Frame, tests: seq<Test>)
    ensures ApplyTests(df, tests).Raises? <==> exists i :: 0 <= i < |tests| && TestColumn(tests[i]) !in df.columns
    ensures ApplyTests(df, tests).Ok? ==>
      ApplyTests(df, tests).value == Frame(df.columns, Filter(df.rows, row => PassesAll(row, tests)))
  {
    if tests == [] {
      FilterAll(df.rows, row => PassesAll(row, tests));
    } else {
      var front, last := tests[..|tests| - 1], tests[|tests| - 1];
      assert forall i :: 0 <= i < |front| ==> front[i] == tests[i];
      ApplyTestsSpec(df, front);
      if ApplyTests(df, front).Ok? {
        if TestColumn(last) !in df.columns {
          assert TestColumn(tests[|tests| - 1]) !in df.columns;
        }
        assert tests == front + [last];
        FilterStep(df.rows, front, last);
      } else {
        var i :| 0 <= i < |front| && TestColumn(front[i]) !in df.columns;
        assert TestColumn(tests[i]) !in df.columns;
      }
    }
  }

  /** Applying one more mask to the rows passing the others keeps the rows passing all of them. */
  lemma FilterStep(rows: seq<Row>, front: seq<Test>, last: Test)
    ensures Filter(Filter(rows, row => PassesAll(row, front)), row => Passes(row, last)) ==
      Filter(rows, row => PassesAll(row, front + [last]))
  {
    var p, q, r := row => PassesAll(row, front), row => Passes(row, last), row => PassesAll(row, front + [last]);
    forall row ensures r(row) == (p(row) && q(row)) {
      PassesAllConcat(row, front, [last]);
      PassesSingle(row, last);
    }
    FilterTwice(rows, p, q, r);
  }

  lemma PassesAllConcat(row: Row, a: seq<Test>, b: seq<Test>)
    ensures PassesAll(row, a + b) <==> PassesAll(row, a) && PassesAll(row, b)
  {
    if PassesAll(row, a) && PassesAll(row, b) {
      forall i | 0 <= i < |a + b| ensures Passes(row, (a + b)[i]) {
        if i >= |a| { assert (a + b)[i] == b[i - |a|]; }
      }
    }
    if PassesAll(row, a + b) {
      forall i | 0 <= i < |b| ensures Passes(row, b[i]) {
        assert (a + b)[i + |a|] == b[i];
      }
      forall i | 0 <= i < |a| ensures Passes(row, a[i]) {
        assert (a + b)[i] == a[i];
      }
    }
  }

  lemma PassesSingle(row: Row, t: Test)
    ensures PassesAll(row, [t]) <==> Passes(row, t)
  {
    assert [t][0] == t;
  }

  /** Passing every mask of the criteria is meeting them. */
  lemma TestsMatch(row: Row, c: Criteria)
    ensures PassesAll(row, Tests(c)) <==> Matches(row, c)
  {
    var a := if Given(c.college) then [Equals(CollegeNameColumn, c.college.value)] else [];
    var b := if Given(c.course) then [Equals(CourseColumn, c.course.value)] else [];
    var s := if Given(c.status) then [Equals(StatusColumn, c.status.value)] else [];
    var lo := if c.sgpaMin.Some? then [SgpaAtLeast(c.sgpaMin.value)] else [];
    var hi := if c.sgpaMax.Some? then [SgpaAtMost(c.sgpaMax.value)] else [];
    assert Tests(c) == a + b + s + lo + hi;
    PassesAllConcat(row, a + b + s + lo, hi);
    PassesAllConcat(row, a + b + s, lo);
    PassesAllConcat(row, a + b, s);
    PassesAllConcat(row, a, b);
    if Given(c.college) { PassesSingle(row, Equals(CollegeNameColumn, c.college.value)); }
    if Given(c.course) { PassesSingle(row, Equals(CourseColumn, c.course.value)); }
    if Given(c.status) { PassesSingle(row, Equals(StatusColumn, c.status.value)); }
    if c.sgpaMin.Some? { PassesSingle(row, SgpaAtLeast(c.sgpaMin.value)); }
    if c.sgpaMax.Some? { PassesSingle(row, SgpaAtMost(c.sgpaMax.value)); }
  }

  /** The masks of the criteria name a missing column exactly when a given criterion's column is missing. */
  lemma TestsColumns(columns: set<string>, c: Criteria)
    ensures (exists i :: 0 <= i < |Tests(c)| && TestColumn(Tests(c)[i]) !in columns) <==> MissingColumn(columns, c)
  {
    var ts := Tests(c);
    if MissingColumn(columns, c) {
      var t :| t in ts && TestColumn(t) !in columns by {
        if Given(c.college) && CollegeNameColumn !in columns {
          assert Equals(CollegeNameColumn, c.college.value) in ts;
        } else if Given(c.course) && CourseColumn !in columns {
          assert Equals(CourseColumn, c.course.value) in ts;
        } else if Given(c.status) && StatusColumn !in columns {
          assert Equals(StatusColumn, c.status.value) in ts;
        } else if c.sgpaMin.Some? {
          assert SgpaAtLeast(c.sgpaMin.value) in ts;
        } else {
          assert SgpaAtMost(c.sgpaMax.value) in ts;
        }
      }
    }
  }

  /**
   * `filter_dataframe` raises KeyError exactly when a given criterion's column is missing
   * (as in the frame of an empty batch); otherwise it keeps, in order, the rows that meet
   * every given criterion, and the columns.
   */
  lemma FilterDataframeSpec(df: Frame, c: Criteria)
    ensures FilterDataframe(df, c).Raises? <==> MissingColumn(df.columns, c)
    ensures FilterDataframe(df, c).Ok? ==>
      FilterDataframe(df, c).value == Frame(df.columns, Filter(df.rows, row => Matches(row, c)))
  {
    ApplyTestsSpec(df, Tests(c));
    TestsColumns(df.columns, c);
    forall row ensures PassesAll(row, Tests(c)) == Matches(row, c) {
      TestsMatch(row, c);
    }
    FilterExt(df.rows, row => PassesAll(row, Tests(c)), row => Matches(row, c));
  }

  /** The result is a sub-multiset of the input whose rows are exactly the input rows meeting the criteria. */
  lemma FilterDataframeKeeps(df: Frame, c: Criteria)
    requires FilterDataframe(df, c).Ok?
    ensures var result := FilterDataframe(df, c).value;
      result.columns == df.columns &&
      multiset(result.rows) <= multiset(df.rows) &&
      forall row :: row in result.rows <==> row in df.rows && Matches(row, c)
  {
    FilterDataframeSpec(df, c);
    FilterSubMultiset(df.rows, row => Matches(row, c));
    FilterMembers(df.rows, row => Matches(row, c));
  }

  /** With no criterion given the frame comes back unchanged. */
  lemma FilterDataframeNoCriteria(df: Frame, c: Criteria)
    requires !Given(c.college) && !Given(c.course) && !Given(c.status) && c.sgpaMin.None? && c.sgpaMax.None?
    ensures FilterDataframe(df, c) == Ok(df)
  {
    assert Tests(c) == [];
  }

  /** Every produced row has the sixteen base columns. */
  lemma RowHasBaseColumns(record: seq<(string, Json)>)
    requires RowOf(record).Some?
    ensures BaseColumns <= RowOf(record).value.Keys
  {
  }

  /** Filtering the rows of a non-empty batch never raises: its frame has every base column. */
  lemma ProcessedFrameFilters(records: seq<Json>, c: Criteria)
    requires ProcessAll(records).Ok? && ProcessAll(records).value != []
    ensures FilterDataframe(FrameOf(ProcessAll(records).value), c).Ok?
  {
    var rows := ProcessAll(records).value;
    ProcessAllRows(records);
    assert rows[0] in rows;
    var i :| 0 <= i < |records| && RecordRow(records[i]) == Some(rows[0]);
    RowHasBaseColumns(records[i].fields);
    ColumnsOfMembers(rows);
    FilterDataframeSpec(FrameOf(rows), c);
  }
}
