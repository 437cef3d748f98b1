/** The course record kept for the campus course database: its fields,
    the five binary topic slots filled with random dummy values, its
    dictionary form, and the INSERT statement built from that form. The
    XML extraction, the random generator and SQLite itself are left out. */
module CampusSql {
  import opened PyStr

  /** A field value as the record holds it: `None`, or a string. */
  datatype Value = Absent | Text(s: string)

  /** Python truthiness of a field value: `None` and `''` are false. */
  predicate Truthy(v: Value) {
    v.Text? && v.s != ""
  }

  /** The keys of `to_dict`, in order. */
  const DictKeys: seq<string> := [
    "id", "title", "semester", "start_date", "end_date", "semester_hours",
    "type", "language", "ilias_link", "description", "objective",
    "prerequisite", "extra_info", "institution", "lecturers",
    "machine_learning", "engineering", "politics", "literature", "culture"]

  /** The columns of the `campus_courses` table, in the order the CREATE
      TABLE statement declares them. */
  const TableColumns: seq<string> := [
    "id", "title", "lecturers", "semester", "start_date", "end_date",
    "semester_hours", "type", "language", "ilias_link", "description",
    "objective", "prerequisite", "institution", "extra_info",
    "machine_learning", "engineering", "politics", "literature", "culture"]

  predicate Distinct(xs: seq<string>) {
    forall i, j :: 0 <= i < j < |xs| ==> xs[i] != xs[j]
  }

  /** The dictionary form names every table column once, so an insert
      built from it fits the table: the same twenty names, in another
      order. */
  lemma DictKeysMatchTable()
    ensures |DictKeys| == |TableColumns| == 20
    ensures Distinct(DictKeys) && Distinct(TableColumns)
    ensures forall k :: k in DictKeys <==> k in TableColumns
  {
  }

  class Course {
    var id: Value
    var title: Value
    var semester: Value
    var startDate: Value
    var endDate: Value
    var semesterHours: Value
    var courseType: Value
    var language: Value
    var iliasLink: Value
    var description: Value
    var objective: Value
    var prerequisite: Value
    var furtherInfo: Value
    var institution: Value
    var lecturers: seq<string>
    var ml: Value
    var engineering: Value
    var politics: Value
    var literature: Value
    var culture: Value

    /** Every field `None`, no lecturers. */
    constructor ()
      ensures id == title == semester == startDate == endDate == Absent
      ensures semesterHours == courseType == language == iliasLink == Absent
      ensures description == objective == prerequisite == furtherInfo == Absent
      ensures institution == Absent && lecturers == []
      ensures ml == engineering == politics == literature == culture == Absent
    {
      id, title, semester, startDate, endDate := Absent, Absent, Absent, Absent, Absent;
      semesterHours, courseType, language, iliasLink := Absent, Absent, Absent, Absent;
      description, objective, prerequisite, furtherInfo := Absent, Absent, Absent, Absent;
      institution, lecturers := Absent, [];
      ml, engineering, politics, literature, culture := Absent, Absent, Absent, Absent, Absent;
    }

    /** The first five slot values go to the five binary topics, in
        order; the list must have at least five elements. */
    method FillSlotValues(slotValues: seq<string>)
      requires |slotValues| >= 5
      modifies this
      ensures ml == Text(slotValues[0]) && engineering == Text(slotValues[1])
      ensures politics == Text(slotValues[2]) && literature == Text(slotValues[3])
      ensures culture == Text(slotValues[4])
      ensures id == old(id) && title == old(title) && semester == old(semester)
      ensures startDate == old(startDate) && endDate == old(endDate)
      ensures semesterHours == old(semesterHours) && courseType == old(courseType)
      ensures language == old(language) && iliasLink == old(iliasLink)
      ensures description == old(description) && objective == old(objective)
      ensures prerequisite == old(prerequisite) && furtherInfo == old(furtherInfo)
      ensures institution == old(institution) && lecturers == old(lecturers)
    {
      ml := Text(slotValues[0]);
      engineering := Text(slotValues[1]);
      politics := Text(slotValues[2]);
      literature := Text(slotValues[3]);
      culture := Text(slotValues[4]);
    }

    /** The dictionary form, as key-value pairs in insertion order. The
        lecturers are joined with `", "`, `further_info` is stored under
        `extra_info` and `ml` under `machine_learning`. */
    function ToDict(): (d: seq<(string, Value)>)
      reads this
      ensures |d| == |DictKeys|
      ensures forall i :: 0 <= i < |d| ==> d[i].0 == DictKeys[i]
      ensures d[..12] == [("id", id), ("title", title), ("semester", semester),
                          ("start_date", startDate), ("end_date", endDate),
                          ("semester_hours", semesterHours), ("type", courseType),
                          ("language", language), ("ilias_link", iliasLink),
                          ("description", description), ("objective", objective),
                          ("prerequisite", prerequisite)]
      ensures d[12] == ("extra_info", furtherInfo)
      ensures d[13] == ("institution", institution)
      ensures d[14] == ("lecturers", Text(Join(", ", lecturers)))
      ensures d[15] == ("machine_learning", ml)
      ensures d[16..] == [("engineering", engineering), ("politics", politics),
                          ("literature", literature), ("culture", culture)]
    {
      [ ("id", id), ("title", title), ("semester", semester),
        ("start_date", startDate), ("end_date", endDate),
        ("semester_hours", semesterHours), ("type", courseType),
        ("language", language), ("ilias_link", iliasLink),
        ("description", description), ("objective", objective),
        ("prerequisite", prerequisite), ("extra_info", furtherInfo),
        ("institution", institution), ("lecturers", Text(Join(", ", lecturers))),
        ("machine_learning", ml), ("engineering", engineering),
        ("politics", politics), ("literature", literature), ("culture", culture) ]
    }
  }

  /** Five dummy values for the binary slots, each drawn from `'true'` and
      `'false'`; the draw is a nondeterministic choice here. */
  method RandomSlots() returns (slots: seq<string>)
    ensures |slots| == 5
    ensures forall i :: 0 <= i < |slots| ==> slots[i] == "true" || slots[i] == "false"
  {
    slots := [];
    for i := 0 to 5
      invariant |slots| == i
      invariant forall j :: 0 <= j < |slots| ==> slots[j] == "true" || slots[j] == "false"
    {
      var n :| 0 <= n <= 1;
      slots := slots + [if n == 1 then "true" else "false"];
    }
  }

  /** The end of the course extraction: random slot values filled into the
      record. */
  method AddDummySlots(course: Course)
    modifies course
    ensures course.ml in {Text("true"), Text("false")}
    ensures course.engineering in {Text("true"), Text("false")}
    ensures course.politics in {Text("true"), Text("false")}
    ensures course.literature in {Text("true"), Text("false")}
    ensures course.culture in {Text("true"), Text("false")}
    ensures course.id == old(course.id) && course.title == old(course.title)
    ensures course.semester == old(course.semester)
    ensures course.startDate == old(course.startDate) && course.endDate == old(course.endDate)
    ensures course.semesterHours == old(course.semesterHours) && course.courseType == old(course.courseType)
    ensures course.language == old(course.language) && course.iliasLink == old(course.iliasLink)
    ensures course.description == old(course.description) && course.objective == old(course.objective)
    ensures course.prerequisite == old(course.prerequisite) && course.furtherInfo == old(course.furtherInfo)
    ensures course.institution == old(course.institution) && course.lecturers == old(course.lecturers)
  {
    var slots := RandomSlots();
    course.FillSlotValues(slots);
  }

  /** The value written for a field: a falsy value becomes `'na'`. */
  function Stored(v: Value): (r: string)
    ensures Truthy(v) ==> r == v.s
    ensures !Truthy(v) ==> r == "na"
    ensures r != ""
  {
    if !Truthy(v) then "na" else v.s
  }

  function Keys(d: seq<(string, Value)>): (ks: seq<string>)
    ensures |ks| == |d| && forall i :: 0 <= i < |d| ==> ks[i] == d[i].0
  {
    seq(|d|, i requires 0 <= i < |d| => d[i].0)
  }

  function StoredValues(d: seq<(string, Value)>): (vs: seq<string>)
    ensures |vs| == |d| && forall i :: 0 <= i < |d| ==> vs[i] == Stored(d[i].1)
  {
    seq(|d|, i requires 0 <= i < |d| => Stored(d[i].1))
  }

  /** `['?'] * n` */
  function Placeholders(n: nat): (ps: seq<string>)
    ensures |ps| == n && forall i :: 0 <= i < n ==> ps[i] == "?"
  {
    seq(n, _ => "?")
  }

  const InsertPrefix: string := "INSERT OR IGNORE INTO campus_courses ("
  const ValuesInfix: string := ") VALUES ("

  function InsertSql(columns: seq<string>, n: nat): string {
    InsertPrefix + Join(",", columns) + ValuesInfix + Join(",", Placeholders(n)) + ")"
  }

  /** The loop over the dictionary: each key becomes a column and its
      value, with falsy ones replaced, the matching parameter. */
  method ColumnsAndValues(d: seq<(string, Value)>) returns (columns: seq<string>, info: seq<string>)
    ensures columns == Keys(d)
    ensures info == StoredValues(d)
  {
    columns := [];
    info := [];
    for i := 0 to |d|
      invariant columns == Keys(d[..i])
      invariant info == StoredValues(d[..i])
    {
      var (key, value) := d[i];
      if !Truthy(value) {
        value := Text("na");
      }
      columns := columns + [key];
      info := info + [value.s];
    }
    assert d[..|d|] == d;
  }

  /** The statement and its parameters for one course: the columns and
      the stored values in dictionary order, and one placeholder per
      value. */
  method InsertStatement(course: Course) returns (columns: seq<string>, info: seq<string>, sql: string)
    ensures columns == Keys(course.ToDict()) == DictKeys
    ensures info == StoredValues(course.ToDict())
    ensures |columns| == |info| == 20
    ensures sql == InsertSql(columns, |info|)
  {
    var d := course.ToDict();
    columns, info := ColumnsAndValues(d);
    assert columns == DictKeys;
    var data := Placeholders(|info|);
    sql := "INSERT OR IGNORE INTO campus_courses (" + Join(",", columns) + ") VALUES (" + Join(",", data) + ")";
  }

  lemma {:induction false} CountJoinAbsent(sep: string, parts: seq<string>, c: char)
    requires c !in sep
    requires forall i :: 0 <= i < |parts| ==> c !in parts[i]
    ensures Count(Join(sep, parts), c) == 0
  {
    if |parts| == 1 {
      CountAbsent(parts[0], c);
    } else if |parts| > 1 {
      CountJoinAbsent(sep, parts[1..], c);
      CountConcat(parts[0], sep, c);
      CountConcat(parts[0] + sep, Join(sep, parts[1..]), c);
      CountAbsent(parts[0], c);
      CountAbsent(sep, c);
    }
  }

  lemma {:induction false} CountPlaceholders(n: nat)
    ensures Count(Join(",", Placeholders(n)), '?') == n
  {
    if n > 1 {
      CountPlaceholders(n - 1);
      assert Placeholders(n)[1..] == Placeholders(n - 1);
      CountConcat("?", ",", '?');
      CountConcat("?,", Join(",", Placeholders(n - 1)), '?');
    }
  }

  /** The fixed text of the statement holds no `?`. */
  lemma FixedPartsHaveNoPlaceholder()
    ensures Count(InsertPrefix, '?') == 0 && Count(ValuesInfix, '?') == 0 && Count(")", '?') == 0
  {
    assert '?' !in InsertPrefix;
    assert '?' !in ValuesInfix;
    CountAbsent(InsertPrefix, '?');
    CountAbsent(ValuesInfix, '?');
    CountAbsent(")", '?');
  }

  /** The statement has one `?` per value when no column name holds a
      `?`, as none of the dictionary keys does. */
  lemma PlaceholderCount(columns: seq<string>, n: nat)
    requires forall i :: 0 <= i < |columns| ==> '?' !in columns[i]
    ensures Count(InsertSql(columns, n), '?') == n
  {
    var cs := Join(",", columns);
    var ps := Join(",", Placeholders(n));
    CountJoinAbsent(",", columns, '?');
    CountPlaceholders(n);
    FixedPartsHaveNoPlaceholder();
    CountStatement(InsertPrefix, cs, ValuesInfix, ps, '?');
  }

  /** The count of a character in a statement is its count in the two
      variable parts when the fixed parts do not hold it. */
  lemma CountStatement(prefix: string, cs: string, infix: string, ps: string, c: char)
    requires Count(prefix, c) == 0 && Count(infix, c) == 0 && Count(")", c) == 0
    ensures Count(prefix + cs + infix + ps + ")", c) == Count(cs, c) + Count(ps, c)
  {
    CountConcat(prefix, cs, c);
    CountConcat(prefix + cs, infix, c);
    CountConcat(prefix + cs + infix, ps, c);
    CountConcat(prefix + cs + infix + ps, ")", c);
  }

  /** No dictionary key holds a `?`. */
  lemma DictKeysHaveNoPlaceholder()
    ensures forall i :: 0 <= i < |DictKeys| ==> '?' !in DictKeys[i]
  {
  }

  /** For any course the statement carries exactly as many placeholders
      as values, twenty. */
  lemma InsertPlaceholders(course: Course)
    ensures Count(InsertSql(Keys(course.ToDict()), |StoredValues(course.ToDict())|), '?') == 20
  {
    var ks := Keys(course.ToDict());
    assert ks == DictKeys;
    DictKeysHaveNoPlaceholder();
    PlaceholderCount(ks, 20);
  }
}
