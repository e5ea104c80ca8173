/** The GPA calculator of the academic progress page
    (frontend/src/pages/AcademicProgress.js): a grade-point table, a list of
    courses the student enters, and the credit-weighted mean of their grade
    points. Grade points are integer tenths (A- is 37); the GPA is an exact
    real number before display rounding. */
module AcademicProgress {
  import opened Common
  import opened Seqs
  import opened Text

  /** The grades of `gradePoints`, in its listed order. */
  datatype Grade = APlus | A | AMinus | BPlus | B | BMinus | CPlus | C | CMinus | DPlus | D | E | F

  const Grades: seq<Grade> := [APlus, A, AMinus, BPlus, B, BMinus, CPlus, C, CMinus, DPlus, D, E, F]

  function Name(g: Grade): string {
    match g
    case APlus => "A+" case A => "A" case AMinus => "A-"
    case BPlus => "B+" case B => "B" case BMinus => "B-"
    case CPlus => "C+" case C => "C" case CMinus => "C-"
    case DPlus => "D+" case D => "D"
    case E => "E" case F => "F"
  }

  /** A grade's points in tenths (A- is 37 for 3.7). */
  function GradePoints(g: Grade): int {
    match g
    case APlus => 40 case A => 40 case AMinus => 37
    case BPlus => 33 case B => 30 case BMinus => 27
    case CPlus => 23 case C => 20 case CMinus => 17
    case DPlus => 13 case D => 10
    case E => 0 case F => 0
  }

  /** The table lookup `gradePoints[grade]`: the grade with that name. */
  function ParseGrade(s: string): (r: Option<Grade>)
    ensures r.Some? ==> Name(r.value) == s
  {
    if s == "A+" then Some(APlus) else if s == "A" then Some(A) else if s == "A-" then Some(AMinus)
    else if s == "B+" then Some(BPlus) else if s == "B" then Some(B) else if s == "B-" then Some(BMinus)
    else if s == "C+" then Some(CPlus) else if s == "C" then Some(C) else if s == "C-" then Some(CMinus)
    else if s == "D+" then Some(DPlus) else if s == "D" then Some(D)
    else if s == "E" then Some(E) else if s == "F" then Some(F)
    else None
  }

  /** Every grade is found under its own name. */
  lemma ParseName(g: Grade)
    ensures ParseGrade(Name(g)) == Some(g)
  {
  }

  /** `gradePoints[grade] || 0` in tenths: a name outside the table scores 0. */
  function Points(grade: string): (r: int)
    ensures 0 <= r <= 40
    ensures ParseGrade(grade).None? ==> r == 0
    ensures ParseGrade(grade).Some? ==> r == GradePoints(ParseGrade(grade).value)
  {
    match ParseGrade(grade)
    case None => 0
    case Some(g) => GradePoints(g)
  }

  /** The table's shape: 13 distinct grades, A+ and A both 4.0, E and F
      both 0.0, and points never rising down the list. */
  lemma GradeTableShape()
    ensures |Grades| == 13 && forall g :: g in Grades
    ensures forall i, j :: 0 <= i < j < |Grades| ==> Grades[i] != Grades[j]
    ensures Points("A+") == Points("A") == 40
    ensures Points("E") == Points("F") == 0
    ensures forall i, j :: 0 <= i < j < |Grades| ==> GradePoints(Grades[i]) >= GradePoints(Grades[j])
  {
    ParseName(APlus);
    ParseName(A);
    ParseName(E);
    ParseName(F);
    forall g: Grade ensures g in Grades {
      match g
      case APlus => assert Grades[0] == g; case A => assert Grades[1] == g;
      case AMinus => assert Grades[2] == g; case BPlus => assert Grades[3] == g;
      case B => assert Grades[4] == g; case BMinus => assert Grades[5] == g;
      case CPlus => assert Grades[6] == g; case C => assert Grades[7] == g;
      case CMinus => assert Grades[8] == g; case DPlus => assert Grades[9] == g;
      case D => assert Grades[10] == g; case E => assert Grades[11] == g;
      case F => assert Grades[12] == g;
    }
  }

  datatype Colour = Green | Blue | Yellow | Gray

  /** `getGradeColor`: by leading letter, A green, B blue, C yellow, and
      anything else gray. */
  function GradeColour(grade: string): (c: Colour)
    ensures c == Green <==> |grade| > 0 && grade[0] == 'A'
    ensures c == Blue <==> |grade| > 0 && grade[0] == 'B'
    ensures c == Yellow <==> |grade| > 0 && grade[0] == 'C'
    ensures c == Gray <==> |grade| == 0 || grade[0] !in {'A', 'B', 'C'}
  {
    StartsWithChar(grade, 'A');
    StartsWithChar(grade, 'B');
    StartsWithChar(grade, 'C');
    if StartsWith(grade, "A") then Green
    else if StartsWith(grade, "B") then Blue
    else if StartsWith(grade, "C") then Yellow
    else Gray
  }

  /** Of the table's grades, D+, D, E and F fall in the gray bucket. */
  lemma GrayGrades(g: Grade)
    ensures GradeColour(Name(g)) == Gray <==> g in {DPlus, D, E, F}
  {
  }

  datatype CalcCourse = CalcCourse(id: int, credits: real, grade: string)

  /** A course's grade points (in tenths) times its credits. */
  function Weighted(c: CalcCourse): real {
    (Points(c.grade) as real) * c.credits
  }

  /** The sum of the courses' weighted points. */
  function TotalPoints(cs: seq<CalcCourse>): real
    decreases |cs|
  {
    if cs == [] then 0.0 else TotalPoints(cs[..|cs| - 1]) + Weighted(cs[|cs| - 1])
  }

  function TotalCredits(cs: seq<CalcCourse>): real
    decreases |cs|
  {
    if cs == [] then 0.0 else TotalCredits(cs[..|cs| - 1]) + cs[|cs| - 1].credits
  }

  /** `calculateTotalGPA` before `toFixed(2)`: 0 when there are no credits,
      else the credit-weighted mean of the grade points. */
  function Gpa(cs: seq<CalcCourse>): (r: real)
    ensures TotalCredits(cs) == 0.0 ==> r == 0.0
    ensures TotalCredits(cs) != 0.0 ==> r * (10.0 * TotalCredits(cs)) == TotalPoints(cs)
  {
    if TotalCredits(cs) == 0.0 then 0.0 else TotalPoints(cs) / (10.0 * TotalCredits(cs))
  }

  /** With positive credits the points lie between 0 and 4.0 per credit. */
  lemma {:induction false} PointsBounded(cs: seq<CalcCourse>)
    requires forall k :: 0 <= k < |cs| ==> cs[k].credits > 0.0
    ensures 0.0 <= TotalPoints(cs) <= 40.0 * TotalCredits(cs)
    ensures cs != [] ==> TotalCredits(cs) > 0.0
    decreases |cs|
  {
    if cs != [] {
      var init, last := cs[..|cs| - 1], cs[|cs| - 1];
      assert forall k :: 0 <= k < |init| ==> init[k] == cs[k];
      PointsBounded(init);
      WeightedBounds(last);
    }
  }

  /** With every credit positive, the GPA lies between 0.0 and 4.0. */
  lemma GpaBounded(cs: seq<CalcCourse>)
    requires forall k :: 0 <= k < |cs| ==> cs[k].credits > 0.0
    ensures 0.0 <= Gpa(cs) <= 4.0
  {
    PointsBounded(cs);
    if TotalCredits(cs) != 0.0 {
      DivBound(TotalPoints(cs), TotalCredits(cs));
    }
  }

  /** A course with positive credits weighs between 0 and 4.0 per credit. */
  lemma WeightedBounds(c: CalcCourse)
    requires c.credits > 0.0
    ensures 0.0 <= Weighted(c) <= 40.0 * c.credits
  {
    var p := Points(c.grade) as real;
    assert 0.0 <= p <= 40.0;
    assert Weighted(c) == p * c.credits;
  }

  lemma DivBound(t: real, c: real)
    requires c > 0.0 && 0.0 <= t <= 40.0 * c
    ensures 0.0 <= t / (10.0 * c) <= 4.0
  {
  }

  /** A course with an unknown grade adds its credits but no points, so it
      pulls the mean down. */
  lemma UnknownGradeCountsCredits(cs: seq<CalcCourse>, c: CalcCourse)
    requires ParseGrade(c.grade).None?
    ensures TotalPoints(cs + [c]) == TotalPoints(cs)
    ensures TotalCredits(cs + [c]) == TotalCredits(cs) + c.credits
  {
    assert (cs + [c])[..|cs|] == cs;
  }

  /** The calculator's state: its courses and the entry form, whose credits
      field is the text typed so far. */
  class GpaCalculator {
    var courses: seq<CalcCourse>
    var entryCredits: string
    var entryGrade: string

    constructor ()
      ensures courses == [] && entryCredits == "" && entryGrade == "A"
    {
      courses := [];
      entryCredits := "";
      entryGrade := "A";
    }

    /** `addCourseToCalc` at time `now`: empty credits change nothing;
        otherwise one course with the parsed credits and the chosen grade
        is appended, and the credits field is cleared while the grade
        stays. `parseFloat` stands for the number the typed text parses
        to. */
    method AddCourse(now: int, parseFloat: string -> real)
      modifies this
      ensures !Truthy(old(entryCredits)) ==> courses == old(courses) && entryCredits == old(entryCredits)
      ensures Truthy(old(entryCredits)) ==>
        && courses == old(courses) + [CalcCourse(now, parseFloat(old(entryCredits)), old(entryGrade))]
        && entryCredits == ""
      ensures entryGrade == old(entryGrade)
    {
      if !Truthy(entryCredits) {
        return;
      }
      courses := courses + [CalcCourse(now, parseFloat(entryCredits), entryGrade)];
      entryCredits := "";
    }

    /** `removeCalcCourse(id)`: every course with that id goes, the others
        stay in order. */
    method RemoveCourse(id: int)
      modifies this
      ensures courses == Filter(old(courses), (c: CalcCourse) => c.id != id)
      ensures forall c :: c in courses <==> c in old(courses) && c.id != id
      ensures (forall k :: 0 <= k < |old(courses)| ==> old(courses)[k].id != id) ==> courses == old(courses)
      ensures entryCredits == old(entryCredits) && entryGrade == old(entryGrade)
    {
      var keep := (c: CalcCourse) => c.id != id;
      if forall k :: 0 <= k < |courses| ==> courses[k].id != id {
        FilterKeepsAll(courses, keep);
      }
      courses := Filter(courses, keep);
    }

    /** `calculateTotalGPA`: one pass accumulating points and credits. */
    method CalculateTotalGpa() returns (gpa: real)
      ensures gpa == Gpa(courses)
    {
      var totalPoints := 0.0;
      var totalCredits := 0.0;
      var k := 0;
      while k < |courses|
        invariant 0 <= k <= |courses|
        invariant totalPoints == TotalPoints(courses[..k])
        invariant totalCredits == TotalCredits(courses[..k])
      {
        var course := courses[k];
        assert courses[..k + 1][..k] == courses[..k];
        totalPoints := totalPoints + Weighted(course);
        totalCredits := totalCredits + course.credits;
        k := k + 1;
      }
      assert courses[..k] == courses;
      gpa := if totalCredits == 0.0 then 0.0 else totalPoints / (10.0 * totalCredits);
    }
  }
}
