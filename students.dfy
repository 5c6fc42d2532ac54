/**
 * `database/models/Student.py`: the `clean` validator, the `save` that runs it first
 * (see `Handler.Store.CreateStudent`), and the display text of a student.
 *
 * The grade is stored as text and parsed with Python's `float`. The parse is a
 * parameter of the model: it maps a text to a float value or fails.
 */
module Students {
  import opened Wrappers

  /** The values Python's `float` can return: a finite number, an infinity, or NaN. */
  datatype Float = Finite(value: real) | Infinite(negative: bool) | NaN

  datatype Student = Student(firstName: string, grade: string)

  /** Why `clean` refuses a student, in the order it checks. */
  datatype CleanError = EmptyFirstName | GradeNotNumber | GradeOutOfRange

  /**
   * `0 <= grade_value <= 100`. Infinities fail one side of the comparison and NaN
   * fails both, so only finite values can pass.
   */
  predicate InGradeRange(f: Float)
  {
    f.Finite? && 0.0 <= f.value <= 100.0
  }

  /** `Student.clean`: the first failing check, or `Pass`. */
  function Clean(s: Student, parse: string -> Option<Float>): (r: Outcome<CleanError>)
    ensures s.firstName == [] ==> r == Fail(EmptyFirstName)
    ensures r == Fail(GradeNotNumber) <==> s.firstName != [] && parse(s.grade).None?
    ensures r.Pass? <==> s.firstName != [] && parse(s.grade).Some? && InGradeRange(parse(s.grade).value)
    ensures r == Fail(GradeOutOfRange) <==> s.firstName != [] && parse(s.grade).Some? && !InGradeRange(parse(s.grade).value)
  {
    if s.firstName == [] then Fail(EmptyFirstName)
    else
      match parse(s.grade)
      case None => Fail(GradeNotNumber)
      case Some(g) => if InGradeRange(g) then Pass else Fail(GradeOutOfRange)
  }

  /** An empty first name is refused before the grade is looked at: the parse does not matter. */
  lemma NameCheckedFirst(s: Student, parse1: string -> Option<Float>, parse2: string -> Option<Float>)
    requires s.firstName == []
    ensures Clean(s, parse1) == Clean(s, parse2)
  {
  }

  /** The range is closed: 0 and 100 pass, values just outside and non-finite values do not. */
  lemma GradeRangeBounds()
    ensures InGradeRange(Finite(0.0)) && InGradeRange(Finite(100.0))
    ensures !InGradeRange(Finite(-0.01)) && !InGradeRange(Finite(100.01))
    ensures !InGradeRange(Infinite(false)) && !InGradeRange(Infinite(true)) && !InGradeRange(NaN)
  {
  }

  // ---------------------------------------------------------------------------
  // Display text: the later `__str__`, which overrides the earlier one
  // ---------------------------------------------------------------------------

  function Digit(d: nat): char
    requires d < 10
  {
    (d + '0' as int) as char
  }

  predicate IsDigit(c: char) { '0' <= c <= '9' }

  /** The decimal text of a number, as Python's `str` of an int gives it. */
  function DecimalText(n: nat): (r: string)
    decreases n
  {
    if n < 10 then [Digit(n)] else DecimalText(n / 10) + [Digit(n % 10)]
  }

  /** The number a text of decimal digits denotes. */
  function DecimalValue(s: string): nat
    decreases |s|
  {
    if s == [] then 0
    else
      var c := s[|s| - 1];
      10 * DecimalValue(s[..|s| - 1]) + (if IsDigit(c) then c as int - '0' as int else 0)
  }

  /** The decimal text is a non-empty run of digits that reads back as the number. */
  lemma {:induction false} DecimalRoundTrip(n: nat)
    ensures DecimalText(n) != []
    ensures forall i :: 0 <= i < |DecimalText(n)| ==> IsDigit(DecimalText(n)[i])
    ensures DecimalValue(DecimalText(n)) == n
  {
    var r := DecimalText(n);
    if n >= 10 {
      var front := DecimalText(n / 10);
      DecimalRoundTrip(n / 10);
      assert r == front + [Digit(n % 10)];
      assert r[..|r| - 1] == front;
      forall i | 0 <= i < |r| ensures IsDigit(r[i]) {
        if i < |front| { assert r[i] == front[i]; }
      }
    }
  }

  /** `str(student)`: the first name and, in parentheses, the id (`None` before the first save). */
  function Display(s: Student, id: Option<nat>): (r: string)
    ensures |r| >= |s.firstName| + 3
    ensures r[..|s.firstName|] == s.firstName && r[|s.firstName|..|s.firstName| + 2] == " (" && r[|r| - 1] == ')'
    ensures id.None? ==> r[|s.firstName| + 2..|r| - 1] == "None"
  {
    s.firstName + " (" + (if id.Some? then DecimalText(id.value) else "None") + ")"
  }

  /** The display text of a saved student starts with the first name, and its part in parentheses reads back as the id. */
  lemma DisplayReadsBack(s: Student, id: nat)
    ensures var r := Display(s, Some(id)); var n := |s.firstName|;
      && |r| >= n + 3
      && r[..n] == s.firstName
      && r[n..n + 2] == " ("
      && r[|r| - 1] == ')'
      && DecimalValue(r[n + 2..|r| - 1]) == id
  {
    var r := Display(s, Some(id));
    var n := |s.firstName|;
    DecimalRoundTrip(id);
    assert r[n + 2..|r| - 1] == DecimalText(id);
  }
}
