/**
 * Simulated exams ("simulados") and the per-exam averages the coordinator
 * dashboard and the performance page chart. An exam result carries the
 * student's criteria scores for Portuguese and for mathematics; the three
 * averages computed from a result (`calculateGeneralAverage`,
 * `calculatePortugueseAverage`, `calculateMathAverage`) are defined in a part
 * of the sample data that is not part of this model, so they are a `Scorer`
 * parameter and nothing is assumed about them.
 */
module Exams {
  import opened Wrappers
  import opened Seqs
  import opened Stats

  datatype Exam = Exam(id: string, name: string)

  datatype ExamResult = ExamResult(
    examId: string,
    studentId: string,
    classId: string,
    portugueseCriteria: map<string, real>,
    mathCriteria: map<string, real>)

  /** The three per-result averages. */
  datatype Scorer = Scorer(
    general: ExamResult -> real,
    portuguese: map<string, real> -> real,
    math: map<string, real> -> real)

  function ExamOfResult(r: ExamResult): string { r.examId }
  function ClassOfResult(r: ExamResult): string { r.classId }
  function StudentOfResult(r: ExamResult): string { r.studentId }

  /** `calculatePortugueseAverage(result.portugueseCriteria)` as a score of the result. */
  function PortugueseOf(sc: Scorer): ExamResult -> real
  {
    (r: ExamResult) => sc.portuguese(r.portugueseCriteria)
  }

  /** `calculateMathAverage(result.mathCriteria)` as a score of the result. */
  function MathOf(sc: Scorer): ExamResult -> real
  {
    (r: ExamResult) => sc.math(r.mathCriteria)
  }

  /** One bar group of the exam charts: the general, Portuguese and mathematics values. */
  datatype ExamRow = ExamRow(exam: string, general: real, portuguese: real, math: real)

  /** The entry shown for an exam with nothing to average. */
  function ZeroRow(name: string): ExamRow
  {
    ExamRow(name, 0.0, 0.0, 0.0)
  }

  /** `results.reduce((sum, result) => sum + f(result), 0)`. */
  function SumOver(f: ExamResult -> real, results: seq<ExamResult>): real
  {
    if |results| == 0 then 0.0 else SumOver(f, results[..|results| - 1]) + f(results[|results| - 1])
  }

  /** The mean of a score over a non-empty list of results. */
  function MeanOver(f: ExamResult -> real, results: seq<ExamResult>): real
    requires |results| > 0
  {
    SumOver(f, results) / |results| as real
  }

  /** Adding a value within `[lo, hi]` to a sum of `m` such values keeps it within bounds for `m + 1`. */
  lemma AddWithinBounds(m: real, k: real, sum: real, x: real, lo: real, hi: real)
    requires k == m + 1.0
    requires m * lo <= sum <= m * hi && lo <= x <= hi
    ensures k * lo <= sum + x <= k * hi
  {
    assert k * lo == m * lo + lo;
    assert k * hi == m * hi + hi;
  }

  lemma {:induction false} SumOverBounds(f: ExamResult -> real, results: seq<ExamResult>, lo: real, hi: real)
    requires forall r :: r in results ==> lo <= f(r) <= hi
    ensures |results| as real * lo <= SumOver(f, results) <= |results| as real * hi
    decreases |results|
  {
    if |results| > 0 {
      var n := |results| - 1;
      var front := results[..n];
      assert forall r :: r in front ==> r in results;
      assert results[n] in results;
      SumOverBounds(f, front, lo, hi);
      AddWithinBounds(|front| as real, |results| as real, SumOver(f, front), f(results[n]), lo, hi);
    }
  }

  /** A mean lies between any bounds of the scores it averages. */
  lemma MeanOverBounds(f: ExamResult -> real, results: seq<ExamResult>, lo: real, hi: real)
    requires |results| > 0
    requires forall r :: r in results ==> lo <= f(r) <= hi
    ensures lo <= MeanOver(f, results) <= hi
  {
    SumOverBounds(f, results, lo, hi);
    QuotientBounds(SumOver(f, results), |results| as real, lo, hi);
  }

  /** The mean over a single result is that result's score. */
  lemma MeanOverSingle(f: ExamResult -> real, r: ExamResult)
    ensures MeanOver(f, [r]) == f(r)
  {
    assert [r][..0] == [];
    assert SumOver(f, [r]) == SumOver(f, []) + f(r);
  }

  /**
   * The entry of one exam over the results that count for it: zeros when
   * there are none, otherwise each of the three means rounded to one decimal.
   */
  function AggregateRow(exam: Exam, results: seq<ExamResult>, sc: Scorer): (row: ExamRow)
    ensures row.exam == exam.name
    ensures |results| == 0 ==> row == ZeroRow(exam.name)
    ensures |results| > 0 ==>
      (MeanOver(sc.general, results) - 0.05 < row.general <= MeanOver(sc.general, results) + 0.05 &&
       MeanOver(PortugueseOf(sc), results) - 0.05 < row.portuguese <= MeanOver(PortugueseOf(sc), results) + 0.05 &&
       MeanOver(MathOf(sc), results) - 0.05 < row.math <= MeanOver(MathOf(sc), results) + 0.05)
    ensures IsTenths(row.general) && IsTenths(row.portuguese) && IsTenths(row.math)
  {
    if |results| == 0 then ZeroRow(exam.name)
    else
      ExamRow(exam.name,
        OneDecimal(MeanOver(sc.general, results)),
        OneDecimal(MeanOver(PortugueseOf(sc), results)),
        OneDecimal(MeanOver(MathOf(sc), results)))
  }

  /**
   * The entry of one exam for one student: zeros when the student has no
   * result for it, otherwise the result's three scores rounded to one decimal.
   */
  function ResultRow(exam: Exam, result: Option<ExamResult>, sc: Scorer): (row: ExamRow)
    ensures row.exam == exam.name
    ensures result.None? ==> row == ZeroRow(exam.name)
    ensures result.Some? ==>
      (sc.general(result.value) - 0.05 < row.general <= sc.general(result.value) + 0.05 &&
       PortugueseOf(sc)(result.value) - 0.05 < row.portuguese <= PortugueseOf(sc)(result.value) + 0.05 &&
       MathOf(sc)(result.value) - 0.05 < row.math <= MathOf(sc)(result.value) + 0.05)
    ensures IsTenths(row.general) && IsTenths(row.portuguese) && IsTenths(row.math)
  {
    match result
    case None => ZeroRow(exam.name)
    case Some(r) =>
      ExamRow(exam.name,
        OneDecimal(sc.general(r)),
        OneDecimal(sc.portuguese(r.portugueseCriteria)),
        OneDecimal(sc.math(r.mathCriteria)))
  }

  /** A class with a single result for an exam charts exactly that result's entry. */
  lemma AggregateOfOneIsResultRow(exam: Exam, r: ExamResult, sc: Scorer)
    ensures AggregateRow(exam, [r], sc) == ResultRow(exam, Some(r), sc)
  {
    MeanOverSingle(sc.general, r);
    MeanOverSingle(PortugueseOf(sc), r);
    MeanOverSingle(MathOf(sc), r);
  }

  /** Every score of every result lies between `lo` and `hi`. */
  predicate ScoresWithin(results: seq<ExamResult>, sc: Scorer, lo: int, hi: int)
  {
    forall r :: r in results ==>
      (lo as real <= sc.general(r) <= hi as real &&
       lo as real <= PortugueseOf(sc)(r) <= hi as real &&
       lo as real <= MathOf(sc)(r) <= hi as real)
  }

  /** The three values of an entry lie between `lo` and `hi`. */
  predicate RowWithin(row: ExamRow, lo: int, hi: int)
  {
    lo as real <= row.general <= hi as real &&
    lo as real <= row.portuguese <= hi as real &&
    lo as real <= row.math <= hi as real
  }

  /** Averaging and rounding keep an entry inside the scale of its scores (and 0 inside it). */
  lemma AggregateRowWithin(exam: Exam, results: seq<ExamResult>, sc: Scorer, lo: int, hi: int)
    requires lo <= 0 <= hi
    requires ScoresWithin(results, sc, lo, hi)
    ensures RowWithin(AggregateRow(exam, results, sc), lo, hi)
  {
    if |results| > 0 {
      MeanOverBounds(sc.general, results, lo as real, hi as real);
      MeanOverBounds(PortugueseOf(sc), results, lo as real, hi as real);
      MeanOverBounds(MathOf(sc), results, lo as real, hi as real);
      OneDecimalWithin(MeanOver(sc.general, results), lo, hi);
      OneDecimalWithin(MeanOver(PortugueseOf(sc), results), lo, hi);
      OneDecimalWithin(MeanOver(MathOf(sc), results), lo, hi);
    }
  }

  /** The predicate `(result) => result.examId === exam.id && inScope(result)`. */
  function ExamAnd(examId: string, inScope: ExamResult -> bool): ExamResult -> bool
  {
    (r: ExamResult) => r.examId == examId && inScope(r)
  }

  /** The results of one exam that are in scope, in order. */
  function ExamResults(exam: Exam, inScope: ExamResult -> bool, results: seq<ExamResult>): (r: seq<ExamResult>)
    ensures forall x {:trigger x in r} :: x in r <==> x in results && x.examId == exam.id && inScope(x)
    ensures IsSubsequence(r, results)
  {
    Filter(ExamAnd(exam.id, inScope), results)
  }

  /** `exams.map(...)`: one entry per exam, in exam order, over the in-scope results of that exam. */
  function ExamTable(exams: seq<Exam>, inScope: ExamResult -> bool, results: seq<ExamResult>, sc: Scorer): (rows: seq<ExamRow>)
    ensures |rows| == |exams|
    ensures forall i :: 0 <= i < |exams| ==>
      rows[i].exam == exams[i].name && rows[i] == AggregateRow(exams[i], ExamResults(exams[i], inScope, results), sc)
  {
    seq(|exams|, i requires 0 <= i < |exams| => AggregateRow(exams[i], ExamResults(exams[i], inScope, results), sc))
  }

  /** When the scores lie on a scale containing 0, so does every entry of the table. */
  lemma ExamTableWithin(exams: seq<Exam>, inScope: ExamResult -> bool, results: seq<ExamResult>, sc: Scorer, lo: int, hi: int)
    requires lo <= 0 <= hi
    requires ScoresWithin(results, sc, lo, hi)
    ensures forall row :: row in ExamTable(exams, inScope, results, sc) ==> RowWithin(row, lo, hi)
  {
    var rows := ExamTable(exams, inScope, results, sc);
    forall i | 0 <= i < |rows| ensures RowWithin(rows[i], lo, hi) {
      var own := ExamResults(exams[i], inScope, results);
      assert ScoresWithin(own, sc, lo, hi);
      AggregateRowWithin(exams[i], own, sc, lo, hi);
    }
  }

  /** Results out of scope never influence an exam's results: dropping them first changes nothing. */
  lemma ExamResultsIgnoreOutOfScope(exam: Exam, inScope: ExamResult -> bool, results: seq<ExamResult>)
    ensures ExamResults(exam, inScope, Filter(inScope, results)) == ExamResults(exam, inScope, results)
  {
    var q := ExamAnd(exam.id, inScope);
    FilterFilter(inScope, q, results);
    FilterCongruent((x: ExamResult) => inScope(x) && q(x), q, results);
  }

  /** Results out of scope never influence the table. */
  lemma ExamTableIgnoresOutOfScope(exams: seq<Exam>, inScope: ExamResult -> bool, results: seq<ExamResult>, sc: Scorer)
    ensures ExamTable(exams, inScope, Filter(inScope, results), sc) == ExamTable(exams, inScope, results, sc)
  {
    var a := ExamTable(exams, inScope, Filter(inScope, results), sc);
    var b := ExamTable(exams, inScope, results, sc);
    forall i | 0 <= i < |exams| ensures a[i] == b[i] {
      ExamResultsIgnoreOutOfScope(exams[i], inScope, results);
    }
  }

  /** `results.find((r) => r.studentId === student && r.examId === exam.id)`. */
  function StudentResult(student: string, exam: Exam, results: seq<ExamResult>): (r: Option<ExamResult>)
    ensures r.None? <==> forall x :: x in results ==> !(x.studentId == student && x.examId == exam.id)
    ensures r.Some? ==> r.value in results && r.value.studentId == student && r.value.examId == exam.id
    ensures r.Some? ==> exists i :: (0 <= i < |results| && results[i] == r.value &&
      forall j :: 0 <= j < i ==> !(results[j].studentId == student && results[j].examId == exam.id))
  {
    FindFirst((x: ExamResult) => x.studentId == student && x.examId == exam.id, results)
  }

  /** One student's entries: one per exam, in exam order. */
  function StudentTable(student: string, exams: seq<Exam>, results: seq<ExamResult>, sc: Scorer): (rows: seq<ExamRow>)
    ensures |rows| == |exams|
    ensures forall i :: 0 <= i < |exams| ==>
      rows[i].exam == exams[i].name && rows[i] == ResultRow(exams[i], StudentResult(student, exams[i], results), sc)
  {
    seq(|exams|, i requires 0 <= i < |exams| => ResultRow(exams[i], StudentResult(student, exams[i], results), sc))
  }

  /** A student without any result gets an all-zero table. */
  lemma StudentWithoutResultsGetsZeros(student: string, exams: seq<Exam>, results: seq<ExamResult>, sc: Scorer)
    requires forall x :: x in results ==> x.studentId != student
    ensures forall i :: 0 <= i < |exams| ==> StudentTable(student, exams, results, sc)[i] == ZeroRow(exams[i].name)
  {
  }

  /**
   * The headline average: the general value of the last exam, rounded to one
   * decimal, or 0.0 when there are no exams.
   */
  function LatestGeneral(rows: seq<ExamRow>): (avg: real)
    ensures |rows| == 0 ==> avg == 0.0
    ensures |rows| > 0 ==> rows[|rows| - 1].general - 0.05 < avg <= rows[|rows| - 1].general + 0.05
  {
    if |rows| == 0 then 0.0 else OneDecimal(rows[|rows| - 1].general)
  }

  /** For a table of aggregated entries, the headline is exactly the last exam's general value. */
  lemma LatestGeneralIsLastEntry(exams: seq<Exam>, inScope: ExamResult -> bool, results: seq<ExamResult>, sc: Scorer)
    requires |exams| > 0
    ensures LatestGeneral(ExamTable(exams, inScope, results, sc))
      == ExamTable(exams, inScope, results, sc)[|exams| - 1].general
  {
    var n := |exams| - 1;
    var own := ExamResults(exams[n], inScope, results);
    if |own| > 0 {
      OneDecimalIdempotent(MeanOver(sc.general, own));
    } else {
      RoundInt(0);
    }
  }
}
