/** The example judge: it fails a metric on more than ten violations in a row. */
module JudgeDetector {
  import opened Wrappers

  const LIMIT: nat := 10

  type Series = seq<real>

  function Flatten(matrix: seq<Series>): Series {
    if matrix == [] then [] else Flatten(matrix[..|matrix| - 1]) + matrix[|matrix| - 1]
  }

  /** From `i` on there are more than ten violations in a row. */
  predicate RunAt(s: Series, margin: real, i: nat) {
    i + LIMIT < |s| && forall j :: i <= j <= i + LIMIT ==> s[j] > margin
  }

  ghost predicate HasRun(s: Series, margin: real) {
    exists i: nat :: RunAt(s, margin, i)
  }

  /** Eleven samples in a row lie above the margin, from `i` on. */
  predicate ElevenAt(s: Series, margin: real, i: nat) {
    i + 11 <= |s| && forall j :: i <= j < i + 11 ==> s[j] > margin
  }

  lemma RunIsEleven(s: Series, margin: real)
    ensures HasRun(s, margin) <==> exists i: nat :: ElevenAt(s, margin, i)
  {
    if HasRun(s, margin) {
      var i: nat :| RunAt(s, margin, i);
      assert ElevenAt(s, margin, i);
    }
    if exists i: nat :: ElevenAt(s, margin, i) {
      var i: nat :| ElevenAt(s, margin, i);
      assert RunAt(s, margin, i);
    }
  }

  /** Ten violations pass, however often, and eleven in a row do not; a sample on the margin is no violation. */
  lemma TenPassElevenFail(margin: real)
    ensures var x := margin + 1.0;
            var ten := [x, x, x, x, x, x, x, x, x, x];
            && !HasRun(ten, margin) && !HasRun(ten + [margin] + ten, margin) && HasRun(ten + [x], margin)
  {
    var x := margin + 1.0;
    var ten := [x, x, x, x, x, x, x, x, x, x];
    var twice := ten + [margin] + ten;
    assert twice[10] == margin;
    RunIsEleven(twice, margin);
    assert forall i: nat :: !ElevenAt(twice, margin, i);
    assert ElevenAt(ten + [x], margin, 0);
    RunIsEleven(ten + [x], margin);
  }

  /** Violations in a row at the end. */
  function Trailing(s: Series, margin: real): (n: nat)
    ensures n <= |s|
  {
    if s == [] || s[|s| - 1] <= margin then 0 else Trailing(s[..|s| - 1], margin) + 1
  }

  lemma {:induction false} TrailingViolates(s: Series, margin: real)
    ensures forall j :: |s| - Trailing(s, margin) <= j < |s| ==> s[j] > margin
    ensures Trailing(s, margin) < |s| ==> s[|s| - Trailing(s, margin) - 1] <= margin
  {
    if s != [] && s[|s| - 1] > margin {
      TrailingViolates(s[..|s| - 1], margin);
    }
  }

  lemma RunKept(s: Series, t: Series, margin: real)
    requires HasRun(s, margin)
    ensures HasRun(s + t, margin)
  {
    var i: nat :| RunAt(s, margin, i);
    assert RunAt(s + t, margin, i);
  }

  /** One more sample. */
  lemma NextSample(s: Series, x: real, margin: real)
    ensures Trailing(s + [x], margin) == if x > margin then Trailing(s, margin) + 1 else 0
    ensures HasRun(s + [x], margin) <==> HasRun(s, margin) || Trailing(s + [x], margin) > LIMIT
  {
    var t := s + [x];
    assert t[..|s|] == s;
    TrailingViolates(t, margin);
    if HasRun(s, margin) {
      RunKept(s, [x], margin);
    }
    if Trailing(t, margin) > LIMIT {
      assert RunAt(t, margin, |t| - LIMIT - 1);
    }
    if HasRun(t, margin) && !HasRun(s, margin) {
      LastRun(s, x, margin);
    }
  }

  lemma LastRun(s: Series, x: real, margin: real)
    requires HasRun(s + [x], margin) && !HasRun(s, margin)
    ensures Trailing(s + [x], margin) > LIMIT
  {
    var t := s + [x];
    var i: nat :| RunAt(t, margin, i);
    TrailingViolates(t, margin);
    assert i + LIMIT < |s| ==> RunAt(s, margin, i) by {
      assert forall j :: 0 <= j < |s| ==> s[j] == t[j];
    }
  }

  datatype Verdict = QueryFailed | MetricFailed | Passed

  /** What one metric's query gives: nothing when it fails, and else a matrix of series, any of them empty. */
  type Answer = Option<seq<Series>>

  /** The inner loop, after the samples `before`. */
  method Scan(values: Series, margin: real, counter: nat, ghost before: Series)
    returns (incidentCounter: nat, failed: bool)
    requires counter == Trailing(before, margin) && !HasRun(before, margin)
    ensures failed <==> HasRun(before + values, margin)
    ensures !failed ==> incidentCounter == Trailing(before + values, margin)
  {
    incidentCounter := counter;
    assert before + values[..0] == before;
    for k := 0 to |values|
      invariant incidentCounter == Trailing(before + values[..k], margin)
      invariant !HasRun(before + values[..k], margin)
    {
      NextSample(before + values[..k], values[k], margin);
      assert before + values[..k] + [values[k]] == before + values[..k + 1];
      if values[k] > margin {
        incidentCounter := incidentCounter + 1;
      } else {
        incidentCounter := 0;
      }
      if incidentCounter > LIMIT {
        RunKept(before + values[..k + 1], values[k + 1..], margin);
        assert before + values[..k + 1] + values[k + 1..] == before + values;
        return incidentCounter, true;
      }
    }
    assert values[..|values|] == values;
    failed := false;
  }

  /** The nested loops. The counter is carried from one series into the next. */
  method Reconcile(answer: Answer, margin: real) returns (v: Verdict)
    ensures v == QueryFailed <==> answer.None?
    ensures v == MetricFailed <==> answer.Some? && HasRun(Flatten(answer.value), margin)
  {
    if answer.None? {
      return QueryFailed;
    }
    var matrix := answer.value;
    var incidentCounter: nat := 0;
    for i := 0 to |matrix|
      invariant incidentCounter == Trailing(Flatten(matrix[..i]), margin)
      invariant !HasRun(Flatten(matrix[..i]), margin)
    {
      FlattenNext(matrix, i);
      if |matrix[i]| <= 0 {
        continue;
      }
      var failed;
      incidentCounter, failed := Scan(matrix[i], margin, incidentCounter, Flatten(matrix[..i]));
      if failed {
        RunKept(Flatten(matrix[..i + 1]), Flatten(matrix[i + 1..]), margin);
        return MetricFailed;
      }
    }
    assert matrix[..|matrix|] == matrix;
    v := Passed;
  }

  lemma FlattenNext(matrix: seq<Series>, i: nat)
    requires i < |matrix|
    ensures Flatten(matrix[..i + 1]) == Flatten(matrix[..i]) + matrix[i]
    ensures |matrix[i]| == 0 ==> Flatten(matrix[..i + 1]) == Flatten(matrix[..i])
    ensures Flatten(matrix) == Flatten(matrix[..i + 1]) + Flatten(matrix[i + 1..])
  {
    assert matrix[..i + 1][..i] == matrix[..i];
    assert matrix == matrix[..i + 1] + matrix[i + 1..];
    FlattenSplit(matrix[..i + 1], matrix[i + 1..]);
  }

  lemma {:induction false} FlattenSplit(a: seq<Series>, b: seq<Series>)
    ensures Flatten(a + b) == Flatten(a) + Flatten(b)
  {
    if b == [] {
      assert a + b == a;
    } else {
      var n := |b| - 1;
      assert (a + b)[..|a| + n] == a + b[..n];
      FlattenSplit(a, b[..n]);
    }
  }

  /** More samples at the end, in the last series or in further ones, never turn a failure into a pass. */
  lemma ExtensionKeepsFailure(matrix: seq<Series>, more: Series, further: seq<Series>, margin: real)
    requires matrix != [] && HasRun(Flatten(matrix), margin)
    ensures HasRun(Flatten(matrix[|matrix| - 1 := matrix[|matrix| - 1] + more] + further), margin)
  {
    var n := |matrix| - 1;
    var longer := matrix[n := matrix[n] + more];
    assert longer[..n] == matrix[..n];
    assert Flatten(longer) == Flatten(matrix) + more;
    FlattenSplit(longer, further);
    assert Flatten(longer + further) == Flatten(matrix) + (more + Flatten(further));
    RunKept(Flatten(matrix), more + Flatten(further), margin);
  }

  /** Series that pass one by one can fail together, because the counter is not reset between them. */
  lemma SeriesFailTogether(margin: real)
    ensures var x := margin + 1.0;
            var a, b := [x, x, x, x, x, x], [x, x, x, x, x];
            !HasRun(Flatten([a]), margin) && !HasRun(Flatten([b]), margin) && HasRun(Flatten([a, b]), margin)
  {
    var x := margin + 1.0;
    var a, b := [x, x, x, x, x, x], [x, x, x, x, x];
    FlattenOne(a);
    FlattenOne(b);
    assert [a, b] == [a] + [b];
    FlattenSplit([a], [b]);
    assert RunAt(a + b, margin, 0);
  }

  lemma FlattenOne(s: Series)
    ensures Flatten([s]) == s
  {
    assert [s][..0] == [];
    assert Flatten([]) + s == s;
  }

  /** One round over all metrics; the process exits with code 1 at the first that has failed. */
  method Round(answers: seq<Answer>, margins: seq<real>) returns (exits: bool)
    requires |answers| == |margins|
    ensures exits <==>
              exists m :: 0 <= m < |answers| && answers[m].Some? && HasRun(Flatten(answers[m].value), margins[m])
  {
    for m := 0 to |answers|
      invariant forall k :: 0 <= k < m ==> answers[k].None? || !HasRun(Flatten(answers[k].value), margins[k])
    {
      var v := Reconcile(answers[m], margins[m]);
      if v == MetricFailed {
        return true;
      }
    }
    return false;
  }
}
