/** The order on hand evaluations: compareEvaluations of server/poker/evaluator.js. */
module Evaluations {

  datatype Evaluation = Evaluation(category: int, tiebreak: seq<int>, cards: seq<int>)

  function Sign(n: int): int { if n < 0 then -1 else if n > 0 then 1 else 0 }

  function DigitAt(s: seq<int>, i: nat): int { if i < |s| then s[i] else 0 }

  /** The tiebreak loop from position `i` on; a missing entry counts as zero. */
  function CompareFrom(left: seq<int>, right: seq<int>, i: nat): int
    decreases |left| + |right| - i
  {
    if i >= |left| && i >= |right| then 0
    else
      var difference := DigitAt(left, i) - DigitAt(right, i);
      if difference != 0 then Sign(difference) else CompareFrom(left, right, i + 1)
  }

  function Compare(left: Evaluation, right: Evaluation): int {
    if left.category != right.category then Sign(left.category - right.category)
    else CompareFrom(left.tiebreak, right.tiebreak, 0)
  }

  /** The loop of compareEvaluations. */
  method CompareEvaluations(left: Evaluation, right: Evaluation) returns (r: int)
    ensures r == Compare(left, right)
  {
    if left.category != right.category {
      return Sign(left.category - right.category);
    }
    var length := if |left.tiebreak| > |right.tiebreak| then |left.tiebreak| else |right.tiebreak|;
    var index := 0;
    while index < length
      invariant 0 <= index <= length
      invariant Compare(left, right) == CompareFrom(left.tiebreak, right.tiebreak, index)
    {
      var difference := DigitAt(left.tiebreak, index) - DigitAt(right.tiebreak, index);
      if difference != 0 {
        return Sign(difference);
      }
      index := index + 1;
    }
    return 0;
  }

  // ----- A total preorder -----

  lemma {:induction false} AntisymmetricFrom(a: seq<int>, b: seq<int>, i: nat)
    ensures CompareFrom(a, b, i) == -CompareFrom(b, a, i)
    ensures -1 <= CompareFrom(a, b, i) <= 1
    decreases |a| + |b| - i
  {
    if !(i >= |a| && i >= |b|) {
      AntisymmetricFrom(a, b, i + 1);
    }
  }

  lemma {:induction false} TransitiveFrom(a: seq<int>, b: seq<int>, c: seq<int>, i: nat)
    requires CompareFrom(a, b, i) >= 0 && CompareFrom(b, c, i) >= 0
    ensures CompareFrom(a, c, i) >= 0
    ensures CompareFrom(a, c, i) == 0 ==> CompareFrom(a, b, i) == 0 && CompareFrom(b, c, i) == 0
    decreases |a| + |b| + |c| - i
  {
    if i < |a| || i < |b| || i < |c| {
      if DigitAt(a, i) == DigitAt(b, i) == DigitAt(c, i) {
        Skip(a, b, i);
        Skip(b, c, i);
        Skip(a, c, i);
        TransitiveFrom(a, b, c, i + 1);
      } else {
        Leading(a, b, i);
        Leading(b, c, i);
      }
    }
  }

  /** Equal entries are skipped, also beyond the end of both lists. */
  lemma {:induction false} Skip(a: seq<int>, b: seq<int>, i: nat)
    requires DigitAt(a, i) == DigitAt(b, i)
    ensures CompareFrom(a, b, i) == CompareFrom(a, b, i + 1)
  {
  }

  lemma {:induction false} Leading(a: seq<int>, b: seq<int>, i: nat)
    requires CompareFrom(a, b, i) >= 0
    ensures DigitAt(a, i) >= DigitAt(b, i)
    ensures DigitAt(a, i) > DigitAt(b, i) ==> CompareFrom(a, b, i) == 1
  {
  }

  /** Evaluations are totally preordered: comparison is antisymmetric in sign and transitive. */
  lemma {:induction false} CompareIsTotalPreorder(a: Evaluation, b: Evaluation, c: Evaluation)
    ensures Compare(a, a) == 0
    ensures Compare(a, b) == -Compare(b, a)
    ensures Compare(a, b) >= 0 && Compare(b, c) >= 0 ==> Compare(a, c) >= 0
    ensures Compare(a, b) >= 0 && Compare(b, c) >= 0 && Compare(a, c) == 0 ==> Compare(a, b) == 0 && Compare(b, c) == 0
  {
    AntisymmetricFrom(a.tiebreak, a.tiebreak, 0);
    AntisymmetricFrom(a.tiebreak, b.tiebreak, 0);
    if a.category == b.category == c.category && Compare(a, b) >= 0 && Compare(b, c) >= 0 {
      TransitiveFrom(a.tiebreak, b.tiebreak, c.tiebreak, 0);
    }
  }
}
