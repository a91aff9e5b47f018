/** The accuracy figure shown under the counters. */
module Stats {

  /** `r` is 100·correct/total rounded to the nearest integer, halves
      rounded up: r - 1/2 <= 100·correct/total < r + 1/2, multiplied out by
      2·total. */
  predicate IsRoundedPercent(r: int, correct: nat, total: nat) {
    (2 * r - 1) * total <= 200 * correct < (2 * r + 1) * total
  }

  /** Whole-number percentage of correct answers; 0 before any answer. */
  function Accuracy(correct: nat, wrong: nat): (r: nat)
    ensures correct + wrong == 0 ==> r == 0
    ensures correct + wrong > 0 ==> IsRoundedPercent(r, correct, correct + wrong)
    ensures r <= 100
  {
    var total := correct + wrong;
    if total > 0 then
      var q := (200 * correct + total) / (2 * total);
      DivisionBracket(200 * correct + total, 2 * total);
      assert q <= 100 by {
        if q > 100 {
          MulMonotone(101, q, 2 * total);
        }
      }
      q
    else 0
  }

  lemma DivisionBracket(n: nat, d: nat)
    requires d > 0
    ensures (n / d) * d <= n < (n / d) * d + d
  {
  }

  lemma MulMonotone(a: int, b: int, c: nat)
    requires a <= b
    ensures a * c <= b * c
  {
  }

  /** At most one whole number is the rounded percentage, so the figure is
      determined by the two counters alone. */
  lemma RoundedPercentUnique(r1: int, r2: int, correct: nat, total: nat)
    requires total > 0
    requires IsRoundedPercent(r1, correct, total)
    requires IsRoundedPercent(r2, correct, total)
    ensures r1 == r2
  {
    if r1 < r2 {
      MulMonotone(2 * r1 + 1, 2 * r2 - 1, total);
    } else if r2 < r1 {
      MulMonotone(2 * r2 + 1, 2 * r1 - 1, total);
    }
  }

  /** Accuracy is the rounded percentage and nothing else. */
  lemma AccuracyCharacterized(correct: nat, wrong: nat, r: int)
    requires correct + wrong > 0
    ensures Accuracy(correct, wrong) == r <==> IsRoundedPercent(r, correct, correct + wrong)
  {
    if IsRoundedPercent(r, correct, correct + wrong) {
      RoundedPercentUnique(r, Accuracy(correct, wrong), correct, correct + wrong);
    }
  }

  /** Sample figures: all right is 100, all wrong is 0, three of four is 75,
      one of two is 50, two of three is 67 and one of three is 33. */
  lemma AccuracyExamples()
    ensures Accuracy(0, 0) == 0
    ensures Accuracy(1, 0) == 100
    ensures Accuracy(0, 5) == 0
    ensures Accuracy(3, 1) == 75
    ensures Accuracy(1, 1) == 50
    ensures Accuracy(2, 1) == 67
    ensures Accuracy(1, 2) == 33
  {
  }
}
