/** The review-interval rule of the simplified spaced-repetition scheduler:
    the number of days until a card is due again, from the previous interval
    and the rating just given. */
module Srs {

  /** `calculateNextReview(currentInterval, rating).interval`. The source
      computes `Math.ceil(c * 1.5)` and `Math.ceil(c * 2.5)`; for whole `c`
      these are `(3c + 1) / 2` and `(5c + 1) / 2`. A rating other than the
      three recognised ones keeps the initial value 1. */
  function NextInterval(current: nat, rating: string): (r: nat)
    ensures r >= 1
    ensures rating == "hard" ==> r == 1
    // medium: the least whole number of days that is at least 2 and at least 1.5 c
    ensures rating == "medium" ==> r >= 2 && 2 * r >= 3 * current && (r == 2 || 2 * (r - 1) < 3 * current)
    // easy: 4 days for a new card, else the least whole number at least 2.5 c
    ensures rating == "easy" && current == 0 ==> r == 4
    ensures rating == "easy" && current > 0 ==> 2 * r >= 5 * current && 2 * (r - 1) < 5 * current
    ensures rating != "hard" && rating != "medium" && rating != "easy" ==> r == 1
  {
    if rating == "hard" then 1
    else if rating == "medium" then (if (3 * current + 1) / 2 < 2 then 2 else (3 * current + 1) / 2)
    else if rating == "easy" then
      if current == 0 then 4 else (5 * current + 1) / 2
    else 1
  }

  /** For the same previous interval, easy never schedules sooner than
      medium, and medium never sooner than hard. */
  lemma RatingOrder(current: nat)
    ensures NextInterval(current, "easy") >= NextInterval(current, "medium")
    ensures NextInterval(current, "medium") >= NextInterval(current, "hard")
  {
  }

  /** Once a card has an interval, medium and easy never shorten it; easy
      strictly lengthens it. */
  lemma SuccessNeverShrinks(current: nat)
    requires current > 0
    ensures NextInterval(current, "medium") >= current
    ensures NextInterval(current, "easy") > current
  {
  }

  /** Worked values of the rule: the medium floor of 2, ceilings of 1.5 c
      and 2.5 c, and the fixed 4 days for a new card rated easy. */
  lemma Examples()
    ensures NextInterval(0, "medium") == 2 && NextInterval(1, "medium") == 2
    ensures NextInterval(3, "medium") == 5
    ensures NextInterval(0, "easy") == 4 && NextInterval(1, "easy") == 3
    ensures NextInterval(10, "easy") == 25
    ensures NextInterval(7, "hard") == 1
  {
  }

  /** The comment's "minimum 4 days" for easy holds only for a new card: a
      card with interval 1 gets 3 days. */
  lemma EasyMinimumOnlyForNewCards()
    ensures NextInterval(0, "easy") == 4
    ensures NextInterval(1, "easy") < 4
  {
  }
}
