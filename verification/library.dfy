/** The library screen: the number of cards the current selection would
    study, the per-difficulty counters, the category choices, and the
    selection handed over when a review starts. */
module Library {
  import opened Cards

  /** `getFilteredCount`: how many cards the selected category and
      difficulty let through. */
  function FilteredCount(cards: seq<Card>, selectedCategory: string, selectedDifficulty: string): (n: nat)
    ensures n <= |cards|
  {
    if cards == [] then 0
    else
      (if Matches(cards[0], Filter(selectedCategory, selectedDifficulty)) then 1 else 0)
      + FilteredCount(cards[1..], selectedCategory, selectedDifficulty)
  }

  /** `handleStart`: the filter passed to the review start is the current
      selection, handed over as it is; the screen does no filtering of its
      own here, so the contract is the pass-through itself, and what the
      filter selects is stated by `CountIsPoolSize`. */
  function StartFilter(selectedCategory: string, selectedDifficulty: string): (f: Filter)
    ensures f.category == selectedCategory && f.difficulty == selectedDifficulty
  {
    Filter(selectedCategory, selectedDifficulty)
  }

  /** The count shown on the start button is the size of the pool the
      session start selects with the same filter. */
  lemma {:induction false} CountIsPoolSize(cards: seq<Card>, selectedCategory: string, selectedDifficulty: string)
    ensures FilteredCount(cards, selectedCategory, selectedDifficulty)
      == |Select(cards, StartFilter(selectedCategory, selectedDifficulty))|
  {
    if cards != [] {
      CountIsPoolSize(cards[1..], selectedCategory, selectedDifficulty);
    }
  }

  /** With both selections at "all" the count is the whole library. */
  lemma AllSelectionCountsEverything(cards: seq<Card>)
    ensures FilteredCount(cards, "all", "all") == |cards|
  {
    CountIsPoolSize(cards, "all", "all");
    SelectAll(cards);
  }

  /** The `counts` object; `unrated` is the source's `new`. */
  datatype Counts = Counts(total: nat, easy: nat, medium: nat, hard: nat, unrated: nat)

  /** `flashcards.filter(c => c.difficulty === level).length` */
  function CountLevel(cards: seq<Card>, level: string): (n: nat)
    ensures n <= |cards|
  {
    if cards == [] then 0
    else (if HasDifficulty(cards[0], level) then 1 else 0) + CountLevel(cards[1..], level)
  }

  /** A per-difficulty counter is the count of that difficulty's bucket in
      the filter, for every level other than the filter's own "new" and
      "all". */
  lemma {:induction false} LevelCountIsBucket(cards: seq<Card>, level: string)
    requires level != "new" && level != "all"
    ensures CountLevel(cards, level) == FilteredCount(cards, "all", level)
  {
    if cards != [] {
      LevelCountIsBucket(cards[1..], level);
    }
  }

  /** `flashcards.filter(c => !c.difficulty).length` */
  function CountNew(cards: seq<Card>): (n: nat)
    ensures n <= |cards|
  {
    if cards == [] then 0
    else (if IsNew(cards[0]) then 1 else 0) + CountNew(cards[1..])
  }

  function LibraryCounts(cards: seq<Card>): (c: Counts)
    ensures c.total == |cards|
    ensures c.easy <= c.total && c.medium <= c.total && c.hard <= c.total && c.unrated <= c.total
  {
    Counts(|cards|, CountLevel(cards, "easy"), CountLevel(cards, "medium"),
           CountLevel(cards, "hard"), CountNew(cards))
  }

  /** The new-card counter agrees with the "new" bucket of the filter, as
      long as no card carries the literal difficulty "new". */
  lemma {:induction false} NewCountIsNewBucket(cards: seq<Card>)
    requires forall c :: c in cards ==> !HasDifficulty(c, "new")
    ensures LibraryCounts(cards).unrated == FilteredCount(cards, "all", "new")
  {
    if cards != [] {
      assert cards[0] in cards;
      assert forall c :: c in cards[1..] ==> c in cards;
      NewCountIsNewBucket(cards[1..]);
    }
  }

  /** When every card is new or rated easy, medium or hard, the four
      counters add up to the total. */
  lemma {:induction false} CountersPartition(cards: seq<Card>)
    requires forall c :: c in cards ==>
      IsNew(c) || HasDifficulty(c, "easy") || HasDifficulty(c, "medium") || HasDifficulty(c, "hard")
    ensures var n := LibraryCounts(cards); n.easy + n.medium + n.hard + n.unrated == n.total
  {
    if cards != [] {
      assert cards[0] in cards;
      assert forall c :: c in cards[1..] ==> c in cards;
      CountersPartition(cards[1..]);
    }
  }

  /** The distinct non-empty categories, in order of first occurrence (the
      insertion order of the source's `Set`). */
  function DistinctCategories(cards: seq<Card>): (r: seq<string>)
    ensures forall i, j :: 0 <= i < j < |r| ==> r[i] != r[j]
    ensures forall x :: x in r <==> x != "" && exists c :: c in cards && c.category == x
  {
    if cards == [] then []
    else
      var prev := DistinctCategories(cards[..|cards| - 1]);
      var x := cards[|cards| - 1].category;
      assert cards == cards[..|cards| - 1] + [cards[|cards| - 1]];
      if x == "" || x in prev then prev else prev + [x]
  }

  /** The category choices: "all" first, then the distinct categories. */
  function Categories(cards: seq<Card>): (r: seq<string>)
    ensures |r| >= 1 && r[0] == "all"
    ensures forall i, j :: 1 <= i < j < |r| ==> r[i] != r[j]
    ensures forall x :: x in r[1..] <==> x != "" && exists c :: c in cards && c.category == x
  {
    var d := DistinctCategories(cards);
    assert (["all"] + d)[1..] == d;
    ["all"] + d
  }

  /** Adding cards never reorders the categories already listed: the list
      for a prefix of the library is a prefix of the list for the whole. */
  lemma {:induction false} CategoriesKeepOrder(a: seq<Card>, b: seq<Card>)
    ensures DistinctCategories(a) <= DistinctCategories(a + b)
    decreases |b|
  {
    if b != [] {
      var ab := a + b;
      CategoriesKeepOrder(a, b[..|b| - 1]);
      assert ab[..|ab| - 1] == a + b[..|b| - 1];
      CategoriesGrow(ab);
    } else {
      assert a + b == a;
    }
  }

  /** One more card only ever appends to the category list. */
  lemma CategoriesGrow(cards: seq<Card>)
    requires cards != []
    ensures DistinctCategories(cards[..|cards| - 1]) <= DistinctCategories(cards)
  {
  }
}
