/** The flashcard record of the browser app and the category/difficulty
    filter that both the library screen and the session start apply. */
module Cards {

  datatype Option<T> = None | Some(value: T)

  /** Card identifiers are opaque; the app makes them from the clock and a
      random suffix, which the model receives as given values. */
  type CardId = nat

  /** A card as the app keeps it in memory and in local storage. The empty
      category stands for a missing one; `difficulty` is the last rating
      given ("easy", "medium", "hard") or `None` for a never-rated card;
      `lastReviewed` is the time of that rating. */
  datatype Card = Card(
    id: CardId,
    front: string,
    back: string,
    category: string,
    difficulty: Option<string>,
    lastReviewed: Option<int>)

  /** The selection a session is started with: a category or "all", and a
      difficulty bucket ("easy", "medium", "hard", "new") or "all". */
  datatype Filter = Filter(category: string, difficulty: string)

  /** A card is "new" when its difficulty is falsy: absent or empty. */
  predicate IsNew(c: Card) {
    c.difficulty.None? || c.difficulty.value == ""
  }

  predicate HasDifficulty(c: Card, level: string) {
    c.difficulty == Some(level)
  }

  /** The predicate of the session start and of the library's card count. */
  predicate Matches(c: Card, f: Filter) {
    var catMatch := f.category == "all" || c.category == f.category;
    var diffMatch := f.difficulty == "all"
      || (f.difficulty == "new" && IsNew(c))
      || HasDifficulty(c, f.difficulty);
    catMatch && diffMatch
  }

  /** The cards that match `f`, in their original order. */
  function Select(cards: seq<Card>, f: Filter): (r: seq<Card>)
    ensures |r| <= |cards|
    ensures forall c :: c in r <==> c in cards && Matches(c, f)
    ensures multiset(r) <= multiset(cards)
  {
    if cards == [] then []
    else
      var rest := Select(cards[1..], f);
      assert cards == [cards[0]] + cards[1..];
      if Matches(cards[0], f) then [cards[0]] + rest else rest
  }

  /** Selecting from two lists one after the other is selecting from their
      concatenation: the filter keeps the cards' relative order. */
  lemma {:induction false} SelectAppend(a: seq<Card>, b: seq<Card>, f: Filter)
    ensures Select(a + b, f) == Select(a, f) + Select(b, f)
  {
    if a != [] {
      assert (a + b)[0] == a[0] && (a + b)[1..] == a[1..] + b;
      SelectAppend(a[1..], b, f);
    } else {
      assert a + b == b;
    }
  }

  /** With category and difficulty both "all", every card is selected. */
  lemma {:induction false} SelectAll(cards: seq<Card>)
    ensures Select(cards, Filter("all", "all")) == cards
  {
    if cards != [] {
      SelectAll(cards[1..]);
      assert cards == [cards[0]] + cards[1..];
    }
  }
}
