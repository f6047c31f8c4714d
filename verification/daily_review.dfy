/** The daily-review dialog: the tags to choose from, the tag selection and
    the card count the user sets, and the list of cards a review starts
    with. */
module DailyReview {
  import opened Cards
  import opened Text

  /** The tag a card is listed under: its category, or "Uncategorized" when
      it has none. */
  function TagOf(c: Card): (t: string)
    ensures t != ""
    ensures c.category != "" ==> t == c.category
  {
    if c.category == "" then "Uncategorized" else c.category
  }

  /** `availableTags`: every card's tag once, in sorted order. */
  function AvailableTags(cards: seq<Card>): (r: seq<string>)
    ensures SortedDistinct(r)
    ensures forall y :: y in r <==> exists c :: c in cards && TagOf(c) == y
  {
    if cards == [] then []
    else
      var n := |cards| - 1;
      var prev := AvailableTags(cards[..n]);
      assert cards == cards[..n] + [cards[n]];
      Insert(TagOf(cards[n]), prev)
  }

  /** The tag list is THE sorted, duplicate-free list of the cards' tags:
      any other such list of the same tags is equal to it. */
  lemma AvailableTagsUnique(cards: seq<Card>, tags: seq<string>)
    requires SortedDistinct(tags)
    requires forall y :: y in tags <==> exists c :: c in cards && TagOf(c) == y
    ensures tags == AvailableTags(cards)
  {
    SortedDistinctUnique(tags, AvailableTags(cards));
  }

  /** The cards whose tag is one of `selected`, in library order. */
  function Tagged(cards: seq<Card>, selected: seq<string>): (r: seq<Card>)
    ensures |r| <= |cards|
    ensures forall c :: c in r <==> c in cards && TagOf(c) in selected
    ensures multiset(r) <= multiset(cards)
  {
    if cards == [] then []
    else
      var rest := Tagged(cards[1..], selected);
      assert cards == [cards[0]] + cards[1..];
      if TagOf(cards[0]) in selected then [cards[0]] + rest else rest
  }

  /** Every matching card is kept, once per occurrence and in library
      order: filtering `a + b` is filtering each part. */
  lemma {:induction false} TaggedAppend(a: seq<Card>, b: seq<Card>, selected: seq<string>)
    ensures Tagged(a + b, selected) == Tagged(a, selected) + Tagged(b, selected)
  {
    if a == [] {
      assert a + b == b;
    } else {
      assert (a + b)[0] == a[0] && (a + b)[1..] == a[1..] + b;
      TaggedAppend(a[1..], b, selected);
    }
  }

  /** A single card is kept exactly when its tag is selected. */
  lemma TaggedOne(c: Card, selected: seq<string>)
    ensures Tagged([c], selected) == (if TagOf(c) in selected then [c] else [])
  {
    assert [c][1..] == [];
  }

  /** The eligible cards of `handleStartReview`: all of them when no tag is
      selected, else those with a selected tag. */
  function Eligible(cards: seq<Card>, selected: seq<string>): (r: seq<Card>)
    ensures selected == [] ==> r == cards
    ensures selected != [] ==> forall c :: c in r <==> c in cards && TagOf(c) in selected
    ensures multiset(r) <= multiset(cards)
  {
    if selected == [] then cards else Tagged(cards, selected)
  }

  /** The eligible cards keep library order and every occurrence, with or
      without a tag selection. */
  lemma EligibleAppend(a: seq<Card>, b: seq<Card>, selected: seq<string>)
    ensures Eligible(a + b, selected) == Eligible(a, selected) + Eligible(b, selected)
  {
    if selected != [] {
      TaggedAppend(a, b, selected);
    }
  }

  /** `selectedCardCount`, counted card by card. */
  function SelectedCardCount(cards: seq<Card>, selected: seq<string>): (n: nat)
    ensures n <= |cards|
    ensures selected == [] ==> n == |cards|
  {
    if selected == [] then |cards|
    else if cards == [] then 0
    else (if TagOf(cards[0]) in selected then 1 else 0) + SelectedCardCount(cards[1..], selected)
  }

  /** The count the dialog shows is the number of cards a review would draw
      from. */
  lemma {:induction false} CountIsEligibleSize(cards: seq<Card>, selected: seq<string>)
    ensures SelectedCardCount(cards, selected) == |Eligible(cards, selected)|
  {
    if selected != [] && cards != [] {
      CountIsEligibleSize(cards[1..], selected);
    }
  }

  /** `toggleTag`: a selected tag is removed (every occurrence), any other
      tag is appended. */
  function Toggled(selected: seq<string>, tag: string): (r: seq<string>)
    ensures tag in r <==> tag !in selected
    ensures forall y :: y != tag ==> (y in r <==> y in selected)
    ensures tag !in selected ==> r == selected + [tag]
  {
    if tag in selected then Without(selected, tag) else selected + [tag]
  }

  /** `prev.filter(t => t !== tag)` */
  function Without(s: seq<string>, tag: string): (r: seq<string>)
    ensures |r| <= |s|
    ensures forall y :: y in r <==> y in s && y != tag
  {
    if s == [] then []
    else
      var rest := Without(s[1..], tag);
      assert s == [s[0]] + s[1..];
      if s[0] == tag then rest else [s[0]] + rest
  }

  /** The other tags keep their order and their number of occurrences:
      removing from `a + b` is removing from each part. */
  lemma {:induction false} WithoutAppend(a: seq<string>, b: seq<string>, tag: string)
    ensures Without(a + b, tag) == Without(a, tag) + Without(b, tag)
  {
    if a == [] {
      assert a + b == b;
    } else {
      assert (a + b)[0] == a[0] && (a + b)[1..] == a[1..] + b;
      WithoutAppend(a[1..], b, tag);
    }
  }

  /** Toggling a tag twice selects the same tags as before; when the tag was
      not selected, the selection is exactly as before. */
  lemma ToggleTwice(selected: seq<string>, tag: string)
    ensures forall y :: y in Toggled(Toggled(selected, tag), tag) <==> y in selected
    ensures tag !in selected ==> Toggled(Toggled(selected, tag), tag) == selected
  {
    if tag !in selected {
      WithoutAbsent(selected, tag);
      WithoutLast(selected, tag);
    }
  }

  lemma {:induction false} WithoutAbsent(s: seq<string>, tag: string)
    requires tag !in s
    ensures Without(s, tag) == s
  {
    if s != [] {
      WithoutAbsent(s[1..], tag);
    }
  }

  lemma {:induction false} WithoutLast(s: seq<string>, tag: string)
    ensures Without(s + [tag], tag) == Without(s, tag)
  {
    if s == [] {
      assert Without([tag], tag) == Without([tag][1..], tag);
    } else {
      assert (s + [tag])[1..] == s[1..] + [tag];
      WithoutLast(s[1..], tag);
    }
  }

  function Min(a: int, b: int): int {
    if a <= b then a else b
  }

  function Max(a: int, b: int): int {
    if a >= b then a else b
  }

  /** The number of cards the start button announces. */
  function AnnouncedCount(cardCount: int, selectedCount: nat): (n: int)
    ensures n <= cardCount && n <= Max(selectedCount, 1)
    ensures n == cardCount || n == Max(selectedCount, 1)
  {
    Min(cardCount, Max(selectedCount, 1))
  }

  /** `handleStartReview`'s selection. `shuffled` stands for
      `[...eligibleCards].sort(() => Math.random() - 0.5)`, an arbitrary
      reordering of the eligible cards. No eligible card starts nothing;
      otherwise the first `min(cardCount, |eligible|)` of the reordering. */
  function ReviewCards(cards: seq<Card>, selected: seq<string>, cardCount: nat, shuffled: seq<Card>)
    : (r: Option<seq<Card>>)
    requires multiset(shuffled) == multiset(Eligible(cards, selected))
    ensures r.None? <==> Eligible(cards, selected) == []
    ensures r.Some? ==> |r.value| == Min(cardCount, |Eligible(cards, selected)|)
    ensures r.Some? ==> multiset(r.value) <= multiset(Eligible(cards, selected))
    ensures r.Some? ==> forall c :: c in r.value ==> c in cards && (selected == [] || TagOf(c) in selected)
  {
    var eligible := Eligible(cards, selected);
    if |eligible| == 0 then None
    else
      assert |shuffled| == |multiset(shuffled)| == |eligible|;
      var k := Min(cardCount, |shuffled|);
      assert shuffled == shuffled[..k] + shuffled[k..];
      assert forall c :: c in shuffled[..k] ==> c in multiset(eligible);
      Some(shuffled[..k])
  }

  /** The start button announces exactly the number of cards the review
      then holds. */
  lemma AnnouncedIsReviewSize(cards: seq<Card>, selected: seq<string>, cardCount: nat, shuffled: seq<Card>)
    requires multiset(shuffled) == multiset(Eligible(cards, selected))
    requires ReviewCards(cards, selected, cardCount, shuffled).Some?
    ensures |ReviewCards(cards, selected, cardCount, shuffled).value|
            == AnnouncedCount(cardCount, SelectedCardCount(cards, selected))
  {
    CountIsEligibleSize(cards, selected);
  }

  predicate NoDuplicates(s: seq<Card>) {
    forall i, j :: 0 <= i < j < |s| ==> s[i] != s[j]
  }

  lemma {:induction false} NoDuplicatesCountOnce(s: seq<Card>, x: Card)
    requires NoDuplicates(s)
    ensures multiset(s)[x] <= 1
  {
    if s != [] {
      assert s == [s[0]] + s[1..];
      assert NoDuplicates(s[1..]);
      NoDuplicatesCountOnce(s[1..], x);
      if x == s[0] {
        assert x !in s[1..];
      }
    }
  }

  lemma RepeatCountsTwice(s: seq<Card>, i: nat, j: nat)
    requires i < j < |s| && s[i] == s[j]
    ensures multiset(s)[s[i]] >= 2
  {
    assert s == s[..i] + [s[i]] + s[i + 1..j] + [s[j]] + s[j + 1..];
  }

  /** Cards of a library without repeated cards appear at most once in a
      review. */
  lemma ReviewHasNoDuplicates(cards: seq<Card>, selected: seq<string>, cardCount: nat, shuffled: seq<Card>)
    requires NoDuplicates(cards)
    requires multiset(shuffled) == multiset(Eligible(cards, selected))
    requires ReviewCards(cards, selected, cardCount, shuffled).Some?
    ensures NoDuplicates(ReviewCards(cards, selected, cardCount, shuffled).value)
  {
    var r := ReviewCards(cards, selected, cardCount, shuffled).value;
    assert multiset(r) <= multiset(cards);
    forall i, j | 0 <= i < j < |r|
      ensures r[i] != r[j]
    {
      NoDuplicatesCountOnce(cards, r[i]);
      if r[i] == r[j] {
        RepeatCountsTwice(r, i, j);
        assert false;
      }
    }
  }

  /** The dialog's own state: the selected tags and the requested number of
      cards. */
  class TagPicker {
    var selectedTags: seq<string>
    var cardCount: int

    ghost predicate Valid()
      reads this
    {
      cardCount >= 1
    }

    /** No tag selected, ten cards. */
    constructor ()
      ensures Valid() && selectedTags == [] && cardCount == 10
    {
      selectedTags := [];
      cardCount := 10;
    }

    /** A click on a tag chip. */
    method ToggleTag(tag: string)
      requires Valid()
      modifies this`selectedTags
      ensures Valid()
      ensures selectedTags == Toggled(old(selectedTags), tag)
    {
      if tag in selectedTags {
        selectedTags := Without(selectedTags, tag);
      } else {
        selectedTags := selectedTags + [tag];
      }
    }

    /** "Select all": every available tag, in sorted order. */
    method SelectAllTags(cards: seq<Card>)
      requires Valid()
      modifies this`selectedTags
      ensures Valid()
      ensures selectedTags == AvailableTags(cards)
    {
      selectedTags := AvailableTags(cards);
    }

    /** "Clear": no tag, which means every card. */
    method ClearAllTags()
      requires Valid()
      modifies this`selectedTags
      ensures Valid()
      ensures selectedTags == []
    {
      selectedTags := [];
    }

    /** The number field: `Math.max(1, Number(value))`. */
    method SetCardCount(value: int)
      requires Valid()
      modifies this`cardCount
      ensures Valid()
      ensures cardCount == Max(1, value)
    {
      cardCount := if value < 1 then 1 else value;
    }

    /** The start button: the review drawn with the dialog's own tags and
        count, holding as many cards as the button announces. */
    method StartReview(cards: seq<Card>, shuffled: seq<Card>) returns (r: Option<seq<Card>>)
      requires Valid()
      requires multiset(shuffled) == multiset(Eligible(cards, selectedTags))
      ensures r == ReviewCards(cards, selectedTags, cardCount, shuffled)
      ensures r.Some? ==> 1 <= |r.value| == AnnouncedCount(cardCount, SelectedCardCount(cards, selectedTags))
    {
      r := ReviewCards(cards, selectedTags, cardCount, shuffled);
      if r.Some? {
        AnnouncedIsReviewSize(cards, selectedTags, cardCount, shuffled);
      }
    }

    /** The slider, whose values start at 5. */
    method SlideCardCount(value: int)
      requires Valid() && value >= 5
      modifies this`cardCount
      ensures Valid()
      ensures cardCount == value
    {
      cardCount := value;
    }
  }

  /** Select-all followed by the selection count covers every card: each
      card's tag is available. */
  lemma {:induction false} AllTagsSelectEverything(cards: seq<Card>)
    ensures SelectedCardCount(cards, AvailableTags(cards)) == |cards|
  {
    var tags := AvailableTags(cards);
    forall c | c in cards ensures TagOf(c) in tags { }
    AllTaggedCount(cards, tags);
  }

  lemma {:induction false} AllTaggedCount(cards: seq<Card>, tags: seq<string>)
    requires forall c :: c in cards ==> TagOf(c) in tags
    ensures SelectedCardCount(cards, tags) == |cards|
  {
    if cards != [] && tags != [] {
      assert cards[0] in cards;
      assert forall c :: c in cards[1..] ==> c in cards;
      AllTaggedCount(cards[1..], tags);
    }
  }
}
