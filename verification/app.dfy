/** The top-level component of the app: the card library, the CSV import
    flow, and the study session with its cursor, flip state and mastered
    counter, changed by one handler per user action. */
module App {
  import opened Cards
  import Csv

  /** The screen the app shows (`step`). */
  datatype Step = Loading | Browsing | Uploading | Mapping | Studying

  /** `row[k] || ''`: a missing cell reads as empty. */
  function Cell(row: seq<string>, k: int): string {
    if 0 <= k < |row| then row[k] else ""
  }

  /** The card a CSV row becomes. The category is the chosen column's cell
      when a column is chosen and the cell is not empty, otherwise
      `fallback`. */
  function CardFromRow(row: seq<string>, id: CardId, frontCol: int, backCol: int,
                       categoryCol: int, fallback: string): (c: Card)
    ensures c.id == id && c.front == Cell(row, frontCol) && c.back == Cell(row, backCol)
    ensures c.difficulty == None && c.lastReviewed == None
    ensures categoryCol < 0 || Cell(row, categoryCol) == "" ==> c.category == fallback
    ensures categoryCol >= 0 && Cell(row, categoryCol) != "" ==> c.category == Cell(row, categoryCol)
  {
    var cat := if categoryCol >= 0 && Cell(row, categoryCol) != "" then Cell(row, categoryCol) else fallback;
    Card(id, Cell(row, frontCol), Cell(row, backCol), cat, None, None)
  }

  /** A card is kept only when both sides are non-empty. */
  predicate Complete(c: Card) {
    c.front != "" && c.back != ""
  }

  /** `data.map(row => ({...}))`: row `k` becomes its card, with `newId(k)`
      as the identifier made for it. */
  function MadeCards(rows: seq<seq<string>>, newId: nat -> CardId, frontCol: int, backCol: int,
                     categoryCol: int, fallback: string): (r: seq<Card>)
    ensures |r| == |rows|
    ensures forall k :: 0 <= k < |r| ==> r[k].difficulty == None && r[k].lastReviewed == None
    ensures forall k :: 0 <= k < |r| && categoryCol < 0 ==> r[k].category == fallback
    ensures fallback != "" ==> forall k :: 0 <= k < |r| ==> r[k].category != ""
  {
    var r := seq(|rows|, k requires 0 <= k < |rows| => CardFromRow(rows[k], newId(k), frontCol, backCol, categoryCol, fallback));
    assert forall k :: 0 <= k < |r| ==> r[k] == CardFromRow(rows[k], newId(k), frontCol, backCol, categoryCol, fallback);
    r
  }

  /** `.filter(card => card.front && card.back)` */
  function KeepComplete(cards: seq<Card>): (r: seq<Card>)
    ensures |r| <= |cards|
    ensures forall c :: c in r <==> c in cards && Complete(c)
  {
    if cards == [] then []
    else (if Complete(cards[0]) then [cards[0]] else []) + KeepComplete(cards[1..])
  }

  /** The filter keeps the cards' order and multiplicity. */
  lemma {:induction false} KeepCompleteAppend(a: seq<Card>, b: seq<Card>)
    ensures KeepComplete(a + b) == KeepComplete(a) + KeepComplete(b)
  {
    if a == [] {
      assert a + b == b;
    } else {
      assert (a + b)[0] == a[0] && (a + b)[1..] == a[1..] + b;
      KeepCompleteAppend(a[1..], b);
    }
  }

  /** The import: `data.map(row => ({...})).filter(card => card.front && card.back)`. */
  function RowsToCards(rows: seq<seq<string>>, newId: nat -> CardId, frontCol: int, backCol: int,
                       categoryCol: int, fallback: string): (r: seq<Card>)
    ensures |r| <= |rows|
    ensures forall c :: c in r ==> Complete(c) && c.difficulty == None && c.lastReviewed == None
    ensures forall c :: c in r && categoryCol < 0 ==> c.category == fallback
    ensures fallback != "" ==> forall c :: c in r ==> c.category != ""
  {
    KeepComplete(MadeCards(rows, newId, frontCol, backCol, categoryCol, fallback))
  }

  /** The rows are turned into cards in order: the cards of `a + b` are those
      of `a` followed by those of `b`, whose rows are numbered after `a`'s. */
  lemma RowsToCardsAppend(a: seq<seq<string>>, b: seq<seq<string>>, newId: nat -> CardId,
                          frontCol: int, backCol: int, categoryCol: int, fallback: string)
    ensures RowsToCards(a + b, newId, frontCol, backCol, categoryCol, fallback)
            == RowsToCards(a, newId, frontCol, backCol, categoryCol, fallback)
               + RowsToCards(b, k => newId(|a| + k), frontCol, backCol, categoryCol, fallback)
  {
    MadeCardsAppend(a, b, newId, frontCol, backCol, categoryCol, fallback);
    KeepCompleteAppend(MadeCards(a, newId, frontCol, backCol, categoryCol, fallback),
                       MadeCards(b, k => newId(|a| + k), frontCol, backCol, categoryCol, fallback));
  }

  /** The map keeps the rows' order, numbering the rows of `b` after `a`'s. */
  lemma MadeCardsAppend(a: seq<seq<string>>, b: seq<seq<string>>, newId: nat -> CardId,
                        frontCol: int, backCol: int, categoryCol: int, fallback: string)
    ensures MadeCards(a + b, newId, frontCol, backCol, categoryCol, fallback)
            == MadeCards(a, newId, frontCol, backCol, categoryCol, fallback)
               + MadeCards(b, k => newId(|a| + k), frontCol, backCol, categoryCol, fallback)
  {
    var f: nat -> CardId := k => newId(|a| + k);
    var ma := MadeCards(a, newId, frontCol, backCol, categoryCol, fallback);
    var mb := MadeCards(b, f, frontCol, backCol, categoryCol, fallback);
    var mab := MadeCards(a + b, newId, frontCol, backCol, categoryCol, fallback);
    forall k | |a| <= k < |a + b|
      ensures mab[k] == mb[k - |a|]
    {
      assert (a + b)[k] == b[k - |a|] && f(k - |a|) == newId(k);
    }
    assert mab == ma + mb;
  }

  /** One row gives its card when both sides are filled in, and nothing
      otherwise: together with `RowsToCardsAppend`, one card per complete
      row, in row order. */
  lemma RowsToCardsOne(row: seq<string>, newId: nat -> CardId, frontCol: int, backCol: int,
                       categoryCol: int, fallback: string)
    ensures var c := CardFromRow(row, newId(0), frontCol, backCol, categoryCol, fallback);
            RowsToCards([row], newId, frontCol, backCol, categoryCol, fallback) == (if Complete(c) then [c] else [])
  {
    var made := MadeCards([row], newId, frontCol, backCol, categoryCol, fallback);
    assert made[1..] == [];
  }

  /** Every row with both sides filled in yields its card. */
  lemma RowsToCardsKeepsComplete(rows: seq<seq<string>>, newId: nat -> CardId, frontCol: int,
                                 backCol: int, categoryCol: int, fallback: string, k: nat)
    requires k < |rows|
    requires Cell(rows[k], frontCol) != "" && Cell(rows[k], backCol) != ""
    ensures CardFromRow(rows[k], newId(k), frontCol, backCol, categoryCol, fallback)
            in RowsToCards(rows, newId, frontCol, backCol, categoryCol, fallback)
  {
    var made := MadeCards(rows, newId, frontCol, backCol, categoryCol, fallback);
    assert made[k] in made;
  }

  /** Every card made comes from one of the rows, with that row's id. */
  lemma RowsToCardsFromRows(rows: seq<seq<string>>, newId: nat -> CardId, frontCol: int,
                            backCol: int, categoryCol: int, fallback: string, c: Card)
    requires c in RowsToCards(rows, newId, frontCol, backCol, categoryCol, fallback)
    ensures exists k :: 0 <= k < |rows| && c == CardFromRow(rows[k], newId(k), frontCol, backCol, categoryCol, fallback)
  {
    var made := MadeCards(rows, newId, frontCol, backCol, categoryCol, fallback);
    var k :| 0 <= k < |made| && made[k] == c;
  }

  /** The cards made from the bundled CSV files, file by file: columns 0, 1
      and 2 are front, back and category, with "Imported" as the default
      category; `newId(f, k)` is the identifier made for row `k` of file `f`. */
  function EmbeddedCards(csvTexts: seq<string>, newId: (nat, nat) -> CardId): (r: seq<Card>)
    ensures forall c :: c in r ==> Complete(c) && c.difficulty == None && c.category != ""
  {
    if csvTexts == [] then []
    else
      var f := |csvTexts| - 1;
      EmbeddedCards(csvTexts[..f], newId) + FileCards(Csv.Reading(csvTexts[f]).data, f, newId)
  }

  /** The cards of bundled file number `f`, given its data rows. */
  function FileCards(data: seq<seq<string>>, f: nat, newId: (nat, nat) -> CardId): (r: seq<Card>)
    ensures forall c :: c in r ==> Complete(c) && c.difficulty == None && c.category != ""
  {
    RowsToCards(data, k => newId(f, k), 0, 1, 2, "Imported")
  }

  /** `hard` re-queueing: the card at `i` moves to the end, the others keep
      their order. */
  function Requeue(session: seq<Card>, i: nat): (r: seq<Card>)
    requires i < |session|
    ensures |r| == |session| && multiset(r) == multiset(session)
    ensures r[|r| - 1] == session[i]
    ensures forall k :: 0 <= k < i ==> r[k] == session[k]
    ensures forall k :: i <= k < |r| - 1 ==> r[k] == session[k + 1]
  {
    assert session == session[..i] + [session[i]] + session[i + 1..];
    session[..i] + session[i + 1..] + [session[i]]
  }

  /** A one-card session is unchanged by re-queueing. */
  lemma RequeueSingle(session: seq<Card>)
    requires |session| == 1
    ensures Requeue(session, 0) == session
  {
  }

  /** Re-queueing the last card leaves the session as it was. */
  lemma RequeueLast(session: seq<Card>)
    requires |session| > 0
    ensures Requeue(session, |session| - 1) == session
  {
    var r := Requeue(session, |session| - 1);
    assert forall k :: 0 <= k < |r| ==> r[k] == session[k];
  }

  /** The rating written into the library: difficulty and review time change
      on the cards with the rated id, every other card stays as it was. */
  function MarkRated(cards: seq<Card>, id: CardId, level: string, now: int): (r: seq<Card>)
    ensures |r| == |cards|
    ensures forall k :: 0 <= k < |cards| && cards[k].id != id ==> r[k] == cards[k]
    ensures forall k :: 0 <= k < |cards| && cards[k].id == id ==>
              r[k] == cards[k].(difficulty := Some(level), lastReviewed := Some(now))
  {
    seq(|cards|, k requires 0 <= k < |cards| =>
      if cards[k].id == id then cards[k].(difficulty := Some(level), lastReviewed := Some(now)) else cards[k])
  }

  /** Rating keeps the library's cards, their order and their content apart
      from the rating itself. */
  lemma MarkRatedKeepsCards(cards: seq<Card>, id: CardId, level: string, now: int)
    ensures forall k :: 0 <= k < |cards| ==>
      var c := MarkRated(cards, id, level, now)[k];
      c.id == cards[k].id && c.front == cards[k].front && c.back == cards[k].back
      && c.category == cards[k].category
  {
  }

  /** The random draws of the shuffle, `Math.floor(Math.random() * (i + 1))`,
      given as numbers: draw `k` picks the swap partner of the element at
      `i`, always in `0..i`. */
  function SwapPartner(draws: seq<nat>, k: nat, i: nat): (j: nat)
    ensures j <= i
  {
    if k < |draws| then draws[k] % (i + 1) else i
  }

  /** The Fisher–Yates shuffle of `handleStartReview`, in place. */
  method Shuffle(a: array<Card>, draws: seq<nat>)
    modifies a
    ensures multiset(a[..]) == old(multiset(a[..]))
  {
    var i := a.Length - 1;
    while i > 0
      invariant i < a.Length
      invariant multiset(a[..]) == old(multiset(a[..]))
    {
      var j := SwapPartner(draws, a.Length - 1 - i, i);
      a[i], a[j] := a[j], a[i];
      i := i - 1;
    }
  }

  /** The mount effect's loop over the bundled files: parse each one and
      append the cards of every file that has data rows. */
  method LoadEmbedded(csvTexts: seq<string>, newId: (nat, nat) -> CardId) returns (embedded: seq<Card>)
    ensures embedded == EmbeddedCards(csvTexts, newId)
  {
    embedded := [];
    for f := 0 to |csvTexts|
      invariant embedded == EmbeddedCards(csvTexts[..f], newId)
    {
      assert csvTexts[..f + 1][..f] == csvTexts[..f];
      var parsed := Csv.ParseCsv(csvTexts[f]);
      if |parsed.data| > 0 {
        embedded := embedded + FileCards(parsed.data, f, newId);
      } else {
        assert FileCards(parsed.data, f, newId) == [];
      }
    }
    assert csvTexts[..|csvTexts|] == csvTexts;
  }

  /** The shuffled copy `[...filtered]` of the selected cards. */
  method ShuffledCopy(pool: seq<Card>, draws: seq<nat>) returns (s: seq<Card>)
    ensures |s| == |pool| && multiset(s) == multiset(pool)
  {
    var a := new Card[|pool|](k requires 0 <= k < |pool| => pool[k]);
    assert a[..] == pool;
    Shuffle(a, draws);
    s := a[..];
  }

  /** The session a start would study: the matching cards, shuffled. */
  method StudyDeck(cards: seq<Card>, filter: Filter, draws: seq<nat>) returns (s: seq<Card>)
    ensures |s| == |Select(cards, filter)| && multiset(s) == multiset(Select(cards, filter))
  {
    s := ShuffledCopy(Select(cards, filter), draws);
  }

  class AppState {
    var step: Step
    var csvData: Csv.Parsed
    var allFlashcards: seq<Card>
    var studySession: seq<Card>
    var currentIndex: int
    var isFlipped: bool
    var masteredCount: nat

    /** The cursor stays inside the session, and a study screen always has
        a card to show. */
    ghost predicate Valid()
      reads this
    {
      && 0 <= currentIndex
      && (studySession != [] ==> currentIndex < |studySession|)
      && (step == Studying ==> studySession != [])
    }

    /** The initial state of the component. */
    constructor ()
      ensures Valid()
      ensures step == Loading && csvData == Csv.Parsed([], []) && allFlashcards == []
      ensures studySession == [] && currentIndex == 0 && !isFlipped && masteredCount == 0
    {
      step := Loading;
      csvData := Csv.Parsed([], []);
      allFlashcards := [];
      studySession := [];
      currentIndex := 0;
      isFlipped := false;
      masteredCount := 0;
    }

    /** The mount effect: read every bundled CSV file, then prefer the
        bundled cards only when local storage holds none; local cards win
        otherwise; with neither, ask for an upload. */
    method LoadOnMount(localCards: seq<Card>, csvTexts: seq<string>, newId: (nat, nat) -> CardId)
      requires Valid()
      modifies this
      ensures Valid()
      ensures var embedded := EmbeddedCards(csvTexts, newId);
        if |localCards| == 0 && |embedded| > 0 then allFlashcards == embedded && step == Browsing
        else if |localCards| > 0 then allFlashcards == localCards && step == Browsing
        else allFlashcards == old(allFlashcards) && step == Uploading
      ensures studySession == old(studySession) && currentIndex == old(currentIndex)
      ensures isFlipped == old(isFlipped) && masteredCount == old(masteredCount) && csvData == old(csvData)
    {
      var embedded := LoadEmbedded(csvTexts, newId);
      if |localCards| == 0 && |embedded| > 0 {
        allFlashcards := embedded;
        step := Browsing;
      } else if |localCards| > 0 {
        allFlashcards := localCards;
        step := Browsing;
      } else {
        step := Uploading;
      }
    }

    /** `handleFileUpload` once the file's text is read: a file with data
        rows moves on to the column mapping. */
    method HandleFileUpload(text: string)
      requires Valid()
      modifies this
      ensures Valid()
      ensures var parsed := Csv.Reading(text);
        if |parsed.data| > 0 then csvData == parsed && step == Mapping
        else csvData == old(csvData) && step == old(step)
      ensures allFlashcards == old(allFlashcards) && studySession == old(studySession)
      ensures currentIndex == old(currentIndex) && isFlipped == old(isFlipped) && masteredCount == old(masteredCount)
    {
      var parsed := Csv.ParseCsv(text);
      if |parsed.data| > 0 {
        csvData := parsed;
        step := Mapping;
      }
    }

    /** `handleImport`: append the complete cards built from the mapped
        columns; with none, nothing changes. */
    method HandleImport(frontCol: int, backCol: int, categoryCol: int, newId: nat -> CardId)
      requires Valid()
      modifies this
      ensures Valid()
      ensures var imported := RowsToCards(old(csvData).data, newId, frontCol, backCol, categoryCol, "Uncategorized");
        if imported == [] then allFlashcards == old(allFlashcards) && step == old(step)
        else allFlashcards == old(allFlashcards) + imported && step == Browsing
      ensures csvData == old(csvData) && studySession == old(studySession) && currentIndex == old(currentIndex)
      ensures isFlipped == old(isFlipped) && masteredCount == old(masteredCount)
    {
      var newCards := RowsToCards(csvData.data, newId, frontCol, backCol, categoryCol, "Uncategorized");
      if |newCards| == 0 {
        return;
      }
      allFlashcards := allFlashcards + newCards;
      step := Browsing;
    }

    /** `handleStartReview`: select the matching cards, shuffle them and
        start studying at the first one; an empty selection starts nothing.
        `started` reports which happened. */
    method HandleStartReview(filter: Filter, draws: seq<nat>) returns (started: bool)
      requires Valid()
      modifies this
      ensures Valid()
      ensures started <==> Select(old(allFlashcards), filter) != []
      ensures !started ==> step == old(step) && studySession == old(studySession)
                           && currentIndex == old(currentIndex) && isFlipped == old(isFlipped)
                           && masteredCount == old(masteredCount)
      ensures started ==> multiset(studySession) == multiset(Select(old(allFlashcards), filter))
                          && step == Studying && currentIndex == 0 && !isFlipped && masteredCount == 0
      ensures allFlashcards == old(allFlashcards) && csvData == old(csvData)
    {
      var session := StudyDeck(allFlashcards, filter, draws);
      if |session| == 0 {
        return false;
      }
      Begin(session);
      started := true;
    }

    /** The state updates of a start: study `session` from its first card,
        unflipped, with nothing mastered yet. */
    method Begin(session: seq<Card>)
      requires session != []
      modifies this
      ensures Valid()
      ensures studySession == session && step == Studying && currentIndex == 0 && !isFlipped && masteredCount == 0
      ensures allFlashcards == old(allFlashcards) && csvData == old(csvData)
    {
      studySession := session;
      step := Studying;
      currentIndex := 0;
      isFlipped := false;
      masteredCount := 0;
    }

    /** `handleClearData`. */
    method HandleClearData()
      requires Valid()
      modifies this
      ensures Valid()
      ensures allFlashcards == [] && step == Uploading
      ensures studySession == old(studySession) && currentIndex == old(currentIndex)
      ensures isFlipped == old(isFlipped) && masteredCount == old(masteredCount) && csvData == old(csvData)
    {
      allFlashcards := [];
      step := Uploading;
    }

    /** `handleNext`: advance when a later card exists; at the last card the
        session is complete and the library is shown if the user confirms. */
    method HandleNext(confirmed: bool)
      requires Valid()
      modifies this
      ensures Valid()
      ensures old(currentIndex) < |studySession| - 1 ==>
        currentIndex == old(currentIndex) + 1 && !isFlipped && step == old(step)
      ensures old(currentIndex) >= |studySession| - 1 ==>
        currentIndex == old(currentIndex) && isFlipped == old(isFlipped)
        && step == (if confirmed then Browsing else old(step))
      ensures studySession == old(studySession) && allFlashcards == old(allFlashcards)
      ensures masteredCount == old(masteredCount) && csvData == old(csvData)
    {
      if currentIndex < |studySession| - 1 {
        isFlipped := false;
        currentIndex := currentIndex + 1;
      } else {
        if confirmed {
          step := Browsing;
        }
      }
    }

    /** `handlePrev`: step back unless at the first card. */
    method HandlePrev()
      requires Valid()
      modifies this
      ensures Valid()
      ensures old(currentIndex) > 0 ==> currentIndex == old(currentIndex) - 1 && !isFlipped
      ensures old(currentIndex) <= 0 ==> currentIndex == old(currentIndex) && isFlipped == old(isFlipped)
      ensures step == old(step) && studySession == old(studySession) && allFlashcards == old(allFlashcards)
      ensures masteredCount == old(masteredCount) && csvData == old(csvData)
    {
      if currentIndex > 0 {
        isFlipped := false;
        currentIndex := currentIndex - 1;
      }
    }

    /** Space, Enter or a click on the card turns it over. */
    method Flip()
      requires Valid()
      modifies this`isFlipped
      ensures Valid()
      ensures isFlipped == !old(isFlipped)
    {
      isFlipped := !isFlipped;
    }

    /** The Exit button returns to the library; the session is kept. */
    method Exit()
      requires Valid()
      modifies this`step
      ensures Valid()
      ensures step == Browsing
    {
      step := Browsing;
    }

    /** The upload screen's "Cancel & Go to Library" button, offered only
        while the library holds cards. */
    method CancelUpload()
      requires Valid()
      modifies this`step
      ensures Valid()
      ensures old(step) == Uploading && allFlashcards != [] ==> step == Browsing
      ensures !(old(step) == Uploading && allFlashcards != []) ==> step == old(step)
    {
      if step == Uploading && |allFlashcards| > 0 {
        step := Browsing;
      }
    }

    /** `handleDifficulty`: record the rating on the library card with the
        current card's id; "easy" counts as mastered; "hard" moves the card
        to the end of the session and shows the card that was next; any
        other rating then advances like `handleNext`. */
    method HandleDifficulty(level: string, now: int, confirmed: bool)
      requires Valid() && step == Studying
      modifies this
      ensures Valid()
      ensures allFlashcards == MarkRated(old(allFlashcards), old(studySession[currentIndex]).id, level, now)
      ensures level == "hard" ==>
        studySession == Requeue(old(studySession), old(currentIndex))
        && currentIndex == old(currentIndex) && !isFlipped
        && masteredCount == old(masteredCount) && step == old(step)
      ensures level != "hard" ==>
        studySession == old(studySession)
        && masteredCount == old(masteredCount) + (if level == "easy" then 1 else 0)
      ensures level != "hard" && old(currentIndex) < |studySession| - 1 ==>
        currentIndex == old(currentIndex) + 1 && !isFlipped && step == old(step)
      ensures level != "hard" && old(currentIndex) >= |studySession| - 1 ==>
        currentIndex == old(currentIndex) && isFlipped == old(isFlipped)
        && step == (if confirmed then Browsing else old(step))
      ensures csvData == old(csvData)
    {
      var currentCard := studySession[currentIndex];
      allFlashcards := MarkRated(allFlashcards, currentCard.id, level, now);
      if level == "easy" {
        masteredCount := masteredCount + 1;
      } else if level == "hard" {
        var newSession := Requeue(studySession, currentIndex);
        studySession := newSession;
        if currentIndex >= |newSession| {
          currentIndex := |newSession| - 1;
        }
        isFlipped := false;
        return;
      }
      HandleNext(confirmed);
    }
  }

  /** A study screen on `session` at card `index`, unflipped, with `session`
      as the library: the starting point of the walkthrough below. */
  method StudyingAt(session: seq<Card>, index: nat, mastered: nat) returns (app: AppState)
    requires index < |session|
    ensures fresh(app) && app.Valid() && app.step == Studying
    ensures app.studySession == session && app.allFlashcards == session
    ensures app.currentIndex == index && app.masteredCount == mastered && !app.isFlipped
  {
    app := new AppState();
    app.allFlashcards := session;
    app.studySession := session;
    app.step := Studying;
    app.currentIndex := index;
    app.masteredCount := mastered;
  }

  /** An example rating sequence, one step per method, each starting where
      the previous one ends. First: [A, B, C] at the first card; A rated
      hard gives [B, C, A], still at position 0 (now B). */
  method RatingWalkthroughHard(a: Card, b: Card, c: Card)
  {
    var app := StudyingAt([a, b, c], 0, 0);
    app.HandleDifficulty("hard", 1, false);
    assert app.studySession == [b, c, a] && app.currentIndex == 0 && app.masteredCount == 0;
    assert app.step == Studying;
  }

  /** Then B rated easy counts one mastered card and moves on to C. */
  method RatingWalkthroughEasy(a: Card, b: Card, c: Card)
  {
    var app := StudyingAt([b, c, a], 0, 0);
    app.HandleDifficulty("easy", 2, false);
    assert app.studySession == [b, c, a] && app.currentIndex == 1 && app.masteredCount == 1;
    assert app.step == Studying;
  }

  /** Then C rated medium moves on to the last card. */
  method RatingWalkthroughMedium(a: Card, b: Card, c: Card)
  {
    var app := StudyingAt([b, c, a], 1, 1);
    app.HandleDifficulty("medium", 3, false);
    assert app.studySession == [b, c, a] && app.currentIndex == 2 && app.masteredCount == 1;
    assert app.step == Studying;
  }

  /** At the last card, advancing with confirmation returns to the library. */
  method RatingWalkthroughFinish(a: Card, b: Card, c: Card)
  {
    var app := StudyingAt([b, c, a], 2, 1);
    app.HandleNext(true);
    assert app.currentIndex == 2 && app.step == Browsing && app.masteredCount == 1;
  }
}
