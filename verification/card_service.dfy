/** The remote card service: paged reading of a user's cards, the mapping of
    stored tags to the category the app shows, chunked inserts, deletes and
    category updates, and the due-cards query with its top-up of new cards.
    The database is not modelled: every call's answer is an input. */
module CardService {
  import opened Cards

  /** The database row id (a UUID). */
  type RowId = string

  /** A row of the `flashcards` table as the service reads it. */
  datatype StoredCard = StoredCard(id: RowId, front: string, back: string,
                                   tags: Option<seq<string>>, reviewCount: nat)

  /** A row as the app receives it: the row and its category. */
  datatype ClientCard = ClientCard(row: StoredCard, category: string)

  /** The signed-in user; `None` when nobody is signed in. */
  datatype User = User(id: string)

  datatype Failure = NotLoggedIn | Backend(message: string)

  datatype Result<T> = Ok(value: T) | Err(error: Failure)

  /** How a sequence of write requests ended. */
  datatype Outcome = Done | Failed(error: Failure)

  const PAGE_SIZE: nat := 1000
  const INSERT_CHUNK: nat := 500
  const ID_CHUNK: nat := 50

  // ---------------------------------------------------------------- tags

  /** The category is the first tag, or "Uncategorized" without one; the
      row itself is passed on unchanged. */
  function Normalize(s: StoredCard): (c: ClientCard)
    ensures c.row == s
    ensures s.tags.Some? && s.tags.value != [] ==> c.category == s.tags.value[0]
    ensures s.tags.None? || s.tags.value == [] ==> c.category == "Uncategorized"
  {
    ClientCard(s, if s.tags.Some? && |s.tags.value| > 0 then s.tags.value[0] else "Uncategorized")
  }

  function NormalizeAll(rows: seq<StoredCard>): (r: seq<ClientCard>)
    ensures |r| == |rows|
    ensures forall k :: 0 <= k < |rows| ==> r[k] == Normalize(rows[k])
  {
    seq(|rows|, k requires 0 <= k < |rows| => Normalize(rows[k]))
  }

  /** A card stored with the tags `[cat]` reads back with category `cat`. */
  lemma CategoryRoundTrip(s: StoredCard, cat: string)
    ensures Normalize(s.(tags := Some([cat]))).category == cat
  {
  }

  // ----------------------------------------------------------- paging

  /** The answer to the request for the page starting at `page * PAGE_SIZE`:
      `pages[page]`, and an empty page past the given answers. */
  function Answer(pages: seq<Result<seq<StoredCard>>>, page: nat): Result<seq<StoredCard>> {
    if page < |pages| then pages[page] else Ok([])
  }

  /** The reading loop from page `k` on: stop on an error, on an empty page
      or on a short page; a full page is followed by the next one. */
  function FetchFrom(pages: seq<Result<seq<StoredCard>>>, k: nat): (r: Result<seq<StoredCard>>)
    ensures r.Err? ==> exists j :: k <= j < |pages| && pages[j] == Err(r.error)
    decreases |pages| - k
  {
    if k >= |pages| then Ok([])
    else match pages[k]
      case Err(e) => Err(e)
      case Ok(data) =>
        if |data| < PAGE_SIZE then Ok(data)
        else Prepend(data, FetchFrom(pages, k + 1))
  }

  /** `[...allData, ...rest]` on a successful rest; an error stays. */
  function Prepend(prefix: seq<StoredCard>, r: Result<seq<StoredCard>>): (p: Result<seq<StoredCard>>)
    ensures p.Err? <==> r.Err?
    ensures r.Err? ==> p == r
    ensures r.Ok? ==> p.value == prefix + r.value
  {
    match r
      case Ok(v) => Ok(prefix + v)
      case Err(e) => Err(e)
  }

  lemma PrependTwice(a: seq<StoredCard>, b: seq<StoredCard>, r: Result<seq<StoredCard>>)
    ensures Prepend(a, Prepend(b, r)) == Prepend(a + b, r)
  {
    if r.Ok? {
      assert a + (b + r.value) == (a + b) + r.value;
    }
  }

  /** Where reading from page `k` stops: the first page that is an error
      or holds fewer than `PAGE_SIZE` cards, or the end of the answers. */
  function Stop(pages: seq<Result<seq<StoredCard>>>, k: nat): (n: nat)
    requires k <= |pages|
    ensures k <= n <= |pages|
    ensures forall j :: k <= j < n ==> pages[j].Ok? && |pages[j].value| >= PAGE_SIZE
    ensures n < |pages| ==> pages[n].Err? || |pages[n].value| < PAGE_SIZE
    decreases |pages| - k
  {
    if k == |pages| || pages[k].Err? || |pages[k].value| < PAGE_SIZE then k else Stop(pages, k + 1)
  }

  /** The cards of the full pages `k .. n - 1`, in page order. */
  function FullPages(pages: seq<Result<seq<StoredCard>>>, k: nat, n: nat): seq<StoredCard>
    requires k <= n <= |pages|
    requires forall j :: k <= j < n ==> pages[j].Ok?
    decreases n - k
  {
    if k == n then [] else pages[k].value + FullPages(pages, k + 1, n)
  }

  /** What reading returns, stated without the loop: every full page in
      order followed by the page where reading stopped; or that page's
      error, when it is one. */
  lemma {:induction false} FetchIsPagesInOrder(pages: seq<Result<seq<StoredCard>>>, k: nat)
    requires k <= |pages|
    ensures var n := Stop(pages, k);
      FetchFrom(pages, k) ==
        if n < |pages| && pages[n].Err? then Err(pages[n].error)
        else Ok(FullPages(pages, k, n) + (if n < |pages| then pages[n].value else []))
    decreases |pages| - k
  {
    var n := Stop(pages, k);
    if n > k {
      var d := pages[k].value;
      FetchIsPagesInOrder(pages, k + 1);
      assert Stop(pages, k + 1) == n;
      assert FetchFrom(pages, k) == Prepend(d, FetchFrom(pages, k + 1));
      assert FullPages(pages, k, n) == d + FullPages(pages, k + 1, n);
      if !(n < |pages| && pages[n].Err?) {
        var tail := if n < |pages| then pages[n].value else [];
        assert d + (FullPages(pages, k + 1, n) + tail) == (d + FullPages(pages, k + 1, n)) + tail;
      }
    } else if k < |pages| && pages[k].Ok? {
      assert n == k && |pages[k].value| < PAGE_SIZE;
      assert FetchFrom(pages, k) == Ok(pages[k].value);
      assert FullPages(pages, k, n) == [];
      assert [] + pages[k].value == pages[k].value;
    } else if k == |pages| {
      assert FullPages(pages, k, n) + [] == [];
    } else {
      assert FetchFrom(pages, k) == Err(pages[k].error);
    }
  }

  /** `getCards`: nothing without a user; otherwise every page in order,
      each card normalised, or the first page error. */
  method GetCards(user: Option<User>, pages: seq<Result<seq<StoredCard>>>) returns (r: Result<seq<ClientCard>>)
    ensures user.None? ==> r == Ok([])
    ensures user.Some? ==> r.Err? == FetchFrom(pages, 0).Err?
    ensures user.Some? && r.Err? ==> r.error == FetchFrom(pages, 0).error
    ensures user.Some? && r.Ok? ==> r.value == NormalizeAll(FetchFrom(pages, 0).value)
  {
    if user.None? {
      return Ok([]);
    }
    var allData: seq<StoredCard> := [];
    var from: nat := 0;
    ghost var page: nat := 0;
    var hasMore := true;
    assert FetchFrom(pages, 0).Ok? ==> [] + FetchFrom(pages, 0).value == FetchFrom(pages, 0).value;
    while hasMore
      invariant from == page * PAGE_SIZE && page <= |pages|
      invariant hasMore ==> FetchFrom(pages, 0) == Prepend(allData, FetchFrom(pages, page))
      invariant !hasMore ==> FetchFrom(pages, 0) == Ok(allData)
      decreases |pages| - page + (if hasMore then 1 else 0)
    {
      var answer := Answer(pages, from / PAGE_SIZE);
      assert from / PAGE_SIZE == page;
      if answer.Err? {
        return Err(answer.error);
      }
      var data := answer.value;
      if |data| == 0 {
        assert FetchFrom(pages, page) == Ok([]);
        assert allData + [] == allData;
        hasMore := false;
        break;
      }
      PrependTwice(allData, data, FetchFrom(pages, page + 1));
      allData := allData + data;
      if |data| < PAGE_SIZE {
        hasMore := false;
      } else {
        from := from + PAGE_SIZE;
        page := page + 1;
      }
    }
    r := Ok(NormalizeAll(allData));
  }

  // ---------------------------------------------------------- chunking

  /** `for (i = 0; i < s.length; i += n) s.slice(i, i + n)` */
  function Chunks<T>(s: seq<T>, n: nat): seq<seq<T>>
    requires n > 0
    decreases |s|
  {
    if s == [] then []
    else if |s| <= n then [s]
    else [s[..n]] + Chunks(s[n..], n)
  }

  function Flatten<T>(parts: seq<seq<T>>): seq<T> {
    if parts == [] then [] else parts[0] + Flatten(parts[1..])
  }

  /** The chunks cover the list exactly, in order. */
  lemma {:induction false} ChunksFlatten<T>(s: seq<T>, n: nat)
    requires n > 0
    ensures Flatten(Chunks(s, n)) == s
    decreases |s|
  {
    if |s| > n {
      ChunksFlatten(s[n..], n);
      assert s == s[..n] + s[n..];
    } else if s != [] {
      assert Flatten([s]) == s + Flatten([s][1..]);
    }
  }

  /** Every chunk is non-empty and holds at most `n` items; all but the
      last hold exactly `n`. */
  lemma {:induction false} ChunkSizes<T>(s: seq<T>, n: nat)
    requires n > 0
    ensures forall c :: c in Chunks(s, n) ==> 0 < |c| <= n
    ensures forall k :: 0 <= k < |Chunks(s, n)| - 1 ==> |Chunks(s, n)[k]| == n
    decreases |s|
  {
    if |s| > n {
      ChunkSizes(s[n..], n);
    }
  }

  /** There are ⌈|s| / n⌉ chunks. */
  lemma {:induction false} ChunkCount<T>(s: seq<T>, n: nat)
    requires n > 0
    ensures |Chunks(s, n)| == (|s| + n - 1) / n
    decreases |s|
  {
    if |s| > n {
      ChunkCount(s[n..], n);
      DivStep(|s[n..]| + n - 1, n);
    } else if s != [] {
      DivOne(|s| + n - 1, n);
    } else {
      DivZero(n - 1, n);
    }
  }

  lemma DivStep(a: nat, n: nat)
    requires n > 0
    ensures (a + n) / n == a / n + 1
  {
    var q, r := a / n, a % n;
    assert a == q * n + r && 0 <= r < n;
    assert a + n == (q + 1) * n + r;
    DivUnique(a + n, n, q + 1, r);
  }

  lemma DivOne(a: nat, n: nat)
    requires n <= a < 2 * n
    ensures a / n == 1
  {
    DivUnique(a, n, 1, a - n);
  }

  lemma DivZero(a: nat, n: nat)
    requires a < n
    ensures a / n == 0
  {
    DivUnique(a, n, 0, a);
  }

  lemma DivUnique(a: nat, n: nat, q: int, r: int)
    requires n > 0 && a == q * n + r && 0 <= r < n
    ensures a / n == q
  {
    var q0, r0 := a / n, a % n;
    assert a == q0 * n + r0 && 0 <= r0 < n;
    if q0 > q {
      MulMonotone(q + 1, q0, n);
    } else if q0 < q {
      MulMonotone(q0 + 1, q, n);
    }
  }

  lemma MulMonotone(x: int, y: int, n: nat)
    requires x <= y
    ensures x * n <= y * n
  {
    assert y * n - x * n == (y - x) * n;
  }

  /** The chunks from position `i` on: the chunk at `i`, then the rest. */
  lemma ChunksAt<T>(s: seq<T>, n: nat, i: nat)
    requires n > 0 && i < |s|
    ensures var e := if i + n <= |s| then i + n else |s|;
      Chunks(s[i..], n) == [s[i..e]] + Chunks(s[e..], n)
  {
    var e := if i + n <= |s| then i + n else |s|;
    if |s[i..]| <= n {
      assert s[e..] == [];
      assert s[i..] == s[i..e];
    } else {
      assert s[i..][..n] == s[i..e];
      assert s[i..][n..] == s[e..];
    }
  }

  /** One turn of the request loop: the chunk at `i` joins those sent. */
  lemma ChunksStep<T>(items: seq<T>, size: nat, sent: seq<seq<T>>, i: nat)
    requires size > 0 && i < |items|
    requires Chunks(items, size) == sent + Chunks(items[i..], size)
    ensures var e := if i + size <= |items| then i + size else |items|;
      Chunks(items, size) == (sent + [items[i..e]]) + Chunks(items[e..], size)
  {
    ChunksAt(items, size, i);
  }

  /** The request loop of the batch operations: one request per chunk, in
      order, stopping at the first failing request. `failures` maps the
      number of each request the backend rejects to its error message. */
  method SendChunks<T>(items: seq<T>, size: nat, failures: map<nat, string>)
    returns (sent: seq<seq<T>>, outcome: Outcome)
    requires size > 0
    ensures sent <= Chunks(items, size)
    ensures outcome == Done <==> forall k :: 0 <= k < |Chunks(items, size)| ==> k !in failures
    ensures outcome == Done ==> sent == Chunks(items, size)
    ensures outcome.Failed? ==>
      |sent| > 0 && |sent| - 1 in failures && outcome == Failed(Backend(failures[|sent| - 1]))
      && forall k :: 0 <= k < |sent| - 1 ==> k !in failures
  {
    sent := [];
    var i := 0;
    while i < |items|
      invariant i == |sent| * size
      invariant |sent| > 0 ==> i <= |items| + size - 1
      invariant |sent| == 0 ==> i == 0
      invariant Chunks(items, size) == sent + Chunks(items[if i <= |items| then i else |items|..], size)
      invariant forall k :: 0 <= k < |sent| ==> k !in failures
      decreases |items| - i
    {
      var end := if i + size <= |items| then i + size else |items|;
      var chunk := items[i..end];
      ChunksStep(items, size, sent, i);
      sent := sent + [chunk];
      if |sent| - 1 in failures {
        return sent, Failed(Backend(failures[|sent| - 1]));
      }
      i := i + size;
      assert items[if i <= |items| then i else |items|..] == items[end..];
    }
    assert Chunks(items[|items|..], size) == [];
    outcome := Done;
  }

  // -------------------------------------------------------------- writes

  /** A card handed to the service for storing. */
  datatype NewCard = NewCard(front: string, back: string, tags: Option<seq<string>>)

  /** An insert record: the owner, both sides, the tags (none means `[]`)
      and a review count of 0. */
  datatype Payload = Payload(userId: string, front: string, back: string, tags: seq<string>, reviewCount: nat)

  function ToPayload(c: NewCard, user: User): (p: Payload)
    ensures p.userId == user.id && p.front == c.front && p.back == c.back
    ensures p.reviewCount == 0
    ensures p.tags == (if c.tags.Some? then c.tags.value else [])
  {
    Payload(user.id, c.front, c.back, if c.tags.Some? then c.tags.value else [], 0)
  }

  /** `addCard`: a signed-in user's single insert; the answer is the
      inserted rows, of which the first is returned (`None` when there is
      none). */
  method AddCard(card: NewCard, user: Option<User>, answer: Result<seq<StoredCard>>)
    returns (request: Option<Payload>, r: Result<Option<StoredCard>>)
    ensures user.None? ==> request == None && r == Err(NotLoggedIn)
    ensures user.Some? ==> request == Some(ToPayload(card, user.value))
    ensures user.Some? && answer.Err? ==> r == Err(answer.error)
    ensures user.Some? && answer.Ok? ==>
      r == Ok(if answer.value == [] then None else Some(answer.value[0]))
  {
    if user.None? {
      return None, Err(NotLoggedIn);
    }
    request := Some(ToPayload(card, user.value));
    match answer
    case Err(e) =>
      r := Err(e);
    case Ok(data) =>
      r := Ok(if |data| > 0 then Some(data[0]) else None);
  }

  /** `batchAddCards`: the records are inserted in chunks of 500. */
  method BatchAddCards(cards: seq<NewCard>, user: Option<User>, failures: map<nat, string>)
    returns (requests: seq<seq<Payload>>, outcome: Outcome)
    ensures user.None? ==> requests == [] && outcome == Failed(NotLoggedIn)
    ensures user.Some? ==>
      var payload := seq(|cards|, k requires 0 <= k < |cards| => ToPayload(cards[k], user.value));
      requests <= Chunks(payload, INSERT_CHUNK)
      && (outcome == Done <==> forall k :: 0 <= k < |Chunks(payload, INSERT_CHUNK)| ==> k !in failures)
      && (outcome == Done ==> requests == Chunks(payload, INSERT_CHUNK))
      && (outcome.Failed? ==>
        requests != [] && |requests| - 1 in failures && outcome == Failed(Backend(failures[|requests| - 1]))
        && forall k :: 0 <= k < |requests| - 1 ==> k !in failures)
  {
    if user.None? {
      return [], Failed(NotLoggedIn);
    }
    var payload := seq(|cards|, k requires 0 <= k < |cards| => ToPayload(cards[k], user.value));
    requests, outcome := SendChunks(payload, INSERT_CHUNK, failures);
  }

  /** `batchDelete`: the ids are deleted in chunks of 50. */
  method BatchDelete(ids: seq<RowId>, failures: map<nat, string>)
    returns (requests: seq<seq<RowId>>, outcome: Outcome)
    ensures requests <= Chunks(ids, ID_CHUNK)
    ensures outcome == Done <==> forall k :: 0 <= k < |Chunks(ids, ID_CHUNK)| ==> k !in failures
    ensures outcome == Done ==> requests == Chunks(ids, ID_CHUNK)
    ensures outcome.Failed? ==>
        requests != [] && |requests| - 1 in failures && outcome == Failed(Backend(failures[|requests| - 1]))
        && forall k :: 0 <= k < |requests| - 1 ==> k !in failures
  {
    requests, outcome := SendChunks(ids, ID_CHUNK, failures);
  }

  /** One category update: the rows with these ids get the tags `tags`. */
  datatype TagUpdate = TagUpdate(ids: seq<RowId>, tags: seq<string>)

  /** `batchUpdateCategory`: the ids are updated in chunks of 50, each row's
      tags becoming the single new category. */
  method BatchUpdateCategory(ids: seq<RowId>, newCategory: string, failures: map<nat, string>)
    returns (requests: seq<TagUpdate>, outcome: Outcome)
    ensures |requests| <= |Chunks(ids, ID_CHUNK)|
    ensures forall k :: 0 <= k < |requests| ==>
      requests[k] == TagUpdate(Chunks(ids, ID_CHUNK)[k], [newCategory])
    ensures outcome == Done <==> forall k :: 0 <= k < |Chunks(ids, ID_CHUNK)| ==> k !in failures
    ensures outcome == Done ==> |requests| == |Chunks(ids, ID_CHUNK)|
    ensures outcome.Failed? ==>
        requests != [] && |requests| - 1 in failures && outcome == Failed(Backend(failures[|requests| - 1]))
        && forall k :: 0 <= k < |requests| - 1 ==> k !in failures
  {
    var sent;
    sent, outcome := SendChunks(ids, ID_CHUNK, failures);
    requests := seq(|sent|, k requires 0 <= k < |sent| => TagUpdate(sent[k], [newCategory]));
  }

  // -------------------------------------------------------------- due cards

  /** `.limit(n)`: the first `n` rows of an answer. */
  function Take(rows: seq<StoredCard>, n: nat): (r: seq<StoredCard>)
    ensures |r| == if |rows| <= n then |rows| else n
    ensures r <= rows
  {
    if |rows| <= n then rows else rows[..n]
  }

  /** `getDueCards`. `dueAnswer` holds the due cards in due order and
      `newAnswer` the never-reviewed ones, each before its `limit`; the
      result is the due cards, topped up with new cards up to `limit` when
      there are fewer due cards, each normalised. A failing top-up is
      ignored. */
  method GetDueCards(user: Option<User>, limit: nat, dueAnswer: Result<seq<StoredCard>>,
                     newAnswer: Result<seq<StoredCard>>)
    returns (r: Result<seq<ClientCard>>)
    ensures user.None? ==> r == Ok([])
    ensures user.Some? && dueAnswer.Err? ==> r == Err(dueAnswer.error)
    ensures user.Some? && dueAnswer.Ok? ==>
      var due := Take(dueAnswer.value, limit);
      r.Ok? && |r.value| <= limit
      && |r.value| >= |due| && r.value[..|due|] == NormalizeAll(due)
      && (|due| == limit || newAnswer.Err? ==> r.value == NormalizeAll(due))
      && (|due| < limit && newAnswer.Ok? ==>
            r.value == NormalizeAll(due + Take(newAnswer.value, limit - |due|)))
  {
    if user.None? {
      return Ok([]);
    }
    if dueAnswer.Err? {
      return Err(dueAnswer.error);
    }
    var cards := Take(dueAnswer.value, limit);
    if |cards| < limit {
      var remaining := limit - |cards|;
      if newAnswer.Ok? {
        cards := cards + Take(newAnswer.value, remaining);
      }
    }
    r := Ok(NormalizeAll(cards));
  }
}
