// Model of the pinned board in the front-end: pinning an answer as a card on
// a two-column grid, unpinning, moving and resizing a card, re-arranging all
// cards onto the grid, and saving the board to local storage and loading it
// back.  Every handler builds a new list from the previous one.

module PinnedBoard {
  import opened Common
  import opened Text

  datatype Point = Point(x: int, y: int)
  datatype Size = Size(width: int, height: int)

  /** The chart data generator, identified by what it is built from (its random output is not modelled). */
  datatype Generator = Generator(category: string, query: string)

  /** A pinned card; `timestamp` is in milliseconds and the generator is optional. */
  datatype PinnedItem = PinnedItem(
    id: string,
    query: string,
    response: string,
    timestamp: int,
    category: string,
    position: Point,
    size: Size,
    generator: Option<Generator>)

  /** A card as saved: the generator is not saved. */
  datatype StoredItem = StoredItem(
    id: string,
    query: string,
    response: string,
    timestamp: int,
    category: string,
    position: Point,
    size: Size)

  const Margin := 30
  const ColumnStep := 580
  const RowStep := 430
  const CardSize := Size(550, 400)

  /** The grid slot of the card at index `n`: two columns, rows filled left to right. */
  function GridPosition(n: nat): (p: Point)
    ensures p.x == Margin || p.x == Margin + ColumnStep
    ensures p.y >= Margin
  {
    Point(Margin + (n % 2) * ColumnStep, Margin + (n / 2) * RowStep)
  }

  /** Different indices get different slots. */
  lemma GridPositionInjective(i: nat, j: nat)
    requires i != j
    ensures GridPosition(i) != GridPosition(j)
  {
    var qi, ri := i / 2, i % 2;
    var qj, rj := j / 2, j % 2;
    assert i == 2 * qi + ri && j == 2 * qj + rj;
    if ri == rj {
      assert qi != qj;
      assert qi * RowStep != qj * RowStep;
    }
  }

  /** `handlePin`: one new card, in the slot after the existing cards, with the default size. */
  function Pin(items: seq<PinnedItem>, id: string, query: string, response: string, category: string, now: int): seq<PinnedItem> {
    items + [PinnedItem(id, query, response, now, category, GridPosition(|items|), CardSize, Some(Generator(category, query)))]
  }

  /** Every card sits in the grid slot of its index. */
  predicate Arranged(items: seq<PinnedItem>) {
    forall i :: 0 <= i < |items| ==> items[i].position == GridPosition(i)
  }

  /**
   * Pinning keeps the existing cards and appends exactly one card carrying
   * the answer in the next free slot; an arranged board stays arranged.
   */
  lemma PinAppends(items: seq<PinnedItem>, id: string, query: string, response: string, category: string, now: int)
    ensures var r := Pin(items, id, query, response, category, now);
      |r| == |items| + 1 && r[..|items|] == items &&
      r[|items|].id == id && r[|items|].query == query && r[|items|].response == response &&
      r[|items|].category == category && r[|items|].position == GridPosition(|items|) &&
      r[|items|].size == CardSize && r[|items|].generator == Some(Generator(category, query)) &&
      (Arranged(items) ==> Arranged(r))
  {
    var r := Pin(items, id, query, response, category, now);
    assert r[..|items|] == items;
  }

  /** `handleUnpin`'s list: the cards with another id. */
  function Unpin(items: seq<PinnedItem>, id: string): seq<PinnedItem> {
    FilterSeq((item: PinnedItem) => item.id != id, items)
  }

  /**
   * Unpinning removes exactly the cards with that id: none is left, every
   * other card stays, the order of what is kept follows the list (unpinning
   * distributes over concatenation), and unpinning again changes nothing.
   */
  lemma UnpinRemovesExactly(items: seq<PinnedItem>, more: seq<PinnedItem>, id: string)
    ensures forall k :: 0 <= k < |Unpin(items, id)| ==> Unpin(items, id)[k].id != id
    ensures forall k :: 0 <= k < |items| && items[k].id != id ==> items[k] in Unpin(items, id)
    ensures Unpin(items + more, id) == Unpin(items, id) + Unpin(more, id)
    ensures Unpin(Unpin(items, id), id) == Unpin(items, id)
    ensures (forall k :: 0 <= k < |items| ==> items[k].id != id) ==> Unpin(items, id) == items
  {
    var keep := (item: PinnedItem) => item.id != id;
    FilterSeqAppend(keep, items, more);
    FilterSeqIdempotent(keep, items);
    if forall k :: 0 <= k < |items| ==> items[k].id != id {
      FilterSeqAll(keep, items);
    }
  }

  /** `handleUpdatePosition`: the cards with that id move to `p`. */
  function Move(items: seq<PinnedItem>, id: string, p: Point): seq<PinnedItem> {
    Map((item: PinnedItem) => if item.id == id then item.(position := p) else item, items)
  }

  /** `handleUpdateSize`: the cards with that id take size `s`. */
  function Resize(items: seq<PinnedItem>, id: string, s: Size): seq<PinnedItem> {
    Map((item: PinnedItem) => if item.id == id then item.(size := s) else item, items)
  }

  /**
   * Moving changes nothing but the matching cards' positions, and resizing
   * nothing but their sizes; the two commute, and repeating either changes
   * nothing more.
   */
  lemma MoveResizeLocal(items: seq<PinnedItem>, id: string, p: Point, s: Size)
    ensures var m := Move(items, id, p);
      |m| == |items| &&
      forall k :: 0 <= k < |items| ==>
        m[k].(position := items[k].position) == items[k] &&
        m[k].position == (if items[k].id == id then p else items[k].position)
    ensures var z := Resize(items, id, s);
      |z| == |items| &&
      forall k :: 0 <= k < |items| ==>
        z[k].(size := items[k].size) == items[k] &&
        z[k].size == (if items[k].id == id then s else items[k].size)
    ensures Move(Resize(items, id, s), id, p) == Resize(Move(items, id, p), id, s)
    ensures Move(Move(items, id, p), id, p) == Move(items, id, p)
  {
  }

  /** `handleAutoArrange`: every card moves to the slot of its index. */
  function AutoArrange(items: seq<PinnedItem>): seq<PinnedItem> {
    seq(|items|, i requires 0 <= i < |items| => items[i].(position := GridPosition(i)))
  }

  /**
   * Arranging keeps the length, the order and everything but the
   * positions; the result is arranged, so distinct cards get distinct slots
   * and arranging again changes nothing; and pinning onto an arranged
   * board is the same as pinning and then arranging.
   */
  lemma AutoArrangeLaws(items: seq<PinnedItem>, id: string, query: string, response: string, category: string, now: int)
    ensures var r := AutoArrange(items);
      |r| == |items| &&
      (forall k :: 0 <= k < |items| ==> r[k].(position := items[k].position) == items[k]) &&
      Arranged(r) &&
      (forall i, j :: 0 <= i < j < |r| ==> r[i].position != r[j].position) &&
      AutoArrange(r) == r
    ensures Arranged(items) ==>
      AutoArrange(Pin(items, id, query, response, category, now)) == Pin(items, id, query, response, category, now)
  {
    var r := AutoArrange(items);
    forall i, j | 0 <= i < j < |r|
      ensures r[i].position != r[j].position
    {
      GridPositionInjective(i, j);
    }
    if Arranged(items) {
      PinAppends(items, id, query, response, category, now);
    }
  }

  /** Saving: every card without its generator. */
  function Strip(items: seq<PinnedItem>): seq<StoredItem> {
    Map((it: PinnedItem) => StoredItem(it.id, it.query, it.response, it.timestamp, it.category, it.position, it.size), items)
  }

  /** Loading: the timestamp is read back and the generator rebuilt from the category and the query. */
  function Restore(saved: seq<StoredItem>): seq<PinnedItem> {
    Map((s: StoredItem) => PinnedItem(s.id, s.query, s.response, s.timestamp, s.category, s.position, s.size,
                                      Some(Generator(s.category, s.query))), saved)
  }

  /** Each card's generator is the one its own category and query build. */
  predicate Regenerable(items: seq<PinnedItem>) {
    forall k :: 0 <= k < |items| ==> items[k].generator == Some(Generator(items[k].category, items[k].query))
  }

  /**
   * Loading what was saved gives back the board exactly when every
   * generator is the one rebuilt from its card; saving what was loaded
   * gives back what was saved.
   */
  lemma PersistRoundTrip(items: seq<PinnedItem>, saved: seq<StoredItem>)
    ensures Restore(Strip(items)) == items <==> Regenerable(items)
    ensures Strip(Restore(saved)) == saved
    ensures Regenerable(Restore(saved))
  {
    if Regenerable(items) {
      assert Restore(Strip(items)) == items;
    }
    assert Strip(Restore(saved)) == saved;
  }

  /** The board and what local storage holds under its key. */
  datatype Board = Board(items: seq<PinnedItem>, storage: Option<seq<StoredItem>>)

  /** The save effect: a non-empty board is written, an empty one leaves storage as it is. */
  function Persist(items: seq<PinnedItem>, storage: Option<seq<StoredItem>>): Option<seq<StoredItem>> {
    if |items| > 0 then Some(Strip(items)) else storage
  }

  /**
   * `handleUnpin` with its storage effects: the key is removed when the
   * board held exactly one card, then the save effect runs on the new list.
   */
  function UnpinBoard(b: Board, id: string): Board {
    var storage := if |b.items| == 1 then None else b.storage;
    var items := Unpin(b.items, id);
    Board(items, Persist(items, storage))
  }

  /** Storage agrees with a non-empty board. */
  predicate Saved(b: Board) {
    |b.items| > 0 ==> b.storage == Some(Strip(b.items))
  }

  /** The card ids are pairwise distinct. */
  predicate DistinctIds(items: seq<PinnedItem>) {
    forall i, j :: 0 <= i < j < |items| ==> items[i].id != items[j].id
  }

  /**
   * With distinct ids, unpinning keeps storage in step with the board, and
   * unpinning the last card clears it.
   */
  lemma UnpinKeepsStorage(b: Board, id: string)
    requires Saved(b) && DistinctIds(b.items)
    ensures Saved(UnpinBoard(b, id))
    ensures |b.items| > 0 && UnpinBoard(b, id).items == [] ==> UnpinBoard(b, id).storage == None
  {
    if |b.items| >= 2 {
      var k := if b.items[0].id != id then 0 else 1;
      assert b.items[k] in Unpin(b.items, id);
    }
  }

  /**
   * Two cards with the same id (pinned in the same millisecond) show why
   * the ids must be distinct: unpinning both leaves the stale list saved.
   */
  lemma DuplicateIdsLeaveStaleStorage(c: PinnedItem)
    ensures var b := Board([c, c], Some(Strip([c, c])));
      Saved(b) && UnpinBoard(b, c.id).items == [] && UnpinBoard(b, c.id).storage == Some(Strip([c, c]))
  {
    var b := Board([c, c], Some(Strip([c, c])));
    assert UnpinBoard(b, c.id).items == Unpin([c, c], c.id);
    assert Unpin([c, c], c.id) == [];
  }
}
