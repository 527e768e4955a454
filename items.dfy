/**
 * `Item`: one article of a user. Its metadata is fetched, its timestamps
 * are checked against the optional date window and, only if it passes,
 * its likes, comments and stockers are recorded.
 */
module Items {
  import opened Wrappers
  import opened Calendar
  import opened Timestamps
  import opened Paging
  import opened Api

  /** The optional inclusive bounds, as instants in seconds (`start`, `end`). */
  datatype Window = Window(start: Option<int>, end: Option<int>)

  /** What an `Item` holds once constructed. */
  datatype ItemRecord = ItemRecord(
    id: ItemId,
    createdAt: int,
    updatedAt: int,
    isValid: bool,
    likes: nat,
    comments: nat,
    stockers: nat)

  /** The validity rule: both bounds are inclusive and an absent bound does not restrict. */
  predicate InWindow(w: Window, createdAt: int, updatedAt: int) {
    (w.start.None? || w.start.value <= updatedAt) && (w.end.None? || createdAt <= w.end.value)
  }

  /** An invalid item contributes nothing. */
  predicate Settled(r: ItemRecord) {
    !r.isValid ==> r.likes == 0 && r.comments == 0 && r.stockers == 0
  }

  /** The number of stockers the paging loop counts. */
  function StockerTotal(pages: seq<seq<UserId>>): nat {
    SumLengths(pages, LastPage(pages))
  }

  /** The item as constructed from its parsed timestamps. */
  function Assess(id: ItemId, w: Window, createdAt: int, updatedAt: int, data: ItemData): ItemRecord {
    if InWindow(w, createdAt, updatedAt) then
      ItemRecord(id, createdAt, updatedAt, true, data.likes, data.comments, StockerTotal(data.stockerPages))
    else
      ItemRecord(id, createdAt, updatedAt, false, 0, 0, 0)
  }

  /** `Item(token, item_id, start, end)`; None where the constructor raises. */
  function ItemOutcome(api: Server, id: ItemId, w: Window): Option<ItemRecord> {
    if id !in api.items then None
    else
      var data := api.items[id];
      match (ParseTimestamp(data.createdAt), ParseTimestamp(data.updatedAt))
      case (Some(c), Some(u)) => Some(Assess(id, w, Seconds(c), Seconds(u), data))
      case _ => None
  }

  class Item {
    const itemId: ItemId
    const window: Window
    const createdAt: int
    const updatedAt: int
    const isValid: bool
    const likesCount: nat
    const commentsCount: nat
    const stockersCount: nat

    function View(): ItemRecord {
      ItemRecord(itemId, createdAt, updatedAt, isValid, likesCount, commentsCount, stockersCount)
    }

    /** The body of `Item.__init__` after the metadata was fetched and its timestamps parsed. */
    constructor (itemId: ItemId, window: Window, createdAt: int, updatedAt: int, data: ItemData)
      ensures View() == Assess(itemId, window, createdAt, updatedAt, data)
      ensures this.window == window
    {
      this.itemId := itemId;
      this.window := window;
      this.createdAt := createdAt;
      this.updatedAt := updatedAt;
      if window.start.Some? && updatedAt < window.start.value {
        isValid, likesCount, commentsCount, stockersCount := false, 0, 0, 0;
      } else if window.end.Some? && createdAt > window.end.value {
        isValid, likesCount, commentsCount, stockersCount := false, 0, 0, 0;
      } else {
        isValid := true;
        likesCount := data.likes;
        commentsCount := data.comments;
        var n := CountStockers(data.stockerPages);
        stockersCount := n;
      }
    }

    /**
     * `_get_stockers_count`: request stocker pages 1, 2, ... and add up
     * their lengths until a page is shorter than `PerPage`.
     */
    static method CountStockers(pages: seq<seq<UserId>>) returns (count: nat)
      ensures count == SumLengths(pages, LastPage(pages))
    {
      count := 0;
      var page := 1;
      while true
        invariant 1 <= page <= |pages| + 1
        invariant count == SumLengths(pages, page - 1)
        invariant forall j :: 1 <= j < page ==> Full(pages, j)
        decreases |pages| + 1 - page
      {
        var stockers := Page(pages, page);
        count := count + |stockers|;
        if |stockers| < PerPage {
          LastPageUnique(pages, page);
          return;
        }
        page := page + 1;
      }
    }

    /** `Item(token, item_id, start, end)`; null where the constructor raises. */
    static method Fetch(api: Server, itemId: ItemId, window: Window) returns (item: Item?)
      ensures item == null <==> ItemOutcome(api, itemId, window).None?
      ensures item != null ==> item.View() == ItemOutcome(api, itemId, window).value
    {
      if itemId !in api.items {
        return null;
      }
      var data := api.items[itemId];
      var created := ParseTimestamp(data.createdAt);
      var updated := ParseTimestamp(data.updatedAt);
      if created.None? || updated.None? {
        return null;
      }
      item := new Item(itemId, window, Seconds(created.value), Seconds(updated.value), data);
    }
  }

  // ---------------------------------------------------------------------
  // Lemmas

  /**
   * A constructed item carries its id and the instants of its parsed
   * `created_at` and `updated_at`. It is valid exactly when these fall in the
   * window; an invalid one keeps likes, comments and stockers at 0 and a
   * valid one carries the fetched counts.
   */
  lemma ItemOutcomeMeaning(api: Server, id: ItemId, w: Window)
    requires ItemOutcome(api, id, w).Some?
    ensures var r := ItemOutcome(api, id, w).value;
      && id in api.items
      && r.id == id
      && ParseTimestamp(api.items[id].createdAt).Some?
      && r.createdAt == Seconds(ParseTimestamp(api.items[id].createdAt).value)
      && ParseTimestamp(api.items[id].updatedAt).Some?
      && r.updatedAt == Seconds(ParseTimestamp(api.items[id].updatedAt).value)
      && Settled(r)
      && (r.isValid <==> InWindow(w, r.createdAt, r.updatedAt))
      && (r.isValid ==> r.likes == api.items[id].likes && r.comments == api.items[id].comments
                        && r.stockers == StockerTotal(api.items[id].stockerPages))
  {
  }

  /** The constructor raises exactly when the item cannot be fetched or a timestamp does not parse. */
  lemma ItemOutcomeFails(api: Server, id: ItemId, w: Window)
    ensures ItemOutcome(api, id, w).None? <==>
      id !in api.items
      || ParseTimestamp(api.items[id].createdAt).None?
      || ParseTimestamp(api.items[id].updatedAt).None?
  {
  }

  /**
   * No stockers pagination runs for an invalid item: its record does not
   * depend on what the stockers endpoint would answer.
   */
  lemma InvalidItemIgnoresStockers(api: Server, id: ItemId, w: Window, other: seq<seq<UserId>>)
    requires ItemOutcome(api, id, w).Some? && !ItemOutcome(api, id, w).value.isValid
    ensures var api' := api.(items := api.items[id := api.items[id].(stockerPages := other)]);
      ItemOutcome(api', id, w) == ItemOutcome(api, id, w)
  {
  }

  /** The stockers count is the total length of pages 1..k, k the first short page. */
  lemma StockerTotalMeaning(pages: seq<seq<UserId>>)
    ensures StockerTotal(pages) == |Collected(pages)|
    ensures LastPage(pages) <= |pages| ==>
      forall extra :: StockerTotal(pages[..LastPage(pages)] + extra) == StockerTotal(pages)
  {
    CollectedLength(pages);
    if LastPage(pages) <= |pages| {
      forall extra
        ensures StockerTotal(pages[..LastPage(pages)] + extra) == StockerTotal(pages)
      {
        CollectedIgnoresLaterPages(pages, extra);
        CollectedLength(pages[..LastPage(pages)] + extra);
      }
    }
  }
}
