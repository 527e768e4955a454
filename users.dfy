/**
 * `User`: one platform user. Its profile counts are fetched, every item it
 * wrote is fetched page by page, the item metrics are summed and the
 * contribution score is computed from the sums.
 */
module Users {
  import opened Wrappers
  import opened Paging
  import opened Api
  import opened Items

  /** `get_contribution()`: one line of the report before ranking. */
  datatype Record = Record(
    userId: UserId,
    followees: nat,
    followers: nat,
    items: nat,
    likes: nat,
    stockers: nat,
    comments: nat,
    contribution: nat)

  /** The per-item counters that are summed. */
  datatype Metric = Likes | Stockers | Comments

  function Value(r: ItemRecord, m: Metric): nat {
    match m
    case Likes => r.likes
    case Stockers => r.stockers
    case Comments => r.comments
  }

  /** The sum of one metric over a list of items. */
  function Sum(rs: seq<ItemRecord>, m: Metric): nat {
    if rs == [] then 0 else Sum(rs[..|rs| - 1], m) + Value(rs[|rs| - 1], m)
  }

  /** The number of valid items in a list. */
  function CountValid(rs: seq<ItemRecord>): nat {
    if rs == [] then 0 else CountValid(rs[..|rs| - 1]) + (if rs[|rs| - 1].isValid then 1 else 0)
  }

  /** The valid items of a list, in order. */
  function ValidOnly(rs: seq<ItemRecord>): seq<ItemRecord> {
    if rs == [] then []
    else ValidOnly(rs[..|rs| - 1]) + (if rs[|rs| - 1].isValid then [rs[|rs| - 1]] else [])
  }

  /**
   * `floor(items + likes + 0.5 * stockers + 0.5)` in exact arithmetic:
   * half a point per stocker, with halves rounded up.
   */
  function Contribution(items: nat, likes: nat, stockers: nat): (r: nat)
    ensures 2 * r <= 2 * (items + likes) + stockers + 1 < 2 * r + 2
    ensures items + likes <= r
  {
    items + likes + (stockers + 1) / 2
  }

  /** The item ids the paging loop of `_get_items` receives. */
  function ItemIds(u: UserData): seq<ItemId> {
    Collected(u.itemPages)
  }

  /** The values of a list of outcomes, or None if any of them is None. */
  function AllOk<T>(xs: seq<Option<T>>): Option<seq<T>> {
    if xs == [] then Some([])
    else
      match AllOk(xs[..|xs| - 1])
      case None => None
      case Some(vs) =>
        match xs[|xs| - 1]
        case None => None
        case Some(v) => Some(vs + [v])
  }

  /** What constructing an `Item` for each id would give, in order. */
  function Outcomes(api: Server, ids: seq<ItemId>, w: Window): (os: seq<Option<ItemRecord>>)
    ensures |os| == |ids|
  {
    seq(|ids|, i requires 0 <= i < |ids| => ItemOutcome(api, ids[i], w))
  }

  /** One `Item` per id, in order; None as soon as one constructor raises. */
  function FetchItems(api: Server, ids: seq<ItemId>, w: Window): Option<seq<ItemRecord>> {
    AllOk(Outcomes(api, ids, w))
  }

  /** The items `_get_items` appends to `self.items`; None where it raises. */
  function ItemsOf(api: Server, id: UserId, w: Window): Option<seq<ItemRecord>> {
    if id !in api.users then None else FetchItems(api, ItemIds(api.users[id]), w)
  }

  function Summary(id: UserId, u: UserData, rs: seq<ItemRecord>): Record {
    var items, likes, stockers := CountValid(rs), Sum(rs, Likes), Sum(rs, Stockers);
    Record(id, u.followees, u.followers, items, likes, stockers, Sum(rs, Comments),
           Contribution(items, likes, stockers))
  }

  /** `User(token, user_id, start, end).get_contribution()`; None where the constructor raises. */
  function UserOutcome(api: Server, id: UserId, w: Window): Option<Record> {
    if id !in api.users then None
    else
      match FetchItems(api, ItemIds(api.users[id]), w)
      case None => None
      case Some(rs) => Some(Summary(id, api.users[id], rs))
  }

  function Views(items: seq<Item>): seq<ItemRecord> {
    seq(|items|, i requires 0 <= i < |items| => items[i].View())
  }

  class User {
    const userId: UserId
    const window: Window
    var followeesCount: nat
    var followersCount: nat
    var itemsCount: nat
    var likesCount: nat
    var stockersCount: nat
    var commentsCount: nat
    var contribution: nat
    var items: seq<Item>

    /** The state `__init__` sets up before the first request. */
    predicate Initial()
      reads this
    {
      && followeesCount == 0 && followersCount == 0
      && itemsCount == 0 && likesCount == 0 && stockersCount == 0 && commentsCount == 0
      && contribution == 0 && items == []
    }

    constructor (userId: UserId, window: Window)
      ensures this.userId == userId && this.window == window && Initial()
    {
      this.userId := userId;
      this.window := window;
      followeesCount, followersCount := 0, 0;
      itemsCount, likesCount, stockersCount, commentsCount := 0, 0, 0, 0;
      contribution := 0;
      items := [];
    }

    /** `get_contribution()`. */
    function GetContribution(): Record
      reads this
    {
      Record(userId, followeesCount, followersCount, itemsCount, likesCount,
             stockersCount, commentsCount, contribution)
    }

    /**
     * The requests of `__init__`: the profile, then `_get_items` and
     * `_calc_contribution`. `ok` is false where the constructor raises.
     */
    method Retrieve(api: Server) returns (ok: bool)
      requires Initial()
      modifies this
      ensures ok <==> UserOutcome(api, userId, window).Some?
      ensures ok ==> GetContribution() == UserOutcome(api, userId, window).value
    {
      if userId !in api.users {
        return false;
      }
      var profile := api.users[userId];
      UserOutcomeFromItems(api, userId, window);
      followeesCount := profile.followees;
      followersCount := profile.followers;
      ok := GetItems(api);
      if !ok {
        return;
      }
      ghost var rs := ItemsOf(api, userId, window).value;
      assert Views(items) == rs;
      CalcContribution();
      assert GetContribution() == Summary(userId, profile, rs);
    }

    /**
     * `_get_items`: request item pages 1, 2, ... and append one `Item` per
     * id until a page is shorter than `PerPage`.
     */
    method GetItems(api: Server) returns (ok: bool)
      modifies this`items
      ensures ok <==> ItemsOf(api, userId, window).Some?
      ensures ok ==> Views(items) == Views(old(items)) + ItemsOf(api, userId, window).value
    {
      // The loop reasons about whole pages; what one item gives is not needed here.
      hide ItemOutcome;
      if userId !in api.users {
        return false;
      }
      var pages := api.users[userId].itemPages;
      ghost var before := Views(items);
      ghost var got: seq<ItemRecord> := [];
      var page := 1;
      while true
        invariant 1 <= page <= |pages| + 1
        invariant forall j :: 1 <= j < page ==> Full(pages, j)
        invariant FetchItems(api, Gathered(pages, page - 1), window) == Some(got)
        invariant Views(items) == before + got
        decreases |pages| + 1 - page
      {
        var batch := Page(pages, page);
        PageStep(api, pages, page, window);
        ok := AppendItems(api, batch);
        if !ok {
          return;
        }
        got := got + FetchItems(api, batch, window).value;
        if |batch| < PerPage {
          return;
        }
        page := page + 1;
      }
    }

    /** The inner loop of `_get_items`: one `Item` per id of a page, in order. */
    method AppendItems(api: Server, ids: seq<ItemId>) returns (ok: bool)
      modifies this`items
      ensures ok <==> FetchItems(api, ids, window).Some?
      ensures ok ==> Views(items) == Views(old(items)) + FetchItems(api, ids, window).value
    {
      hide ItemOutcome;
      var k := 0;
      while k < |ids|
        invariant 0 <= k <= |ids|
        invariant FetchItems(api, ids[..k], window).Some?
        invariant Views(items) == Views(old(items)) + FetchItems(api, ids[..k], window).value
      {
        var item := Item.Fetch(api, ids[k], window);
        assert ids[..k + 1] == ids[..k] + [ids[k]];
        FetchItemsAppend(api, ids[..k], ids[k], window);
        if item == null {
          FetchItemsPrefix(api, ids[..k + 1], ids, window);
          return false;
        }
        ViewsAppend(items, item);
        items := items + [item];
        k := k + 1;
      }
      assert ids[..k] == ids;
      return true;
    }

    /** `_calc_contribution`: add each item's metrics to the counters, then score. */
    method CalcContribution()
      modifies this`itemsCount, this`likesCount, this`stockersCount, this`commentsCount, this`contribution
      ensures itemsCount == old(itemsCount) + CountValid(Views(items))
      ensures likesCount == old(likesCount) + Sum(Views(items), Likes)
      ensures stockersCount == old(stockersCount) + Sum(Views(items), Stockers)
      ensures commentsCount == old(commentsCount) + Sum(Views(items), Comments)
      ensures contribution == Contribution(itemsCount, likesCount, stockersCount)
    {
      ghost var rs := Views(items);
      var i := 0;
      while i < |items|
        invariant 0 <= i <= |items|
        invariant itemsCount == old(itemsCount) + CountValid(rs[..i])
        invariant likesCount == old(likesCount) + Sum(rs[..i], Likes)
        invariant stockersCount == old(stockersCount) + Sum(rs[..i], Stockers)
        invariant commentsCount == old(commentsCount) + Sum(rs[..i], Comments)
      {
        var item := items[i];
        assert rs[..i + 1][..i] == rs[..i];
        itemsCount := itemsCount + (if item.isValid then 1 else 0);
        likesCount := likesCount + item.likesCount;
        stockersCount := stockersCount + item.stockersCount;
        commentsCount := commentsCount + item.commentsCount;
        i := i + 1;
      }
      assert rs[..i] == rs;
      contribution := Contribution(itemsCount, likesCount, stockersCount);
    }
  }

  // ---------------------------------------------------------------------
  // Lemmas

  lemma UserOutcomeFromItems(api: Server, id: UserId, w: Window)
    requires id in api.users
    ensures UserOutcome(api, id, w) ==
      if ItemsOf(api, id, w).Some?
      then Some(Summary(id, api.users[id], ItemsOf(api, id, w).value))
      else None
  {
  }

  /**
   * One iteration of the paging loop of `_get_items`: the items of pages 1
   * to `page` are those of the earlier pages followed by those of the page,
   * a failure among them is a failure of the whole listing, and a short
   * page is the last one requested.
   */
  lemma PageStep(api: Server, pages: seq<seq<ItemId>>, page: nat, w: Window)
    requires 1 <= page <= |pages| + 1
    requires forall j :: 1 <= j < page ==> Full(pages, j)
    requires FetchItems(api, Gathered(pages, page - 1), w).Some?
    ensures FetchItems(api, Page(pages, page), w).None? ==> FetchItems(api, Collected(pages), w).None?
    ensures FetchItems(api, Page(pages, page), w).Some? ==>
      FetchItems(api, Gathered(pages, page), w) ==
        Some(FetchItems(api, Gathered(pages, page - 1), w).value + FetchItems(api, Page(pages, page), w).value)
    ensures !Full(pages, page) ==> Collected(pages) == Gathered(pages, page)
    ensures Full(pages, page) ==> page <= |pages|
  {
    FetchItemsConcat(api, Gathered(pages, page - 1), Page(pages, page), w);
    if FetchItems(api, Page(pages, page), w).None? {
      GatheredPrefix(pages, page, LastPage(pages));
      FetchItemsPrefix(api, Gathered(pages, page), Collected(pages), w);
    }
    if !Full(pages, page) {
      LastPageUnique(pages, page);
    }
  }

  lemma ViewsAppend(items: seq<Item>, item: Item)
    ensures Views(items + [item]) == Views(items) + [item.View()]
  {
  }

  lemma AllOkAppend<T>(xs: seq<Option<T>>, x: Option<T>)
    ensures AllOk(xs + [x]) ==
      if AllOk(xs).Some? && x.Some? then Some(AllOk(xs).value + [x.value]) else None
  {
    assert (xs + [x])[..|xs|] == xs;
  }

  lemma {:induction false} AllOkConcat<T>(a: seq<Option<T>>, b: seq<Option<T>>)
    ensures AllOk(a + b) ==
      if AllOk(a).Some? && AllOk(b).Some? then Some(AllOk(a).value + AllOk(b).value) else None
    decreases |b|
  {
    if b == [] {
      assert a + b == a;
      if AllOk(a).Some? {
        assert AllOk(a).value + [] == AllOk(a).value;
      }
    } else {
      var b', x := b[..|b| - 1], b[|b| - 1];
      assert a + b == (a + b') + [x];
      assert b == b' + [x];
      AllOkConcat(a, b');
      AllOkAppend(a + b', x);
      AllOkAppend(b', x);
      if AllOk(a).Some? && AllOk(b').Some? && x.Some? {
        var va, vb := AllOk(a).value, AllOk(b').value;
        assert va + vb + [x.value] == va + (vb + [x.value]);
      }
    }
  }

  lemma OutcomesConcat(api: Server, a: seq<ItemId>, b: seq<ItemId>, w: Window)
    ensures Outcomes(api, a + b, w) == Outcomes(api, a, w) + Outcomes(api, b, w)
  {
  }

  lemma FetchItemsConcat(api: Server, a: seq<ItemId>, b: seq<ItemId>, w: Window)
    ensures FetchItems(api, a + b, w) ==
      if FetchItems(api, a, w).Some? && FetchItems(api, b, w).Some?
      then Some(FetchItems(api, a, w).value + FetchItems(api, b, w).value)
      else None
  {
    OutcomesConcat(api, a, b, w);
    AllOkConcat(Outcomes(api, a, w), Outcomes(api, b, w));
  }

  /** Appending one id appends its item, or raises. */
  lemma FetchItemsAppend(api: Server, ids: seq<ItemId>, id: ItemId, w: Window)
    ensures FetchItems(api, ids + [id], w) ==
      if FetchItems(api, ids, w).Some? && ItemOutcome(api, id, w).Some?
      then Some(FetchItems(api, ids, w).value + [ItemOutcome(api, id, w).value])
      else None
  {
    assert Outcomes(api, ids + [id], w) == Outcomes(api, ids, w) + [ItemOutcome(api, id, w)];
    AllOkAppend(Outcomes(api, ids, w), ItemOutcome(api, id, w));
  }

  /** Once one item of a prefix raises, the whole list raises. */
  lemma FetchItemsPrefix(api: Server, a: seq<ItemId>, b: seq<ItemId>, w: Window)
    requires a <= b && FetchItems(api, a, w).None?
    ensures FetchItems(api, b, w).None?
  {
    assert b == a + b[|a|..];
    FetchItemsConcat(api, a, b[|a|..], w);
  }

  /** A list of outcomes succeeds exactly when each one does, and then holds their values in order. */
  lemma {:induction false} AllOkMeaning<T>(xs: seq<Option<T>>)
    ensures AllOk(xs).Some? <==> forall i :: 0 <= i < |xs| ==> xs[i].Some?
    ensures AllOk(xs).Some? ==>
      |AllOk(xs).value| == |xs| && forall i :: 0 <= i < |xs| ==> xs[i] == Some(AllOk(xs).value[i])
  {
    if xs != [] {
      var ys, x := xs[..|xs| - 1], xs[|xs| - 1];
      AllOkMeaning(ys);
      assert xs == ys + [x];
      AllOkAppend(ys, x);
    }
  }

  /**
   * One record per id, in order: the list succeeds exactly when every
   * `Item` constructor does, and its i-th record is the i-th id's item.
   */
  lemma FetchItemsMeaning(api: Server, ids: seq<ItemId>, w: Window)
    ensures FetchItems(api, ids, w).Some? <==> forall i :: 0 <= i < |ids| ==> ItemOutcome(api, ids[i], w).Some?
    ensures FetchItems(api, ids, w).Some? ==>
      |FetchItems(api, ids, w).value| == |ids|
      && forall i :: 0 <= i < |ids| ==> FetchItems(api, ids, w).value[i] == ItemOutcome(api, ids[i], w).value
  {
    hide ItemOutcome;
    var os := Outcomes(api, ids, w);
    AllOkMeaning(os);
    forall i | 0 <= i < |ids|
      ensures os[i] == ItemOutcome(api, ids[i], w)
    {
    }
  }

  /** Every record of a successful list is a settled item of the id at its position. */
  lemma FetchItemsSettled(api: Server, ids: seq<ItemId>, w: Window)
    requires FetchItems(api, ids, w).Some?
    ensures |FetchItems(api, ids, w).value| == |ids|
    ensures forall i :: 0 <= i < |ids| ==>
      FetchItems(api, ids, w).value[i].id == ids[i] && Settled(FetchItems(api, ids, w).value[i])
  {
    hide ItemOutcome;
    FetchItemsMeaning(api, ids, w);
    forall i | 0 <= i < |ids|
      ensures FetchItems(api, ids, w).value[i].id == ids[i] && Settled(FetchItems(api, ids, w).value[i])
    {
      ItemOutcomeMeaning(api, ids[i], w);
    }
  }

  /**
   * `_get_items` appends exactly one settled item per id of pages 1..k, k
   * the first page shorter than `PerPage`, in page order and within-page
   * order; so there are as many items as those pages hold ids.
   */
  lemma ItemsOfMeaning(api: Server, id: UserId, w: Window)
    requires ItemsOf(api, id, w).Some?
    ensures id in api.users
    ensures |ItemsOf(api, id, w).value| == |Collected(api.users[id].itemPages)|
      == SumLengths(api.users[id].itemPages, LastPage(api.users[id].itemPages))
    ensures forall i :: 0 <= i < |ItemsOf(api, id, w).value| ==>
      ItemsOf(api, id, w).value[i].id == Collected(api.users[id].itemPages)[i] && Settled(ItemsOf(api, id, w).value[i])
  {
    hide ItemOutcome;
    var ids := ItemIds(api.users[id]);
    FetchItemsSettled(api, ids, w);
    CollectedLength(api.users[id].itemPages);
  }

  /** A user fails exactly when the profile is missing or one listed item's constructor raises. */
  lemma UserOutcomeFails(api: Server, id: UserId, w: Window)
    ensures UserOutcome(api, id, w).None? <==>
      id !in api.users
      || exists i :: 0 <= i < |ItemIds(api.users[id])| && ItemOutcome(api, ItemIds(api.users[id])[i], w).None?
  {
    hide ItemOutcome;
    if id in api.users {
      FetchItemsMeaning(api, ItemIds(api.users[id]), w);
    }
  }

  lemma {:induction false} CountValidBound(rs: seq<ItemRecord>)
    ensures CountValid(rs) == |ValidOnly(rs)| <= |rs|
  {
    if rs != [] {
      CountValidBound(rs[..|rs| - 1]);
    }
  }

  lemma SumAppend(rs: seq<ItemRecord>, r: ItemRecord, m: Metric)
    ensures Sum(rs + [r], m) == Sum(rs, m) + Value(r, m)
  {
    assert (rs + [r])[..|rs|] == rs;
  }

  /** Invalid items add nothing, so every sum equals the sum over the valid items alone. */
  lemma {:induction false} SumOverValid(rs: seq<ItemRecord>, m: Metric)
    requires forall i :: 0 <= i < |rs| ==> Settled(rs[i])
    ensures Sum(rs, m) == Sum(ValidOnly(rs), m)
  {
    if rs != [] {
      var prefix, r := rs[..|rs| - 1], rs[|rs| - 1];
      SumOverValid(prefix, m);
      if r.isValid {
        SumAppend(ValidOnly(prefix), r, m);
      } else {
        assert ValidOnly(prefix) + [] == ValidOnly(prefix);
      }
    }
  }

  /**
   * The record of a user that succeeds: the profile counts, the number of
   * valid items (at most the number of items), the sums over the valid
   * items, and a score at least the items plus the likes.
   */
  lemma UserOutcomeMeaning(api: Server, id: UserId, w: Window)
    requires UserOutcome(api, id, w).Some?
    ensures ItemsOf(api, id, w).Some?
    ensures var r, rs := UserOutcome(api, id, w).value, ItemsOf(api, id, w).value;
      && r.userId == id
      && r.followees == api.users[id].followees && r.followers == api.users[id].followers
      && r.items == |ValidOnly(rs)| <= |rs|
      && r.likes == Sum(ValidOnly(rs), Likes)
      && r.stockers == Sum(ValidOnly(rs), Stockers)
      && r.comments == Sum(ValidOnly(rs), Comments)
      && r.contribution == Contribution(r.items, r.likes, r.stockers)
  {
    var rs := ItemsOf(api, id, w).value;
    ItemsOfMeaning(api, id, w);
    CountValidBound(rs);
    SumOverValid(rs, Likes);
    SumOverValid(rs, Stockers);
    SumOverValid(rs, Comments);
  }
}
