/**
 * The dataset `{dayKey, items, announcement}` held in memory and written to disk
 * (server.js), its item records and the pure functions the handlers build on.
 */
module Store {
  import opened Wrappers
  import opened Text
  import opened Sequences

  const MaxPriceLength := 30
  const MaxCodeLength := 200
  const MaxAnnouncementLength := 500

  /**
   * One stored item. Records read back from disk may lack the counters or the
   * `reporters` array: `None` stands for a missing or falsy counter (which the
   * handlers read as `|| 0`) and for a `reporters` value that is not an array.
   */
  datatype Item = Item(
    id: string,
    price: string,
    code: string,
    createdAt: int,
    copyCount: Option<int>,
    reportCount: Option<int>,
    reporters: Option<seq<string>>,
    deleteToken: string)

  /** The item as clients see it; it has no field for the delete token or the reporters. */
  datatype PublicItem = PublicItem(
    id: string,
    price: string,
    code: string,
    createdAt: int,
    copyCount: int,
    reportCount: int)

  datatype Announcement = Announcement(text: string, updatedAt: int)

  datatype Snapshot = Snapshot(dayKey: string, items: seq<Item>, announcement: Option<Announcement>)

  /** A counter as the handlers read it: `count || 0`. */
  function CountOf(count: Option<int>): int {
    count.GetOr(0)
  }

  /** The reporters array, or `[]` when the stored value is not an array. */
  function ReportersOf(it: Item): seq<string> {
    it.reporters.GetOr([])
  }

  /** server.js `publicItem`. */
  function Public(it: Item): PublicItem {
    PublicItem(it.id, it.price, it.code, it.createdAt, CountOf(it.copyCount), CountOf(it.reportCount))
  }

  /** The public view does not depend on the secrets: items differing only in them look alike. */
  lemma PublicHidesSecrets(a: Item, token: string, reporters: Option<seq<string>>)
    ensures Public(a) == Public(a.(deleteToken := token, reporters := reporters))
  {
  }

  ghost predicate NoDuplicates(s: seq<string>) {
    forall i, j :: 0 <= i < j < |s| ==> s[i] != s[j]
  }

  /** What `create` checks of the trimmed price and code. */
  predicate AcceptedFields(price: string, code: string) {
    price != "" && code != "" && Utf16Length(price) <= MaxPriceLength && Utf16Length(code) <= MaxCodeLength
  }

  /**
   * An item as `create` makes it and as `copy` and `report` keep it: both counters
   * and the reporters present, one report per distinct reporter, and fields that
   * pass the create checks.
   */
  ghost predicate WellFormed(it: Item) {
    && AcceptedFields(it.price, it.code)
    && it.copyCount.Some? && it.copyCount.value >= 0
    && it.reportCount.Some? && it.reporters.Some?
    && it.reportCount.value == |it.reporters.value|
    && NoDuplicates(it.reporters.value)
  }

  ghost predicate UniqueIds(s: seq<Item>) {
    forall i, j :: 0 <= i < j < |s| ==> s[i].id != s[j].id
  }

  /** The invariant of the item list: distinct ids and well-formed items. */
  ghost predicate Ledger(s: seq<Item>) {
    UniqueIds(s) && forall i :: 0 <= i < |s| ==> WellFormed(s[i])
  }

  /** `items.findIndex(item => item.id === id)`; `find` returns the item at this index. */
  function FindIndex(s: seq<Item>, id: string): (r: int)
    ensures -1 <= r < |s|
    ensures r == -1 <==> forall i :: 0 <= i < |s| ==> s[i].id != id
    ensures 0 <= r ==> s[r].id == id && forall i :: 0 <= i < r ==> s[i].id != id
  {
    if s == [] then -1
    else if s[0].id == id then 0
    else
      var k := FindIndex(s[1..], id);
      if k == -1 then -1 else k + 1
  }

  /** `items.splice(i, 1)`: the item at `i` removed, the others kept in order. */
  function RemoveAt(s: seq<Item>, i: nat): (r: seq<Item>)
    requires i < |s|
    ensures |r| == |s| - 1
    ensures forall k :: 0 <= k < i ==> r[k] == s[k]
    ensures forall k :: i <= k < |r| ==> r[k] == s[k + 1]
  {
    s[..i] + s[i + 1..]
  }

  lemma RemoveAtPermutes(s: seq<Item>, i: nat)
    requires i < |s|
    ensures multiset(RemoveAt(s, i)) + multiset{s[i]} == multiset(s)
  {
    assert s == s[..i] + [s[i]] + s[i + 1..];
  }

  /** Removing an item keeps the invariant, and with distinct ids its id is gone afterwards. */
  lemma RemoveKeepsLedger(s: seq<Item>, i: nat)
    requires i < |s| && UniqueIds(s)
    ensures UniqueIds(RemoveAt(s, i))
    ensures FindIndex(RemoveAt(s, i), s[i].id) == -1
    ensures Ledger(s) ==> Ledger(RemoveAt(s, i))
  {
    var r := RemoveAt(s, i);
    forall k | 0 <= k < |r| ensures r[k].id != s[i].id {
      if k < i { assert r[k] == s[k]; } else { assert r[k] == s[k + 1]; }
    }
  }

  /** The record `create` makes: trimmed fields, zero counters, no reporters. */
  function NewItem(id: string, price: string, code: string, createdAt: int, token: string): Item {
    Item(id, price, code, createdAt, Some(0), Some(0), Some([]), token)
  }

  /** The item after one more copy. */
  function WithCopy(it: Item): Item {
    it.(copyCount := Some(CountOf(it.copyCount) + 1))
  }

  /** The item after a report by a new reporter. */
  function WithReport(it: Item, reporter: string): Item {
    it.(reporters := Some(ReportersOf(it) + [reporter]), reportCount := Some(CountOf(it.reportCount) + 1))
  }

  lemma NewItemWellFormed(id: string, price: string, code: string, createdAt: int, token: string)
    requires AcceptedFields(price, code)
    ensures WellFormed(NewItem(id, price, code, createdAt, token))
  {
  }

  lemma WithCopyWellFormed(it: Item)
    requires WellFormed(it)
    ensures WellFormed(WithCopy(it))
  {
  }

  /** A report from a reporter not yet listed keeps `reportCount == |reporters|` and the reporters distinct. */
  lemma WithReportWellFormed(it: Item, reporter: string)
    requires WellFormed(it) && reporter !in ReportersOf(it)
    ensures WellFormed(WithReport(it, reporter))
    ensures CountOf(WithReport(it, reporter).reportCount) == |ReportersOf(WithReport(it, reporter))|
  {
    var rs := ReportersOf(it) + [reporter];
    forall i, j | 0 <= i < j < |rs| ensures rs[i] != rs[j] {
      if j == |rs| - 1 { assert rs[i] in ReportersOf(it); }
    }
  }

  /** Replacing an item by one with the same id keeps the invariant when the new one is well formed. */
  lemma ReplaceKeepsLedger(s: seq<Item>, i: nat, it: Item)
    requires i < |s| && Ledger(s) && it.id == s[i].id && WellFormed(it)
    ensures Ledger(s[i := it])
  {
    var r := s[i := it];
    forall a, b | 0 <= a < b < |r| ensures r[a].id != r[b].id {
      assert r[a].id == s[a].id && r[b].id == s[b].id;
    }
  }

  /** Appending an item with a fresh id keeps the invariant when the item is well formed. */
  lemma AppendKeepsLedger(s: seq<Item>, it: Item)
    requires Ledger(s) && FindIndex(s, it.id) == -1 && WellFormed(it)
    ensures Ledger(s + [it])
  {
    var r := s + [it];
    forall a, b | 0 <= a < b < |r| ensures r[a].id != r[b].id {
      if b < |s| { assert r[a] == s[a] && r[b] == s[b]; } else { assert r[a] == s[a]; }
    }
  }

  // The listings.

  function CreatedAt(it: Item): int { it.createdAt }
  function ReportKey(it: Item): int { CountOf(it.reportCount) }
  predicate IsReported(it: Item) { CountOf(it.reportCount) > 0 }
  function PublicCreatedAt(p: PublicItem): int { p.createdAt }
  function PublicReportCount(p: PublicItem): int { p.reportCount }
  predicate PublicIsReported(p: PublicItem) { p.reportCount > 0 }

  /** `GET /api/items`: a sorted copy of the items, newest first, projected to the public view. */
  function PublicList(s: seq<Item>): seq<PublicItem> {
    Map(SortDesc(s, CreatedAt), Public)
  }

  /** `GET /api/admin/reports`: the reported items, most reports first, projected to the public view. */
  function ReportedList(s: seq<Item>): seq<PublicItem> {
    Map(SortDesc(Filter(s, IsReported), ReportKey), Public)
  }

  /**
   * The public listing holds every item's public view exactly as often as the item
   * occurs, newest first, items created at the same time in stored order.
   */
  lemma PublicListSpec(s: seq<Item>)
    ensures multiset(PublicList(s)) == multiset(Map(s, Public))
    ensures |PublicList(s)| == |s|
    ensures SortedDesc(PublicList(s), PublicCreatedAt)
    ensures forall t :: WithKey(PublicList(s), PublicCreatedAt, t) == WithKey(Map(s, Public), PublicCreatedAt, t)
  {
    var v := Map(s, Public);
    SortMap(s, CreatedAt, Public, PublicCreatedAt);
    SortPermutes(v, PublicCreatedAt);
    SortSorted(v, PublicCreatedAt);
    forall t ensures WithKey(PublicList(s), PublicCreatedAt, t) == WithKey(v, PublicCreatedAt, t) {
      SortStable(v, PublicCreatedAt, t);
    }
    assert |multiset(PublicList(s))| == |multiset(v)|;
  }

  /**
   * The reports listing holds exactly the public views with a positive report count,
   * each as often as among all items, the count never increasing along the list,
   * equal counts in stored order.
   */
  lemma ReportedListSpec(s: seq<Item>)
    ensures forall p :: multiset(ReportedList(s))[p]
                     == if p.reportCount > 0 then multiset(Map(s, Public))[p] else 0
    ensures SortedDesc(ReportedList(s), PublicReportCount)
    ensures forall k :: WithKey(ReportedList(s), PublicReportCount, k)
                     == WithKey(Filter(Map(s, Public), PublicIsReported), PublicReportCount, k)
  {
    var v := Filter(Map(s, Public), PublicIsReported);
    FilterMap(s, IsReported, Public, PublicIsReported);
    SortMap(Filter(s, IsReported), ReportKey, Public, PublicReportCount);
    SortPermutes(v, PublicReportCount);
    SortSorted(v, PublicReportCount);
    forall p ensures multiset(ReportedList(s))[p] == if p.reportCount > 0 then multiset(Map(s, Public))[p] else 0 {
      FilterCounts(Map(s, Public), PublicIsReported, p);
    }
    forall k ensures WithKey(ReportedList(s), PublicReportCount, k) == WithKey(v, PublicReportCount, k) {
      SortStable(v, PublicReportCount, k);
    }
  }

  /** After a create with a fresh id, the listing shows the new item exactly once. */
  lemma CreatedItemListedOnce(s: seq<Item>, it: Item)
    requires FindIndex(s, it.id) == -1
    ensures multiset(PublicList(s + [it]))[Public(it)] == 1
  {
    var w := Map(s, Public);
    var v := Map(s + [it], Public);
    SortMap(s + [it], CreatedAt, Public, PublicCreatedAt);
    SortPermutes(v, PublicCreatedAt);
    assert v == w + [Public(it)];
    FreshNotViewed(s, it);
    assert multiset(w)[Public(it)] == 0;
  }

  /** An item whose id no stored item has is not among the stored items' public views. */
  lemma FreshNotViewed(s: seq<Item>, it: Item)
    requires FindIndex(s, it.id) == -1
    ensures Public(it) !in Map(s, Public)
  {
    var w := Map(s, Public);
    forall k | 0 <= k < |w| ensures w[k] != Public(it) {
      assert w[k].id == s[k].id;
    }
  }

  /** Every entry of the listing is the public view of a stored item. */
  lemma ListedIsStored(s: seq<Item>, p: PublicItem)
    requires p in PublicList(s)
    ensures exists k :: 0 <= k < |s| && Public(s[k]) == p
  {
    var v := Map(s, Public);
    SortMap(s, CreatedAt, Public, PublicCreatedAt);
    SortPermutes(v, PublicCreatedAt);
    assert p in multiset(PublicList(s));
    assert p in v;
  }

  /** After removing an item whose id was unique, no entry of the listing carries that id. */
  lemma RemovedItemNotListed(s: seq<Item>, i: nat)
    requires i < |s| && UniqueIds(s)
    ensures forall p :: p in PublicList(RemoveAt(s, i)) ==> p.id != s[i].id
  {
    var r := RemoveAt(s, i);
    RemoveKeepsLedger(s, i);
    forall p | p in PublicList(r) ensures p.id != s[i].id {
      ListedIsStored(r, p);
      var k :| 0 <= k < |r| && Public(r[k]) == p;
      assert r[k].id != s[i].id;
    }
  }

  /**
   * server.js `ensureDay` on the dataset: a new day key drops every item and keeps
   * the announcement; the current key changes nothing.
   */
  function Rollover(db: Snapshot, today: string): (r: Snapshot)
    ensures r.dayKey == today && r.announcement == db.announcement
    ensures r.items == if db.dayKey == today then db.items else []
  {
    if db.dayKey != today then Snapshot(today, [], db.announcement) else db
  }

  lemma RolloverIdempotent(db: Snapshot, today: string)
    ensures Rollover(Rollover(db, today), today) == Rollover(db, today)
  {
  }
}
