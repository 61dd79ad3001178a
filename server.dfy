/**
 * The request handlers of server.js as methods on the one in-memory dataset.
 * The ghost field `persisted` is the last dataset this process handed to
 * `writeDb`: every handler that writes sets it to the new state, and the others
 * leave it alone.
 */
module Server {
  import opened Wrappers
  import opened Text
  import opened Store
  import opened Persist
  import opened AccessGate
  import opened Calendar

  datatype Error = BadRequest(message: string) | NotFound(message: string) | Forbidden(message: string)

  datatype Outcome<T> = Ok(value: T) | Err(error: Error)

  /** The reply to a create: the public item and, this once, its delete token. */
  datatype Created = Created(item: PublicItem, deleteToken: string)

  /** The reply to a report; `alreadyReported` is false where the source leaves the field out. */
  datatype ReportReply = ReportReply(reportCount: int, alreadyReported: bool)

  datatype Listing = Listing(items: seq<PublicItem>, dayKey: string)

  datatype Stats = Stats(countToday: nat, secondsToMidnight: int, serverTime: int, dayKey: string)

  const MissingFields := "Price and code are required."
  const InputTooLong := "Input is too long."
  const TokenRequired := "Delete token required."
  const ItemNotFound := "Item not found."
  const InvalidToken := "Invalid delete token."
  const ReporterRequired := "Reporter id required."
  const AdminAuthInvalid := "Admin auth invalid."
  const AnnouncementTooLong := "Announcement too long."

  class Board {
    var dayKey: string
    var items: seq<Item>
    var announcement: Option<Announcement>
    const config: AdminConfig
    ghost var persisted: Option<Snapshot>

    function State(): Snapshot
      reads this
    {
      Snapshot(dayKey, items, announcement)
    }

    /** The item invariant; it holds of every dataset built by these handlers from an empty one. */
    ghost predicate Valid()
      reads this
    {
      Ledger(items)
    }

    /** `let db = loadDb()` at startup, with the admin settings read from the environment. */
    constructor (config: AdminConfig, file: StoredFile, today: LocalDate)
      requires today.Valid()
      ensures this.config == config
      ensures State() == Load(file, DayKey(today)).db
      ensures persisted == if Load(file, DayKey(today)).wroteFresh then Some(State()) else None
      ensures !file.Parsed? ==> Valid()
    {
      var loaded := Load(file, DayKey(today));
      this.config := config;
      dayKey := loaded.db.dayKey;
      items := loaded.db.items;
      announcement := loaded.db.announcement;
      persisted := if loaded.wroteFresh then Some(loaded.db) else None;
    }

    /** `ensureDay`: on a new local date, drop every item and keep the announcement, then write. */
    method EnsureDay(today: LocalDate)
      requires today.Valid()
      modifies this
      ensures State() == Rollover(old(State()), DayKey(today))
      ensures persisted == if old(dayKey) != DayKey(today) then Some(State()) else old(persisted)
      ensures old(Valid()) || old(dayKey) != DayKey(today) ==> Valid()
    {
      var key := DayKey(today);
      if dayKey != key {
        dayKey, items := key, [];
        persisted := Some(State());
      }
    }

    /** `db.items.push(it)` followed by `writeDb(db)`. */
    method Append(it: Item)
      modifies this
      ensures items == old(items) + [it]
      ensures dayKey == old(dayKey) && announcement == old(announcement)
      ensures persisted == Some(State())
      ensures old(Valid()) && FindIndex(old(items), it.id) == -1 && WellFormed(it) ==> Valid()
    {
      if Valid() && FindIndex(items, it.id) == -1 && WellFormed(it) {
        AppendKeepsLedger(items, it);
      }
      items := items + [it];
      persisted := Some(State());
    }

    /** `db.items.splice(i, 1)` followed by `writeDb(db)`. */
    method RemoveItem(i: nat)
      requires i < |items|
      modifies this
      ensures items == RemoveAt(old(items), i)
      ensures dayKey == old(dayKey) && announcement == old(announcement)
      ensures persisted == Some(State())
      ensures old(Valid()) ==> Valid() && FindIndex(items, old(items)[i].id) == -1
    {
      if Valid() {
        RemoveKeepsLedger(items, i);
      }
      items := RemoveAt(items, i);
      persisted := Some(State());
    }

    /** An in-place change of the item at `i` that keeps its id, followed by `writeDb(db)`. */
    method UpdateItem(i: nat, it: Item)
      requires i < |items| && it.id == items[i].id
      modifies this
      ensures items == old(items)[i := it]
      ensures dayKey == old(dayKey) && announcement == old(announcement)
      ensures persisted == Some(State())
      ensures old(Valid()) && WellFormed(it) ==> Valid()
    {
      if Valid() && WellFormed(it) {
        ReplaceKeepsLedger(items, i, it);
      }
      items := items[i := it];
      persisted := Some(State());
    }

    /** `GET /api/items`; the stored items are left as they are. */
    method ListItems() returns (r: Listing)
      ensures r == Listing(PublicList(items), dayKey)
    {
      r := Listing(PublicList(items), dayKey);
    }

    /** `POST /api/items` with a fresh id and token and the current time. */
    method Create(price: string, code: string, id: string, token: string, now: int) returns (r: Outcome<Created>)
      modifies this
      ensures Trim(price) == "" || Trim(code) == "" ==> r == Err(BadRequest(MissingFields))
      ensures Trim(price) != "" && Trim(code) != "" && !AcceptedFields(Trim(price), Trim(code))
              ==> r == Err(BadRequest(InputTooLong))
      ensures r.Err? ==> unchanged(this)
      ensures r.Ok? <==> AcceptedFields(Trim(price), Trim(code))
      ensures r.Ok? ==>
        var it := NewItem(id, Trim(price), Trim(code), now, token);
        && r.value == Created(Public(it), token)
        && items == old(items) + [it]
        && dayKey == old(dayKey) && announcement == old(announcement)
        && persisted == Some(State())
      ensures old(Valid()) && FindIndex(old(items), id) == -1 ==> Valid()
    {
      var p, c := Trim(price), Trim(code);
      if p == "" || c == "" {
        return Err(BadRequest(MissingFields));
      }
      if Utf16Length(p) > MaxPriceLength || Utf16Length(c) > MaxCodeLength {
        return Err(BadRequest(InputTooLong));
      }
      var it := NewItem(id, p, c, now, token);
      NewItemWellFormed(id, p, c, now, token);
      Append(it);
      r := Ok(Created(Public(it), token));
    }

    /** `DELETE /api/items/:id` by its owner: the token is checked before the lookup. */
    method Delete(id: string, token: string) returns (r: Outcome<()>)
      modifies this
      ensures Trim(token) == "" ==> r == Err(BadRequest(TokenRequired))
      ensures Trim(token) != "" && FindIndex(old(items), id) == -1 ==> r == Err(NotFound(ItemNotFound))
      ensures Trim(token) != "" && FindIndex(old(items), id) != -1
              && old(items)[FindIndex(old(items), id)].deleteToken != Trim(token)
              ==> r == Err(Forbidden(InvalidToken))
      ensures Trim(token) != "" && FindIndex(old(items), id) != -1
              && old(items)[FindIndex(old(items), id)].deleteToken == Trim(token)
              ==> r.Ok?
      ensures r.Err? ==> unchanged(this)
      ensures r.Ok? ==>
        var i := FindIndex(old(items), id);
        && Trim(token) != "" && i != -1 && old(items)[i].deleteToken == Trim(token)
        && items == RemoveAt(old(items), i)
        && dayKey == old(dayKey) && announcement == old(announcement)
        && persisted == Some(State())
      ensures old(Valid()) ==> Valid()
      ensures old(Valid()) && r.Ok? ==> FindIndex(items, id) == -1
    {
      var t := Trim(token);
      if t == "" {
        return Err(BadRequest(TokenRequired));
      }
      var i := FindIndex(items, id);
      if i == -1 {
        return Err(NotFound(ItemNotFound));
      }
      if items[i].deleteToken != t {
        return Err(Forbidden(InvalidToken));
      }
      RemoveItem(i);
      r := Ok(());
    }

    /** `POST /api/items/:id/copy`: one more copy per call, with no deduplication. */
    method Copy(id: string) returns (r: Outcome<int>)
      modifies this
      ensures FindIndex(old(items), id) == -1 ==> r == Err(NotFound(ItemNotFound)) && unchanged(this)
      ensures FindIndex(old(items), id) != -1 ==>
        var i := FindIndex(old(items), id);
        && r == Ok(CountOf(old(items)[i].copyCount) + 1)
        && items == old(items)[i := WithCopy(old(items)[i])]
        && dayKey == old(dayKey) && announcement == old(announcement)
        && persisted == Some(State())
      ensures old(Valid()) ==> Valid()
    {
      var i := FindIndex(items, id);
      if i == -1 {
        return Err(NotFound(ItemNotFound));
      }
      var it := WithCopy(items[i]);
      if Valid() {
        WithCopyWellFormed(items[i]);
      }
      UpdateItem(i, it);
      r := Ok(CountOf(it.copyCount));
    }

    /**
     * `POST /api/items/:id/report`: the reporter id is checked before the lookup,
     * and a repeated report by the same id is answered without any change or write.
     */
    method Report(id: string, reporterId: string) returns (r: Outcome<ReportReply>)
      modifies this
      ensures Trim(reporterId) == "" ==> r == Err(BadRequest(ReporterRequired))
      ensures Trim(reporterId) != "" && FindIndex(old(items), id) == -1 ==> r == Err(NotFound(ItemNotFound))
      ensures r.Err? ==> unchanged(this)
      ensures Trim(reporterId) != "" && FindIndex(old(items), id) != -1 ==>
        var i := FindIndex(old(items), id);
        var it := old(items)[i];
        if Trim(reporterId) in ReportersOf(it) then
          r == Ok(ReportReply(CountOf(it.reportCount), true)) && unchanged(this)
        else
          && r == Ok(ReportReply(CountOf(it.reportCount) + 1, false))
          && items == old(items)[i := WithReport(it, Trim(reporterId))]
          && dayKey == old(dayKey) && announcement == old(announcement)
          && persisted == Some(State())
      ensures old(Valid()) ==> Valid()
    {
      var rid := Trim(reporterId);
      if rid == "" {
        return Err(BadRequest(ReporterRequired));
      }
      var i := FindIndex(items, id);
      if i == -1 {
        return Err(NotFound(ItemNotFound));
      }
      var it := items[i];
      if rid in ReportersOf(it) {
        return Ok(ReportReply(CountOf(it.reportCount), true));
      }
      var next := WithReport(it, rid);
      if Valid() {
        WithReportWellFormed(it, rid);
      }
      UpdateItem(i, next);
      r := Ok(ReportReply(CountOf(next.reportCount), false));
    }

    /** `GET /api/stats`, with the seconds to midnight and the clock passed in. */
    method GetStats(secondsToMidnight: int, now: int) returns (r: Stats)
      ensures r == Stats(|items|, secondsToMidnight, now, dayKey)
    {
      r := Stats(|items|, secondsToMidnight, now, dayKey);
    }

    /** `GET /api/announcement`. */
    method GetAnnouncement() returns (r: Option<Announcement>)
      ensures r == announcement
    {
      r := announcement;
    }

    /**
     * `POST /api/admin/announcement`: authorization first; blank text clears the
     * slot, text over 500 UTF-16 units is refused, other text is stored trimmed.
     */
    method Publish(cred: Credentials, text: string, now: int) returns (r: Outcome<Option<Announcement>>)
      modifies this
      ensures !IsAdmin(config, cred) ==> r == Err(Forbidden(AdminAuthInvalid))
      ensures IsAdmin(config, cred) && Trim(text) != "" && Utf16Length(Trim(text)) > MaxAnnouncementLength
              ==> r == Err(BadRequest(AnnouncementTooLong))
      ensures r.Err? ==> unchanged(this)
      ensures r.Ok? ==>
        && IsAdmin(config, cred)
        && r.value == (if Trim(text) == "" then None else Some(Announcement(Trim(text), now)))
        && announcement == r.value
        && dayKey == old(dayKey) && items == old(items)
        && persisted == Some(State())
      ensures IsAdmin(config, cred) && Utf16Length(Trim(text)) <= MaxAnnouncementLength ==> r.Ok?
    {
      if !IsAdmin(config, cred) {
        return Err(Forbidden(AdminAuthInvalid));
      }
      var t := Trim(text);
      if t == "" {
        announcement := None;
        persisted := Some(State());
        return Ok(None);
      }
      if Utf16Length(t) > MaxAnnouncementLength {
        return Err(BadRequest(AnnouncementTooLong));
      }
      announcement := Some(Announcement(t, now));
      persisted := Some(State());
      r := Ok(announcement);
    }

    /** `GET /api/admin/reports`. */
    method ListReports(cred: Credentials) returns (r: Outcome<Listing>)
      ensures !IsAdmin(config, cred) ==> r == Err(Forbidden(AdminAuthInvalid))
      ensures IsAdmin(config, cred) ==> r == Ok(Listing(ReportedList(items), dayKey))
    {
      if !IsAdmin(config, cred) {
        return Err(Forbidden(AdminAuthInvalid));
      }
      r := Ok(Listing(ReportedList(items), dayKey));
    }

    /** `DELETE /api/admin/items/:id`: the owner delete without the token check, after authorization. */
    method AdminDelete(cred: Credentials, id: string) returns (r: Outcome<()>)
      modifies this
      ensures !IsAdmin(config, cred) ==> r == Err(Forbidden(AdminAuthInvalid))
      ensures IsAdmin(config, cred) && FindIndex(old(items), id) == -1 ==> r == Err(NotFound(ItemNotFound))
      ensures IsAdmin(config, cred) && FindIndex(old(items), id) != -1 ==> r.Ok?
      ensures r.Err? ==> unchanged(this)
      ensures r.Ok? ==>
        var i := FindIndex(old(items), id);
        && IsAdmin(config, cred) && i != -1
        && items == RemoveAt(old(items), i)
        && dayKey == old(dayKey) && announcement == old(announcement)
        && persisted == Some(State())
      ensures old(Valid()) ==> Valid()
      ensures old(Valid()) && r.Ok? ==> FindIndex(items, id) == -1
    {
      if !IsAdmin(config, cred) {
        return Err(Forbidden(AdminAuthInvalid));
      }
      var i := FindIndex(items, id);
      if i == -1 {
        return Err(NotFound(ItemNotFound));
      }
      RemoveItem(i);
      r := Ok(());
    }
  }

  /** Reporting the same item twice with the same reporter id: the second reply repeats the count. */
  method ReportTwice(b: Board, id: string, reporterId: string) returns (first: Outcome<ReportReply>, second: Outcome<ReportReply>)
    modifies b
    ensures first.Ok? ==> second == Ok(ReportReply(first.value.reportCount, true))
    ensures first.Err? ==> second == first
  {
    ghost var i := FindIndex(b.items, id);
    first := b.Report(id, reporterId);
    if first.Ok? {
      assert b.items[i].id == id;
      assert FindIndex(b.items, id) == i;
      assert Trim(reporterId) in ReportersOf(b.items[i]);
    }
    second := b.Report(id, reporterId);
  }
}
