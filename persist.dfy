/**
 * The decisions server.js `loadDb` takes when it starts: what it does with a
 * missing, unreadable or parsed snapshot file, and how it coerces the fields of
 * a parsed one. Reading, renaming and writing the files are not modelled.
 */
module Persist {
  import opened Wrappers
  import opened Store

  /**
   * The fields of a parsed snapshot object: `dayKey` and `announcement` are None
   * when missing or falsy, `items` is None when it is not an array.
   */
  datatype RawDb = RawDb(dayKey: Option<string>, items: Option<seq<Item>>, announcement: Option<Announcement>)

  /** The snapshot file at startup. `Unreadable` covers invalid JSON and a value that is not an object. */
  datatype StoredFile = Missing | Unreadable | Parsed(raw: RawDb)

  /** The dataset loaded, whether a fresh one was written, and whether the old file was renamed aside. */
  datatype Loaded = Loaded(db: Snapshot, wroteFresh: bool, quarantined: bool)

  function Fresh(today: string): Snapshot {
    Snapshot(today, [], None)
  }

  /** The coercion of lines 55-57: a missing key becomes today's, a non-array `items` becomes empty. */
  function Coerce(raw: RawDb, today: string): Snapshot {
    Snapshot(
      if raw.dayKey.Some? && raw.dayKey.value != "" then raw.dayKey.value else today,
      raw.items.GetOr([]),
      raw.announcement)
  }

  function Load(file: StoredFile, today: string): Loaded {
    match file
    case Missing => Loaded(Fresh(today), true, false)
    case Unreadable => Loaded(Fresh(today), true, true)
    case Parsed(raw) => Loaded(Coerce(raw, today), false, false)
  }

  /** What `writeDb` puts on disk, as it reads back. */
  function Encode(db: Snapshot): RawDb {
    RawDb(Some(db.dayKey), Some(db.items), db.announcement)
  }

  /** A written snapshot loads back unchanged, without writing or quarantining anything. */
  lemma LoadAfterWrite(db: Snapshot, today: string)
    requires db.dayKey != ""
    ensures Load(Parsed(Encode(db)), today) == Loaded(db, false, false)
  {
  }

  /**
   * Loading always yields a dataset with a non-empty day key, keeps the parsed
   * items and announcement when there are any, and writes a fresh empty dataset
   * exactly when the file was missing or unreadable.
   */
  lemma LoadSpec(file: StoredFile, today: string)
    requires today != ""
    ensures var r := Load(file, today);
      && r.db.dayKey != ""
      && (r.wroteFresh <==> !file.Parsed?)
      && (r.quarantined <==> file.Unreadable?)
      && (r.wroteFresh ==> r.db == Snapshot(today, [], None))
      && (file.Parsed? && file.raw.items.Some? ==> r.db.items == file.raw.items.value)
      && (file.Parsed? ==> r.db.announcement == file.raw.announcement)
  {
  }

  /** Coercing is idempotent: a coerced dataset written and loaded again is the same dataset. */
  lemma CoerceIdempotent(raw: RawDb, today: string, later: string)
    requires today != ""
    ensures Coerce(Encode(Coerce(raw, today)), later) == Coerce(raw, today)
  {
  }
}
