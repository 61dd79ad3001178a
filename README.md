# xmg-hall item store, modelled in Dafny

The server of xmg-hall keeps one in-memory dataset, `{dayKey, items, announcement}`.
Anonymous visitors post items (a price label and a code string), copy them, report
them and delete their own items with a secret delete token. An administrator
publishes or clears a single announcement, lists the reported items and deletes any item.
When the local date changes, every item is dropped and the announcement is kept.
Each change of the dataset is written to one snapshot file.

This project models that store on values and classes, and proves what each
handler does to it:

- `server.dfy`: module `Server`, class `Board`. It holds the dataset's fields, the admin
  configuration and a ghost `persisted` field. `persisted` is the last dataset handed to
  `writeDb`. Each route handler is a method returning `Ok(...)` or one of
  `BadRequest`, `NotFound`, `Forbidden`, each carrying the server's message text.
  The contracts say which checks run in which order, what the new state is, and
  whether the handler wrote. They also say that the item invariant `Valid()` is kept.
- `store.dfy`: module `Store`. It defines the item record and its public view
  (`publicItem`), the item invariant (`reportCount == |reporters|`, distinct reporters,
  distinct ids), the lookup and removal that the handlers use, the two listings, and
  the day rollover.
- `persist.dfy`: module `Persist`. It models what `loadDb` decides at startup and how
  it coerces a parsed snapshot.
- `access.dfy`: module `AccessGate`. It models `isAdmin`, in credential-pair mode and in
  shared-key mode.
- `daykey.dfy`: module `Calendar`. It models `getDayKey`.
- `countdown.dfy`: module `Countdown`. It models `formatCountdown` from the hall page.
- `text.dfy`, `decimal.dfy`, `sequences.dfy`, `wrappers.dfy` hold the JavaScript
  primitives these rest on:
  - `trim`, with the exact ECMAScript white-space set;
  - UTF-16 `length`, `indexOf` and `startsWith`;
  - `String(n)` and `padStart`;
  - a stable sort by descending key, `filter` and `map`;
  - an `Option` type.

Inputs the server takes from its environment are parameters:
- today's local date, for `EnsureDay` and the constructor;
- the current time (`Date.now()`);
- the fresh id and token (`crypto.randomUUID()`);
- the seconds to midnight;
- the admin configuration;
- the Base64-decoded text of the `Authorization` header.

A request field that is absent is the empty string, as `String(x || '')` gives.

Three behaviours of server.js worth noting:
- The owner delete rejects an empty token before it looks the item up. So an unknown
  id with an empty token gives `BadRequest`, not `NotFound`.
- A new report's reply has no `alreadyReported` field. `ReportReply` uses `false` for
  that missing field.
- A snapshot that loads and parses is not written again at startup.

## Model

| member | source | states |
|---|---|---|
| Text.TrimSpec | server.js:134-135 | `trim` keeps one factor of the input and removes only white space, and only at the two ends. What it keeps neither starts nor ends with white space. The result is empty exactly when the input is all white space. |
| Text.TrimIdempotent | server.js:134-135 | Trimming twice gives the same result as trimming once. |
| Text.Utf16Length | server.js:140 | The `length` the server compares with 30, 200 and 500 counts UTF-16 units. It lies between the number of code points and twice that number. |
| Text.IndexOf | server.js:106 | `indexOf(':')` returns -1 exactly when there is no colon. Otherwise it returns the position of the first colon. |
| Decimal.NatToStringRoundTrip | server.js:24-27 | Reading back the decimal text of a number gives that number. |
| Decimal.Pad2Shape | server.js:25-26 | A number below 100, padded with `padStart(2, '0')`, is exactly two digits and has the same value. |
| Calendar.DayKeyFields | server.js:23-28 | The day key is the year, a dash, two digits of month and a dash, then two digits of day. Each field reads back as the date's value. |
| Calendar.DayKeyInjective | server.js:23-28 | Two dates have the same day key exactly when they are the same date. So the key changes whenever the local date changes. |
| Calendar.DayKeyIsoShape | server.js:23-28 | For a four-digit year the key has ten characters, with dashes at positions 4 and 7 and digits everywhere else. |
| Calendar.DayKeyExample | server.js:23-28 | The key of 2 January 2023 is `2023-01-02`. |
| Countdown.FormatShape | public/hall.js:53-59 | The output is an hours field of at least two digits and then `:MM:SS`. The minutes and seconds fields are exactly two digits each, with values 0..59. |
| Countdown.NonPositiveIsZero | public/hall.js:54 | Any input of zero or less is shown as `00:00:00`. |
| Countdown.RoundTrip | public/hall.js:55-58 | Parsing the output `H:MM:SS` gives `H*3600 + MM*60 + SS == max(0, seconds)`. |
| AccessGate.PairModeExact | server.js:100-112 | With both user and password set, a request is authorized exactly when its header starts with `Basic ` and its decoded text is user, `:`, password. A user name that contains a colon can never match. |
| AccessGate.PairModeIgnoresKey | server.js:100-113 | In credential-pair mode the shared key is ignored, in the header and in the query. |
| AccessGate.KeyModeExact | server.js:114-115 | Otherwise a request is authorized exactly when `ADMIN_KEY` is non-empty and equals the presented key. The presented key is `X-Admin-Key`, or the `key` query parameter when that header is empty. |
| AccessGate.FailsClosed | server.js:99-116 | With nothing configured, no request is ever authorized. |
| Store.PublicHidesSecrets | server.js:88-97 | The public view does not depend on `deleteToken` or `reporters`. `PublicItem` has no field for either. |
| Store.FindIndex | server.js:167 | `findIndex`/`find` by id gives the first index whose id matches, or -1 when no item has that id. |
| Store.RemoveAt | server.js:177 | `splice(i, 1)` drops exactly the item at `i`. The others keep their relative order. |
| Store.RemoveAtPermutes | server.js:177 | The removed item together with the remaining items is the old list, as a multiset. |
| Store.RemoveKeepsLedger | server.js:177 | Removing an item keeps the item invariant. When ids are unique, the removed id is no longer found. |
| Store.NewItemWellFormed | server.js:144-153 | An item built by create from accepted fields has zero counters, no reporters and `reportCount == |reporters|`. |
| Store.WithCopyWellFormed | server.js:188 | Incrementing `copyCount` keeps the item invariant. |
| Store.WithReportWellFormed | server.js:209-210 | Adding a reporter who is not yet listed, and incrementing `reportCount`, keeps `reportCount == |reporters|` and keeps the reporters distinct. |
| Store.ReplaceKeepsLedger | server.js:188 | Updating one item in place, without changing its id, keeps the item invariant. |
| Store.AppendKeepsLedger | server.js:155 | Appending a well-formed item with a fresh id keeps the item invariant. |
| Store.PublicListSpec | server.js:126-130 | The listing has each item's public view exactly as often as the item is stored, ordered by `createdAt` descending. Items with equal `createdAt` keep their stored order. |
| Store.ReportedListSpec | server.js:255-258 | The reports listing has exactly the public views with `reportCount > 0`, each as often as stored. `reportCount` never increases along the list, and equal counts keep their stored order. |
| Store.CreatedItemListedOnce | server.js:133-159 | After a create with a fresh id, the listing shows the new item exactly once. |
| Store.RemovedItemNotListed | server.js:177 | After a delete, when ids were unique, no listed entry has the deleted id. |
| Store.Rollover | server.js:70-76 | On a new day key the items are emptied, the key is adopted and the announcement is kept. On the current key nothing changes. |
| Store.RolloverIdempotent | server.js:70-76 | Applying the rollover twice with the same key gives the same result as applying it once. |
| Persist.LoadSpec | server.js:42-66 | A fresh empty dataset for today is written exactly when the file is missing or unreadable. The file is renamed aside exactly when it is unreadable. A parsed file keeps its items and announcement. The day key is never empty. |
| Persist.LoadAfterWrite | server.js:35-58 | A snapshot that was written loads back unchanged, with nothing written or quarantined. |
| Persist.CoerceIdempotent | server.js:55-57 | A coerced dataset that is written and loaded again is unchanged. |
| Server.Board.constructor | server.js:68 | The dataset at startup is what `loadDb` returns. A write is recorded only when a fresh dataset was written. |
| Server.Board.EnsureDay | server.js:70-76 | The new state is the rollover of the old state. A write happens exactly when the day key changed. After a reset the invariant holds. |
| Server.Board.ListItems | server.js:126-131 | Returns the public listing and the day key. It changes nothing. |
| Server.Board.Create | server.js:133-159 | An empty trimmed price or code gives one error. A field over its limit gives another. After an error nothing changes. On success exactly one new item, with the trimmed fields and zero counters, is appended, and the new state is written. |
| Server.Board.Append | server.js:155-156 | `push` then `writeDb`. The items become the old items plus the new one at the end. The day key and announcement are kept and the new state is written. A well-formed item with a fresh id keeps the invariant. |
| Server.Board.RemoveItem | server.js:177-178 | `splice(i, 1)` then `writeDb`, also used by the admin delete (server.js:273-274). Exactly position i is dropped and the rest keep their order. The day key and announcement are kept and the new state is written. The invariant is kept. When ids are unique (`Valid()`), no item with the removed id is left. |
| Server.Board.UpdateItem | server.js:188-189 | The in-place update of one item then `writeDb`, also used by the report (server.js:209-211). Only position i changes, to the new record with the same id. The day key and announcement are kept and the new state is written. A well-formed replacement keeps the invariant. |
| Server.Board.Delete | server.js:161-180 | An empty token is rejected first. Then an unknown id gives NotFound. Then a different token gives Forbidden. Each error leaves everything unchanged. A non-empty token matching a present item always succeeds, and it removes exactly the first match and writes. When ids are unique (`Valid()`), no item with that id is left. |
| Server.Board.Copy | server.js:182-191 | An unknown id gives NotFound and changes nothing. Otherwise only that item's `copyCount` changes, by one, and the new value is returned and written. |
| Server.Board.Report | server.js:193-213 | An empty reporter id is rejected before the lookup. A repeat reporter gets the unchanged count with `alreadyReported` and nothing is written. A new reporter is added, the count grows by one, the state is written and the invariant is kept. |
| Server.ReportTwice | server.js:193-213 | Reporting twice with the same reporter id: the second reply repeats the first count with `alreadyReported`. |
| Server.Board.GetStats | server.js:215-222 | `countToday` is the number of stored items, together with the day key and the passed-in times. |
| Server.Board.GetAnnouncement | server.js:224-226 | Returns the current announcement or none. |
| Server.Board.Publish | server.js:228-248 | Authorization is checked first. Blank text clears the slot and writes. Trimmed text over 500 units is refused and the old announcement is kept. Other text is stored, trimmed, with the time, and written. Items are never touched. |
| Server.Board.ListReports | server.js:250-261 | Without authorization the result is Forbidden. Otherwise it returns the reports listing and the day key. |
| Server.Board.AdminDelete | server.js:263-276 | Without authorization the result is Forbidden. Then an unknown id gives NotFound. An authorized request for a present id always succeeds, and it removes exactly that item and writes the state. |

## Left out

- HTTP routing, status codes, JSON body parsing and the page routes (server.js:119-124, 278-303). Results are `Outcome` values. The middleware that runs `ensureDay` before each request is the caller's step: call `EnsureDay`, then the handler.
- `writeDb`, `ensureDir` and the file reads and renames of `loadDb` (server.js:17-21, 35-66) are file I/O. A write appears only as the ghost `persisted` update. Every write is taken to succeed, so a failed write is not modelled.
- `secondsToMidnight` and `scheduleMidnightClear` (server.js:30-33, 78-86) depend on the platform clock and timers. The day, the time and the seconds to midnight are parameters.
- `crypto.randomUUID` gives fresh ids and tokens, which are parameters. `Create` keeps the invariant when the id is fresh. It does not require freshness.
- Base64 decoding in `isAdmin`. The decoded text is a separate field of `Credentials`.
- `String(...)` of request values that are not strings, and a repeated `key` query parameter that Express turns into an array.
- Stored records whose fields have other JSON types than the model gives them (non-string ids, non-numeric `createdAt`, an announcement that is truthy but not an object, an array as the whole snapshot). Counters are unbounded integers, so the loss of exactness of JavaScript numbers above 2^53 is not modelled.
- Lone UTF-16 surrogates: a Dafny `char` is a Unicode scalar value.
- `formatCountdown` with a fractional or NaN input.
- Everything in public/hall.js except `formatCountdown`, and all of public/admin.js and public/publish.js (DOM, `fetch`, clipboard, `localStorage`, toasts, `toBase64`).
