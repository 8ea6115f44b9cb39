# Mosaik ticket codes — a Dafny model

Mosaik is a guest-list check-in app. It generates admission codes, either Normal or VIP,
and stores them in a local `qr_codes` table. Later it scans a code and admits the guest
once. The code is then deleted, so it cannot be used twice. This project models that
lifecycle and proves its properties:

- `codes.dfy` (module `Codes`): the 60-character drawing alphabet. It also holds the
  candidate that one attempt of `generateRandomString` builds, the scanner's VIP test
  (starts with `V`, ends with `IP`), and the `LIKE 'V%IP'` pattern the store's filters
  use.
- `qr_code_dao.dfy` (module `Dao`): the `QrCodeDao` record store. It is a class over the
  table's rows, which are ids with no id twice (the primary key). It has insert with
  REPLACE, exists as a count, delete by id, the three listings and the three clears.
- `int_parse.dfy` (module `IntParse`): Kotlin's `toIntOrNull()` and the `?: 0`
  fallback the batch applies to the typed count.
- `main_activity.dfy` (module `Activity`): the `StringBuilder` pass, the retry loop of
  `generateRandomString`, `isQRCodeExists`, the `repeat(number)` batch, and the
  redemption branch of the scan handler.
- `wrappers.dfy` (module `Wrappers`): `Option`.

Randomness is supplied as data. Each generation receives the draws of its successive
attempts. Each draw is an index below 60, standing for `random.nextInt(60)`. The
coroutine calls to the store are taken in program order. In particular, each code is
inserted before the next one is generated.

Facts about the code that the model keeps:

- The alphabet has 60 characters. It leaves out `I` and `i`.
- A VIP code has `length + 1` characters and a Normal code `length - 2`. At the call
  site (MainActivity.kt:129) that is 21 and 18.
- `generateRandomString` performs no length check. With `length <= 2` nothing is drawn.

## Model

| member | source | states |
|---|---|---|
| `Codes.AlphabetContents` | app/src/main/java/com/example/mosaik/MainActivity.kt:154 | the alphabet has 60 characters: exactly the ASCII letters and digits other than `I` and `i` |
| `Codes.Classify` | app/src/main/java/com/example/mosaik/MainActivity.kt:189-190 | a text is reported VIP iff it has at least 3 characters, starts with `V` and ends with `I`,`P`; otherwise Normal, so empty or malformed text is Normal |
| `Codes.IsVip` | app/src/main/java/com/example/mosaik/MainActivity.kt:189 | the scanner's test holds iff the text has at least 3 characters, `V` first and `I`,`P` last |
| `Codes.VipShape` | app/src/main/java/com/example/mosaik/MainActivity.kt:189 | `startsWith("V") && endsWith("IP")` holds iff the text has at least 3 characters, `V` first and `IP` last, because the prefix and the suffix cannot overlap |
| `Codes.Like` | app/src/main/java/com/example/mosaik/data/QrCodeDao.kt:25-35 | SQL `LIKE` with `%` and `_`: a pattern without `%` matches only texts of its own length, and `%` alone matches every text |
| `Codes.VipPatternAgrees` | app/src/main/java/com/example/mosaik/data/QrCodeDao.kt:25-35 | an id matches the store's `LIKE 'V%IP'` iff the scanner classifies it as VIP |
| `Codes.Body` | app/src/main/java/com/example/mosaik/MainActivity.kt:161-163 | the drawn part has one character per draw, and the k-th is the alphabet character at the k-th drawn index |
| `Codes.Candidate` | app/src/main/java/com/example/mosaik/MainActivity.kt:159-165 | one attempt's candidate: for VIP, `V`, the drawn characters in draw order, then `IP`; for any other type, exactly the drawn characters |
| `Codes.DrawnCharacters` | app/src/main/java/com/example/mosaik/MainActivity.kt:154-163 | every drawn character is an ASCII letter or digit and never `I` or `i` |
| `Codes.VipCandidateShape` | app/src/main/java/com/example/mosaik/MainActivity.kt:159-165 | a VIP candidate is `V`, then the drawn characters in order, then `IP`; it has `length + 1` characters when `length >= 2` |
| `Codes.NormalCandidateShape` | app/src/main/java/com/example/mosaik/MainActivity.kt:159-165 | a Normal candidate is exactly the drawn characters, with no prefix and no suffix; it has `length - 2` characters when `length >= 2` |
| `Codes.CandidateCategory` | app/src/main/java/com/example/mosaik/MainActivity.kt:159-165 | the line-189 classification of any candidate is the type it was generated as; a Normal candidate can never end in `IP` |
| `Codes.CallSiteLengths` | app/src/main/java/com/example/mosaik/MainActivity.kt:129 | with `length` 20, a VIP code has 21 characters and a Normal code 18 |
| `Dao.Count` | app/src/main/java/com/example/mosaik/data/QrCodeDao.kt:19-20 | `COUNT(*) WHERE id = :id` is the number of rows holding that id |
| `Dao.CountIsZeroOrOne` | app/src/main/java/com/example/mosaik/data/QrCodeDao.kt:19-20 | under the primary key that count is 1 for a stored id and 0 otherwise |
| `Dao.Remove` | app/src/main/java/com/example/mosaik/data/QrCodeDao.kt:22-23 | deleting by id keeps exactly the other rows; it drops as many rows as hold the id; it is a no-op for an absent id; it keeps the key |
| `Dao.Upsert` | app/src/main/java/com/example/mosaik/data/QrCodeDao.kt:10-11 | INSERT OR REPLACE leaves the old ids plus the new one and keeps the key; the row count grows only when the id was absent |
| `Dao.Where` | app/src/main/java/com/example/mosaik/data/QrCodeDao.kt:25-35 | a `LIKE` / `NOT LIKE 'V%IP'` selection keeps exactly the matching (non-matching) rows and keeps the key |
| `Dao.FiltersPartition` | app/src/main/java/com/example/mosaik/data/QrCodeDao.kt:25-29 | the VIP and Normal selections are disjoint; together they hold every row exactly once (as multisets) |
| `Dao.WhereIdempotent` | app/src/main/java/com/example/mosaik/data/QrCodeDao.kt:31-35 | applying a clear (a selection) a second time changes nothing |
| `Dao.OppositeFiltersEmpty` | app/src/main/java/com/example/mosaik/data/QrCodeDao.kt:31-35 | clearing VIP and then Normal, in either order, empties the table, as `clearAll` does |
| `Dao.VipFilterIsClassify` | app/src/main/java/com/example/mosaik/data/QrCodeDao.kt:25-35 | for every id, the store's pattern and the scanner's line-189 test agree |
| `Dao.QrCodeDao.Insert` | app/src/main/java/com/example/mosaik/data/QrCodeDao.kt:10-11 | the stored ids become the old ids plus `id`; an id already present leaves the ids and the row count unchanged; the key is kept |
| `Dao.QrCodeDao.GetAllQRCodes` | app/src/main/java/com/example/mosaik/data/QrCodeDao.kt:13-14 | the listing holds exactly the stored ids and no id twice |
| `Dao.QrCodeDao.ClearAll` | app/src/main/java/com/example/mosaik/data/QrCodeDao.kt:16-17 | the table is empty afterwards |
| `Dao.QrCodeDao.Exists` | app/src/main/java/com/example/mosaik/data/QrCodeDao.kt:19-20 | the count is 1 for a stored id and 0 otherwise |
| `Dao.QrCodeDao.DeleteById` | app/src/main/java/com/example/mosaik/data/QrCodeDao.kt:22-23 | the stored ids lose exactly `id`; the table is unchanged when `id` was absent |
| `Dao.QrCodeDao.GetNormalQRCodes` | app/src/main/java/com/example/mosaik/data/QrCodeDao.kt:25-26 | exactly the stored ids the scanner classifies as Normal, none twice |
| `Dao.QrCodeDao.GetVIPQRCodes` | app/src/main/java/com/example/mosaik/data/QrCodeDao.kt:28-29 | exactly the stored ids the scanner classifies as VIP, none twice |
| `Dao.QrCodeDao.ClearVIPQRCodes` | app/src/main/java/com/example/mosaik/data/QrCodeDao.kt:31-32 | afterwards the stored ids are exactly the previously stored Normal ids |
| `Dao.QrCodeDao.ClearNormalQRCodes` | app/src/main/java/com/example/mosaik/data/QrCodeDao.kt:34-35 | afterwards the stored ids are exactly the previously stored VIP ids |
| `IntParse.ToIntOrNull` | app/src/main/java/com/example/mosaik/MainActivity.kt:126 | a result is produced exactly for an optional sign followed by digits whose value fits the 32-bit `Int` range, and it is that value (the digits, negated after `-`); everything else gives nothing |
| `IntParse.ParseCount` | app/src/main/java/com/example/mosaik/MainActivity.kt:126 | the count lies in the `Int` range; a numeral that fits gives its value, and a numeral that does not fit, or text that is not a numeral (empty, a bare sign, any other character), gives 0 |
| `IntParse.DecimalRoundTrip` | app/src/main/java/com/example/mosaik/MainActivity.kt:126 | the decimal rendering of any non-negative `Int` reads back as that number |
| `IntParse.NegativeRoundTrip` | app/src/main/java/com/example/mosaik/MainActivity.kt:126 | `-` followed by the rendering of `n` reads back as `-n`, for every `n` down to `Int.MIN_VALUE` |
| `IntParse.OverflowCountsZero` | app/src/main/java/com/example/mosaik/MainActivity.kt:126 | the decimal rendering of a number past `Int.MAX_VALUE` reads as nothing, so the count is 0 |
| `IntParse.LeadingZeroOrPlus` | app/src/main/java/com/example/mosaik/MainActivity.kt:126 | a leading `0` or a `+` sign does not change what digits read as: `007` and `+7` read as 7 |
| `Activity.BuildCandidate` | app/src/main/java/com/example/mosaik/MainActivity.kt:159-165 | the `StringBuilder` loop builds exactly the candidate of its draws: optional `V`, one alphabet character per draw, optional `IP` |
| `Activity.IsQrCodeExists` | app/src/main/java/com/example/mosaik/MainActivity.kt:171-174 | true iff the code is stored |
| `Activity.GenerateRandomString` | app/src/main/java/com/example/mosaik/MainActivity.kt:153-169 | a returned code is not stored; it is the first free candidate and every earlier candidate was taken; it has the requested category and length; None only when every supplied attempt collides |
| `Activity.GenerateAndStore` | app/src/main/java/com/example/mosaik/MainActivity.kt:129-130 | one round of the batch: a fresh code from the round's attempts is generated and inserted, so the store gains exactly it; if every attempt collides, nothing is stored |
| `Activity.GenerateBatch` | app/src/main/java/com/example/mosaik/MainActivity.kt:126-131 | the typed count (0 for non-numeric text) gives exactly that many codes, and none for a count <= 0, unless a round's attempts all collide, in which case the batch stops at that round; the i-th code is a candidate of the i-th round's attempts; the codes are pairwise distinct, new to the store, of the requested category and length 21/18; the store gains exactly them |
| `Activity.Redeem` | app/src/main/java/com/example/mosaik/MainActivity.kt:185-219 | stored text is admitted in its line-189 category, and exactly that id is deleted; any other text is rejected and the store is untouched; afterwards the text is not stored |
| `Activity.Redemption` | app/src/main/java/com/example/mosaik/MainActivity.kt:188-219 | stored text is admitted, in its line-189 category, and the table keeps exactly the other ids; any other text is rejected and the table is kept unchanged |
| `Activity.RedeemOnce` | app/src/main/java/com/example/mosaik/MainActivity.kt:188-195 | a stored code is admitted once; only its id is removed and the row count drops by one; redeeming it again is rejected and leaves the store as it is |
| `Activity.RedeemGenerated` | app/src/main/java/com/example/mosaik/MainActivity.kt:188-190 | a stored generated code is admitted in the category it was generated as |

## Left out

- Android UI is not modelled. This covers the dialogs, Toasts, the image views and their
  3-second timers, navigation to the listing screen, the RecyclerView adapter, and the
  "scan cancelled" branch taken for a null scan result.
- QR image encoding is not modelled. This covers the call from `generateQRCode` to
  `BarcodeEncoder` and `generateQRCodeBitmap.kt`: they are library calls, and the model
  keeps only the insert of `generateQRCode`.
- `ShowQRCodesActivity.kt` (listing, export to MediaStore, permissions) is not part of
  this model. Its choice of DAO query is covered by the DAO functions themselves.
- Coroutines are not modelled. Generation, insert, and the scan handler's read-then-
  delete run in program order. The race of the source's asynchronous insert with the next
  collision check is not modelled.
- `java.util.Random` is replaced by supplied draws. Nothing is said about the
  distribution.
- Activity.GenerateRandomString: the source retries forever while candidates collide.
  The model tries only the attempts it is given and returns None when all of them are
  taken. It proves partial correctness only.
- Activity.GenerateBatch: stops early (`complete` false) only when every supplied attempt
  of a round collides, or no attempts are supplied for it. In that case the source keeps
  drawing.
- Dao.Where: compares characters case-sensitively. SQLite's `LIKE` ignores ASCII case,
  so an id such as `vxip` would be listed as VIP by the store but reported Normal by the
  scanner. No generated code can be such an id, because `I` and `i` are never drawn.
- Dao.QrCodeDao.GetAllQRCodes: the model returns the rows in a fixed order. SQL promises
  no order without `ORDER BY`, and no contract depends on it.
- IntParse.ToIntOrNull: accepts only the ASCII digits `0`-`9`. Kotlin also accepts other
  Unicode decimal digits.
- Store failures (I/O errors and exceptions from Room) are not modelled. Neither are
  Room's generated code or the `AppDatabase` singleton.
- The `QrCode` entity is represented by its string `id`.
