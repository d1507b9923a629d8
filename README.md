# Escalatex402 core in Dafny

A model of the core of Escalatex402. Escalatex402 is an "escalation inbox": people pay a provider in USDC on Solana to get a request looked at. The model covers these parts:

- **Payment binding.**
  - `verifyUsdcPayment` decides whether a fetched transaction pays the expected amount to the provider. Checks run in this order: transaction found, reference binding, memo binding, USDC balance delta.
  - `scanForPayment` searches recent signatures, first match wins.
  - The payment intents: the memo, the Solana Pay transfer URL and the x402 `payment_required` record.
- **Login tokens and sessions.** A one-shot token table (`token → expiresAt, usedAt`), session lookup with expiry, and the login-link flow.
- **Paid-notification queue.** The query for paid, not yet notified requests, and the in-place status update.
- **Acceptance policy and availability gate.**
  - The substring blocklist and the quote.
  - The half-open UTC working-hours range.
- **Configuration.** Normalising the config file (new and legacy shapes) and merging it with the defaults and the environment.
- **Migrations.** Selecting and sorting migration files. The apply loop runs inside one transaction and is all-or-nothing.
- **Notifiers.** Fan-out to the notifiers, Telegram event dispatch, and the two paid-message formatters.

How the JavaScript is turned into Dafny:

- **JavaScript values.** `JsValue` models the values the code inspects: `undefined`, `null`, booleans, integers, `NaN`, strings, arrays and objects. It also models the operators the code relies on (`||`, `??`, property access, `String(x)`, `Number(x)`, object spread).
- **Environment.** `process.env` is a `map<string, string>` parameter.
- **Form encoding.** The query string of the Solana Pay URL is written by `URLSearchParams`. That follows the application/x-www-form-urlencoded serializer and parser of section 5 of the WHATWG URL Standard, modelled in `FormUrlEncoded` together with UTF-8 encoding. The URL is proved to parse back to the parameters that were set.
- **Database tables.** Tables are maps or sequences held in classes whose methods update them in place: `Auth.AuthStore`, `NotifyPaid.RequestsTable`, `Migrate.MigrationDb`.
- **Outside inputs.** The network, the file system, randomness and the clock become parameters. These are the fetched transaction, the signature history, a base64 `decode` function, the generated token or id, `now`, `readFile`, and whether a script executes (`execOk`). The Telegram HTTP call is a `deliver` function.

## Model

| member | source | states |
|---|---|---|
| SolanaVerify.ExpectedBase | src/solanaVerify.js:76 | the expected amount in base units is the nearest integer to amount × 10^6, halves rounded up |
| SolanaVerify.ExpectedBaseOfBaseUnits | src/solanaVerify.js:76 | an amount that is a whole number of base units scales back to exactly that number |
| SolanaVerify.ExpectedBaseMonotonic | src/solanaVerify.js:76 | a larger expected amount never needs fewer base units |
| SolanaVerify.SumForAppend | src/solanaVerify.js:63-70 | the per-owner USDC sum over concatenated balance lists is the sum of the two sums |
| SolanaVerify.SumForIgnoresOthers | src/solanaVerify.js:63-70 | a balance entry of another mint or owner, or with no amount, adds nothing to the sum |
| SolanaVerify.NonMemoInstructionIrrelevant | src/solanaVerify.js:38-52 | an instruction whose program is not the Memo program never affects whether the memo is found |
| SolanaVerify.Verification | src/solanaVerify.js:17-96 | not-found is reported exactly when the transaction or its meta is missing; a verified result carries `USDC_MINT` and a delta at least the expected base; an insufficient one a delta below it; a binding failure happens only when a binding was asked for and one of them failed |
| SolanaVerify.VerifyUsdcPayment | src/solanaVerify.js:17-96 | the method, with its memo-search loop, returns exactly the decision `Verification` specifies |
| SolanaVerify.NotFoundFirst | src/solanaVerify.js:26-28 | a missing transaction or missing meta fails with `tx_not_found_or_no_meta`, whatever the bindings and amounts |
| SolanaVerify.NoBindingOnlyAmountDecides | src/solanaVerify.js:33 | without a required memo or reference, two transactions with the same balances, slot and block time get the same verdict, whatever their keys, instructions or memo decoding |
| SolanaVerify.MissingReferenceReported | src/solanaVerify.js:34-35 | a required reference absent from the account keys fails with `missing_reference_or_memo` and `hasRef=false` |
| SolanaVerify.MissingMemoReported | src/solanaVerify.js:38-56 | a required memo contained in no Memo instruction fails with `missing_reference_or_memo` and `memoOk=false` |
| SolanaVerify.AcceptedIffEnough | src/solanaVerify.js:77-95 | once binding passes, the payment is accepted exactly when delta ≥ expected base; acceptance carries mint, delta, expected base, slot and block time, and rejection reports both amounts |
| SolanaVerify.TenUsdcExample | src/solanaVerify.js:76-86 | 10 USDC needs 10 000 000 base units: a delta of 10 000 000 is accepted, one of 9 999 999 is not |
| SolanaScan.RequestFor | src/solanaScan.js:17-23 | every verifier call carries the scan's payee, amount, memo and reference; only the signature varies |
| SolanaScan.RecentSignatures | src/solanaScan.js:11-15 | at most `limit` (default 20) signatures are taken, the most recent first, and all of them when fewer exist |
| SolanaScan.ScanForPayment | src/solanaScan.js:11-30 | a found signature is the first whose verification is ok, every earlier one failed, and `details` is its verifier result; not-found means every listed signature failed and `checked` is their number; an empty history gives not-found with `checked=0` |
| SolanaPay.MakePaymentMemo | src/solanaPay.js:11-15 | the memo begins with `Escalatex402:REQ:` and contains both the request id and the reference |
| SolanaPay.MemoRoundTrip | src/solanaPay.js:11-15 | for a request id without `:`, the memo splits back into that request id and reference |
| SolanaPay.MemoInjective | src/solanaPay.js:11-15 | for request ids without `:`, different (id, reference) pairs give different memos |
| SolanaPay.SearchParams.constructor | src/solanaPay.js:23 | a new `URLSearchParams` holds no parameter |
| SolanaPay.SearchParams.Set | src/solanaPay.js:26-32 | `set` replaces the first entry of that name in place, drops the later ones, or appends a new entry |
| SolanaPay.SetParamLookup | src/solanaPay.js:26-32 | after `set(name, v)` the name reads back as `v` and every other name reads as before |
| SolanaPay.SetParamFresh | src/solanaPay.js:26-32 | setting a name not yet present appends it at the end |
| SolanaPay.SetInOrder | src/solanaPay.js:26-32 | setting names in the fixed order appends each one and keeps the list ordered |
| SolanaPay.TransferParams | src/solanaPay.js:26-32 | the query begins with `amount` = `String(amount)` and `spl-token` = the mint, by default `USDC_MINT` |
| SolanaPay.TransferParamsOrdered | src/solanaPay.js:26-32 | the parameters appear in the order amount, spl-token, reference, memo, label, message, each at most once |
| SolanaPay.LookupTransferParams | src/solanaPay.js:26-32 | `reference`, `memo`, `label` and `message` are present exactly when their value is non-empty, and then hold that value |
| SolanaPay.SetIfTruthy | src/solanaPay.js:29-32 | an optional parameter is appended only when its value is truthy, keeping the fixed order |
| SolanaPay.BuildSolanaPayUrl | src/solanaPay.js:21-35 | the URL is `solana:` + recipient + `?` + the form-encoded transfer parameters |
| SolanaPay.PayUrlRoundTrip | src/solanaPay.js:21-35 | parsing the query of the URL gives back the amount string, the mint and exactly the optional parameters that were set |
| FormUrlEncoded.Utf8RoundTrip | src/solanaPay.js:23-34 | UTF-8 decoding undoes UTF-8 encoding for every string |
| FormUrlEncoded.EncodedChars | src/solanaPay.js:23-34 | an encoded name or value contains only unreserved characters, `+` and `%XX`, so never `&` or `=` |
| FormUrlEncoded.DecodeEncode | src/solanaPay.js:23-34 | decoding an encoded component (`+` to space, percent-decoding, UTF-8) gives back the string |
| FormUrlEncoded.ParseSerialize | src/solanaPay.js:23-34 | parsing the serialization of any list of name/value pairs gives back the same list, order and duplicates included |
| X402.Build402Payload | src/x402.js:3-32 | `error`, `type` and `network` are the constants; amount is `String(amountUsd)`; token, mint, recipient, reference, memo, pay URL, expiry, request id and retry URL are copied unchanged |
| X402.PayUrlAgreesWithPayload | src/x402.js:3-32 | when the payload's pay URL is the Solana Pay URL built from the same values, its query carries the payload's amount, mint, reference and memo |
| Auth.TtlMs | src/auth.js:26 | an unset or empty TTL variable gives the default; an integer-valued one gives that integer; `Auth.TtlIsNumber` is false (the source's NaN) exactly when the variable is set to something that is not an integer literal, and then the default stands in (see Left out) |
| Auth.BaseUrlFromEnv | src/auth.js:11-14 | the base URL is `PUBLIC_BASE_URL` without one trailing `/`, or empty when unset |
| Auth.BaseUrlStripsOneSlash | src/auth.js:13 | only one trailing slash is stripped: `https://x//` becomes `https://x/` |
| Auth.AuthEnabledExactSpelling | src/auth.js:16-18 | the flag comparison is exact and case-sensitive: without a secret, `TRUE`, `True`, `yes`, `on`, `false` or `0` leave authentication off |
| Auth.AuthSecretEnables | src/auth.js:16-18 | any non-empty `AUTH_SECRET` turns authentication on, whatever `AUTH_ENABLED` holds |
| Auth.ConsumeCheck | src/auth.js:31-38 | the outcome is not-found, already-used, expired or consumed, each exactly under its own condition, checked in that order; expiry is strict |
| Auth.AfterConsume | src/auth.js:36 | consuming sets `usedAt=now` on that token only; every failed consume leaves the table unchanged |
| Auth.ConsumeAtMostOnce | src/auth.js:34-37 | after a successful consume the same token is refused as already used, at any later time |
| Auth.ConsumeAtExpiryInstant | src/auth.js:35 | a token is still accepted at exactly its expiry time and refused one millisecond later |
| Auth.AuthStore.constructor | src/auth.js:24-53 | the token and session tables start empty |
| Auth.AuthStore.CreateLoginToken | src/auth.js:24-29 | a fresh token is inserted unused, expiring at now + TTL (default 10 minutes; a NaN TTL is not modelled, see Left out); a duplicate token fails the insert and changes nothing (the token is taken to be the table's key, see Left out); the new token can be consumed exactly up to its expiry |
| Auth.AuthStore.ConsumeLoginToken | src/auth.js:31-38 | returns the `ConsumeCheck` outcome and leaves the table as `AfterConsume` says; sessions are untouched |
| Auth.AuthStore.CreateSession | src/auth.js:40-45 | a fresh session expires at now + TTL (default 7 days; a NaN TTL is not modelled, see Left out); a duplicate id fails (the id is taken to be the table's key, see Left out); the session is found exactly until its expiry |
| Auth.AuthStore.GetSession | src/auth.js:47-53 | a row is returned exactly for a non-empty, known, not yet expired id |
| Auth.LoginLinkLines | src/auth.js:68-75 | the login message has six lines and the link is the fourth |
| Auth.LoginLinkTextLines | src/auth.js:68-75 | splitting the joined message on `\n` gives back its six lines, so the link stands on a line of its own |
| Auth.AuthStore.RequestLoginLink | src/auth.js:55-79 | without a notifier: `no_notifiers_configured` and no token; with one: a token is created first, then a missing base URL fails as `missing_PUBLIC_BASE_URL` with the token kept; a NaN TTL, or an expiry beyond ±8.64e15 ms (the range of a `Date`), then throws while the expiry is rendered (`toISOString` at line 71); otherwise the link message goes out as a `test` event |
| NotifyPaid.Project | scripts/notifyPaid.js:8 | the selected columns keep the row's id and paid time |
| NotifyPaid.PendingRows | scripts/notifyPaid.js:8 | exactly the rows with status `paid` and a paid time are selected |
| NotifyPaid.PendingRowsCount | scripts/notifyPaid.js:8 | one selected row per pending row of the table, no more and no fewer |
| NotifyPaid.UnnotifiedPaid | scripts/notifyPaid.js:6-11 | at most 25 rows, all of them selected rows, and as many as the table has pending rows, up to 25 |
| NotifyPaid.UnnotifiedPaidOldestFirst | scripts/notifyPaid.js:8 | the result is in ascending paid-time order, and no selected row left out is older than a returned one |
| NotifyPaid.MarkedNotified | scripts/notifyPaid.js:13-16 | the row with that id gets status `paid_notified` whatever its status was; every other row and column is unchanged |
| NotifyPaid.MarkedLeavesQueue | scripts/notifyPaid.js:8-15 | after marking, that id never appears in the queue |
| NotifyPaid.MarkedKeepsOthers | scripts/notifyPaid.js:8-15 | marking one id leaves every other row, and every other queued request, as it was |
| NotifyPaid.RequestsTable.constructor | scripts/notifyPaid.js:6-16 | the table holds the given rows |
| NotifyPaid.CountId | scripts/notifyPaid.js:15 | the number of rows the update matches, at most the table size, and zero exactly when no row has that id |
| NotifyPaid.RequestsTable.MarkNotified | scripts/notifyPaid.js:13-16 | updates the table in place as `MarkedNotified` says, after which the id is out of the queue; returns the number of rows the update matched, as `run` reports `changes` |
| Providers.EnvOr | src/providers.js:3-16 | a set, non-empty variable wins, otherwise the default |
| Providers.GetProvider | src/providers.js:3-16 | each provider field is its environment variable or its documented default (name Neojack, token USDC, minimum 25, availability best-effort) |
| Providers.ScreenedText | src/providers.js:20 | the screened text is the lower-cased title, body and comma-joined tags on three lines; truthy tags that are not an array make it throw |
| Providers.MinQuote | src/providers.js:27 | the minimum is `Number(MIN_QUOTE_USD)`, 25 when unset |
| Providers.EvaluateRequest | src/providers.js:19-36 | rejected exactly when the screened text contains a blocked word, with `quoteUsd=null`; accepted otherwise with `quoteUsd = String(quote)` |
| Providers.QuoteAtLeastMin | src/providers.js:28-29 | the quote is the budget when present, non-zero and at least the minimum, and the minimum otherwise, so never below it |
| Providers.DefaultMinimumQuotes | src/providers.js:27-29 | with the default minimum, a budget of 30 is quoted 30, and a budget of 10 or none is quoted 25 |
| Providers.AdvertisedMinimumEnforced | src/providers.js:13-27 | the minimum the policy enforces is the one the provider profile advertises |
| Providers.BlockedTitleRejected | src/providers.js:21-23 | a title containing a blocked word in any letter case is rejected |
| Providers.HackathonRejected | src/providers.js:21-23 | "Hackathon judging help" is rejected, because it contains `hack` |
| Providers.CleanRequestAccepted | src/providers.js:21-35 | a request whose screened text contains no blocked word is accepted |
| Availability.UtcHour | src/availability.js:4 | the hour is the UTC hour of the timestamp, 0 to 23 |
| Availability.IsWithinWorkingHours | src/availability.js:1-8 | a missing config throws; otherwise open exactly when start ≤ hour < end; a non-numeric bound closes it |
| Availability.DefaultsAlwaysOpen | src/availability.js:5-6 | missing bounds default to 0 and 24, so every hour is open |
| Availability.WholeDayOpen | src/availability.js:7 | the range 0 to 24 is open at every hour |
| Availability.EmptyRangeNeverOpen | src/availability.js:7 | when start ≥ end, it is never open |
| Availability.HourAfterDays | src/availability.js:4 | the UTC hour repeats every whole day |
| Availability.SameAnswerEveryDay | src/availability.js:2-7 | only the hour counts: the answer is the same on every day |
| Availability.LoadedDefaultsAlwaysOpen | src/availability.js:5-7 | a merged config whose working hours come only from the defaults is open at every hour |
| Config.EnvOrStr | src/config.js:10-24 | a non-empty environment variable wins, otherwise the literal default |
| Config.DefaultWorkingHours | src/config.js:10-17 | default working hours have start, end, days, startHour and endHour, with hours 0 to 24 when the environment leaves them unset |
| Config.DefaultConfig | src/config.js:6-25 | the defaults carry the three built-in tiers and, unless overridden, at most 5 open requests |
| Config.NormalizeTier | src/config.js:58-68 | tier id `interrupt` becomes key `15m` and other ids pass through; `priceUsd` is `String(amount_usdc)`; `whatYouGet` is `what_you_get`, else `whatYouGet` |
| Config.NormalizeTiers | src/config.js:58-69 | every tier is normalised in order; a missing tier throws |
| Config.NormalizeFromFile | src/config.js:40-83 | a falsy file gives null, a legacy-shape file is returned unchanged, and a new-style file is mapped: provider fields, `workingHours` as `{days, start, end}` of a truthy `availability` (else null), tiers and the open-request limit; it fails only on a missing tier |
| Config.NewStyleWithoutProviderClearsHandle | src/config.js:45-57 | a new-style file without a `provider` object maps `handle` to undefined |
| Config.FileOr | src/config.js:89-101 | a key the file has gives the file's value, otherwise the default |
| Config.ExtraKeys | src/config.js:89 | the spread carries every file key the code does not handle itself, unchanged |
| Config.SpreadFile | src/config.js:89 | spreading the file over the defaults keeps the file's extra keys |
| Config.SpreadFalsyFile | src/config.js:89 | spreading the file or, when it is falsy, an empty object is the same as spreading the file itself |
| Config.EnvWins | src/config.js:93-95 | a non-empty environment value wins over the file, otherwise the file's value stays |
| Config.MaxOpenRule | src/config.js:24-98 | `maxOpenRequests` comes from the environment, else the merged value, else 5 |
| Config.MergeConfig | src/config.js:89-101 | the merged settings satisfy every precedence rule of the merge (working hours overlaid, environment wins, maximum rule, default tiers when none or empty) |
| Config.LoadConfig | src/config.js:85-104 | loading fails exactly when normalising the file fails, and otherwise returns the merge of the normalised file |
| Migrate.LeadingDigits | src/migrate.js:25 | counts the leading decimal digits, stopping at the first non-digit |
| Migrate.MigrationNameMatches | src/migrate.js:25 | every name made of digits, `_`, a stem and `.sql` is selected |
| Migrate.MigrationNameSplits | src/migrate.js:25 | every selected name has exactly that form |
| Migrate.StrLeOrder | src/migrate.js:26 | the string order used for sorting is total and transitive |
| Migrate.MatchingNames | src/migrate.js:25 | keeps exactly the matching directory entries, in listing order |
| Migrate.SortedNames | src/migrate.js:25-26 | the matching names, as a permutation, sorted ascending |
| Migrate.MigrationId | src/migrate.js:27 | the id is the name up to the first `.sql` |
| Migrate.ListMigrationFiles | src/migrate.js:21-28 | one entry per sorted matching name, with its id and its path in the directory |
| Migrate.PendingMembers | src/migrate.js:34-46 | a migration is pending exactly when it is listed and its id is not yet recorded |
| Migrate.RecordRows | src/migrate.js:49 | recording adds exactly the run's ids, each stamped with the one `now` the model passes for the run (see Left out), and keeps every earlier row |
| Migrate.StepsSucceedDistinct | src/migrate.js:49 | in a successful run, the applied ids are distinct and none was recorded before |
| Migrate.DuplicateIdFails | src/migrate.js:49 | two pending files with the same id make the run fail, because the second insert breaks the key |
| Migrate.RunTwiceAppliesNothing | src/migrate.js:34-46 | after a successful run, the same listing has nothing pending |
| Migrate.MigrationDb.constructor | src/migrate.js:30-58 | a new database has no recorded migration and no executed script |
| Migrate.MigrationDb.ApplyOne | src/migrate.js:47-49 | one step reads and executes the script, then records the id; it succeeds exactly when the script runs and the id is still free |
| Migrate.MigrationDb.RunPending | src/migrate.js:45-52 | succeeds exactly when every pending step succeeds; then every pending script ran once in sorted order and every pending id is recorded |
| Migrate.MigrationDb.ApplyMigrations | src/migrate.js:43-57 | all or nothing: on success the pending migrations are executed and recorded in order; on failure the table and the executed scripts are as before and the error is returned |
| Migrate.MigrationDb.Migrate | src/migrate.js:30-58 | the same all-or-nothing statement over the selected, sorted directory listing |
| Notify.ErrorText | src/notify/index.js:18 | the error text is the exception's message, otherwise its string form |
| Notify.GetNotifiersFromEnv | src/notify/index.js:3-8 | the list holds the Telegram notifier exactly when Telegram is configured, and nothing else |
| Notify.ConfiguredFromEnv | src/notify/index.js:24-26 | some notifier is configured exactly when Telegram is |
| Notify.ResultFor | src/notify/index.js:14-19 | a result names its notifier and is a success exactly when the notifier returned |
| Notify.NotifyAll | src/notify/index.js:10-22 | one result per notifier, in notifier order; a throwing notifier does not stop the later ones |
| NotifyTelegram.Notify | src/notify/telegram.js:13-21 | `paid` sends the formatted payload, `test` sends `payload.text` or the default text, and any other event is skipped without sending; a `paid` or `test` event with a null or undefined payload throws a `TypeError` before sending |
| Notify.MissingPayloadRecordedAsFailure | src/notify/index.js:14-19 | a `paid` or `test` event without a payload becomes a Telegram failure entry carrying the `TypeError` message |
| NotifyTelegram.TelegramNotifier | src/notify/telegram.js:7-23 | a notifier named `telegram` exists exactly when bot token and chat id are both set |
| NotifyTelegram.FormatPaidBegins | src/notify/telegram.js:50-59 | the message begins with the header line, the `ID:` line and the `Title:` line |
| NotifyTelegram.TestEventText | src/notify/telegram.js:17-19 | a `test` event sends its text, or the default text when it has none |
| Telegram.TelegramSend | src/telegram.js:7-30 | unconfigured, it returns skipped without sending; configured, the outcome is the delivery's |
| Telegram.UnconfiguredSendsNothing | src/telegram.js:10 | when unconfigured, the result does not depend on the delivery at all |
| Telegram.PaidLines | src/telegram.js:32-41 | header, `ID:` and `Title:` lines always, then the quote, tx and receipt lines each only when truthy, in that order: 3 to 6 lines |
| Telegram.FormatPaidNotificationLines | src/telegram.js:32-41 | with single-line fields, splitting the message on `\n` gives back exactly those 3 to 6 lines |
| JsValue.Or | src/config.js:89-98 | JavaScript `or` yields its left operand when that is truthy, otherwise its right operand |
| JsValue.Spread | src/config.js:89-90 | object spread keeps the target's keys and overwrites them with the source's |
| JsValue.NumberOfString | src/providers.js:27 | `Number(String(n))` is `n` for every integer |
| Strings.SplitJoin | src/telegram.js:40 | splitting on a separator undoes joining with it when no part contains it |
| Strings.ParseIntToString | src/auth.js:26 | reading back a printed integer gives that integer |
| Strings.LowerKeepsSubstring | src/providers.js:20-22 | lower-casing keeps every substring, lower-cased |
| Sorting.InsertionSortSorted | src/migrate.js:26 | the sort returns a sorted permutation of its input for any total order |

## Left out

- Solana RPC (`getTransaction`, `getSignaturesForAddress`) is not modelled. The fetched transaction and the signature history are inputs.
- `PublicKey` base58 handling is not modelled; keys are plain strings. Base64 decoding of memo data is a `decode` parameter.
- Randomness is not modelled: the login token, the session id and the Solana Pay reference are parameters. `makeReferencePubkey` is not part of this model.
- The clock is read more often in the source than in the model, which passes one `now` per call:
  - `createLoginToken` and `createSession` read `Date.now()` for the row and again for the returned expiry;
  - `consumeLoginToken` reads it for the expiry check and again for the `usedAt` it writes;
  - `migrate` reads it once per insert, so migrations of one run can get different `appliedAt` values. Migrate.RecordRows stamps them all with the same time.
- The SQL layer (`src/db.js`) is not part of this model. Tables are maps or sequences.
  - The table definitions of `login_tokens` and `sessions` are not part of the source. The model takes `token` and `id` as their primary keys, so a duplicate insert fails (Auth.AuthStore.CreateLoginToken, Auth.AuthStore.CreateSession). On a table without that key the insert would succeed.
  - When two rows share `paidAt`, SQLite's `ORDER BY` leaves their order unspecified. The model sorts stably in table order.
  - A migration script's effects are abstracted as whether it executes (`execOk`). The model records the scripts executed.
- `readConfigFile` is not modelled (file system and `JSON.parse`). The parsed file is a parameter, and an unreadable file is `null`.
- Config.SpreadFile: spreading a truthy non-object file (an array or a string) would copy its index keys. The model copies keys only from objects.
- Config.MergeConfig: the working-hours overlay spreads `file.workingHours || file.working_hours || file.availability || {}`. When that value is a string or an array (such as `"9-17"` or `[9, 17]`), the source copies its index keys `"0"`, `"1"`, … into `workingHours`. The model's spread, like Config.Merged, keeps only the default working hours for such a value.
- Config.LoadConfig: returns the Config.Merged result, so the same index keys are missing from its working hours.
- The Telegram HTTP request in `telegramSend` is the `deliver` parameter. The request body and the HTTP error handling are not modelled.
- Floating point is not modelled. `Number(s)` of a string is modelled for the empty string (0) and for an optional `-` followed by decimal digits. Every other string becomes `NaN`, including numeric spellings the source would read. Fractional budgets and minimums are not modelled.
- Auth.TtlMs: the model reads only an optional `-` followed by decimal digits. Other spellings `Number()` accepts (surrounding whitespace, `+`, an exponent, hexadecimal, a fraction such as `600000.0`) give the default in the model, while the source uses their number.
- Auth.TtlMs: a TTL variable that is not a number gives NaN in the source, and the row stores a NaN expiry (and `createLoginToken`/`createSession` return it). The model stores now + the default TTL instead, so Auth.AuthStore.CreateLoginToken, Auth.AuthStore.CreateSession and Auth.AuthStore.ConsumeLoginToken do not capture how such a row expires. Auth.AuthStore.RequestLoginLink does model the throw that the NaN expiry causes.
- Auth.AuthStore.CreateLoginToken: with a non-numeric TTL the source inserts and returns a NaN expiry; the model uses now + the default TTL.
- Auth.AuthStore.CreateSession: with a non-numeric TTL the source inserts and returns a NaN expiry; the model uses now + the default TTL.
- Providers.MinQuote: the same restriction of `Number()` applies. Such spellings give `NaN` in the model, while the source uses their number. Config.MaxOpenRule has the same restriction.
- `expectedAmountUsdc` is an exact decimal, so `Math.round` is exact. Precision loss above 2^53 is not modelled.
- SolanaVerify.Verification: the expected amount is a real number. A non-numeric `expectedAmountUsdc` (a quote such as `"NaN"`) makes `expectedBase` NaN in the source; `delta < NaN` is false there, so any transaction that passes the binding checks is accepted. The model does not capture this case.
- Lower-casing covers ASCII letters only.
- `Array.prototype.sort()` compares UTF-16 code units. The model compares characters, which agrees for names in the Basic Multilingual Plane.
- `path.join` normalisation is not modelled. The path is the directory, `/` and the name.
- Logging is not modelled. `Migrate.MigrationDb.Migrate` returns the applied ids that `migrate()` logs; the source function returns nothing.
- `async`/`await` is treated as sequential execution.
- Not part of this model:
  - `src/server.js`, `getSessionCookieName`, `getRpcUrl`;
  - the HTTP routes;
  - the `main` blocks of the scripts;
  - the conformance and schema scripts.
