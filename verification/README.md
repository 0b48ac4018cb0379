# hb-configurable-scraper in Dafny

A model of the heating-oil price scraper's core, `index.js`. For every site in
its configuration the scraper:

- fetches the page;
- loads the markup;
- reads the 100-, 150- and 200-gallon prices with a locator and a price
  pattern;
- writes the result to the document store.

A small cooperative work queue runs the sites with bounded concurrency. When
the queue goes idle, the scraper sends one report that lists the sites that
failed. The model covers:

- `PriceToken` (`price_token.dfy`): the price pattern
  `/\d{1,3}(?:[.,]\d{3})*(?:[.,]\d{2,3})/`. It is modelled as the backtracking
  matcher JavaScript runs, and proved equal to a grammar: the match starts at
  the leftmost position where some substring is a price token, and it is the
  longest token that starts there.
- `Extractor` (`extractor.dfy`): `extractPrices`. It models the single-locator
  form and the keyed form ("100", "150", "200"), including the object-spread
  cascade. A missing tier inherits from the closest configured tier below it.
  The cascade is proved equal to an independent reference definition
  (`Governing`, `Expected`), including which lookup failure is reported.
- `SiteProcessor` (`site_processor.dfy`): `scrape` and `updateDatabase`. It
  routes each site to exactly one of the `failed` and `success` lists.
- `TaskQueue` (`task_queue.dfy`): the `queue(concurrency)` closure, modelled as
  a transition system with its invariant. It proves that the completion action
  runs exactly once per run.
- `DateFormat` (`date_format.dfy`): `getFormattedDate`, with a round trip back
  to the clock fields.
- `Pipeline` (`pipeline.dfy`): the program as a whole. Every site is enqueued,
  the tasks fulfil in any order, and exactly one report is composed. That
  report counts every site, and each site lands in exactly one list.
- `Wrappers` and `Chars` are helpers.

The page fetch, the markup loader, the document write and the clock are
parameters. `Services` is a record of functions that return a value or the
message of the error they throw. `Clock` is a clock reading.

Behaviour of the code worth knowing when reading the model:

- A tier whose text holds no price is not an extraction failure. The code
  stores `Number(null)` (index.js:36-40), which is `0`. The model keeps this
  case as the reading `NoMatch`.
- A database write that rejects later still counts as a success, because
  `update(...)` at index.js:165-176 is not awaited, so only a synchronous throw
  reaches the `catch` at index.js:179. This is recorded under Findings.
  `Scrape` and the whole-program lemmas take a `WriteMode`, so every result
  about them holds for the awaited write (`Awaited`) and for the code as
  written (`AsWritten`). In the `AsWritten` case this assumes the process
  survives the unhandled rejection of such a write. Since Node.js 15 an
  unhandled rejection ends the process by default, at the moment the rejection
  arrives. If that is before the queue goes idle, no report is sent; if it is
  after, the report has already been composed and its sending races the exit
  (see Left out).
- The completion report is sent each time the queue goes idle
  (index.js:147-154), not once per queue. It is sent once per run only because
  every site is enqueued before any task fulfils
  (`TaskQueue.LateEnqueueFiresAgain`). An empty site list sends no report at all
  (`Pipeline.EmptySiteListSendsNothing`).

## Model

| member | source | states |
|---|---|---|
| `PriceToken.IsPriceToken` | index.js:39 | the language of the pattern as a grammar: one to three digits, any number of `[.,]ddd` groups, then a `[.,]dd` or `[.,]ddd` fraction; every such word is at least four characters long and starts with a digit |
| `PriceToken.MatchFraction` | index.js:39 | the final group `[.,]\d{2,3}` matches, three digits first, exactly when a separator followed by at least two digits stands at the position, and what it consumes is a fraction |
| `PriceToken.MatchTail` | index.js:39 | after the leading digits, the greedy matcher consumes a span that is a run of `[.,]ddd` groups closed by a `[.,]dd` or `[.,]ddd` fraction |
| `PriceToken.MatchLead` | index.js:39 | with a fixed number of leading digits, a match, when there is one, is those digits followed by a grammar tail |
| `PriceToken.MatchAt` | index.js:39 | a match anchored at a position, when there is one, is a price token |
| `PriceToken.Search` | index.js:36-40 | the scan from a start position returns, when anything, a span at or after it that is a price token (`SearchFindsLeftmostLongest` states that it is the leftmost and longest) |
| `PriceToken.FindPrice` | index.js:36-40 | what `.match` returns, when anything, is a price token |
| `PriceToken.MatchAtFindsLongest` | index.js:39 | backtracking from three leading digits down to one finds the longest token at that position; no token starting there is longer |
| `PriceToken.MatchAtNoneMeansNoToken` | index.js:39 | when the anchored match fails, no substring starting at that position is a token |
| `PriceToken.FindPriceIsLeftmostLongest` | index.js:39 | `.match` gives null exactly when no substring is a price token; otherwise it gives the token that starts leftmost and, among those, the longest |
| `PriceToken.LeftmostLongestIsUnique` | index.js:39 | the leftmost-longest token of a text is unique |
| `PriceToken.TokenShape` | index.js:39 | a token has only digits and separators, starts and ends with a digit, holds a separator and is at least four characters long |
| `PriceToken.DigitRunIsNoToken` | index.js:39 | a bare run of digits (a price with no separator) never matches |
| `PriceToken.FindsDecimalPrice` | index.js:39 | "Price: $123.45 per gallon" gives "123.45" |
| `PriceToken.FindsGroupedPrice` | index.js:39 | "$1,299.99" gives "1,299.99", grouping included |
| `PriceToken.NoDigitsNoPrice` | index.js:39 | a text without digits gives null |
| `PriceToken.LongLeadIsCut` | index.js:39 | "1234.56" gives "234.56": at most three leading digits, and the match starts where a token can start |
| `Extractor.Spread` | index.js:42-47 | `{ ...price, ...literal }`: each key the literal sets takes the literal's value and every other key keeps the old one; spreading `{}` changes nothing, and spreading into `{}` gives the literal |
| `Extractor.FromTier` | index.js:42-76 | the literal written after the spread for a tier sets that tier and every tier above it to the tier's reading, and leaves the tiers below it unset |
| `Extractor.ApplyTier` | index.js:35-77 | an absent key leaves the price object as it was; a present key fails exactly when its lookup throws, with that message, and otherwise keeps the lower tiers and sets its own tier and every higher one to its reading |
| `Extractor.Extract` | index.js:29-96 | a failure carries the message of a configured lookup; on success, a set tier has every higher tier set, and the 200 tier is set exactly when some locator is configured (the full cascade is `ExtractMatchesCascade`) |
| `Extractor.Read` | index.js:36-40 | one tier's reading is a price token, or no match exactly when the text holds no token |
| `Extractor.ExtractMatchesCascade` | index.js:29-96 | extraction fails exactly when a configured lookup throws, with the first such message in 100, 150, 200 order; otherwise each tier holds the reading of the closest configured tier at or below it, and is unset when there is none |
| `Extractor.SingleSetsAllTiers` | index.js:82-95 | a single locator sets all three tiers to its reading, and fails only when its lookup throws |
| `Extractor.SingleIsHundredOnly` | index.js:82-95 | the single-locator form equals the keyed form with only "100" |
| `Extractor.HundredOnlyFillsAllTiers` | index.js:35-48 | with only "100", all three tiers carry its reading |
| `Extractor.FiftyOverridesUpperTiers` | index.js:51-63 | "150" replaces the 150 and 200 tiers and leaves the 100 tier as "100" left it |
| `Extractor.TwoHundredOverridesOnlyItself` | index.js:66-77 | adding "200" changes only the 200 tier |
| `Extractor.NoKeysNoTiers` | index.js:30-79 | an object with none of the three keys gives `{}` |
| `Extractor.TiersAreTokens` | index.js:36-40 | every tier that holds a match holds a price token |
| `SiteProcessor.Reject` | index.js:101-120 | a caught error appends the site to `failed` only, carrying the error's message, with its configuration and price unchanged |
| `SiteProcessor.UpdateDatabaseAsWritten` | index.js:163-183 | as written: the site is appended to exactly one list, and to `success` exactly when the write call does not throw at once, whether or not the write later rejects |
| `SiteProcessor.UpdateDatabase` | index.js:163-183 | awaited: the site is appended to exactly one list, and to `success` exactly when the write succeeds; a failed site carries an error |
| `SiteProcessor.ThrowingWriteFails` | index.js:164-182 | a write that throws at once is caught by both versions, and the site carries its message |
| `SiteProcessor.RejectedWriteCountsAsSuccess` | index.js:163-183 | as written, a write that later rejects still leaves the site in `success`, with no error |
| `SiteProcessor.RejectedWriteFailsWhenAwaited` | index.js:163-183 | awaited, the same write puts the site in `failed` with the rejection's message |
| `SiteProcessor.Prepare` | index.js:99-121 | a fetch failure gives the fetch's message; after a successful fetch, a load failure gives the load's message; after both succeed, the result is exactly the extraction's, its failure or its prices |
| `SiteProcessor.Persist` | index.js:163-183 | in either write mode the site, with its configuration and price unchanged, is appended to exactly one list; a site recorded as a success is recorded unchanged, a failed one carries an error |
| `SiteProcessor.FailingStageIsRecorded` | index.js:99-121 | the site's error is the message of the first stage that failed: fetch, then load, then extraction |
| `SiteProcessor.Scrape` | index.js:98-126 | in either write mode, every site is appended to exactly one list, with its configuration unchanged; a success carries a price and no new error; a failure carries an error |
| `SiteProcessor.EarlyFailureSkipsWrite` | index.js:99-121 | a fetch, load or extraction failure records that stage's message, keeps the old price, and never reaches the database write: another write collaborator or write mode gives the same result |
| `SiteProcessor.PriceSetBeforePersist` | index.js:123-125 | on extraction success, the price is set on the site before the write sees it; as written, the site ends in `success` exactly when the write call does not throw at once; awaited, exactly when the write succeeds |
| `TaskQueue.Create` | index.js:128-131 | a fresh queue satisfies the queue invariant, holds no task and has not fired |
| `TaskQueue.Enqueue` | index.js:133-145 | `enqueue` keeps the invariant: below the limit, the new task starts at once and nothing waits; at the limit, it waits at the back of `tasks`; either way outstanding work grows by one |
| `TaskQueue.Without` | index.js:143-144 | removing a fulfilled task from those in flight removes exactly that task |
| `TaskQueue.Finish` | index.js:142-154 | a fulfilled task is recorded as finished; its worker then starts the oldest waiting task, or, with nothing waiting, the fulfilled task simply leaves the in-flight set |
| `TaskQueue.FinishKeepsValid` | index.js:142-154 | a fulfilment keeps the queue invariant and reduces outstanding work by one; the completion action runs exactly when that task was the last outstanding one |
| `TaskQueue.EnqueueAll` | index.js:239-243 | enqueuing a list keeps the invariant, records the tasks as enqueued in list order, adds one unit of outstanding work per task, and neither finishes a task nor fires |
| `TaskQueue.Drain` | index.js:142-154 | each schedule entry finishes exactly one task; finished tasks are only ever added to; the drain stops before the schedule runs out only when nothing is in flight |
| `TaskQueue.EnqueueAllFromEmpty` | index.js:239-243 | enqueuing every site into a fresh queue starts the first `concurrency` of them and leaves the rest waiting, in order |
| `TaskQueue.DrainFiresOnce` | index.js:142-154 | letting every outstanding task fulfil, in any order, empties the queue and runs the completion action exactly once more |
| `TaskQueue.DrainedAccountsForAll` | index.js:142-145 | a drained queue started every task in enqueue order, and finished each one once |
| `TaskQueue.LaunchedQueue` | index.js:239-243 | after the enqueue loop, every site is accounted for, some are running and none has finished |
| `TaskQueue.RunFiresOnce` | index.js:128-157 | a run over a non-empty list fires the completion action exactly once, having started every task once in order and finished each once |
| `TaskQueue.DrainFromLaunch` | index.js:142-154 | draining a freshly launched queue runs every task once and fires the completion action once |
| `TaskQueue.EmptyRunNeverFires` | index.js:239-243 | with no site, the completion action never runs |
| `TaskQueue.LateEnqueueFiresAgain` | index.js:147-154 | a task enqueued after the queue went idle makes the completion action run a second time |
| `DateFormat.DigitChar` | index.js:188-189 | a digit value prints as the matching digit character |
| `DateFormat.NatToString` | index.js:188-189 | `toString` of a non-negative number gives digits with no leading zero; one digit exactly below ten |
| `DateFormat.ParseNatToString` | index.js:188-189 | reading back a printed number gives the number |
| `DateFormat.ParseNatLeadingZero` | index.js:188-189 | a padding zero does not change a number's value |
| `DateFormat.IntToString` | index.js:188-191 | a number prints with a leading minus exactly when it is negative |
| `DateFormat.ParseIntToString` | index.js:188-191 | reading back a printed year gives the year |
| `DateFormat.Repeat` | index.js:188-189 | the fill has the requested length and holds only the fill character |
| `DateFormat.PadStart` | index.js:188-189 | `padStart` gives the original string at the end, preceded by fill characters up to the width |
| `DateFormat.TwoDigitsRoundTrip` | index.js:188-189 | a month or day from 1 to 99 pads to exactly two digits that read back as itself |
| `DateFormat.ParseDateOfFields` | index.js:191 | a date assembled from two-digit month and day fields and a year reads back into those fields |
| `DateFormat.FormattedDate` | index.js:185-192 | for every clock reading the date ends with `/` and the printed year; when the printed month (`1 + month0`) and the day are between 0 and 99 they take exactly two characters each, so the separators stand at positions 2 and 5 (`FormattedDateRoundTrip` proves it reads back) |
| `DateFormat.FormattedDateRoundTrip` | index.js:185-192 | for a valid month and day, the formatted date has `/` at positions 2 and 5 and reads back as the clock reading it came from |
| `DateFormat.PadsSingleDigits` | index.js:185-192 | March 7 2026 prints as "03/07/2026" |
| `Pipeline.Launch` | index.js:239-243 | every site is enqueued, in order, on a fresh queue whose invariant holds with one outstanding task per site; nothing is recorded and no report is sent |
| `Pipeline.Compose` | index.js:219-226 | the report carries the given total, the number of successes, the failure list itself, the flag set exactly when that list is non-empty, and the formatted date and year of the clock reading |
| `Pipeline.Complete` | index.js:142-154 | one task fulfilling records its site in exactly one list and steps the queue; a report is composed from the current lists exactly when the queue goes idle |
| `Pipeline.Drain` | index.js:142-154 | the site count and the enqueued sites stay as they were; reports are only appended; every task that finishes records exactly one outcome |
| `Pipeline.LaunchValid` | index.js:239-243 | after enqueuing a non-empty site list, the run invariant holds: every site is waiting, running or recorded, and no report has been sent |
| `Pipeline.CompleteValid` | index.js:142-154 | one fulfilment keeps the run invariant |
| `Pipeline.StepValid` | index.js:98-154 | a step in which one task fulfils and a site with the same configuration is appended to exactly one list moves that site from the queue to the list, so no site is lost or counted twice |
| `Pipeline.DrainReportsOnce` | index.js:142-154 | letting every task fulfil keeps the invariant and sends exactly one more report, composed from the final lists |
| `Pipeline.RunReportsOnce` | index.js:239-243 | in either write mode (`AsWritten` provided the process survives an unhandled rejection of a write; see Left out), the program on a non-empty site list sends exactly one report, with `total` equal to the number of sites, the final failure list, the final success count, and the failure flag set exactly when a site failed; every site ends in exactly one of the two lists, once |
| `Pipeline.EmptySiteListSendsNothing` | index.js:239-243 | an empty site list sends no report |

## Left out

- Page fetch (`getHtmlAxios`, index.js:18-27): the HTTP request and its headers are not modelled. The fetch is the parameter `Services.fetch`, which returns the body or the error's message.
- Markup loading and selection (`cheerio.load`, `$(loc).text()`): these are the parameters `Services.load` and `Query`. HTML parsing and CSS selector semantics are not modelled.
- `Number(...)` coercion of the match (index.js:36, 52, 67, 82): floating point is not modelled. A tier holds the matched token, or `NoMatch` for `null`, which the code coerces to `0`. A comma-grouped token such as "1,299.99" coerces to `NaN`. The model does not distinguish that case.
- Document store: `store.js` is not part of this model. Neither are the Firestore client, the collection name, the fields written, `fb.timestamp()` or the `{ merge: true }` option. The write is the parameter `Services.write`, modelled only by whether it throws at once, later rejects, or succeeds.
- Report delivery (`emailFailed`, index.js:194-237): the transport, the handlebars templating, the subject line and the `sendMail` callback are not modelled. Only the template context is, as `Pipeline.Compose`. The callback reads `err.message` unconditionally (index.js:235). After a successful send `err` is `null`, so the callback throws a `TypeError` after the report has gone out. The model stops at composing the context, before the send, so it does not represent that error.
- Start-up (index.js:1-13): `dotenv`, `minimist` and the reading of `sites.json` are not modelled. The site list is a parameter. Configuration values other than a string or a plain object with string values for `selector` are not modelled; `null`, an array or a number would each behave differently.
- The clock: `new Date()` is the `Clock` parameter. One reading is used for both the date and the year, although the code reads the clock twice.
- Log lines (`console.log`, `console.error`) are not modelled.
- `scrapeTask` (index.js:159-161) only awaits `scrape`, so it is modelled by `Scrape` itself.
- Concurrency is a natural number. The default of 4, and any other value of at least 1, is covered. A negative or fractional `concurrency` is not modelled.
- Interleaving: a site's outcome is recorded at the moment its task fulfils. The code pushes a moment before the task fulfils, and nothing reads the lists in between. The model fixes the order of two sites in a list as the order in which their tasks fulfil.
- A task that never fulfils (a hung request) is not modelled. The run lemmas assume every task fulfils.
- TaskQueue.Finish: a task whose promise rejects is not modelled. Such a rejection would leave the worker loop at index.js:144 without `--running` (index.js:147), so the completion action would never run. Here it cannot happen: `scrapeTask` never rejects, because `scrape` catches the error of every stage (index.js:101-121) and `updateDatabase` catches its own (index.js:179).
- Pipeline.RunReportsOnce: in `AsWritten` mode, a write that rejects after `success.push` is an unhandled promise rejection. Since Node.js 15 that ends the process by default, at the moment the rejection arrives. If that is before the queue goes idle, no report is sent. If it is after, the report context has already been composed and `sendMail` called, and the sending races the exit. That is always the case for the write of the site whose fulfilment makes the queue go idle, because nothing between its `success.push` and the call to `emailFailed` (index.js:178, 144-153) waits for I/O. The model does not represent the process ending: `AsWritten` records what happened to the lists, and the report lemma holds only for runs in which the process survives, for example under `--unhandled-rejections=warn` or with no write rejecting.

## Findings

| source | as written | input that shows it | evidently intended | confidence | as-written member | corrected member |
|---|---|---|---|---|---|---|
| index.js:163-183 | `update(...)` is called without `await` inside the `try`, so `success.push(site)` runs before the write settles, and a rejected write never reaches the `catch` | a write that returns a promise which later rejects with message `m` (`Settles(Fail(m))`, e.g. updating a document id that does not exist) | the site goes to `failed` with `error = m`, as the surrounding `try`/`catch` intends | high; not executed | `SiteProcessor.RejectedWriteCountsAsSuccess` | `SiteProcessor.RejectedWriteFailsWhenAwaited` |
