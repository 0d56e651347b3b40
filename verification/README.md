# Finance dashboard: a Dafny model of its transaction logic

The application is a small personal-finance web app. Signed-in users record
income and expense transactions (title, amount, type, category, day). They
browse them by year, search text, category and day. A dashboard shows totals
and an expense-by-category chart, the history page groups records by month,
and the settings page exports a CSV file.

This project models the logic behind those screens as pure Dafny functions
over immutable data and proves what each one promises:

- `Query` — the read endpoint `GET /api/transactions`. It normalises the year,
  assembles the `where` clause, filters the store and sorts newest day first.
- `Validation` and `Actions` — the shared transaction schema and the four
  owner-scoped server actions, modelled as transitions of a store that is a
  sequence of rows.
- `Variants` — the two other insert paths. One checks a looser schema and
  throws; the other stores the form unchecked.
- `Dashboard` — income and expense totals, the balance, and the chart built
  with an insertion-ordered record.
- `Grouping` and `History` — the month grouping of the history page and its
  display fallbacks.
- `Filters` and `YearSelector` — edits of the URL search parameters, and the
  list of years offered.
- `CsvExport` — the text of the exported file.
- `Flows` — what the default listing shows after add, delete and delete-all.

Supporting modules: `Wrappers` (`Option`, `Result`), `Seqs` (an
order-keeping filter), `Text` (ASCII lower-casing, substring search,
join/split, decimal digits, `parseInt` with its skipping of leading white
space) and `Calendar` (calendar days and the
`YYYY-MM-DD` form). `Domain` holds the stored row, its JSON view as the pages
see it (`Row`), and the actions' response object.

Modelling choices:
- Amounts are integers in cents.
- Dates are calendar days that exist (`Calendar.Day`). The host's date parser
  yields such a day or nothing (an Invalid Date), so every stored date is a
  real day.
- The signed-in user is an `Option<string>`.
- The datastore is a `seq<Transaction>`. Its failures (no row to update or
  delete, an Invalid Date on insert) are one `StoreError` response.
- The host clock, locale formatting and the host's lenient `new Date(text)`
  are parameters.

## Model

| member | source | states |
|---|---|---|
| Query.SelectedYear | app/api/transactions/route.ts:18-27 | the effective year is the `parseInt` reading of `year` when that lies in [2023, currentYear]; an absent, empty, non-numeric or out-of-range year gives currentYear, never an error |
| Query.SelectedYearOfDecimal | app/api/transactions/route.ts:22-26 | a year written in decimal is honoured exactly when it is in [2023, currentYear] and otherwise replaced by currentYear |
| Text.ParseIntOfDecimal | app/api/transactions/route.ts:23 | `parseInt` reads back every decimal rendering of a non-negative integer |
| Text.ParseIntSkipsSpace | app/api/transactions/route.ts:23 | `parseInt` skips a leading ECMAScript white-space or line-terminator character, the Unicode space separators included |
| Query.SelectedYearSkipsSpace | app/api/transactions/route.ts:22-26 | a year behind such a character, an em space say, is honoured or replaced exactly as the bare year would be |
| Text.ParseIntIgnoresSuffix | app/api/transactions/route.ts:23 | `parseInt` ignores text after the leading digits (unless a lone 0 is followed by `x`, a hex prefix), so "2024abc" and "2024x" read as 2024 |
| Query.BuildWhereMeaning | app/api/transactions/route.ts:32-54 | the assembled `where` clause keeps a row exactly when it is the caller's, in the year window or on the `date` day, its title contains `query` ignoring case, and its category equals `category` unless that is empty or "All Categories" |
| Query.SortByDateDesc | app/api/transactions/route.ts:56-59 | the ordering step returns a permutation of its input with no row followed by a later day |
| Query.Get | app/api/transactions/route.ts:5-66 | no user is exactly the 401 answer and status; a `date` naming no day is exactly the 500 answer and status; otherwise the listing is sorted newest first and holds each store row exactly as many times as the store does when the parameters select it, and not at all otherwise |
| Query.ListingIsSelected | app/api/transactions/route.ts:32-59 | every listed row comes from the store, belongs to the requester and meets every active restriction |
| Query.SelectedIsListed | app/api/transactions/route.ts:32-59 | every store row meeting every restriction is listed |
| Query.ListingWithinYear | app/api/transactions/route.ts:29-39 | without a `date`, every listed row falls in the effective year |
| Query.DateOverridesYear | app/api/transactions/route.ts:32-54 | a `date` replaces the year window: a caller's row on that day whose year is not the effective year is listed exactly when it passes the title and category filters |
| Query.ListingOnDateDay | app/api/transactions/route.ts:49-54 | with a `date`, every listed row is on that day |
| Query.CategorySentinel | app/api/transactions/route.ts:45-47 | `category` set to "All Categories" or to the empty string lists exactly what omitting it lists |
| Query.EmptyQueryUnrestricted | app/api/transactions/route.ts:41-43 | an empty `query` lists exactly what omitting it lists |
| Text.ContainsIffOccurs | app/api/transactions/route.ts:42 | the substring test succeeds exactly when the needle occurs at some position of the text |
| Text.LowerIdempotent | app/transactions/page.tsx:76 | lower-casing twice is lower-casing once |
| Calendar.WithinYearIffSameYear | app/api/transactions/route.ts:29-37 | a valid day lies between January 1 and December 31 of a year exactly when it is in that year |
| Calendar.ParseIsoDate | lib/actions.ts:20 | an accepted `YYYY-MM-DD` string names a day that exists, with a four-digit year |
| Calendar.FormatParseIsoDate | lib/actions.ts:20 | every accepted date string is the canonical `yyyy-MM-dd` text of the day it names |
| Calendar.ParseFormatIsoDate | components/transactions/transaction-filters.tsx:75 | a day written `yyyy-MM-dd` reads back as the same day |
| Validation.Issues | lib/actions.ts:8-21 | the field-error map names exactly the failing fields and no other key, each with the schema's message: the title and date messages, "Expected number, received nan" for NaN or the positivity message, and the enum message listing the options and echoing the received type or category |
| Validation.Validate | lib/actions.ts:8-21 | the schema accepts exactly when all five checks pass and then returns the submitted fields with the date as a day; otherwise the error map is the one of `Validation.Issues`: non-empty, naming exactly the failing fields with their messages |
| Validation.EmptyTitleRejected | lib/actions.ts:9 | an empty title is rejected with "Title is required" under `title` |
| Validation.NegativeAmountRejected | lib/actions.ts:10 | a non-positive amount is rejected with "Amount must be positive" under `amount` |
| Actions.AddTransaction | lib/actions.ts:25-66 | no user fails with "User not authenticated"; invalid input answers "Validation error" with the schema's error map; success appends exactly one row with the validated fields and the caller's id and keeps the existing rows; every failure leaves the store unchanged |
| Actions.UpdateTransaction | lib/actions.ts:68-132 | checks run in order (user, id, schema, owned row), each failure with its own answer and no store change; success replaces all five fields of exactly the row with that id and owner |
| Actions.DeleteTransaction | lib/actions.ts:134-168 | no user, a missing id, or no row with that id and owner all fail without touching the store; success removes that row and keeps every other row |
| Actions.DeleteUserTransactions | lib/actions.ts:170-194 | succeeds for any signed-in user, even with no rows; afterwards none of the caller's rows remain and every other owner's rows do |
| Actions.AddKeepsIdsUnique | lib/actions.ts:34-43 | adding under a fresh id keeps the store's ids unique |
| Actions.UpdateKeepsIdsUnique | lib/actions.ts:97-109 | an update never changes a key, so ids stay unique |
| Actions.DeleteRemovesOne | lib/actions.ts:148-153 | with unique ids a successful delete removes exactly one row and keeps the others in order |
| Actions.OwnershipIsolation | lib/actions.ts:97-153 | another user can neither update nor delete a row: both fail and leave the store as it was |
| Variants.WeakIssues | app/actions/add-transaction.ts:8-14 | the looser schema reports exactly the failing title, amount and type, with zod's default messages (the type's listing the two options and echoing the received value), and never the category or the date |
| Variants.AddTransaction | app/actions/add-transaction.ts:16-39 | no user throws "Unauthorized"; a looser-schema failure throws with its error map; a date the host cannot read is refused by the datastore; success appends exactly one row with the fields and the caller's id; a throw leaves the store unchanged |
| Variants.SchemaIsWeaker | app/actions/add-transaction.ts:8-14 | every input the shared schema accepts, the looser schema accepts |
| Variants.WeakSchemaAdmitsMore | app/actions/add-transaction.ts:12-13 | the looser schema accepts a category outside the list and a date that is no date |
| Variants.AddPathsAgree | app/actions/add-transaction.ts:22-31 | on input both schemas accept, both add actions store the same row when the host reads the date as the day it names |
| Variants.CreateTransaction | app/actions/transaction.ts:13-44 | no user fails with "Unauthorized"; otherwise the form is stored unchecked, with `description` as the title and the caller's id, and success carries no message; only an unreadable date makes the datastore fail |
| Variants.CreateAgreesWithAdd | app/actions/transaction.ts:13-44 | on every form the shared schema accepts, with the date read strictly, `createTransaction` succeeds exactly when `addTransaction` does and leaves the same store, signed in or not |
| Variants.CreateSkipsValidation | app/actions/transaction.ts:21-30 | an empty title, a negative amount and an unknown type are stored as given |
| Dashboard.CategoryName | app/page.tsx:49 | a missing or empty category is reported as "Other"; any other category as itself |
| Dashboard.KindTotalIsSum | app/page.tsx:31-43 | the income (expense) total is the sum of the amounts of exactly the income (expense) records, a missing amount counting as zero |
| Dashboard.KindTotalAppend | app/page.tsx:31-43 | totals add up over concatenation, so each record contributes once wherever it sits |
| Dashboard.ChartSumsToExpenses | app/page.tsx:38-54 | the chart's values add up to the expense total |
| Dashboard.ChartIsGroupedExpenses | app/page.tsx:47-57 | the chart is the expense records grouped by category name in order of first appearance, each entry carrying its group's total |
| Dashboard.ChartEntries | app/page.tsx:47-57 | chart names are distinct and in order of first appearance among expense records, and each value totals the expense records of that name |
| Dashboard.NonExpenseIgnored | app/page.tsx:38-52 | appending a record that is not an expense changes neither the expense total nor the chart |
| Dashboard.Summarize | app/page.tsx:31-64 | the balance is income minus expenses, the totals sum the records of their type, the chart is the per-category expense table and sums to the expenses, and `hasTransactions` holds exactly when any record was fetched, whatever its type |
| Grouping.FirstOccurrences | app/transactions/page.tsx:94 | the bucket keys are each label once, and only labels that occur |
| Grouping.FirstOccurrencesOrdered | app/transactions/page.tsx:56-58 | bucket keys come out in the order each label first occurs |
| Grouping.GroupedStep | app/transactions/page.tsx:54-60 | one step of the loop turns the grouping of a prefix into the grouping of the next prefix |
| Grouping.GroupBy | app/transactions/page.tsx:51-63 | the loop's result equals the reference grouping |
| Grouping.GroupedSizes | app/transactions/page.tsx:51-62 | the bucket sizes add up to the number of items |
| Grouping.GroupedShape | app/transactions/page.tsx:56-58 | bucket keys are distinct and no bucket is empty |
| Grouping.ItemsInOwnBucket | app/transactions/page.tsx:54-60 | every item is in the bucket of its own label and in no bucket of another label |
| Grouping.SharedBucket | app/transactions/page.tsx:55-59 | two items share a bucket exactly when their labels are equal |
| Grouping.SelectSubsequence | app/transactions/page.tsx:54-60 | a bucket keeps its items in their relative input order |
| History.Normalise | app/transactions/page.tsx:72-80 | a fetched record has its type lower-cased and every other field, a missing date included, kept as sent |
| History.NormaliseIdempotent | app/transactions/page.tsx:76 | normalising twice is normalising once, and a lower-case type is left alone |
| History.NormaliseRecognisesTypes | app/transactions/page.tsx:76 | a stored type that lower-cases to "income" or "expense" counts as that type once normalised |
| History.MonthYear | app/transactions/page.tsx:46-49 | a record without a date is labelled "Unknown"; a dated one by its year and month |
| History.MonthYearIffSameMonth | app/transactions/page.tsx:46-49 | with a month label naming one month and never "Unknown", two dates get the same label exactly when they fall in the same month or are both missing |
| History.GroupTransactionsByMonth | app/transactions/page.tsx:51-63 | the buckets have distinct labels, none is empty, their sizes add up to the record count, each keeps input order and holds only records of its month label |
| History.SharedMonthBucket | app/transactions/page.tsx:51-62 | two records share a bucket exactly when they fall in the same month, and every undated record is in the "Unknown" bucket |
| History.MonthsInFirstOccurrenceOrder | app/transactions/page.tsx:93-94 | month headings are in order of each month's first occurrence |
| History.SignedAmount | app/transactions/page.tsx:206-207 | the amount shows "+" exactly for income and "-" for anything else, then the formatted magnitude, a missing amount as zero |
| History.SignComesFromType | app/transactions/page.tsx:234-235 | the stored sign of the amount never shows, and a missing amount shows as zero |
| History.DateText | app/transactions/page.tsx:37-44 | a missing date shows "N/A" |
| History.TitleText | app/transactions/page.tsx:188 | a missing or empty title shows "N/A"; any other as itself |
| History.CategoryText | app/transactions/page.tsx:191 | a missing or empty category shows the "other" label |
| History.CategoryTextAgreesWithChart | app/transactions/page.tsx:244 | with the English label, the history and the dashboard name a missing category the same way |
| Filters.UpdateFilter | components/transactions/transaction-filters.tsx:46-56 | a present, non-empty value other than "All Categories" is set; any other value deletes the key, whichever key it is; no other key changes |
| Filters.UpdateFilterIdempotent | components/transactions/transaction-filters.tsx:46-53 | applying the same update twice is applying it once |
| Filters.HandleDateSelect | components/transactions/transaction-filters.tsx:73-79 | a picked day is stored as text the endpoint reads back as that day; no day removes `date`; other keys are kept |
| Filters.ClearDate | components/transactions/transaction-filters.tsx:81-83 | clearing removes `date` and keeps every other key |
| Filters.SelectedCategory | components/transactions/transaction-filters.tsx:88 | the select shows "All Categories" when the parameter is absent or empty |
| Filters.CategoryChoiceShown | components/transactions/transaction-filters.tsx:69-88 | choosing any entry of the select makes the select show that entry |
| Filters.AllCategoriesChoiceUnrestricted | components/transactions/transaction-filters.tsx:49-52 | choosing "All Categories" lists exactly what no category would |
| Filters.SentinelSearchClears | components/transactions/transaction-filters.tsx:59-61 | searching for the text "All Categories" removes the search instead of setting it |
| Filters.PickedDayListed | components/transactions/transaction-filters.tsx:73-79 | after a day is picked, a signed-in listing holds exactly the caller's rows of that day the other filters keep |
| YearSelector.CountDownCovers | components/transactions/year-selector.tsx:22-25 | the list holds every year from 2023 to the end year once, strictly decreasing by one |
| YearSelector.YearOptionsShape | components/transactions/year-selector.tsx:20-25 | the options run from next year down to 2023, `endYear - 2023 + 1` of them |
| YearSelector.HandleYearChange | components/transactions/year-selector.tsx:27-31 | choosing a year sets `year` and keeps every other parameter |
| YearSelector.FirstOptionRejected | components/transactions/year-selector.tsx:21 | with one clock year for browser and server, the first option is next year, and choosing it lists the current year instead |
| YearSelector.CorrectedOptionsAccepted | components/transactions/year-selector.tsx:20-25 | every option of the corrected list is a year the endpoint honours |
| YearSelector.CorrectedDropsFirst | components/transactions/year-selector.tsx:21 | the corrected list is the offered list without its first entry |
| CsvExport.HeaderLineJoinsHeaders | app/settings/page.tsx:26-28 | the column names joined by commas are exactly `Title,Amount,Type,Category,Date` |
| CsvExport.HeaderLineFields | app/settings/page.tsx:26-28 | the header line splits at commas back into the five column names, in order |
| CsvExport.ExportIsJoin | app/settings/page.tsx:27-39 | after the mark come "sep=,", the header and the record lines, joined by newlines with none at the end |
| CsvExport.ExportLines | app/settings/page.tsx:27-36 | when no field holds a newline, the text splits back into the separator line, the header and the record lines: n + 2 lines |
| CsvExport.LineFields | app/settings/page.tsx:29-35 | when no field holds a comma, a record's line splits into its five fields: title and category quoted, amount, type and date bare |
| CsvExport.CommaInTitleSplits | app/settings/page.tsx:30-35 | a comma inside a title is not escaped, so the line splits into six pieces |
| CsvExport.TitleCommaSplits | app/settings/page.tsx:30-35 | for any title `a,b` with comma-free halves the line splits into six pieces, the title's halves keeping one quote each |
| Flows.AddedRecordListed | app/api/transactions/route.ts:33-39 | a record added with a date in the current year appears in the default listing |
| Flows.DeletedRecordNotListed | lib/actions.ts:148-153 | after a successful delete the record is in no listing of its owner |
| Flows.NothingListedAfterDeleteAll | lib/actions.ts:177-179 | after delete-all every listing of the caller is empty |
| Flows.DashboardSeesCurrentYear | app/page.tsx:28-64 | the dashboard, fetching the listing without parameters, reports transactions exactly when the caller has a record dated in the current year |

## Left out

- Timezones and times of day: the year window runs from UTC midnight of January 1 to UTC midnight of December 31, and the `date` day is bounded in server-local time. Stored dates are whole calendar days here, so a record stored later than midnight on December 31, which the source leaves out of the year, is not modelled.
- Host date parsing: `new Date(text)` accepts more forms than `YYYY-MM-DD` (and may roll an impossible day over). The read endpoint's `date` parameter and the shared schema's date are read strictly as `YYYY-MM-DD`. The looser insert paths take the host parser as the parameter `parseDate`.
- Floating-point amounts: amounts are integers in cents. The schema's `z.coerce.number()` and the update form's `parseFloat` are abstracted to an optional integer (`None` for NaN).
- Missing form fields: the schema's "Required" and "Expected string, received null" issues are not modelled, since every field is a string here.
- Schema messages: every field-error message is the default wording of zod 3 ("Expected number, received nan", "Invalid enum value. Expected …, received …"). Later zod versions word them differently, and the library version is not part of this model.
- Datastore messages: a datastore failure is one `StoreError`; the text it carries is not modelled. The read endpoint's 500 answer is modelled only for a `date` that names no day.
- Ordering of rows on the same day: the datastore leaves it unspecified. The model fixes one order and promises only "newest day first" and the same rows.
- URL parameters are one value per key (a map). Repeated keys and the parameter order of `URLSearchParams` are not modelled.
- Object key order: JavaScript enumerates array-index-like keys ("7", "2024") first in numeric order, and `acc[name] || 0` reads inherited properties such as "constructor". Category names and month labels are assumed to be neither.
- Case: lower-casing and the case-insensitive title search are ASCII-only; Unicode case folding is not modelled.
- Locale formatting (month labels, currency, dates in the table and in the CSV, the amount's number-to-text) is a parameter of the functions that use it.
- History.Normalise: the JSON `date` and `createdAt` strings are taken as already decoded. An unreadable timestamp, which the page would turn into an Invalid Date, is not modelled.
- History.MonthYear: month labels and the day text assume the browser runs in UTC. The page formats the stored UTC-midnight instant in the browser's own zone (app/transactions/page.tsx:39, 48), so west of UTC a record dated 2024-05-01 is filed under April 2024 and shown as April 30. History.SharedMonthBucket and History.DateText hold only under this calendar-day reading.
- History.GroupTransactionsByMonth: the month label is an arbitrary function. The "same bucket iff same month" lemma assumes it names each month of each year differently and never reads "Unknown".
- Filters.HandleDateSelect: the picked day must be a real day with a year from 1 to 9999, and Filters.PickedDayListed inherits this. The date picker produces nothing else. `format` writes a longer year differently, and it writes year 0 as the era year 0001, which the endpoint would read as a different day; years before 1 are excluded for that reason.
- Side effects: navigation (`router.replace`, `router.push`), search debouncing, cache revalidation, `fetch`, the blob download, loading state and every React component are presentation and plumbing.
- The year select displays the client's current year, not the chosen one. This is presentation only.
- YearSelector.FirstOptionRejected: the browser's clock year, from which the select counts down, is taken to equal the server's `currentYear`. Around New Year the two can differ across time zones. A browser still in the old year, talking to a server already in the new one, offers the server's year first, and the endpoint honours it.
- Other files: `middleware.ts` (route matching by the auth library), `lib/api-client.ts` (base URL and timeout), `lib/supabase.ts` (environment checks), `providers/PreferencesProvider.tsx` (stored preferences) and `lib/translations.ts` (string tables) are not part of this model.
- Authentication is an optional user id; the identity provider is not modelled.

## Findings

| source | as written | input that shows it | evidently intended | confidence | as-written member | corrected member |
|---|---|---|---|---|---|---|
| components/transactions/year-selector.tsx:21 | the offered years start at `endYear = clock year + 1` | browser and server clock year 2025: choosing the first option, 2026, sends `year=2026`, which the read endpoint rejects as later than 2025, so it lists 2025 | offer the years the endpoint honours, from the current year down to 2023 | not executed | YearSelector.FirstOptionRejected | YearSelector.CorrectedOptionsAccepted |
