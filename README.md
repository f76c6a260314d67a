# Onboarding dashboard date helpers and demo plugin queries, in Dafny

This project models the two parts of the onboarding-stories repository that
compute something:

- **Date status helpers** (`svelte-frontend/src/utils/dateUtils.ts`). These count the
  whole days between a date and "now" and turn the count into the status lines the
  admin dashboard shows. The count is rounded up for due and nudge dates and rounded
  down for connection dates. The lines are "Due in N days", "NOTIFYING TOMORROW",
  "N days connected" and so on. Two predicates, *due soon* and *overdue*, classify
  the same count.
- **Query resolvers of the demo GraphQL server** (`scripts/demo-server.js`). There are
  four read queries over the plugin list. `plugins` filters by category and by the
  enabled flag. `plugin` and `pluginBySlug` find the first plugin with a given id or
  slug. `variant` finds the first variant with a given id, plugin by plugin.

Files:

- `wrappers.dfy`: `Option`, which stands for `undefined`/`null` results.
- `decimal.dfy`: how `${n}` writes an integer, and a reader that inverts it.
- `date_utils.dfy`: the day offsets, the three formatters and the two predicates.
  It also holds readers that invert each formatter.
- `connectors.dfy`: the plugin, variant, form-field and test-config shapes.
- `seq_search.dfy`: `filter` and `find` over sequences, and the subsequence relation.
- `resolvers.dfy`: the four resolvers.

Modelling choices:

- Every date, "now" included, is an integer instant in epoch milliseconds. The caller
  passes it in. Each formatter takes the date and "now", as the source's formatters
  compute the day count themselves.
- `Math.ceil(diff / 86400000)` and `Math.floor(...)` are exact integer ceiling and
  floor. `GetDaysRemaining` and `GetDaysSince` state this as the defining bracket
  (`(d-1)·day < diff <= d·day`, `d·day <= diff < (d+1)·day`).
- JavaScript's `Math.ceil` gives `-0` for a date less than a day past. `-0 === 0` holds
  and `-0 < 0` does not, so the source says "Due today" there. The integer model gives
  `0` and the same line.
- A GraphQL argument is `Arg<T>`: `Omitted` (undefined), `Null` or `Given(v)`.
  `if (category)` filters only for a non-empty string. `enabled !== undefined` is true
  for an explicit `null`. The filter `p.enabled === null` then keeps no plugin, so
  `Plugins` returns `[]` for that case.
- The plugin list is a parameter of every resolver, not the fixed demo fixture.
- The plugin shape follows the objects the demo server serves. They carry `category`
  and none of the frontend-only status fields (`prioritized`, `priorityDueDate`,
  `nextNudgeDate`, `connected`, `connectedDate`, …) that
  `svelte-frontend/src/types/index.ts` adds to its `Connector`. The variant, form-field
  and test-config shapes follow `svelte-frontend/src/types/index.ts`. `label` and
  `method` are Dafny keywords, so those fields are named `labelText` and `testMethod`.

## Model

| member | source | states |
|---|---|---|
| `DateUtils.GetDaysRemaining` | svelte-frontend/src/utils/dateUtils.ts:1-7 | the result is the ceiling of (due − now) / 86 400 000: `(d−1)·day < due−now <= d·day` |
| `DateUtils.GetDaysSince` | svelte-frontend/src/utils/dateUtils.ts:9-15 | the result is the floor of (now − start) / 86 400 000: `d·day <= now−start < (d+1)·day` |
| `DateUtils.PartialDayAheadIsOneDay` | svelte-frontend/src/utils/dateUtils.ts:5 | a due instant in the future but at most one day ahead gives 1 day remaining |
| `DateUtils.ExactDaysRemaining` | svelte-frontend/src/utils/dateUtils.ts:4-5 | a due instant exactly k days from now (k of any sign) gives exactly k |
| `DateUtils.PartialDayBehindIsZeroDays` | svelte-frontend/src/utils/dateUtils.ts:13 | a start less than one day in the past gives 0 days since |
| `DateUtils.ExactDaysSince` | svelte-frontend/src/utils/dateUtils.ts:12-13 | a start exactly k days ago gives exactly k |
| `DateUtils.RemainingIsMinusSince` | svelte-frontend/src/utils/dateUtils.ts:1-15 | for the same date and now, days remaining is minus days since (ceil(x) = −floor(−x)) |
| `DateUtils.FormatDaysRemaining` | svelte-frontend/src/utils/dateUtils.ts:17-29 | the due line never contains a minus sign; it is "Due today" exactly for 0 days and "Due tomorrow" exactly for 1 |
| `DateUtils.DaysRemainingRoundTrip` | svelte-frontend/src/utils/dateUtils.ts:17-29 | reading the due line back gives the day count, overdue counts included, so no two counts share a line |
| `DateUtils.DueLineExamples` | svelte-frontend/src/utils/dateUtils.ts:17-29 | four days ahead reads "Due in 4 days", now reads "Due today", one day late reads "1 days overdue" |
| `DateUtils.FormatDaysConnected` | svelte-frontend/src/utils/dateUtils.ts:31-41 | "Connected today" exactly for 0 days, "1 day connected" exactly for 1; the line has a minus sign exactly when the count is negative (no clamping) |
| `DateUtils.DaysConnectedRoundTrip` | svelte-frontend/src/utils/dateUtils.ts:31-41 | reading the connection line back gives the day count, negative counts included |
| `DateUtils.ConnectedLineExamples` | svelte-frontend/src/utils/dateUtils.ts:31-41 | one day ago reads "1 day connected"; one day in the future reads "-1 days connected" |
| `DateUtils.FormatNextNudge` | svelte-frontend/src/utils/dateUtils.ts:43-55 | "OVERDUE" exactly for negative counts, "NOTIFYING TODAY" exactly for 0, "NOTIFYING TOMORROW" exactly for 1 |
| `DateUtils.NextNudgeRoundTrip` | svelte-frontend/src/utils/dateUtils.ts:43-55 | reading the nudge line back gives any non-negative count; every negative count reads as the count-free "OVERDUE" |
| `DateUtils.NudgeAndWindowExamples` | svelte-frontend/src/utils/dateUtils.ts:43-60 | nine days ahead reads "NOTIFYING IN 9 DAYS"; with the default threshold of 7, seven days ahead is due soon and eight is not |
| `DateUtils.IsDueSoon` | svelte-frontend/src/utils/dateUtils.ts:57-60 | due soon (0 <= days <= threshold, default threshold 7) holds iff −1 day < due − now <= threshold days, both ends inclusive |
| `DateUtils.IsOverdue` | svelte-frontend/src/utils/dateUtils.ts:62-64 | overdue (days < 0) holds iff at least one whole day has passed since the due instant |
| `DateUtils.Abs` | svelte-frontend/src/utils/dateUtils.ts:21 | the result is non-negative and is the count or its negation, so the overdue line carries the count's magnitude |
| `DateUtils.DueSoonExcludesOverdue` | svelte-frontend/src/utils/dateUtils.ts:57-64 | for every threshold, a date is never both due soon and overdue |
| `DateUtils.OverdueIffNudgeOverdue` | svelte-frontend/src/utils/dateUtils.ts:43-64 | a date is overdue exactly when its nudge line is "OVERDUE" |
| `DateUtils.DateStatusesCover` | svelte-frontend/src/utils/dateUtils.ts:57-64 | every date is overdue, due soon under the default threshold, or more than seven days away |
| `Decimal.NatToString` | svelte-frontend/src/utils/dateUtils.ts:21 | the numeral of a natural number is canonical (digits only, no leading zero) and denotes that number |
| `Decimal.IntToString` | svelte-frontend/src/utils/dateUtils.ts:39 | the numeral of an integer has a minus sign exactly when it is negative, and a canonical numeral after it |
| `Decimal.IntToStringRoundTrip` | svelte-frontend/src/utils/dateUtils.ts:39 | reading an integer's numeral back gives the integer |
| `Decimal.IntToStringOfParse` | svelte-frontend/src/utils/dateUtils.ts:39 | every string the reader accepts is the numeral of the integer it reads, so numerals and integers correspond one to one |
| `Decimal.NatToStringOfValue` | svelte-frontend/src/utils/dateUtils.ts:27 | a canonical numeral is exactly the rendering of the number it denotes |
| `SeqSearch.Filter` | scripts/demo-server.js:177 | the result is an order-preserving subsequence of the input, no longer than it, holding each accepted element exactly as often as the input does and no other |
| `SeqSearch.SubsequenceTransitive` | scripts/demo-server.js:176-182 | a subsequence of a subsequence is a subsequence, so two filter steps in a row keep the input order |
| `SeqSearch.SubsequenceReflexive` | scripts/demo-server.js:174 | the unfiltered list is a subsequence of itself |
| `SeqSearch.Find` | scripts/demo-server.js:188 | none exactly when no element matches; otherwise an element that matches and that no earlier element precedes as a match |
| `SeqSearch.FindAppend` | scripts/demo-server.js:196-199 | searching a concatenation finds the first part's match if it has one, and otherwise the second part's |
| `Resolvers.Plugins` | scripts/demo-server.js:173-185 | the result is an order-preserving subsequence of the list, with each plugin's multiplicity kept if it meets the category and enabled conditions and 0 otherwise; no category (or "") and no enabled argument return the list unchanged; a category keeps only and all plugins of that category; a given enabled value, false included, keeps only and all plugins with exactly that value; an explicit null enabled keeps nothing |
| `Resolvers.PluginById` | scripts/demo-server.js:187-189 | none exactly when no plugin has the id; otherwise a plugin with that id, with no earlier plugin having it |
| `Resolvers.PluginBySlug` | scripts/demo-server.js:191-193 | none exactly when no plugin has the slug; otherwise a plugin with that slug, with no earlier plugin having it |
| `Resolvers.AllVariantsMembers` | scripts/demo-server.js:196-197 | a variant is in the plugin-by-plugin list of all variants exactly when some plugin has it |
| `Resolvers.VariantById` | scripts/demo-server.js:195-201 | the plugin-by-plugin search with early return gives the first match in the concatenation of all plugins' variant lists; null exactly when no plugin has a variant with the id; a returned variant has the id and belongs to some plugin in the list |

## Left out

- Reading the clock (`new Date()`) and parsing ISO-8601 strings (`new Date(dueDate)`): every date and "now" are epoch-millisecond parameters. An unparsable or absent date, or an instant outside the range of a JavaScript `Date`, makes the source's day count NaN; every comparison with NaN is false, so the source then prints "Due in NaN days", "NaN days connected" and "NOTIFYING IN NaN DAYS" and both predicates return false. Integer-millisecond inputs cannot reach these outputs.
- Floating-point division: the day count is exact integer ceiling or floor of the millisecond difference. This matches the source for integer differences of realistic size.
- The mutation resolvers `testPluginConfig`, `createPluginConfig`, `updatePluginConfig` and `deletePluginConfig`: fixed mock answers, console logging and clock stamps, with no logic.
- The Express app, CORS, the GraphQL endpoint and its schema loading, the HTML page and `app.listen`: transport and I/O.
- The `mockPlugins` fixture: the resolvers take any plugin list.
- The schema scripts `scripts/test-schema.js` and `scripts/validate-schema.js`: wrappers around the GraphQL library's parser and the file system.
- The Svelte stores and the organization and onboarding fixture data: global framework state and static records with no logic.
- Form-field validation, required-field checks and secret masking: the repository declares the field shapes but does not implement any of these.
