# travel-dashboard: a Dafny model of the trip pipeline

This project models the core of the travel-dashboard application in Dafny. That core covers:

- the retrying data-access layer for trips;
- the trip-creation endpoint, which calls a generative model, enriches the trip with
  Unsplash images and writes one Appwrite document;
- the admin trips loader (pagination, a race against a 50-second timer, and the mapping of
  documents to view records);
- the string and number helpers of `app/lib/utils.ts`;
- the dashboard aggregations;
- the client loaders of the admin layout and of the public page layout.

External services are modelled as inputs. Gemini, Unsplash, Appwrite, the account service,
`JSON.parse`, `JSON.stringify` and the clock all appear this way:

- A retried operation is a function from the attempt number to that attempt's outcome.
- `JSON.parse` is an oracle `string -> Option<Json>`.
- The race is the value of whichever side settles first.
- The creation endpoint returns a trace of the calls it makes. This lets its contract say
  that at most one document is written, and only after every gate has passed.

JavaScript semantics that affect results are written out:

- truthiness of JSON values;
- `typeof x === 'object'`;
- optional chaining;
- `e instanceof Error ? e.message : …`;
- object spread, with later keys overriding earlier ones;
- `??`;
- lexicographic `<=` on strings.

Modules, one per source file:

- `Js`: shared JSON values, truthiness and thrown values.
- `Sequences`: subsequence and distinctness predicates.
- `Trips`: `app/appwrite/trips.ts`.
- `CreateTrip`: `app/routes/api/create-trip.ts`.
- `TripsLoader`: `app/routes/admin/trips.tsx`.
- `Utils`: `app/lib/utils.ts`.
- `Dashboard`: `app/appwrite/dashboard.ts`.
- `AdminLayout`: `app/routes/admin/admin-layout.tsx`.
- `PageLayout`: `app/routes/root/page-layout.tsx`.

Four behaviours of the code worth noting:

- An exhausted retry rethrows the last recorded error as it is. With `maxRetries <= 0` no
  attempt is made and the code throws `null`.
- The structure gate accepts an empty `itinerary` array, because `[]` is truthy. It rejects
  an empty `name`.
- The 50-second timeout is raced in the admin trips loader, around `getAllTrips`. A timeout
  gives no trips, a zero total and the error message `Request timeout after 50s`.
- The comment in `retryOperation` calls the backoff exponential. The delays are
  `delayMs * attempt`, which is linear (`Trips.BackoffTotal`).

## Model

| member | source | states |
|---|---|---|
| `Trips.Recorded` | app/appwrite/trips.ts:18 | the recorded error is always an Error; an Error is kept as it is, anything else becomes `Error('Unknown error')` |
| `Trips.Backoff` | app/appwrite/trips.ts:22-24 | the k-th wait is `delayMs * k` |
| `Trips.BackoffTotal` | app/appwrite/trips.ts:22-24 | after n failed attempts the total wait is `delayMs * n * (n + 1) / 2`, a linear and not an exponential backoff |
| `Trips.RetryOperation` | app/appwrite/trips.ts:7-29 | at most `maxRetries` calls; every call before the last failed; it resolves iff the last call succeeded, with that value; on rejection every attempt was used and the error is the recorded error of the last attempt (null only with no attempts); the waits are `delayMs * 1 … delayMs * (calls - 1)` |
| `Trips.GetAllTrips` | app/appwrite/trips.ts:39-66 | three attempts with a one-second base delay on the query ordered by `createdAt`; exhaustion or a zero total gives `{[], 0}`; otherwise documents and total pass through; it never throws |
| `Trips.GetTripById` | app/appwrite/trips.ts:74-97 | three attempts; the result is the document iff an attempt succeeded with a truthy `$id`, otherwise null |
| `CreateTrip.CompleteTripIff` | app/routes/api/create-trip.ts:128-131 | the structure gate holds iff the value is an object with truthy `name` and `itinerary`; an empty name fails it, an empty itinerary array passes it |
| `CreateTrip.RegularUrls` | app/routes/api/create-trip.ts:198-201 | the map/filter throws iff a null result is among them; otherwise the URLs kept are exactly the truthy `urls?.regular` values, in order |
| `CreateTrip.SelectImageUrls` | app/routes/api/create-trip.ts:195-206 | without a non-empty `results` array nothing is selected; with one, a null among the first three results (the projection throws) selects nothing, and otherwise exactly the truthy `urls?.regular` values of the first three results are selected, in order; never more than three |
| `CreateTrip.ImageUrls` | app/routes/api/create-trip.ts:136-216 | no key, a request error, a timeout, a non-200 status or an unparseable body all give `[]`; otherwise the selected URLs; the step never fails the action |
| `CreateTrip.PrefixWriteCounts` | app/routes/api/create-trip.ts:220-230 | proof helper: the traces the action can leave contain one write exactly when they end with it |
| `CreateTrip.Action` | app/routes/api/create-trip.ts:19-260 | a missing Gemini key throws the plain 500 before any call; a model failure, unparseable text or an incomplete trip gives the JSON 500 with its message and no write; at most one write, made iff every gate passed, as the last effect and after the image search when a key is set, with the stringified trip, the timestamp, the image URLs and the user id; the response is the new id iff the write succeeded |
| `TripsLoader.Offset` | app/routes/admin/trips.tsx:16-19 | the offset is a multiple of 8 from which the page number is read back; a missing page starts at 0 |
| `TripsLoader.ToRecord` | app/routes/admin/trips.tsx:34-38 | the record's keys are `id`, `imageUrls` and the spread detail's keys; `imageUrls` is the document's (or `[]`), `id` is the detail's own `id` if it has one and otherwise `$id`; an unparseable detail leaves only `id` and `imageUrls` |
| `TripsLoader.Records` | app/routes/admin/trips.tsx:34-38 | one record per document, in order |
| `TripsLoader.Loader` | app/routes/admin/trips.tsx:14-52 | the page is fetched with limit 8 and its offset; a won timer gives no trips, total 0 and the timeout message; otherwise the documents' records, the total and no error |
| `Utils.TrimStart` | app/lib/utils.ts:77 | the result is a suffix of the input, only whitespace was dropped, and it starts with no whitespace |
| `Utils.TrimEnd` | app/lib/utils.ts:77 | the result is a prefix of the input, only whitespace was dropped, and it ends with no whitespace |
| `Utils.LeadingWord` | app/lib/utils.ts:77 | the result is the prefix before the first whitespace character |
| `Utils.TrimEmptyIffAllSpace` | app/lib/utils.ts:77 | trimming gives "" iff the input is all whitespace |
| `Utils.GetFirstWord` | app/lib/utils.ts:76-78 | the first word is the prefix of the trimmed input up to its first whitespace, and is empty iff the input is all whitespace |
| `Utils.SpaceBeforeCapitalsShape` | app/lib/utils.ts:118 | one space is added per capital, and every capital of the result follows a space |
| `Utils.SpaceBeforeCapitalsStart` | app/lib/utils.ts:118 | a capital is never the first character of the spaced text |
| `Utils.SpaceBeforeCapitalsRoundTrip` | app/lib/utils.ts:118 | removing the inserted spaces gives the key back |
| `Utils.SpaceBeforeCapitalsAppend` | app/lib/utils.ts:118 | spacing distributes over concatenation |
| `Utils.NoCapitalsUnchanged` | app/lib/utils.ts:118 | a text without capitals is left unchanged |
| `Utils.LowerStartRecovered` | app/lib/utils.ts:117-119 | for a key with a lower-case start, the result starts with that letter in upper case, and removing the spaces gives the key with its first letter upper-cased |
| `Utils.UpperFirstRecovered` | app/lib/utils.ts:117-119 | for every key, removing the inserted spaces from the result gives the key with its first character upper-cased |
| `Utils.FormatKey` | app/lib/utils.ts:116-120 | the length grows by the number of capitals; every capital after the first position follows a space; removing the inserted spaces gives the key with its first character upper-cased; a lower-case start is upper-cased; an upper-case start gives a leading space |
| `Utils.CalculateTrendPercentage` | app/lib/utils.ts:87-107 | the percentage is never negative; a zero last month gives no change/0 or increment/100; otherwise the trend follows the sign of the change, the percentage is abs(change)/abs(last)*100, and equal counts give no change/0 |
| `Utils.TrendReconstructs` | app/lib/utils.ts:97-106 | with a non-zero last month, this month equals last month plus the signed percentage of abs(last month) |
| `Utils.FindFrom` | app/lib/utils.ts:35-36 | the leftmost occurrence at or after the start position, or none |
| `Utils.FenceBodyIsLeftmostLazyMatch` | app/lib/utils.ts:35-38 | a fenced body exists iff the regular expression matches, and then it is the body of the leftmost match, closed by its nearest closing fence |
| `Utils.ParseTripData` | app/lib/utils.ts:56-67 | null when the string does not parse, otherwise the parsed value |
| `Utils.ParseMarkdownToJson` | app/lib/utils.ts:34-48 | null when there is no fenced JSON block or its body does not parse; otherwise the parsed body, which is what parseTripData gives for the body |
| `Dashboard.StrLeTotal` | app/appwrite/dashboard.ts:48 | the string order compares any two strings |
| `Dashboard.StrLeTransitive` | app/appwrite/dashboard.ts:48 | the string order is transitive |
| `Dashboard.StrLeAntisymmetric` | app/appwrite/dashboard.ts:48 | the string order is antisymmetric |
| `Dashboard.FilterByDate` | app/appwrite/dashboard.ts:46-50 | the count is at most the number of items, and equals it iff every item is in range, where an empty end means no end |
| `Dashboard.EndBoundNarrows` | app/appwrite/dashboard.ts:46-50 | adding an end bound never raises the count |
| `Dashboard.LaterStartNarrows` | app/appwrite/dashboard.ts:46-50 | a later start never raises the count |
| `Dashboard.SubsequenceCountsLess` | app/appwrite/dashboard.ts:46-50 | counting over a selection of the items never gives more |
| `Dashboard.FilterUsersByRole` | app/appwrite/dashboard.ts:53-55 | exactly the users with that status, in their original order, each as often as it occurs (the length is the number of such documents) |
| `Dashboard.UserCounts` | app/appwrite/dashboard.ts:59-88 | the users joined this month (from the start of the month, no end) and last month (from its start to its end), the number of `user`-status documents and the same two counts over them; the role counts never exceed the counts over all users |
| `Dashboard.UsersAndTripsStatsAsWritten` | app/appwrite/dashboard.ts:58-104 | totals pass through; `usersJoined` counts all users joined this month and last month; `userRole.total` is the number of `user`-status documents and its month counts count them; `tripsCreated.currentMonth` counts the trips created this month; `tripsCreated.lastMonth` equals `userRole.lastMonth` |
| `Dashboard.UsersAndTripsStats` | app/appwrite/dashboard.ts:58-104 | the same stats, except that `tripsCreated.lastMonth` counts the trips created in the previous month |
| `Dashboard.TripsLastMonthCountsUsers` | app/appwrite/dashboard.ts:97-101 | one `user` who joined last month and no trips: the stats as written report one trip last month, the corrected stats report none |
| `Dashboard.MidOctoberInRange` | app/appwrite/dashboard.ts:48 | proof helper: the date of the counterexample lies in the previous month's range |
| `Dashboard.Entries` | app/appwrite/dashboard.ts:132-135 | proof helper: one entry per key |
| `Dashboard.EntriesShape` | app/appwrite/dashboard.ts:132-135 | proof helper: entry i is key i with its count |
| `Dashboard.SumUnchanged` | app/appwrite/dashboard.ts:132-135 | proof helper: the sum of the entries depends only on the counts of the listed keys |
| `Dashboard.SumBump` | app/appwrite/dashboard.ts:126 | proof helper: adding one to a listed key's count adds one to the sum |
| `Dashboard.TallyStep` | app/appwrite/dashboard.ts:119-130 | proof helper: one more document updates the accumulator and its key order as the reducer does |
| `Dashboard.TallyKeys` | app/appwrite/dashboard.ts:119-135 | the entry keys are the accumulator's keys, in insertion order, without repetition |
| `Dashboard.TallyCounts` | app/appwrite/dashboard.ts:119-130 | a key is present iff some document has it, and its count is the number of such documents |
| `Dashboard.TallySum` | app/appwrite/dashboard.ts:119-135 | the counts add up to the number of documents that have a key |
| `Dashboard.Reduce` | app/appwrite/dashboard.ts:119-130 | the for-loop's accumulator equals `Tally` and its key order equals `KeyOrder` of the documents |
| `Dashboard.CountByKey` | app/appwrite/dashboard.ts:119-135 | one entry per distinct key, in insertion order, whose count is that key's number of documents (at least one); every key that occurs is listed and every listed key occurs; the counts add up to the keyed documents |
| `Dashboard.AllKeyed` | app/appwrite/dashboard.ts:121-126 | proof helper: when every document has a key, all of them are counted |
| `Dashboard.OccursCounted` | app/appwrite/dashboard.ts:121-126 | proof helper: a document's key occurs at least once |
| `Dashboard.GetUserGrowthPerDay` | app/appwrite/dashboard.ts:113-136 | one entry per distinct day, in first-seen order; each count is the number of users on that day (at least one); exactly the users' days are listed; the counts add up to the number of users |
| `Dashboard.GetTripsCreatedPerDay` | app/appwrite/dashboard.ts:144-167 | one entry per distinct day, in first-seen order; each count is the number of trips on that day (at least one); exactly the trips' days are listed; the counts add up to the number of trips |
| `Dashboard.TravelStyleKey` | app/appwrite/dashboard.ts:183-187 | a trip is counted iff its detail parses to an object with a truthy `travelStyle`; a string style is its own key |
| `Dashboard.HistogramOrder` | app/appwrite/dashboard.ts:119-135 | the entries after the reduce follow the insertion order of the keys, have distinct keys and count each key's documents |
| `Dashboard.HistogramCoverage` | app/appwrite/dashboard.ts:119-135 | the entries after the reduce list exactly the keys that occur |
| `Dashboard.KeyOrderWitnessed` | app/appwrite/dashboard.ts:119-130 | proof helper: every key in the accumulator is some document's key |
| `Dashboard.OccurrenceWitness` | app/appwrite/dashboard.ts:119-130 | proof helper: a key that occurs is some document's key |
| `Dashboard.StyledTripsSplit` | app/appwrite/dashboard.ts:181-192 | proof helper: the styled-trip count splits off the last trip |
| `Dashboard.StyledIsKeyed` | app/appwrite/dashboard.ts:183-188 | the trips counted are exactly those whose detail has a truthy travel style |
| `Dashboard.GetTripsByTravelStyle` | app/appwrite/dashboard.ts:175-198 | one entry per distinct style, in first-seen order; each count is the number of trips with that style (at least one); exactly the styles that occur are listed; the counts add up to the number of trips with a truthy style (styles named after `Object.prototype` members behave differently in the source, see Left out) |
| `Sequences.SubsequenceLength` | app/appwrite/dashboard.ts:54 | proof helper: a subsequence is never longer than its sequence |
| `AdminLayout.ClientLoader` | app/routes/admin/admin-layout.tsx:20-42 | a failed or missing account, or a thrown lookup, sends to sign in; a signed-in `user`-status account is sent to `/`; a record with an id and another status is admitted as itself; an account with no record, or with a record without id and not `user`, is admitted when storing returns and sent to sign in when it throws; only `/sign-in` and `/` are redirect targets |
| `AdminLayout.NonUserRecordAdmitted` | app/routes/admin/admin-layout.tsx:32-37 | a stored record with an id and a status other than `user` is admitted as itself |
| `PageLayout.ClientLoader` | app/routes/root/page-layout.tsx:18-40 | sign in without an account; home for `user`, dashboard for `admin`, no redirect for a missing record or another status; only these three paths |
| `PageLayout.LayoutsAgree` | app/routes/root/page-layout.tsx:29-35 | both layouts send the same accounts home; the public layout's sign-in redirects are the admin layout's too; its dashboard redirects are stored admins, whom the admin layout admits when they have an id |

## Left out

- The Gemini request (the model name, the generation settings and the prompt text) is not
  modelled. The action sees only the text returned or a throw.
- Network transport is not modelled: the Unsplash `https.get` with its chunk
  accumulation, and the Appwrite client calls. Each is an input value describing how it ended.
- `JSON.parse` and `JSON.stringify` are oracle parameters, not implementations.
- Timers and real waiting are not modelled. `RetryOperation` returns the list of waits it
  would sleep. The loader's race is an input saying which side settled first.
- `request.json()` failing, and the `parseInt` leniency on the page parameter (such as `NaN`
  for a non-number), are not modelled. The loader receives the page number already parsed.
- The month bounds of getUsersAndTripsStats are inputs; computing them from `new Date()`
  is not modelled. As written, the end of the previous month is midnight at the start of
  its last day, not 23:59:59 as the comment says. A model over bounds given as inputs
  cannot express that.
- `toLocaleDateString` is not modelled; the day key is a function parameter. Turning a
  non-string travel style into a key is a parameter too.
- String order is taken by code point, not by UTF-16 code unit. Only ASCII letters are
  treated as capitals or upper-cased. Unicode case mapping is outside the model.
- Dashboard.GetTripsByTravelStyle: its exact counts treat the accumulator as a plain
  dictionary. In the source the accumulator `{}` inherits the members of `Object.prototype`.
  A style named after one of them (`constructor`, `toString`, `valueOf`,
  `hasOwnProperty`, …) starts from the inherited function and ends with `count: NaN`. A
  style of `__proto__` goes through the prototype setter and gives no entry. The model
  counts such styles like any other style. The day keys of the other two counters cannot
  take these names.
- Object key order is only partly modelled. `Object.entries` lists integer-like keys first,
  and the counters' entries do not model that. Maps in spread records are unordered.
- `Dashboard.GetUserGrowthPerDay`, `Dashboard.GetTripsCreatedPerDay` and `Dashboard.GetTripsByTravelStyle`
  take the already-listed documents. The `listDocuments` call, with its default page size,
  is outside the model.
- The layouts' `storeUserData` lives in `app/appwrite/auth.ts`, which is not part of this
  model. Only whether it threw is used.
- Also not part of this model:
  - `cn` and `formatDate` in `app/lib/utils.ts` (class names and dayjs formatting);
  - the React components;
  - `app/appwrite/auth.ts`, the sign-in route and `app/routes.ts`;
  - all console logging.

## Findings

| source | as written | input that shows it | evidently intended | confidence | as-written member | corrected member |
|---|---|---|---|---|---|---|
| app/appwrite/dashboard.ts:97-101 | `tripsCreated.lastMonth` counts `user`-role users who joined in the previous month | one user with status `user` who joined 2025-10-15, no trips, previous month 2025-10-01 to 2025-10-31: one trip is reported for last month | the number of trips created in the previous month, as `tripsCreated.currentMonth` counts trips | not executed | `Dashboard.UsersAndTripsStatsAsWritten`, `Dashboard.TripsLastMonthCountsUsers` | `Dashboard.UsersAndTripsStats` |
