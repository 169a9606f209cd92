# Heatmap core, modelled in Dafny

The heatmap is a web map of service addresses. Each address is painted with a
colour that states its service state. The server reads addresses from a
PostgreSQL table and builds one parameterised SQL query per request from the
map's filters. The browser classifies every address from its accounts and from
the optical light levels of the customer devices (CPE). It reads those light
levels through the server, which proxies an upstream optics service for each
OLT, slot and port.

This project models that core as pure functions over immutable data. It covers:

- the colour ladder of `markerColorForPoint` and its looser copy in the map
  view;
- the CPE name key and the first-match lookup of a light reading;
- the FDA and FDH filter normalisation, the query-string parameters, the OLT
  allow-list per city, the view filters and the colour tally;
- the light-level run: the browser's plan and the server's validation of each
  request, the slot-major task list, the sequential proxy loop, and the
  flattening of the irregular optics JSON into readings tagged with OLT, slot
  and port;
- the identifier guard over the configured column names and the `/points`,
  `/fda-options` and `/fdh-options` query builders. SQL text is modelled as a
  list of conditions, each carrying the numbers of the placeholders it uses;
- the map view's grouping of accounts, its CPE de-duplication with a "+N more"
  line, and its FDA/FDH display split.

Modules follow the program's structure:

- `Wrappers`, `Text`, `Json`, `Seqs` and `Env` model JavaScript's values and
  the string and array built-ins the program uses. This includes truthiness,
  `trim`, `split`/`join`, `toLowerCase`, `Number(...)` on decimal text, object
  spread, and `process.env` defaults.
- `Identifier`, `Classifier` and `ClientFilters` model `src/App.jsx`'s pure
  helpers.
- `LightLevel` models the server's light configuration and `POST /light-level`.
- `Fanout` models the browser's light run.
- `Query` models the server's guard and SQL builders.
- `MapView` models `src/components/MapView.jsx`.

A few behaviours of the code are easy to misread; the model follows the code:

- Ports are a closed range, never a parsed list. The browser asks for every
  port from `minPort` to `maxPort` (src/App.jsx:470-473, `Fanout.PortRange`).
  The server checks each port against the same two bounds (server.js:341-348,
  `LightLevel.CheckPorts`).
- The low-light scan stops at the first matched reading that is numeric and at
  or below -24.9 dBm (src/App.jsx:91-103). `Classifier.ScanLightSpec` shows
  that the scan finds a low reading exactly when some account has such a
  reading, so the order of the accounts does not change the outcome.
- Once readings are loaded, an address is red when no account has a matched
  reading with an `rx-power` field. That covers both an address whose CPEs
  match nothing and one whose matches carry no `rx-power` (src/App.jsx:94-95
  and 126-127, `Classifier.Classify`, Red case).
- The map view's own ladder, used when no classifier is passed in, has no
  inactive rule and no "completed without status" rule. Its threshold is
  -22.9 dBm instead of -24.9 dBm (src/components/MapView.jsx:55-91,
  `MapView.FallbackColorAt`).

## Model

| member | source | states |
|---|---|---|
| Env.EnvOr | server.js:13-33 | A destructuring default applies only when the variable is unset; a variable set to the empty string keeps the empty value |
| Identifier.NormalizeCpeName | src/App.jsx:69-74 | A blank value has the empty key. Otherwise the key is a prefix of the lower-cased, trimmed text, ending just before its first `_`. It is the whole text when that text has no `_` or starts with one, and strictly shorter when the text holds an `_` but does not start with one. The key is empty exactly when the trimmed text is |
| Identifier.SuffixIgnored | src/App.jsx:68-74 | For a trimmed, `_`-free, non-empty name, appending `_` and any suffix leaves the key unchanged: the key is the lower-cased name either way |
| Identifier.KeyExample | src/App.jsx:68-74 | The name `ABC_1` has the key `abc` |
| Identifier.FindLightMatch | src/App.jsx:76-85 | An empty CPE key matches nothing. A result has the CPE's key and sits at some index with no matching reading before it. No result means no reading matches |
| Identifier.FirstMatchStable | src/App.jsx:76-85 | Appending readings never changes a match already found: the earliest reading wins |
| Classifier.HexInjective | src/App.jsx:125-131 | The seven colour strings are pairwise distinct, so comparing strings compares colours |
| Classifier.ScanLightSpec | src/App.jsx:91-103 | The early-exit account loop finds a reading exactly when some account has a matched reading with `rx-power`. It finds a low reading exactly when some account's reading is numeric and at or below the threshold |
| Classifier.Classify | src/App.jsx:87-131 | An exact condition for each of the seven colours, in terms of any-account predicates. Inactive beats suspended, which beats an incomplete drop, which beats a completed drop without status; only then do readings decide red, yellow or green |
| Classifier.ReadingsCannotOverride | src/App.jsx:122-125 | Once an address is black, purple, gray or blue, no set of readings changes its colour |
| Classifier.InactiveWins | src/App.jsx:104-110 | Adding an inactive account makes any address black |
| Classifier.LowerThresholdFewerLow | src/App.jsx:97-99 | An address that is yellow at a threshold stays yellow at any higher threshold |
| ClientFilters.AllowedOltsByCity | src/App.jsx:133-139 | Missing OLTs give []. Otherwise the result is a subsequence of the input. For the three named cities it is exactly the OLTs with that city's `DFWn-` prefix, each as many times as the input holds it; for any other city it is the whole input |
| ClientFilters.NormalizeFda | src/App.jsx:141-153 | Blank gives "". One to three digits, bare or after a case-insensitive `FDA:`, give the canonical `FDA:` plus three zero-padded digits of the same value. Anything else comes back trimmed |
| ClientFilters.NormalizeFdh | src/App.jsx:155-167 | The same for FDH. The prefix colon is optional and spaces may follow it |
| ClientFilters.CanonicalOfCode | src/App.jsx:145-150 | A tag, a colon and a one-to-three-digit code padded to three digits form a canonical code whose number is the code's value |
| ClientFilters.NormalizeFdaCanonical | src/App.jsx:141-153 | A canonical FDA code is a fixed point |
| ClientFilters.NormalizeFdhCanonical | src/App.jsx:155-167 | A canonical FDH code is a fixed point |
| ClientFilters.NormalizeFdaIdempotent | src/App.jsx:141-153 | Normalising an FDA value twice equals normalising it once |
| ClientFilters.NormalizeFdhIdempotent | src/App.jsx:155-167 | Normalising an FDH value twice equals normalising it once |
| ClientFilters.BuildParams | src/App.jsx:178-201 | Keys come in the order city, fda, fdh, drop, status, and every value is non-empty. There is one city, the trimmed city, exactly when that is non-empty, and one drop, the choice itself, exactly when it is neither "" nor "any". The fda, fdh and status values are the normalised, non-empty inputs in input order |
| ClientFilters.NormalizeAllIdempotent | src/App.jsx:178-188 | For an idempotent normaliser, normalising and filtering a list a second time changes nothing |
| ClientFilters.BuildParamsClean | src/App.jsx:178-188 | Comma-free selections give normalised lists whose items are non-empty, trimmed and comma-free |
| Query.BuildParamsReceived | src/App.jsx:178-201 | Round trip to the server: what `/points` reads from the parameters `buildUrl` sends is the trimmed city, the normalised FDA, FDH and status lists in order, and the drop choice |
| ClientFilters.BuildParamsPrenormalized | src/App.jsx:235-240 | The normalisation in `fetchPoints` followed by the one in `buildUrl` gives the same URL parameters as `buildUrl` alone |
| ClientFilters.FilteredPoints | src/App.jsx:400-437 | The kept points are a subsequence of the input. A point is kept exactly when it passes the ONT, OLT and colour filters together |
| ClientFilters.FilteredPointsCount | src/App.jsx:400-437 | Every copy of a kept point stays and every copy of another point goes, so the list is as long as the number of input points the filters accept |
| ClientFilters.NoFiltersKeepsAll | src/App.jsx:400-437 | Empty ONT and OLT filters and colour "all" keep every point, in order |
| ClientFilters.ColourChoiceShowsThatColour | src/App.jsx:428-436 | A colour choice that selects a colour's string keeps only points the classifier paints that colour |
| ClientFilters.KeptPowerMatches | src/App.jsx:428-436 | Every kept point passes the colour choice: either the choice selects no colour or the point's colour string is the selected one |
| ClientFilters.ChoiceSelects | src/App.jsx:429-435 | Each of the seven colour choices selects the string of the colour it is named after |
| ClientFilters.Bump | src/App.jsx:608-617 | Counting one address raises that colour's count by one, leaves the other counts alone, and raises the total by one |
| ClientFilters.BumpByHexIsBump | src/App.jsx:608-617 | The counter's chain of string comparisons counts the colour the string names |
| ClientFilters.TallyTotal | src/App.jsx:598-618 | The counts add up to the number of addresses |
| ClientFilters.TallyCounts | src/App.jsx:598-618 | Each colour's count is the number of addresses of that colour |
| ClientFilters.MarkerCounts | src/App.jsx:598-618 | The counts over the filtered points are their colour occurrences, and the counts sum to the number of points |
| LightLevel.NumberOr | server.js:316-317 | A numeric, non-zero variable gives its value; anything else gives the fallback; a non-zero fallback gives a non-zero result |
| Text.CommaList | server.js:101 | `split(",").map(trim).filter(Boolean)`: the result is the trimmed comma pieces with the blank ones dropped, in order, and every item is non-empty, trimmed and comma-free |
| Text.TrimmedNonEmptyIsFilter | server.js:101 | The recursive reading equals trimming every piece and then filtering out the blank ones |
| Text.CommaListItems | server.js:101 | A text is an item exactly when it is non-blank and is the trimmed form of some piece between commas; the items keep the order of the pieces |
| Text.CommaListPadded | server.js:101 | Comma-free pieces that trim to clean items read back as exactly those items, whatever white space surrounds them |
| Text.CommaListSpaced | server.js:101 | `"a, b"` reads as `a` and `b`: the space after the comma is dropped and neither item is lost |
| LightLevel.ParseLightConfig | server.js:306-318 | The OLT and slot lists are the comma pieces of their variables (OLTs default to empty, slots to `LT1,LT2`), trimmed, with blank ones dropped, in order. Every item is therefore non-empty, trimmed and comma-free, and both port bounds are non-zero |
| LightLevel.DefaultLightConfig | server.js:26-31 | With nothing set the configuration is the documented default: IP 172.30.36.146, no OLT list, slots LT1 and LT2, ports 1 to 16 |
| LightLevel.AllowListRoundTrip | server.js:312-315 | A list of clean slot names written as a comma-joined variable parses back to that list |
| LightLevel.CheckPorts | server.js:341-348 | Accepted exactly when every port is a number within the bounds, and then the accepted ports are the request's ports as numbers, in order. A rejection names the first port that is not a number or lies outside the bounds |
| LightLevel.Validate | server.js:324-348 | The corrected check. An exact condition for each error: a missing field; an OLT not allowed; some slot not allowed, reported as the first such slot, falsy or not; the first port out of range. On acceptance, the request's OLT and slot list and its ports as numbers |
| LightLevel.ValidateAsWritten | server.js:324-348 | The shipped check, with the same exact conditions except the slot test: it rejects exactly when the first disallowed slot is truthy, and names that slot. On acceptance, the request's OLT and slot list and its ports as numbers |
| LightLevel.AsWrittenAcceptsMore | server.js:335-340 | Whatever the corrected check accepts, the shipped check accepts identically, and whatever the shipped check rejects, the corrected check rejects too |
| LightLevel.AsWrittenAgrees | server.js:335-340 | When every slot is truthy, the shipped check and the corrected check agree |
| LightLevel.SlotBypass | server.js:335-340 | A falsy first disallowed slot lets a later disallowed slot through the shipped check, while the corrected check rejects the request |
| LightLevel.TasksLength | server.js:350-355 | There are slots × ports tasks |
| LightLevel.TaskAt | server.js:350-355 | Task i·|ports|+j is slot i with port j (slot-major order) |
| LightLevel.RunTasks | server.js:357-384 | The loop fails exactly when some upstream call throws. Otherwise it gives one result per task, in task order, with the task's slot and port. A result carries the upstream data or the upstream status and body |
| LightLevel.HandleLightLevel | server.js:324-389 | The shipped handler. Rejected exactly when the shipped check fails, with its error. A reply holds one result per task, and it is a 500 exactly when a call throws |
| LightLevel.HandleLightLevelCorrected | server.js:324-389 | The same handler over the corrected check: rejected exactly when the corrected check fails |
| LightLevel.HandlersAgree | server.js:324-389 | The shipped and corrected handlers give the same outcome whenever the corrected check accepts, and whenever every disallowed slot is truthy |
| LightLevel.BypassForwarded | server.js:335-340 | For allowed slots LT1 and LT2 and the body with slots "" and LT9, the shipped handler does not reject and any reply holds a result for LT9, while the corrected handler rejects it, naming the empty slot |
| Fanout.PortRange | src/App.jsx:470-473 | The ports are min, min+1, … up to max; the list is empty when min > max |
| Fanout.PortRangeStops | src/App.jsx:473 | The next port after the list exceeds max, so no port is missed |
| Fanout.Fan | src/App.jsx:474-489 | Nothing to do exactly when a list is empty. Otherwise the combination count is the product of the three lengths, with one payload per OLT, in order, holding all slots and ports |
| Fanout.ComboCountIsTaskCount | src/App.jsx:479-489 | The status line's combination count equals the number of tasks the server will run |
| Fanout.SameTasks | src/App.jsx:479-489 | Payloads with n tasks each give |payloads|·n tasks |
| Fanout.PayloadAccepted | src/App.jsx:482-496 | A payload whose OLT, slots and ports are within the configuration passes the server's validation, with its slots as sent and one port per port sent. The shipped check gives the same verdict |
| Fanout.ServedLists | src/App.jsx:467-473 | From the served configuration, the browser's OLTs are configured OLTs, its slots are the configured slots, and its ports are the configured range |
| Fanout.ServerAcceptsPlan | src/App.jsx:467-496 | Every payload the browser plans from the served configuration is accepted by the server, by the shipped check as well as the corrected one |
| Fanout.ServerAcceptsPlanFromEnv | src/App.jsx:467-496 | The same for any environment the server reads its configuration from |
| Fanout.Meta | src/App.jsx:544-548 | The tag holds the payload's OLT. It holds the row's slot and port when they are truthy, and otherwise the payload's first slot and port |
| Fanout.CollectionSkipsNonObjects | src/App.jsx:505-512 | An array collection gives one reading per object member |
| Fanout.CollectionFromMeta | src/App.jsx:501-512 | Every reading from a collection is the tag overlaid by an optic object |
| Fanout.PonMemberFromMeta | src/App.jsx:517-523 | Every reading from a `pon-optics` member is the tag overlaid by an optic object |
| Fanout.SourceFromMeta | src/App.jsx:513-528 | Every reading from a source is the tag overlaid by an optic object |
| Fanout.RowsEntries | src/App.jsx:542-551 | Reading a reply's rows throws exactly when a row is null |
| Fanout.RowsEntriesAppend | src/App.jsx:542-551 | The rows of a reply contribute their readings one after another, in row order: the readings of a split list are the first part's followed by the second part's |
| Fanout.ResponseEntries | src/App.jsx:531-553 | A reply throws exactly when one of its rows does. A non-ok reply adds nothing |
| Fanout.WalkAppend | src/App.jsx:531-553 | Walking two batches of replies fails when either fails. Otherwise the readings and ok counts concatenate |
| Fanout.FlattenOutcome | src/App.jsx:530-553 | The whole flattening fails exactly when some reply throws. Otherwise the ok count is the number of ok replies |
| Fanout.FlattenAppend | src/App.jsx:530-553 | Flattening is compositional over concatenated batches of payloads and replies |
| Fanout.FailedReplyIgnored | src/App.jsx:533 | The body of a non-ok reply never affects the readings |
| Fanout.RowTagged | src/App.jsx:544-550 | Every reading of a row carries an OLT, a slot and a port |
| Fanout.RowsTagged | src/App.jsx:543-551 | Every reading of a reply carries an OLT, a slot and a port |
| Fanout.FlattenTagged | src/App.jsx:531-553 | Every reading of a run carries an OLT, a slot and a port |
| Query.GuardIdentifiers | server.js:43-63 | Passes exactly when no configured name is set and invalid. Otherwise it exits on the first such name, in the listed order |
| Query.DefaultSchemaRead | server.js:13-33 | With nothing set, the schema holds the documented default column names |
| Query.DefaultValid | server.js:15-29 | Each documented default name consists of word characters only |
| Query.DefaultsPass | server.js:43-66 | The default configuration passes the guard, and it has no ID column |
| Query.GuardedIdentifiersAreBare | server.js:42-63 | After the guard passes, no configured name holds a space, quote, semicolon, comma, parenthesis, dot or dash, so the names cannot break out of the SQL text |
| Query.Push | server.js:92-96 | Adding a condition that uses the next placeholder numbers keeps the query well numbered. Its placeholders are 1..n in order, and each parameter has the kind its placeholder expects |
| Query.ParseListItems | server.js:98-104 | `parseList` keeps an array as it is. A non-empty string gives its trimmed comma pieces with the blank ones dropped, in order: exactly the non-blank trimmed pieces. An absent value or the empty string gives no items |
| Query.ParseListSpaced | server.js:98-104 | A query value `"a, b"` parses to `a` and `b` |
| Query.ParseListReceived | server.js:98-104 | A comma-joined list of trimmed, comma-free items parses back to the list; an array is taken as it is |
| Query.NumbersOfPrinted | server.js:124-126 | Status ids written as decimal text come back as the same numbers |
| Query.NumbersDropsNaN | server.js:124-126 | Every item that is not a number is dropped from the status list |
| Query.DropCondition | server.js:140-153 | "completed" or "1", in any case, require the drop flag. "notcompleted", "0" or "null" require its absence. Any other value adds no condition |
| Query.DropCaseInsensitive | server.js:141 | The drop filter ignores case |
| Query.AddBounds | server.js:84-90 | With all four bounds, the range condition on the next four placeholders is appended, with `Number` of minLat, maxLat, minLng and maxLng as its parameters in that order; otherwise nothing changes |
| Query.NumberOfArray | server.js:89 | `Number` of a one-item array is `Number` of that item, and `Number` of an empty array is 0: an array converts through its comma-joined text |
| Query.AddCity | server.js:92-96 | A truthy city appends one equality on the next placeholder. The query stays well numbered and only grows |
| Query.AddSegment | server.js:106-122 | A non-empty list appends an `ANY` condition on that `split_part` segment with the list as a text-array parameter. The query stays well numbered and only grows |
| Query.AddStatus | server.js:127-138 | A non-empty list of numeric status ids appends an `EXISTS` condition on the next placeholder, joined on the ID column, or `address_id` when none is set. The ids are its int-array parameter. An empty list changes nothing |
| Query.AddDrop | server.js:140-153 | A recognised drop value appends its condition and no parameter |
| Query.AddFilters | server.js:92-153 | The filters add one condition per active filter and one parameter per active parameterised filter. The query stays well numbered, and none of them adds a range condition. Which condition each field adds is stated by the filter lemmas below |
| Query.Start | server.js:77-82 | The query starts with the three baseline conditions and no parameters |
| Query.BuildPoints | server.js:68-153 | The `/points` query is well numbered and starts with the baseline conditions. It has 4 parameters for bounds plus one per active city, FDA, FDH or status filter, and one condition per active filter |
| Query.EmptyQueryIsBaseline | server.js:77-82 | A request without filters queries the baseline only |
| Query.BoundsOnlyWhenComplete | server.js:71-90 | A range condition appears exactly when all four bounds are given. It is the fourth condition, on placeholders 1-4, with the four bounds as numbers |
| Query.PointsConditionOrigins | server.js:77-153 | Every condition of the `/points` query is a baseline condition, the range on placeholders 1-4 when all bounds are given, or the filter of an active field on that field's own column: city equality, FDA on segment 1, FDH on segment 2, status `EXISTS`, or the drop condition the drop value maps to |
| Query.CityFilter | server.js:92-96 | A truthy city holds exactly when some placeholder of an equality on the city column is bound to the city value |
| Query.FdaFilter | server.js:106-113 | The parsed FDA list is non-empty exactly when some placeholder of an `ANY` test on segment 1 of the FDA/FDH column is bound to that list |
| Query.FdhFilter | server.js:115-122 | The parsed FDH list is non-empty exactly when some placeholder of an `ANY` test on segment 2 of the FDA/FDH column is bound to that list |
| Query.StatusFilter | server.js:124-138 | The status list has numeric items exactly when some placeholder of the status `EXISTS` test is bound to those numbers |
| Query.DropFilter | server.js:140-153 | A recognised drop value puts its condition in the query, and any drop condition in the query is the one the drop value maps to |
| Query.Select | server.js:155-191 | The row id is `ROW_NUMBER()` exactly when no ID column is set. Accounts are aggregated exactly when it is set, and only for statuses 1, 2, 4, 39 and 75 |
| Query.NoIdColumnColours | server.js:164-191 | An address that arrives with no accounts, as every address does without an ID column (see `Select`), is gray or blue whatever the readings |
| Query.EmittedStatusAgrees | server.js:174-187 | The emitted status text is read by the browser as inactive exactly for status 2 and as suspended exactly for status 4, and every emitted status counts as present |
| Query.BuildFdaOptions | server.js:220-234 | The `/fda-options` query has the four baseline conditions, plus a city equality on placeholder 1 when a city is given |
| Query.BuildFdhOptions | server.js:252-283 | The `/fdh-options` query extends the FDA-options query for the same city, including its city equality on placeholder 1. When the FDA list is non-empty it adds exactly one condition and one parameter: the segment-1 `ANY` test on the next placeholder, bound to the list. Otherwise it is that query |
| Query.OptionValues | server.js:245 | The option list holds exactly the truthy values returned |
| Query.OptionValuesInOrder | server.js:243-245 | The option list keeps the order of the rows: it is a subsequence of them |
| Query.OptionValuesCount | server.js:243-245 | Each non-empty value occurs in the option list as many times as rows carry it; the empty value never occurs |
| MapView.FallbackColorAt | src/components/MapView.jsx:55-91 | The fallback never paints black or blue. It gives the exact condition for purple, gray, red, yellow and green |
| MapView.FallbackAgreesWithClassify | src/components/MapView.jsx:55-91 | At the same threshold, the fallback equals the main classifier exactly on addresses the classifier does not paint black or blue |
| MapView.AppYellowIsFallbackYellow | src/components/MapView.jsx:65 | An address the main view paints yellow at -24.9 dBm is yellow in the fallback at -22.9 dBm |
| MapView.GroupAccounts | src/components/MapView.jsx:138-147 | There is a group for a key exactly when some account has that key. Each group holds exactly the accounts with its key, in their original order |
| MapView.GroupMembership | src/components/MapView.jsx:138-143 | Every account appears in the group of its own key and in no other |
| MapView.GroupSizes | src/components/MapView.jsx:138-147 | The group sizes add up to the number of accounts |
| MapView.UniqueCpes | src/components/MapView.jsx:166-174 | The de-duplicated list is the reference list: the items whose model and value key has not appeared earlier, in order |
| MapView.FirstsKeys | src/components/MapView.jsx:166-174 | The kept items' keys are exactly the keys of the input |
| MapView.FirstsDistinct | src/components/MapView.jsx:166-174 | No two kept items share a key |
| MapView.FirstsCount | src/components/MapView.jsx:166-174 | The kept list is as long as the number of distinct keys |
| MapView.FirstsAreFirst | src/components/MapView.jsx:166-174 | Each kept item is the earliest input item with its key |
| MapView.CpeListing | src/components/MapView.jsx:166-221 | At most five items are shown, as a prefix of the de-duplicated list. "+N more" appears exactly when there are more than five distinct keys, and then the shown items plus N are all of them |
| MapView.FdaFdhDisplay | src/components/MapView.jsx:115-129 | Nothing is shown exactly for a missing or empty value. A value without `|` is shown whole as the FDA; a value with one is shown in two parts |
| MapView.DisplayRoundTrip | src/components/MapView.jsx:115-128 | The stored form `FDA:a|FDH:b` displays as the parts a and b |
| MapView.DisplayFirstTwo | src/components/MapView.jsx:118-123 | A value with two or more `|` separators displays only its first two segments, with the first `FDA:` and `FDH:` removed |
| MapView.DisplayThreeSegments | src/components/MapView.jsx:118-123 | `a|b|c` displays as the parts a and b; the third segment is dropped |

## Left out

- React state, effects, timers, refs and rendering. The model covers the pure decisions those components make, not when they run.
- HTTP transport: `fetch`, `Promise.all`, Express routing, JSON parsing of request bodies, and status codes beyond the reply kind. Upstream replies are a parameter (`ProxyRequest -> Upstream`).
- The PostgreSQL pool and what the SQL returns. Queries are modelled as lists of conditions with placeholder numbers and typed parameters; rows from the database are parameters.
- The exit on a missing `DATABASE_URL` and the listening `PORT`, which are process start-up only.
- Text.Lower: lower-cases ASCII letters only; JavaScript's full Unicode case mapping is not modelled.
- Text.JsNumber: `Number(...)` is modelled on decimal text (sign, digits, one point, surrounding white space); exponent, hexadecimal and `Infinity` forms read as not-a-number.
- Json.ToText: fractional numbers and arrays give no text, where `String(...)` would render them (`"1.5"`, `"a,b"`). A reading whose `name` or `olt` is such a value therefore matches no CPE key and no OLT filter text in the model.
- Json.ToNumber: arrays and objects read as not-a-number, which covers the program's inputs but not `Number([5])`.
- rx-power and port numbers are exact reals. Floating-point rounding is not modelled.
- Fanout.Meta: a `meta` field whose fallback is `undefined` is left out of the object rather than stored as `undefined`.
- Object key order (`Object.entries`) in the map view's grouping is not claimed; groups are a map keyed by account id.
- `qs`-style nested query objects: a query value is absent, a string or an array of strings.
- `buildUrl`'s fallback branch for an API URL that does not parse (src/App.jsx:203-224), and the URL's origin and path. Only the query parameters are modelled.
- The row normalisation in `fetchPoints` (src/App.jsx:273-290) turns database rows into points; points are taken as already normalised.
- The map view's own copies of `normalizeCpeName` and `findLightMatch` (src/components/MapView.jsx:21-37) are the same text as App's and use the `Identifier` definitions.
- MapView.CpeItemKey: a missing model or value is written as "null", as a JSON null is; `undefined` would be written "undefined". Keys joined with `|||` can collide, and the model keeps that behaviour.
- The per-CPE light reading lines inside the map view's popup (src/components/MapView.jsx:176-207) are display only.

## Findings

| source | as written | input that shows it | evidently intended | confidence | as-written member | corrected member |
|---|---|---|---|---|---|---|
| server.js:335-340 | `slots.find(...)` returns the first disallowed slot, and `if (invalidSlot)` rejects only when that slot is truthy | allowed slots LT1 and LT2, body `{olt: "X", slot: ["", "LT9"], port: 1}`: the empty slot is found first, is falsy, and LT9 goes to the upstream service | reject whenever some slot is not allowed | not executed | LightLevel.ValidateAsWritten, LightLevel.HandleLightLevel, LightLevel.SlotBypass, LightLevel.BypassForwarded | LightLevel.Validate, LightLevel.HandleLightLevelCorrected |
