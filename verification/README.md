# Meteobot core in Dafny

Meteobot is a Telegram bot. A user asks for the weather in a Russian locality. The bot asks
AccuWeather and OpenWeatherMap and normalises both answers into one weather record each. It
appends a record of the means, stores the comparison in the user's history and shows it. It can
also show the history. This project models that core as pure Dafny functions and proves
properties about them:

- `Json`, `Numbers`, `Text`: the value-level semantics the core relies on. These are JSON trees
  with pydantic `AliasPath` lookup, Python subscripting, `round(x, 1)` and `statistics.mean`, and
  `str.capitalize` and whitespace handling.
- `LocalityName`: the locality-name pattern as a grammar, with a greedy recogniser proved equal
  to it.
- `Schemas`: validation of a weather record from a provider's dict, following pydantic's
  alias precedence, the bounds-then-round order, and the summary capitalisation. It also covers
  the user and locality schemas and the dict and tuple serialisation.
- `WeatherClients`: the two provider adapters over a network given as a function, the
  all-or-nothing fan-out, service tagging, and the appended average.
- `Repositories`: the `users` and `history` tables as a value, the three statements, and the
  repository operations.
- `Service`: register, weather request (compare, then record), history.
- `Presenter`: aiogram command filters, the order in which handlers are tried, per-member
  conversation state, the handlers' replies and the per-update transaction.

The network, the clock and the bot's username are parameters (`Network`, `now`, `botName`).
Database keys come from a counter that stands for `gen_random_uuid()`.

A locality that fails validation, or a comparison that fails with `ValidationError`, is
reported as invalid input, and the conversation keeps waiting for a locality
(`src/presenter/core.py:78-83`; `Presenter.InvalidLocalityKeepsWaiting`,
`Presenter.ProviderDataInvalidKeepsWaiting`).

## Model

| member | source | states |
|---|---|---|
| Wrappers.Collect | src/presenter/schemas.py:213-223 | `many_from_dict` builds one validated object per input, in order; it fails exactly when some element fails, and the failure is the first failing element's |
| Wrappers.CollectFirstFailure | src/presenter/schemas.py:213-223 | when the first failing element, in order, is element i, the whole fails with element i's error |
| Wrappers.CollectAppend | src/presenter/schemas.py:219 | validating one more element appends its result to the list |
| Json.LookupConcat | src/presenter/schemas.py:137 | resolving a path `p + q` is resolving `p`, then `q` from there |
| Json.FirstResolved | src/presenter/schemas.py:125-128 | `AliasChoices`: the value of the first path, in order, that resolves; none iff no path resolves |
| Json.Subscript | src/model/weather_clients.py:66-69 | `x[i]` on a list or string: `IndexError` exactly when the index is out of range; other values fail otherwise |
| Json.Item | src/model/weather_clients.py:115 | `x[k]` succeeds exactly on a dict holding `k`, and its failure is never an `IndexError` |
| Numbers.RoundHalfEven | src/presenter/schemas.py:203-206 | the nearest integer, ties to the even one |
| Numbers.RoundHalfEvenUnique | src/presenter/schemas.py:203-206 | that nearest-even integer is unique |
| Numbers.RoundHalfEvenMonotone | src/presenter/schemas.py:203-206 | rounding preserves order |
| Numbers.Round1 | src/presenter/schemas.py:203-206 | `round(x, 1)` lies on the tenths grid within 0.05 of `x` |
| Numbers.Round1Fixed | src/presenter/schemas.py:203-206 | a value already on the tenths grid is unchanged |
| Numbers.Round1Idempotent | src/presenter/schemas.py:203-206 | rounding twice is rounding once |
| Numbers.Round1Monotone | src/presenter/schemas.py:203-206 | rounding preserves order |
| Numbers.Round1Within | src/presenter/schemas.py:173-206 | a value between two tenths-grid bounds stays between them after rounding |
| Numbers.SumBounds | src/model/weather_clients.py:162 | a sum of n values within [lo, hi] lies within [n·lo, n·hi] |
| Numbers.MeanBounds | src/model/weather_clients.py:162 | the mean of values within [lo, hi] lies within [lo, hi] |
| Text.Upper | src/presenter/schemas.py:198-201 | maps a lower-case Latin or Cyrillic letter to an upper-case one and leaves other characters alone |
| Text.Lower | src/presenter/schemas.py:198-201 | maps an upper-case letter to a lower-case one and leaves other characters alone |
| Text.CaseRoundTrip | src/presenter/schemas.py:198-201 | upper- and lower-casing undo each other on letters |
| Text.Capitalize | src/presenter/schemas.py:198-201 | `str.capitalize`: same length, first character upper-cased, the rest lower-cased |
| Text.CapitalizeIdempotent | src/presenter/schemas.py:198-201 | capitalising a capitalised string changes nothing |
| Text.StripLeading | src/presenter/core.py:56 | the suffix left after dropping leading whitespace, which starts with a non-space |
| Text.FirstWord | src/presenter/core.py:56 | the longest prefix without whitespace, which `split()` yields first |
| LocalityName.SmallRun | src/presenter/schemas.py:93 | the length of the leading run of `[а-яё]` |
| LocalityName.SmallRunExact | src/presenter/schemas.py:93 | any maximal run of small letters is that run |
| LocalityName.GreedyWord | src/presenter/schemas.py:93 | a word followed by a valid continuation is exactly as long as the greedy reading |
| LocalityName.MatchPhraseCorrect | src/presenter/schemas.py:93 | the greedy recogniser accepts exactly the phrases of the pattern |
| LocalityName.MatchContinuationCorrect | src/presenter/schemas.py:93 | the same for what may follow a word |
| LocalityName.SearchCorrect | src/presenter/schemas.py:93 | trying every suffix decides whether a phrase runs to the end |
| LocalityName.PhraseEnds | src/presenter/schemas.py:93 | a phrase starts with a capital and ends with a small letter |
| LocalityName.ValidIsMatches | src/presenter/schemas.py:89-96 | a name is accepted iff it is non-empty and some suffix of it is a phrase |
| LocalityName.ValidEndsSmall | src/presenter/schemas.py:93 | an accepted name ends with a small Cyrillic letter |
| LocalityName.NoCapitalRejected | src/presenter/schemas.py:93 | a name without a Cyrillic capital is rejected |
| LocalityName.MoscowAccepted | src/presenter/schemas.py:93 | "Москва" is accepted |
| LocalityName.RostovOnDonAccepted | src/presenter/schemas.py:93 | "Ростов-на-Дону" is accepted |
| LocalityName.LowercaseMoscowRejected | src/presenter/schemas.py:93 | "москва" is rejected |
| Schemas.WellFormedFields | src/presenter/schemas.py:203-206 | every averaged field of a validated record is on the tenths grid |
| Schemas.ValidateNumber | src/presenter/schemas.py:133-196 | a numeric field is the rounding of the first resolving path's value when that value is a number (or boolean) and, for cloudiness and humidity, lies in [0, 100]; no resolving path, a non-numeric value or an out-of-range percentage is `ValidationError`; results are on the tenths grid |
| Schemas.ValidateSummary | src/presenter/schemas.py:121-131 | an absent summary is `None`; a present one is a non-empty capitalised string; JSON null escapes as `AttributeError` |
| Schemas.ValidateService | src/presenter/schemas.py:120 | the service label is a non-empty string read by name |
| Schemas.Normalize | src/presenter/schemas.py:110-206 | a validated record is well formed and carries the dict's service label; `AttributeError` iff the summary resolves to null; otherwise failure is `ValidationError` |
| Schemas.NormalizeParts | src/presenter/schemas.py:110-206 | a validated record is made of the results of its field validators |
| Schemas.NormalizeFromParts | src/presenter/schemas.py:110-206 | field validators that all succeed make the record of their results |
| Schemas.ValueFromFirstResolvingPath | src/presenter/schemas.py:133-196 | a field's value is the rounded value at the first alias path that resolves |
| Schemas.AccuWeatherPathWins | src/presenter/schemas.py:136-139 | when the AccuWeather path resolves, its value is used |
| Schemas.OpenWeatherMapPathIsFallback | src/presenter/schemas.py:136-139 | when only the OpenWeatherMap path resolves, its value is used |
| Schemas.MissingFieldFails | src/presenter/schemas.py:133-142 | a required number that no path provides fails validation |
| Schemas.MissingSummaryIsNone | src/presenter/schemas.py:121-131 | no summary path resolving gives the default `None` |
| Schemas.SummaryCapitalised | src/presenter/schemas.py:198-201 | a non-empty summary is stored capitalised |
| Schemas.PercentageOutOfRangeFails | src/presenter/schemas.py:173-196 | cloudiness or humidity outside [0, 100] fails validation |
| Schemas.BoundPrecedesRounding | src/presenter/schemas.py:185-206 | 100.04 % humidity fails even though it would round to 100.0: bounds are checked before rounding |
| Schemas.RecordKeysAreNotAliasKeys | src/presenter/schemas.py:110-196 | no field name is the first key of an alias path |
| Schemas.ByName | src/presenter/schemas.py:28-32 | in a dict without alias keys, every field is read under its own name |
| Schemas.WeatherToDict | src/presenter/schemas.py:34-35 | `to_dict(exclude_none=True)` keys a record by field names and omits an absent summary |
| Schemas.NumberByName | src/presenter/schemas.py:173-206 | a number under its own name validates to its rounding, or fails if it is a percentage out of range |
| Schemas.TenthByName | src/presenter/schemas.py:203-206 | a tenths-grid number under its own name validates unchanged |
| Schemas.DictNumber | src/presenter/schemas.py:34-35 | each number of a validated record validates back unchanged from the record's dict |
| Schemas.DictSummaryService | src/presenter/schemas.py:34-35 | the label and summary of a validated record validate back unchanged |
| Schemas.DictMeasurements | src/presenter/schemas.py:34-35 | the same for both temperatures and the pressure |
| Schemas.DictRates | src/presenter/schemas.py:34-35 | the same for wind speed, cloudiness and humidity |
| Schemas.WeatherDictRoundTrip | src/presenter/schemas.py:34-35 | validating a validated record's dict gives the record back |
| Schemas.ValidateUser | src/presenter/schemas.py:53-58 | a user validates iff the first name has 1 to 64 characters |
| Schemas.ValidateLocality | src/presenter/schemas.py:88-97 | a locality validates iff the text is present and matches the pattern, and it keeps the text and the user |
| Schemas.ExcludeNone | src/presenter/schemas.py:34-35 | `exclude_none` keeps no `None` value and changes nothing when there is none |
| Schemas.ExcludeNoneConcat | src/presenter/schemas.py:34-35 | excluding `None` works entry by entry, so the kept entries keep their order |
| Schemas.ExcludeNoneKeeps | src/presenter/schemas.py:34-35 | an entry is kept exactly when it is in the dict and its value is not `None` |
| Schemas.ToTuple | src/presenter/schemas.py:37-38 | `to_tuple` is the dict's values in field order |
| Schemas.UserTuple | src/presenter/schemas.py:37-58 | a user becomes `(id, first_name)` |
| Schemas.NewRecordTuple | src/presenter/schemas.py:76-80 | an unnumbered, unstamped record becomes `(user_id, locality, weather)` |
| Schemas.QueryTuple | src/presenter/schemas.py:65-66 | a history query becomes `(user_id,)` |
| WeatherClients.Fetch | src/model/weather_clients.py:27-40 | a request succeeds iff the status is 2xx; a transport error or any other status is `ExternalError` |
| WeatherClients.AccuWeatherGet | src/model/weather_clients.py:53-88 | a failed or empty location search is `ExternalError`; with a first result holding `Key`, a failed conditions fetch is `ExternalError`, a non-empty conditions list gives its first entry, and an empty one escapes as `IndexError`; a first result that is not a dict with `Key` escapes unhandled; success implies that chain |
| WeatherClients.OpenWeatherMapGet | src/model/weather_clients.py:97-136 | a failed or empty geocoding is `ExternalError`; with a first result holding `lat` and `lon`, the answer is the weather fetch for those coordinates; a first result without them escapes unhandled; success implies that chain |
| WeatherClients.Tag | src/model/weather_clients.py:151-154 | the answer with its service label added; a `service` key of the answer wins; a non-dict answer is a `TypeError` |
| WeatherClients.TagAll | src/model/weather_clients.py:151-154 | each answer is tagged by the client that fetched it, in order; it succeeds iff every answer is a dict |
| WeatherClients.Validated | src/model/weather_clients.py:143-154 | one client's record is well formed and labelled with the client unless its answer names a service; a fetch failure is passed on |
| WeatherClients.ValidatedFetched | src/model/weather_clients.py:143-154 | a fetched dict is validated with the client's label added (its own `service` winning); a fetched non-dict is a `TypeError` |
| WeatherClients.Aggregate | src/model/weather_clients.py:143-154 | one record per client, in client order, each the client's own validated answer; it succeeds iff every client's does; any fetch failure fails the whole; a failure is always some client's own failure |
| WeatherClients.FetchFailureOrigin | src/model/weather_clients.py:143-149 | a failed fetch phase fails with the error of some client's own pipeline |
| WeatherClients.TagFailureOrigin | src/model/weather_clients.py:151-154 | a failed tagging is the `TypeError` of a client whose answer is not a dict |
| WeatherClients.NormalizeFailureOrigin | src/presenter/schemas.py:213-223 | a failed validation is the failure of the client whose tagged answer it was |
| WeatherClients.AggregateFetchFailure | src/model/weather_clients.py:143-149 | the first client, in order, whose fetch fails decides the error |
| WeatherClients.AggregateTagFailure | src/model/weather_clients.py:151-154 | when every fetch succeeds, any non-dict answer fails the whole with `TypeError` |
| WeatherClients.AggregateValidationFailure | src/model/weather_clients.py:143-154 | when every fetch returns a dict, the first client, in order, whose answer does not validate decides the error |
| WeatherClients.AggregatedWellFormed | src/model/weather_clients.py:143-154 | every aggregated record is well formed and in range |
| WeatherClients.AverageArgument | src/model/weather_clients.py:161-164 | each averaged field is passed as its column's mean |
| WeatherClients.PercentageMeanInRange | src/model/weather_clients.py:162 | the mean of in-range percentages is in range |
| WeatherClients.AverageNumber | src/model/weather_clients.py:159-165 | with every record in range, each averaged field validates to its rounded mean |
| WeatherClients.AverageValidates | src/model/weather_clients.py:159-165 | with every record in range, the average validates, with no summary |
| WeatherClients.AverageField | src/model/weather_clients.py:159-165 | each field of the average is the rounded mean of that field |
| WeatherClients.AverageFields | src/model/weather_clients.py:159-165 | the average carries the average label, no summary and the rounded means |
| WeatherClients.Compare | src/model/weather_clients.py:156-168 | appends one well-formed average record to the unchanged records; no records is a `StatisticsError`; in-range records never fail |
| WeatherClients.AggregatedGet | src/model/weather_clients.py:170-173 | the clients' records in order, then their average; no clients is a `StatisticsError`; an aggregation failure is passed on |
| WeatherClients.ComparisonRecordWellFormed | src/model/weather_clients.py:170-173 | every record of a comparison, the average included, is well formed |
| Repositories.EmptyValid | src/model/db.py:52-71 | an empty store satisfies the store invariant |
| Repositories.InsertUser | src/model/repositories.py:35-39 | the users insert succeeds iff the values fit the columns and the key is new; a duplicate key is a unique violation |
| Repositories.InsertHistory | src/model/repositories.py:52-55 | the history insert appends one row with a fresh key and the insert time iff the values fit |
| Repositories.RowsOf | src/model/repositories.py:45-47 | exactly the rows of the user |
| Repositories.RowsOfAppend | src/model/repositories.py:45-55 | a new row shows up in its own user's rows only |
| Repositories.SelectHistory | src/model/repositories.py:45-47 | the select returns exactly the rows of the user |
| Repositories.CreateUser | src/model/repositories.py:35-39 | registers a new user and leaves history alone; an existing user is `AlreadyExistsError` |
| Repositories.RecordOf | src/model/repositories.py:41-44 | a row validates iff it has weather, into a record with the row's key, user, locality, weather and time |
| Repositories.GetAllRecords | src/model/repositories.py:41-47 | exactly the user's rows, as records; it cannot fail on a valid store |
| Repositories.CreateRecord | src/model/repositories.py:49-55 | stores one new row for the record, at the end, with a fresh key and the current time; users untouched; the invariant is kept |
| Repositories.RecordsOfUser | src/model/repositories.py:41-47 | a history query validates the user's rows in table order |
| Repositories.ValidRowsValidate | src/model/repositories.py:41-47 | in a valid store every row validates |
| Repositories.RegisterTwice | src/model/repositories.py:35-39 | a second registration of the same user is `AlreadyExistsError` |
| Repositories.StoredRecordReadBack | src/model/repositories.py:41-55 | a stored record is read back, numbered and stamped, by its user's query |
| Repositories.OtherHistoriesUnchanged | src/model/repositories.py:41-55 | storing a record changes no other user's history |
| Repositories.OwnHistoryGrows | src/model/repositories.py:41-55 | the user's history grows by exactly the stored record, at the end |
| Service.Register | src/model/core.py:21-22 | registers a new user once; an existing user is `AlreadyExistsError` |
| Service.ComparisonDicts | src/model/core.py:32 | every record of the comparison as its dict, in order; the dict of each well-formed record validates back to that record |
| Service.GetWeather | src/model/core.py:24-37 | returns the comparison and stores it, average included, under the user; a failed comparison stores nothing and is passed on |
| Service.GetHistory | src/model/core.py:39-42 | exactly the user's stored records: every returned record is the user's and every row of the user is returned; it cannot fail on a valid store |
| Service.StoredComparisonRoundTrip | src/model/core.py:27-35 | the stored dicts validate back to the comparison that was shown |
| Service.WeatherThenHistory | src/model/core.py:24-42 | after a weather request the user's history ends with that comparison |
| Service.WeatherKeepsOtherHistories | src/model/core.py:24-37 | a weather request leaves other users' histories as they were |
| Presenter.CommandText | src/presenter/core.py:56 | the text the command filters read: the text when non-empty, or else the caption when non-empty, or nothing |
| Presenter.Before | src/presenter/core.py:56 | the part of a word before its first `@` |
| Presenter.ParseCommand | src/presenter/core.py:56 | no word means no command; otherwise the prefix is the first word's first character, the command is what follows up to the first `@`, and the mention is the non-empty rest after that `@` |
| Presenter.StripLeadingKeeps | src/presenter/core.py:56 | text that starts with a non-space keeps its start |
| Presenter.FirstWordWhole | src/presenter/core.py:56 | text without whitespace is one word |
| Presenter.ParseCommandPartition | src/presenter/core.py:56 | the parsed command puts the first word back together: prefix, command, then `@` and the mention when there is one, or the command alone or followed by a bare `@` when there is none |
| Presenter.BeforeAbsent | src/presenter/core.py:56 | a word without `@` has no mention |
| Presenter.SlashCommandRecognised | src/presenter/core.py:56-67 | `/name` is the command `name` for any bot |
| Presenter.OtherBotsCommandIgnored | src/presenter/core.py:56-67 | a command mentioning another bot does not pass the filter |
| Presenter.FirstAccepting | src/presenter/core.py:47-99 | the position of the first handler whose filters pass |
| Presenter.Route | src/presenter/core.py:47-99 | the handler that takes a message accepts it, and no handler registered before it does |
| Presenter.RoutesTo | src/presenter/core.py:47-99 | a handler that accepts, with none accepting before it, takes the message |
| Presenter.OneCommandName | src/presenter/core.py:47-99 | a message is a command of at most one name |
| Presenter.HelpInEveryState | src/presenter/core.py:56-61 | `/help` is answered in every state |
| Presenter.AwaitingTakesLocality | src/presenter/core.py:70 | while a locality is awaited, every message except `/help` is taken as the locality |
| Presenter.IdleWeatherRoutes | src/presenter/core.py:47-67 | with no state, `/weather` reaches the handler that asks for a locality |
| Presenter.IdleHistoryRoutes | src/presenter/core.py:47-94 | with no state, `/history` reaches the history handler |
| Presenter.IdleOtherwiseUnknown | src/presenter/core.py:97-99 | with no state, a message that is none of the four commands is unknown |
| Presenter.Authenticated | src/presenter/core.py:47-53 | a new valid user is stored and greeted as new; an existing one is greeted as existing; an invalid name raises |
| Presenter.LocalityProvided | src/presenter/core.py:70-86 | an invalid locality or a comparison `ValidationError` replies invalid input, an `ExternalError` replies a general error, both keeping the state and the store; a successful comparison is shown, stored and ends the conversation; any other error escapes |
| Presenter.HistoryShown | src/presenter/core.py:89-94 | shows exactly the sender's records and changes nothing |
| Presenter.Update | src/presenter/middlewares.py:11-22 | the routed handler runs in a transaction: if it raises, the store and every state are unchanged; otherwise only the sender's state changes |
| Presenter.WeatherAsksForLocality | src/presenter/core.py:64-67 | `/weather` with no state asks for a locality and waits for it |
| Presenter.LocalityAnswered | src/presenter/core.py:74-86 | a valid locality with a successful comparison is shown and stored, and the state is cleared |
| Presenter.InvalidLocalityKeepsWaiting | src/presenter/core.py:78-80 | an invalid locality is reported, and the bot keeps waiting and stores nothing |
| Presenter.ServiceFailureKeepsWaiting | src/presenter/core.py:81-83 | an unreachable service is reported and the bot keeps waiting |
| Presenter.ProviderDataInvalidKeepsWaiting | src/presenter/core.py:78-80 | provider data that does not validate is reported as invalid input, and the bot keeps waiting and stores nothing |
| Presenter.StartRegistersOnce | src/presenter/core.py:47-53 | `/start` registers a new user, and a second `/start` greets them as existing |
| Presenter.HistoryIsTheSendersOwn | src/presenter/core.py:89-94 | `/history` with no state shows exactly the sender's records and changes nothing |

## Left out

- The view (`src/view/core.py`): the wording and layout of replies. Replies are abstract
  `Reply` values.
- The connection pool, table creation and `drop_tables` (`src/model/db.py`). The tables are a
  value, and each update's transaction is modelled as all-or-nothing on that value.
- The logging middleware, and the JSON codec the transaction middleware installs. Stored
  weather is kept as a JSON value.
- Settings, API keys, endpoints, query parameters, timeouts and `main.py`. Requests are
  abstract `Request` values and the network is a function parameter.
- Concurrency: `asyncio.gather` is modelled as running the clients in order, and the first
  failing client in that order decides the error.
- Floating point: numbers are reals. `round(x, 1)` is round-half-even on `10·x`, so binary
  representation effects are not modelled (Python gives 11.1 for 11.05; the model gives 11.0).
- Numeric strings: pydantic's lax mode would accept `"12.5"` as a float. The model only accepts
  JSON numbers and booleans and rejects strings.
- Unicode: case mapping covers Latin and the Cyrillic block U+0400–U+045F only. Whitespace is
  Python's `isspace` set. There is no normalisation.
- History keys: the `UUID` from `gen_random_uuid()` is a number from a counter. Timestamps
  are integers passed in as `now`.
- Result order of `SELECT * FROM history WHERE user_id = $1`: SQL leaves it open. The model
  returns table order, and the contracts speak of membership except where a lemma states
  the table order.
- `message.from_user` is always present. Messages without a sender (channel posts) are not
  modelled.
- Repositories.GetAllRecords: a row with null weather fails validation. Only inserts can fill
  the table, so that case appears only for stores outside the invariant.
- Malformed JSON: an answer is already parsed JSON, so a 2xx response whose body is not JSON
  cannot be expressed. `response.json()` would raise `JSONDecodeError`, and nothing catches it.
- Error label at the update boundary: an error that escapes a handler is reported under its own
  name (`Raised(Unhandled(AttributeError))` for a null summary). In the program the database
  context manager turns an `AttributeError` into `ValueError("Pool is not initialized.")`
  (`src/model/db.py:41-48`). The rollback is the same either way.
- aiogram's handling of a raised error after rollback (logging, no reply) is not modelled. A
  raised handler produces `Raised(error)` and no reply.
