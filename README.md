# Registro de Ponto — a Dafny model of its core

The system is a small Streamlit time-clock. A user records "pontos" (clock-in
and clock-out marks) into one JSON array file kept in a GitHub repository. The
array is read and written through the GitHub contents API by
`GithubJSONStore`, which offers `load`, `commit` and `append_with_retry`.
That store is the concurrency core. Writes are optimistic: every PUT carries
the `sha` of the version it was based on, and a conflict answered with 409
makes `append_with_retry` reload and try again, at most `max_retries` times.
Around the store sit these parts of the form:

- the configuration lookup `cfg`, with the `ALLOW_FUTURE` flag;
- the record constructor `RegistroPonto.novo` and `to_dict`;
- the -5/-10/-15 minute buttons (`_adjust_minutes`) and the small "Agora" reset;
- the guard that refuses a manual save in the future;
- the two save buttons;
- the "Hoje" list, filtered by day and user and sorted by `_key_time`;
- the "Histórico" list, filtered by `in_period` and user, with its default period.

The model is split into these modules:

- `Common`: `Option` and `Result`.
- `Text`: `str.strip` with Python's whitespace set, ASCII `str.lower`, Python's
  string order, and decimal rendering.
- `Calendar`: the proleptic Gregorian calendar of Python's `date`, using
  `toordinal`'s formula. It covers the 1..9999 year range, minute arithmetic
  with day rollover and `OverflowError`, and the `datetime` order.
- `DateText`: `isoformat`, `strftime("%H:%M:%S")`, and
  `strptime(s, "%Y-%m-%d")`. The strptime model follows the alternatives of
  Python's own regular expression: `%m` is `1[0-2]|0[1-9]|[1-9]` and `%d` is
  `3[01]|[12]\d|0[1-9]|[1-9]| [1-9]`. They are tried in order, with
  backtracking and the "unconverted data remains" check.
- `Json`: the decoded JSON values, and `dict.get`.
- `Models`: `RegistroPonto`, `novo` and `to_dict`.
- `Remote`: the GitHub contents endpoint of the one file. It is an abstract
  versioned store. Every accepted write yields a fresh `sha` token. A PUT
  with a `sha` is compare-and-set: a stale `sha` gets 409. A PUT without a
  `sha` creates a missing file (201) and is refused with 422 when the file
  exists. A remote can also be in an outage, where it answers every request
  with a failure status. Its health is one of three states. It can be up. It can be
  read-only, which means it answers reads but refuses every PUT with a failure status. It can be down, which means it refuses every request. A stored document that is not a JSON array makes `data.append` raise AttributeError, which the model reports as the error `NotAList`.
- `GithubStore`: the store itself, as specification functions on the remote's
  state (`LoadOn`, `CommitOn`, `AttemptOn`, `AppendOn`). The class
  `GithubJSONStore` has methods proved equal to them. `services/github_store.py`
  and the copy inside `app.py` behave the same and are modelled once.
- `Config`: `cfg` and the `ALLOW_FUTURE` parse.
- `Listing`: the day filter, `_key_time`, an in-place stable sort by key,
  `in_period`, the history filter, and the fallback period.
- `Form`: the session state as a class, the future guard, and the two save
  buttons.

The environment is a parameter. A schedule `rivals` says what happens at the
remote between this call's load and its commit in each pass. Another session
may write, the remote's health may change (an outage starts or ends), or
nothing may happen. A further step `between` says what happens between a
successful save and the reload that follows it. The uuid, the clock, the time-zone offset and the session values
are parameters too.

## Model

| member | source | states |
|---|---|---|
| Text.TrimLeft | app.py:63 | The leading whitespace that `str.strip` removes: the result is a suffix, every removed character is whitespace, and the result does not start with whitespace |
| Text.TrimRight | app.py:63 | The trailing half of `str.strip`: the result is a prefix, every removed character is whitespace, and the result does not end with whitespace |
| Text.Strip | app.py:63-64 | `str.strip()`: the trimmed slice, as `StripTrims` states |
| Text.StripTrims | app.py:63-64 | `val.strip()` is the slice of `val` whose ends are not whitespace; everything outside it is whitespace |
| Text.StripEmptyIffBlank | app.py:63 | `val.strip()` is falsy exactly when `val` is empty or all whitespace |
| Text.StripIdempotent | app.py:64 | A value `cfg` returns is unchanged by stripping it again |
| Text.Lower | app.py:76 | `.lower()` keeps the length and maps each character by itself; ASCII capitals become small letters |
| Text.StrLtIrreflexive | app.py:332 | Python's `str` order used by `sort(key=_key_time)` is irreflexive |
| Text.StrLtTransitive | app.py:332 | The key order is transitive |
| Text.StrLtTotal | app.py:332 | Any two different keys are ordered one way or the other |
| Text.DecimalInjective | services/github_store.py:66 | Different version numbers render to different texts, which makes the `sha` tokens of the remote distinct |
| Calendar.YearStep | app.py:237 | The day count of `date.toordinal` grows by 365 or 366 (leap years) from one year to the next |
| Calendar.OrdinalMonotone | app.py:356 | A date earlier in Python's field-by-field order (`dt_ini <= d`) has a smaller day number |
| Calendar.DateLeIffOrdinalLe | app.py:356 | `a <= b` on dates holds exactly when `a.toordinal() <= b.toordinal()` |
| Calendar.OrdinalInjective | app.py:237 | Different valid dates have different day numbers |
| Calendar.OrdinalRange | app.py:237 | Years 1..9999 are exactly the day numbers 1..3652059, the range of Python's `date` |
| Calendar.NextDay | app.py:237 | The day after a valid date is valid and has the next day number, crossing month and year ends |
| Calendar.PrevDay | app.py:237 | The day before a date after 0001-01-01 is valid and has the previous day number |
| Calendar.AddDaysOrdinal | app.py:237 | Adding `n` days moves the day number by exactly `n` |
| Calendar.ShiftMinutes | app.py:232-239 | `combine(dia, hora) + timedelta(minutes=delta)` succeeds exactly when the result stays within years 1..9999, and the result is then a valid datetime exactly `delta` minutes later with the same second and no microseconds; otherwise `OverflowError` |
| Calendar.MinuteStampInjective | app.py:237-239 | The day, hour and minute are fixed by their minute count, so the adjusted selection is unique |
| Calendar.ShiftByZero | app.py:237-239 | A zero adjustment only clears the microseconds |
| Calendar.ShiftCompose | app.py:276-281 | Two quick-adjust presses are one press by the sum, including when the sum leaves the date range |
| Calendar.ShiftUndo | app.py:276-281 | Going back `n` minutes and then forward `n` minutes restores a selection without microseconds |
| Calendar.DateTimeLtIffEarlier | app.py:313 | `dt_sel > agora` between datetimes sharing one `tzinfo` compares wall-clock fields, which is the order of their minute-and-second stamps under that one fixed offset |
| Calendar.FirstOfMonth | app.py:346-351 | `date.today().replace(day=1)` is a valid day of the same month, not after today |
| DateText.DateIso | app.py:120 | `date.isoformat()` is `YYYY-MM-DD`: ten characters, dashes at 4 and 7, and digits whose values are the year, month and day |
| DateText.TimeHms | app.py:121 | `strftime("%H:%M:%S")` is eight characters with colons at 2 and 5 and digits whose values are hour, minute and second |
| DateText.DateTimeIso | app.py:125 | `dt.isoformat()` is the date text, `T`, the `HH:MM:SS` text, then `.ffffff` only when the microseconds are non-zero, then `+HH:MM`/`-HH:MM` only when an offset is known; its length is 19, plus 7 with microseconds, plus 6 with an offset |
| DateText.MicroText | app.py:125 | The microsecond part of `isoformat`: empty for 0, otherwise a `.` and six digits whose value is the microseconds |
| DateText.OffsetText | app.py:125 | The offset part of `isoformat`: empty without an offset, otherwise a sign, two hour digits, `:` and two minute digits whose values are the offset's hours and minutes |
| DateText.FirstMatch | app.py:355 | The regular-expression alternative chosen is the first one that matches; none before it matches |
| DateText.ParseYmd | app.py:355 | `strptime(..., "%Y-%m-%d").date()` yields only real calendar days (year 1..9999, day within its month) and otherwise raises; `ParseYmdSpells` states which texts parse to which day |
| DateText.ParseYmdSpells | app.py:355 | `strptime(s, "%Y-%m-%d")` returns `d` exactly when `d` is a real day and `s` is a spelling of it: four year digits, `-`, the month as two digits (1..12) or one (1..9), `-`, and the day as two digits (1..31), one digit (1..9) or a space and one digit (1..9), with nothing after it |
| DateText.ParseYmdRefuses | app.py:354-358 | `strptime` raises, so `in_period` keeps the record, exactly for the texts that spell no real day |
| DateText.ParseIsoRoundTrip | app.py:120 | Every `date.isoformat()` text parses back to the same date through the `%Y-%m-%d` regular expression |
| DateText.DigitsOrder | app.py:332 | For digit strings of equal length, Python's string order is numeric order |
| DateText.TimeTextOrder | app.py:329-332 | Sorting by the `time` text `HH:MM:SS` orders records by time of day |
| Json.Get | app.py:327 | `r.get(key)` finds a value exactly when `r` is an object with that key; a non-object has no `get` |
| Models.ObsOrEmpty | models.py:29 | `obs or ""`: a non-empty note is kept, and None or "" becomes "" |
| Models.Novo | models.py:20-31 | `novo` copies user, label and tag, sets `obs` to `obs or ""`, sets `date` to `dt.date().isoformat()`, `time` to `dt.strftime("%H:%M:%S")` and `created_at` to `dt.isoformat()`, so the `date` parses back to the day of `dt` and `created_at` begins with the date, `T` and the time |
| Models.ToDict | models.py:33-34 | `asdict` has exactly the eight field names as keys, each mapped to its field's value |
| Models.FromDict | models.py:9-18 | Reading a record back from a dict: the eight keys, each a string or, for `obs`, a string or null; the inverse that `DictRoundTrip` and `DictRoundTripBack` relate to `to_dict` |
| Models.DictRoundTrip | models.py:9-18 | Rebuilding a record from its `to_dict()` gives the same record |
| Models.DictRoundTripBack | models.py:33-34 | A dict with exactly the eight keys that rebuilds into a record is that record's `to_dict()` |
| Remote.TokenInjective | services/github_store.py:65-67 | Different versions of the file carry different `sha`s |
| Remote.ServePut | services/github_store.py:65-73 | A healthy remote accepts a PUT exactly when its `sha` names the current version, or when there is no `sha` and no file; an accepted PUT stores the content under a new version and returns its `sha`; 409 exactly when a given `sha` is stale; a read-only or down remote refuses every PUT with its failure status; a refused PUT changes nothing |
| Remote.ServeGet | services/github_store.py:29-30 | The GET answers 200 with the stored content and the `sha` of the current version when the file exists, 404 when it does not (also on a read-only remote), and the failure status while the remote is down |
| Remote.RivalStep | services/github_store.py:70-72 | Another session's write stores its content under a new version unless the remote is down; a change of health changes only the health; a quiet step changes nothing |
| Remote.RemoteFile.Get | services/github_store.py:29 | `requests.get` answers as `ServeGet` says and changes nothing |
| Remote.RemoteFile.Put | services/github_store.py:67 | `requests.put` answers and changes the remote as `ServePut` says |
| Remote.RemoteFile.Interfere | services/github_store.py:70-72 | Another session's step changes the remote as `RivalStep` says |
| Remote.StaleTokenConflicts | services/github_store.py:70-72 | A PUT carrying the `sha` of an older version is answered 409 and changes nothing |
| GithubStore.Precondition | services/github_store.py:65-66 | The `sha` is sent exactly when it is truthy (neither None nor "") |
| GithubStore.AfterGet | services/github_store.py:30-53 | `load` reads 200 as the decoded data and `sha`, 404 as "create the file", and any other status as a RuntimeError |
| GithubStore.AfterCreate | services/github_store.py:47-51 | Creating `[]` succeeds on 200 or 201 with the new `sha`, and raises otherwise |
| GithubStore.AfterCommit | services/github_store.py:67-73 | `commit` returns the new `sha` on 200/201 and None on 409, and raises for every other status |
| GithubStore.Decoded | services/github_store.py:34-38 | Content that fails to decode is read as `[]` |
| GithubStore.LoadOn | services/github_store.py:26-53 | A down remote raises and changes nothing; a present file is returned with the `sha` of its version; a missing file is created as `[]` (one new version) and `[]` is returned with the new `sha`, except on a read-only remote, where the refused create raises and changes nothing |
| GithubStore.CommitOn | services/github_store.py:55-73 | On a healthy remote: a commit against the current `sha` stores the data under a new version and returns its `sha`; a stale `sha` gives None; no `sha` and no file creates the file (201) and returns the new `sha`; no `sha` on an existing file raises (422). A remote that refuses writes raises with its status. A None or raised result leaves the remote unchanged |
| GithubStore.LoadedShaIsCurrent | services/github_store.py:30-50 | A successful load always returns the `sha` of the version the remote then holds, and the file then exists |
| GithubStore.AttemptSuccessWritesLoadedPlusRecord | services/github_store.py:78-82 | A pass that returns True stored exactly the loaded list plus the record under the next version, the remote is up afterwards, and no other session wrote between its load and its commit |
| GithubStore.AttemptRetryLeavesNoWrite | services/github_store.py:80-83 | A pass that goes round again wrote nothing of its own |
| GithubStore.AttemptWithoutSuccessLeavesNoWrite | services/github_store.py:78-83 | A pass that does not return True wrote nothing of its own: after a refused load, a stored document that is not a list, a refused commit or a conflict, the remote is where the load and the other session put it |
| GithubStore.CommitRefusalRaises | services/github_store.py:67-73 | When the remote refuses the pass's commit (its health changed before the commit), the pass raises RuntimeError with that status, and the remote keeps only what the load and the other session did |
| GithubStore.AppendFromBounded | services/github_store.py:77-84 | From any pass on: with no passes left the loop returns False at once and changes nothing; otherwise it makes between one and the remaining number of passes, and a False result used all of them |
| GithubStore.AppendBounded | services/github_store.py:77-84 | `range(max_retries)` bounds the passes: none and False when `max_retries <= 0`, otherwise 1 to `max_retries`, and False only after all of them |
| GithubStore.AppendSuccessEndsWithRecord | services/github_store.py:79-82 | After True, the stored list ends with the appended record |
| GithubStore.AppendFromSucceedsOnce | services/github_store.py:77-82 | From any pass on: True comes from the first pass whose commit succeeds, every earlier pass left no write of its own, and that pass, run from where they left the remote, produced the final state |
| GithubStore.AppendSucceedsOnce | services/github_store.py:75-82 | After True the call made at least one pass, and the last one is the only pass that wrote; with `AttemptSuccessWritesLoadedPlusRecord` the record is written exactly once |
| GithubStore.LoadRefusalRaises | services/github_store.py:77-78 | A remote that is down when the call starts makes the first `load` raise, and that RuntimeError ends the call after one pass with the remote unchanged |
| GithubStore.UnsavedAppendLeavesNoTrace | services/github_store.py:77-84 | Whenever the call does not return True (False after every pass, or an exception), none of its commits took effect: the remote is where the loads and the other sessions alone put it, over the passes it made |
| GithubStore.ReadOnlyRemoteRaisesOnCommit | services/github_store.py:77-80 | A remote that reads but refuses writes: the first pass loads, its commit raises, and the call ends with that RuntimeError after one pass and with the remote unchanged |
| GithubStore.UncontendedAppendSucceeds | services/github_store.py:75-82 | With no other writer and a remote that is up, the first pass returns True and the file holds the old list plus the record; a missing file is first created as `[]` and undecodable content is read as `[]` |
| GithubStore.TwoWritersRace | services/github_store.py:65-72 | Two sessions that loaded the same `sha`: the first commit wins, the second gets None and changes nothing, and its reload-and-retry succeeds |
| GithubStore.TwoWritersRaceRetried | services/github_store.py:77-84 | Another session appends its record between this call's first load and commit: the first pass gets 409, the second reloads, and the call returns True after two passes with the file holding the old list, their record, then this record |
| GithubStore.ForcedConflictSinglePass | services/github_store.py:77-84 | With one pass and another session writing first, the call returns False and only the other session's write remains |
| GithubStore.AttemptOn | services/github_store.py:78-82 | One pass of the loop: load, append, the other session's step, commit against the loaded `sha`; its properties are the `Attempt...` lemmas |
| GithubStore.AppendFrom | services/github_store.py:77-84 | The loop from a given pass on; its properties are the `AppendFrom...` lemmas |
| GithubStore.AppendOn | services/github_store.py:75-84 | `append_with_retry`; its properties are the `Append...` lemmas |
| GithubStore.GithubJSONStore.Load | services/github_store.py:26-53 | `load` returns and leaves the remote as `LoadOn` says |
| GithubStore.GithubJSONStore.Commit | services/github_store.py:55-73 | `commit` returns and leaves the remote as `CommitOn` says |
| GithubStore.GithubJSONStore.AttemptOnce | services/github_store.py:78-82 | One pass of the loop body returns and leaves the remote as `AttemptOn` says |
| GithubStore.GithubJSONStore.AppendWithRetry | services/github_store.py:75-84 | The retry loop returns and leaves the remote as `AppendOn` says |
| Config.SourcesBlankness | app.py:63-66 | A secret or environment value strips to the empty string exactly when it is blank |
| Config.Cfg | app.py:60-68 | A secret that is a string and not blank wins (stripped); otherwise a non-blank environment variable (stripped); otherwise the default |
| Config.CfgStrippedOrDefault | app.py:60-68 | `cfg` returns either the default or a non-empty value with no surrounding whitespace |
| Config.AllowFutureSpellings | app.py:76 | `ALLOW_FUTURE` is on exactly for "1", "y", "yes" and "true" in any mix of letter case |
| Config.AllowFuture | app.py:76 | `.lower() in ("1", "true", "yes", "y")`, as `AllowFutureSpellings` characterises |
| Config.FutureForbiddenByDefault | app.py:58-76 | When the flag is set nowhere, or only set blank, future times are refused |
| Listing.DayRecords | app.py:326-327 | The "Hoje" filter raises exactly when some stored element is not an object; otherwise it keeps, with their multiplicities, exactly the objects whose `date` is the day's text and whose `usuario` is the user |
| Listing.DayRecordsOne | app.py:327 | The "Hoje" filter of one element raises exactly when it is not an object, and otherwise keeps it exactly when its `date` and `usuario` match |
| Listing.DayRecordsAppend | app.py:327 | The "Hoje" filter works element by element in stored order: the filter of a concatenation raises exactly when either part's does, and otherwise is the concatenation of the parts' filters |
| Listing.KeyTime | app.py:329-331 | `_key_time` is the `time` string, and "00:00:00" when `time` is missing or not a string |
| Listing.SortBy | app.py:332 | `list.sort(key=...)` as a stable insertion sort; its properties are `SortBySortsAndPermutes` and `SortByStable` |
| Listing.SortBySortsAndPermutes | app.py:332 | `sort(key=...)` returns the same elements, ordered by key |
| Listing.SortByStable | app.py:332 | The sort is stable: elements with equal keys keep their relative order |
| Listing.TimeSorted | app.py:332 | The sorted day list is ordered by `_key_time`, is a permutation of the filtered list, and keeps the order of equal keys |
| Listing.InsertLast | app.py:332 | One insertion step leaves the array's first `i + 1` cells holding the sorted prefix with the next element inserted after every element of equal key, and the rest untouched |
| Listing.SortInPlace | app.py:332 | The in-place sort leaves the array holding the stable sort of its old contents |
| Listing.TodayList | app.py:326-332 | The "Hoje" list raises exactly when the filter does; otherwise it is the filtered records stably sorted by `_key_time` |
| Listing.HistoryRecords | app.py:353-360 | The history filter raises exactly when a user filter is set and some element is not an object; otherwise it keeps, with their multiplicities, exactly the records `in_period` accepts whose user matches (a non-object passes when no user filter is set) |
| Listing.HistoryRecordsOne | app.py:360 | The history filter of one element raises exactly when a user filter is set and it is not an object, and otherwise keeps it exactly when `in_period` accepts it and, for an object, its user matches |
| Listing.HistoryRecordsAppend | app.py:360 | The history filter works element by element in stored order: the filter of a concatenation raises exactly when either part's does, and otherwise is the concatenation of the parts' filters |
| Listing.InPeriod | app.py:353-358 | `in_period`, as `InPeriodByOrdinal` characterises |
| Listing.InPeriodByOrdinal | app.py:353-358 | A record whose `date` does not parse is always kept; one that parses is kept exactly when its day number lies between those of the period's ends |
| Listing.PeriodBounds | app.py:348-351 | A two-date selection is the period; anything else falls back to the first of this month through today |
| Listing.FallbackPeriodIsMonthToDate | app.py:351-356 | The fallback period holds exactly the days of the current month up to today |
| Form.Session.constructor | app.py:222-228 | The session starts on today, at the current time without microseconds |
| Form.Session.AdjustMinutes | app.py:232-239 | A quick-adjust press moves the selection by `delta` minutes across day boundaries and keeps the user; on `OverflowError` the selection is unchanged |
| Form.Session.ResetToNow | app.py:282-285 | "Agora" sets today and the current time without microseconds |
| Form.SaveBlockedIffLater | app.py:313 | A manual save is refused exactly when the flag is off and the selection is later on the time line than now |
| Form.SaveBlocked | app.py:313 | `(not ALLOW_FUTURE) and (dt_sel > agora)`, as `SaveBlockedIffLater` characterises |
| Form.PastOrPresentNeverBlocked | app.py:312-316 | A selection not later than now is always saved, whatever the flag says |
| Form.AppendAndReload | app.py:305-310 | A raised exception is reported as such, False as a failed save, and True is followed, after one more step of the environment, by a reload of the data |
| Form.SaveManualOn | app.py:312-322 | A refused save leaves the remote untouched; otherwise the save appends the record `novo` builds with label "Manual" |
| Form.SaveNowOn | app.py:302-310 | The "Agora" save is never refused and appends the record built from the current time with label "Automático" |
| Form.SavedRecordIsLast | app.py:305-308 | After a reported save, when no other session writes before the reload, the reload either raises (an outage began) or returns a list that ends with the record that was built |
| Form.SavedRecordKept | app.py:305-308 | After a reported save, the reload raises exactly when the remote went down after the commit; otherwise, if any other session's write before the reload kept the stored list as a prefix, the reloaded list holds the record |
| Form.ButtonRecordOnDay | app.py:326-327 | The record a button builds is a JSON object whose `date` is the day's text and whose `usuario` is the user |
| Form.ListedToday | app.py:327 | An object of the day and the user in the stored list is in the "Hoje" list, unless that list raises |
| Form.SavedRecordListedToday | app.py:316-327 | A manual save reported as saved appears in the reloaded "Hoje" list of the same user and day, provided other sessions only appended before the reload, unless the reload raises or that list raises on a non-object element |
| Form.ButtonRecordInPeriod | app.py:353-356 | A record a button built is in a history period exactly when its day is |
| Form.SaveManual | app.py:312-322 | The "Salvar" button returns and leaves the remote as `SaveManualOn` says |
| Form.SaveNow | app.py:302-310 | The "Agora" save button returns and leaves the remote as `SaveNowOn` says |
| Form.AppendThenReload | app.py:305-308 | The append followed, on success, by the reload returns and leaves the remote as `AppendAndReload` says |

## Left out

- HTTP itself is not modelled: URLs, headers, `_contents_url`, the `ref`/`branch` parameters and the commit messages. Commit messages are the only thing that differs between `services/github_store.py` and the copy in `app.py`.
- base64 and `json.dumps`/`json.loads` are not modelled. They are taken as inverse on the stored array, and a failed decode is an abstract `Garbled` content.
- JSON numbers are integers only; floats are not modelled.
- The remote's answers are an abstraction of GitHub's. Two choices in it are interpretations: a PUT without `sha` on an existing file answers 422, and a PUT with a `sha` on a missing file answers 409. Besides these, statuses other than 200/201/404/409 come only from a read-only or down remote.
- GithubStore.AfterCommit: the model maps 200/201 to the returned `sha` as the source does. The modelled remote always returns a `sha` on success, so the source's retry after a 200 response without `content.sha` (which would append the record twice) is not reachable in the model; `GithubStore.AppendSucceedsOnce` states that after True only the last pass wrote.
- Concurrency is reduced to one step of the environment (another session's write or a change of health) between the load and the commit of each pass, plus one step between a successful save and its reload. Changes between a 404 and the create PUT inside one `load`, and interleavings inside a single HTTP request, are not modelled.
- The listings take the stored list's items. When the stored document is not a list, `append_with_retry` raises (`NotAList`), and the model does not follow Python in iterating over it for the "Hoje" and history lists (for example over a dict's keys).
- Models.FromDict: `RegistroPonto(**d)` is never called by the program. The model's reading of a dict accepts extra keys and refuses values of other types, where Python would raise on extra keys and accept any type.
- `time.sleep` between passes is left out; it has no effect on the result.
- `uuid.uuid4()`, `datetime.now(tz)`, `date.today()`, the `ZoneInfo` lookup and the user's widget inputs are parameters. The zone's UTC offset is a whole number of minutes, fixed per call, so DST folds are not modelled.
- DateText.ParseYmd: only ASCII digits are modelled, although Python's `\d` also accepts other Unicode digits.
- Text.Lower: lower-cases ASCII only. Non-ASCII characters are left as they are, so spellings of `ALLOW_FUTURE` built from non-ASCII letters are not modelled.
- Streamlit rendering, the past/now/future info messages, pandas, the CSV download and the page styling are not modelled.
- `run_topmost.py` and `utils.py` are not part of this model.
- The startup checks that stop the app (missing `GITHUB_TOKEN`, a failed first load) are not modelled.
- Listing.SortInPlace: Python's `list.sort` is Timsort. The model proves an in-place insertion sort equal to the stable sort by key, which is the same result, not the same steps.
