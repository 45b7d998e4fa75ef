# Chat-log record store, modelled in Dafny

This project models the record store of the chat-log service: the part that
stamps an incoming `ChatLog` with an ID and an input time, chooses the
partition file for the current day (rolling over to `<date>_1.json`,
`<date>_2.json`, ... once a file reaches 100 MiB), appends the record by
read-modify-write, and answers a date-range query by reading and
concatenating every file of every day in the range.

The storage directory is a finite map from file name to the file's size and
to what its bytes parse to: an array of records, bytes that do not parse, or
a file that exists but cannot be read. The clock, the random source, the
JSON serialiser's output size and the directory glob are parameters.

Modules, one per concern:

- `Wrappers` (`wrappers.dfy`): `Option` and `Result`.
- `Decimal` (`decimal.dfy`): `%d` and zero-padded number printing, and reading digits back.
- `Clock` (`clock.dfy`): clock readings and the three time layouts the store formats.
- `ChatLogs` (`chat_log.dfy`): the record, the 62-symbol charset, the random ID suffix, ID and input-time assignment.
- `Storage` (`storage.dfy`): the file map, file naming, the rollover search, the write.
- `Retrieval` (`retrieval.dfy`): range defaulting, the day-by-day and file-by-file read, the query.
- `RoundTrip` (`round_trip.dfy`): what a query returns after writes.

`SaveLog` generates an ID only when the record's ID is empty and keeps a
non-empty one (models/models.go:72); the model does the same.

## Model

| member | source | states |
|---|---|---|
| `Decimal.ValueOfDigits` | models/models.go:98 | reading the `%d` form of an index back as a number gives the index |
| `Decimal.DigitsInjective` | models/models.go:98 | two indices print the same `%d` text exactly when they are equal |
| `Decimal.ZeroPadRoundTrip` | models/models.go:49-53 | a field below 10^w printed zero-padded to width w is exactly w digits and reads back as the field |
| `Clock.IdTimeRoundTrip` | models/models.go:73 | for a valid reading with a four-digit year the "20060102150405" time part is exactly 14 digits and parses back to the reading, to the second |
| `Clock.LongYearWidensIdTime` | models/models.go:73 | a year of five or more digits makes the time part longer than 14 characters |
| `Clock.FormatDateInjective` | models/models.go:83 | two valid readings with four-digit years get the same partition name exactly when they fall on the same calendar day |
| `Clock.ReadingsAgree` | models/models.go:73-83 | of the three readings a write takes, the input time begins with the partition name exactly when its reading falls on the partition's day, and a generated ID begins with the partition's date digits exactly when the ID reading does |
| `ChatLogs.CharsetLayout` | models/models.go:55 | the charset has 62 symbols, exactly the ASCII letters and digits, each once, and `CharsetIndex` inverts indexing into it |
| `ChatLogs.RandomString` | models/models.go:61-67 | the random string has the requested length and every character is a charset symbol |
| `ChatLogs.RandomStringDecodes` | models/models.go:61-67 | each character of the random string identifies the draw that chose it, so different draws give different strings |
| `ChatLogs.AssignIdentity` | models/models.go:72-79 | the stamped record always has a non-empty ID and input time; a non-empty ID is kept; an empty one becomes the time part followed by 6 charset symbols, the i-th of which is the symbol the i-th draw selects; the input time is always overwritten; text and validation result are unchanged |
| `ChatLogs.GeneratedIdShape` | models/models.go:53-76 | a generated ID is 20 characters: the 14-digit time part of the reading, then 6 charset symbols that spell the random draws |
| `ChatLogs.NewYearIdShape` | models/models.go:72-76 | an ID generated on 2024-01-01 is `20240101`, six digits, and six alphanumeric characters |
| `Storage.RolloverNameInjective` | models/models.go:98 | `<date>_<n>.json` names for different n are different |
| `Storage.PrimaryIsNotRollover` | models/models.go:85-98 | `<date>.json` is never one of that date's rollover names |
| `Storage.SlotNameInjective` | models/models.go:85-98 | two slots of one date share a file name only if they are the same slot |
| `Storage.RolloverNamesCount` | models/models.go:97-104 | the rollover names with indices 1 to n-1 are n-1 distinct names |
| `Storage.FullRolloversFit` | models/models.go:97-104 | if rollover files 1 to n-1 are all present and full, the directory holds at least n-1 files |
| `Storage.FirstRolloverWithRoom` | models/models.go:96-104 | the search from index n returns the first index at or after n whose file is absent or below the limit, never beyond the number of files plus one, with every earlier index full |
| `Storage.SelectSlot` | models/models.go:92-106 | the chosen file is the primary file if that is absent or below 100 MiB, and otherwise the smallest n >= 1 with `<date>_n.json` absent or below the limit, every earlier one present and full |
| `Storage.FirstWithRoomIsUnique` | models/models.go:92-106 | a slot meets the rollover rule exactly when it is the selected slot |
| `Storage.FindTargetFile` | models/models.go:92-106 | the stat-and-increment loop terminates on every finite directory and returns the name of the selected slot, a file with room |
| `Storage.TargetFile` | models/models.go:81-106 | the file a write goes to has room and is the slot the rollover rule picks for the partition reading's date |
| `Storage.Save` | models/models.go:69-142 | a write fails exactly when the selected file exists but cannot be read, with that file's read error; otherwise it returns the stamped record |
| `Storage.SaveEffect` | models/models.go:108-139 | a successful write changes only the selected file; it holds its old records plus the new one at the end, or only the new one when it was absent or did not parse; its size is the serialised size |
| `Storage.SelectAfterChange` | models/models.go:92-106 | when only the selected slot's file changes, the rollover rule picks that slot again while its file has room, and otherwise a strictly later slot |
| `Storage.SaveKeepsOrAdvancesSlot` | models/models.go:92-106 | after a write the next write on that date goes to the same file while it is below the limit, and otherwise to a strictly later slot |
| `Retrieval.ResolveRange` | models/models.go:148-156 | an unset end becomes today and a set one is kept; a set start is kept; an unset start gives a range of eight days ending at the end |
| `Retrieval.ReadFile` | models/models.go:173-182 | reading one listed file succeeds exactly when it exists and parses, with its records; a parse failure is a parse error and a missing or unreadable file a read error, both naming the file |
| `Retrieval.WriteAndReadParse` | models/models.go:108-119 | where the query's read of a file succeeds, a write starts from the same records; a file that does not parse fails the query's read but is taken as empty by a write; a missing file fails the read and is empty for a write |
| `Retrieval.ReadFiles` | models/models.go:171-186 | a successful read of a day's files read every listed file; a failed one names one of the listed files with a read or parse error |
| `Retrieval.ReadDay` | models/models.go:161-186 | a day fails with a glob error exactly when its pattern is malformed, and any other error names one of the files its glob listed |
| `Retrieval.ReadDays` | models/models.go:159-190 | a range whose start is after its end yields no records and no error; a successful range query read every day in the range successfully |
| `Retrieval.Query` | models/models.go:145-160 | when the defaulted start is after the defaulted end the query returns no records and no error |
| `Retrieval.DefaultRanges` | models/models.go:148-156 | with no bounds the query walks today-7 to today, eight days; with only an end, the eight days ending there; with only a start, start to today; a start after the end walks no day |
| `Retrieval.ReadFilesSplit` | models/models.go:171-186 | reading a list of files is reading its first part and then its second part, records concatenated, the first error winning |
| `Retrieval.ReadDaysSplit` | models/models.go:159-190 | a range query is the query of its first days followed by the query of the remaining days, records concatenated in day order, the first error winning |
| `Retrieval.ReadFilesFailsAtFirstBadFile` | models/models.go:171-186 | reading a day's files fails exactly when some listed file is missing, unreadable or unparseable, and then with the first such file's error |
| `Retrieval.ReadDaysFailsAtFirstBadDay` | models/models.go:159-190 | a range query fails, with no records, exactly when some day in the range fails, and then with the earliest failing day's error |
| `Retrieval.FailingFileAborts` | models/models.go:171-183 | when a file fails after readable ones, the day's read fails with that file's error |
| `Retrieval.FailingDayAborts` | models/models.go:159-183 | when a day fails after successful days, the whole query fails with that day's error and returns no records |
| `Retrieval.ReadFilesContains` | models/models.go:171-186 | every record of every listed file is in a successful read of the day |
| `Retrieval.ReadDaysContains` | models/models.go:159-190 | every record a day yields is in a successful query over a range holding that day |
| `Retrieval.ReadListedFiles` | models/models.go:171-186 | the file loop with its early returns computes exactly the read of the listed files, in order, first failure winning |
| `Retrieval.GetLogs` | models/models.go:145-193 | the nested day and file loops with early returns compute exactly the defaulted range query |
| `RoundTrip.SlotNameMatchesDay` | models/models.go:165 | every file a write on a date can choose matches that date's `<date>*.json` pattern |
| `RoundTrip.WrittenRecordIsQueried` | models/models.go:109-185 | after a successful write, a successful query over a range holding the write's day, with a glob listing that day's files, contains the stored record |
| `RoundTrip.SaveToPrimary` | models/models.go:92-125 | while `<date>.json` has room and parses, and the array it will hold serialises below the limit, a write appends to it and it keeps its room |
| `RoundTrip.SaveAllStores` | models/models.go:72-79 | a successful run of writes stores exactly the stamped requests, in request order |
| `RoundTrip.SaveAllFillsPrimary` | models/models.go:92-139 | a run of writes on one date, each of whose arrays serialises below the limit, succeeds and leaves `<date>.json` holding its old records followed by exactly the stamped requests, in write order |
| `RoundTrip.WritesThenQueryDay` | models/models.go:109-192 | writing N requests to a fresh day, each array below the limit, and querying that day returns exactly the N stamped records in write order |

## Left out

- The process-wide `fileLock` and the unlocked read that can observe a file mid-rewrite: mutual exclusion and the race are not sequential properties.
- JSON: `json.Unmarshal` is the file's `content`, and a written array is assumed to parse back to itself; `json.MarshalIndent` is the `encodedSize` parameter, and its error (impossible for string-only records) is not modelled.
- Failures of `os.OpenFile` and `file.Write` (models/models.go:131-139) and the truncated file a failed write leaves: the file map carries no permissions and crash or partial-write states are not modelled.
- `time.Now`: each write takes three readings (ID, input time, partition date) as a parameter, because the source reads the clock three times. Calendar arithmetic (`AddDate`), time zones and `IsZero` are left out: query days are integers, an unset bound is `None`, and `dateOf` names a day's partition.
- Readings with negative years are not modelled (years are natural numbers).
- `rand.Intn`: the random source is a sequence of draws, each an index below 62; `rand.Seed` in `InitStorage` is left out.
- `filepath.Glob`: the `listing` parameter gives each day's matched names, in its own order, or `None` for a malformed pattern; its sorting is not modelled.
- `InitStorage` and the storage directory path: names in the map are relative to the directory, which both paths join in the same way.
- handlers/handlers.go and main.go: request binding, HTTP status codes, date parsing and route wiring. handlers/handlers.go:64 assigns a `bool` to the `string` field `ValidationResult`, which does not compile as written, so no mapping between the two is modelled; the field is carried through unchanged.
- `Storage.Save`: returns no record on the read-error path, although `SaveLog` stamps the caller's record in place (models/models.go:72-79) before the read can fail (models/models.go:111-114), so after a failed write the caller's record already holds the generated ID and input time; the model is a pure function from the record to a result, and that stamped record is `ChatLogs.AssignIdentity` of the same arguments, the value the success path returns.
- `ChatLogs.GeneratedIdShape`: states the 20-character shape only for valid readings with a year below 10000, because the year layout prints longer years with more digits (`Clock.LongYearWidensIdTime`).
- `RoundTrip.WritesThenQueryDay`: covers only runs in which every array written to `<date>.json` serialises below the size limit, on a fresh day whose glob lists the one primary file; runs that roll over are covered by `Storage.SaveKeepsOrAdvancesSlot` and `RoundTrip.WrittenRecordIsQueried` instead.
