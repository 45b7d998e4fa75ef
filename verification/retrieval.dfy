/**
 * The read side of the record store (`GetLogs`, models/models.go:144-193):
 * default the day range, then for every day in it, in ascending order, read
 * every file the day's glob lists and concatenate their records. Days are
 * integers; `dateOf` names a day's partition and `listing` stands for
 * `filepath.Glob(<date>*.json)` (`None` when the pattern is malformed).
 */
module Retrieval {
  import opened Wrappers
  import opened ChatLogs
  import opened Storage

  /** An inclusive range of days; empty when `first > last`. */
  datatype DayRange = DayRange(first: int, last: int)

  /** The days of a range, in the order the query walks them. */
  function Days(r: DayRange): (days: seq<int>)
    ensures |days| == if r.first <= r.last then r.last - r.first + 1 else 0
    ensures forall i :: 0 <= i < |days| ==> days[i] == r.first + i
  {
    if r.first <= r.last then seq(r.last - r.first + 1, i => r.first + i) else []
  }

  /** Defaulting of the bounds: an unset end is today, an unset start is seven days before the end. */
  function ResolveRange(start: Option<int>, end: Option<int>, today: int): (r: DayRange)
    ensures r.last == if end.Some? then end.value else today
    ensures start.Some? ==> r.first == start.value
    ensures start.None? ==> |Days(r)| == 8 && Days(r)[7] == r.last
  {
    var last := if end.Some? then end.value else today;
    var first := if start.Some? then start.value else last - 7;
    DayRange(first, last)
  }

  /** The names `filepath.Glob(<date>*.json)` can match in the storage directory. */
  predicate MatchesDay(date: string, name: string) {
    && |date| + 5 <= |name|
    && name[..|date|] == date
    && name[|name| - 5..] == ".json"
  }

  /** The day's glob succeeds and lists every stored file its pattern matches. */
  predicate ListsDay(fs: FileSystem, listing: string -> Option<seq<string>>, date: string) {
    && listing(date).Some?
    && forall name :: name in fs && MatchesDay(date, name) ==> name in listing(date).value
  }

  /** Chains two reads: the first failure wins, otherwise the records are concatenated. */
  function Then(a: Result<seq<ChatLog>, StoreError>, b: Result<seq<ChatLog>, StoreError>): (r: Result<seq<ChatLog>, StoreError>) {
    if a.Err? then a else if b.Err? then b else Ok(a.value + b.value)
  }

  /** `os.ReadFile` then `json.Unmarshal` of one listed file; unlike a write, a parse failure is an error. */
  function ReadFile(fs: FileSystem, path: string): (r: Result<seq<ChatLog>, StoreError>)
    ensures r.Ok? <==> path in fs && fs[path].content.Records?
    ensures r.Ok? ==> r.value == fs[path].content.logs
    ensures r.Err? && path in fs && fs[path].content.Garbage? ==> r.error == ParseFailed(path)
    ensures r.Err? && (path !in fs || fs[path].content.Unreadable?) ==> r.error == ReadFailed(path)
  {
    if path !in fs then Err(ReadFailed(path))
    else match fs[path].content
      case Records(logs) => Ok(logs)
      case Garbage => Err(ParseFailed(path))
      case Unreadable => Err(ReadFailed(path))
  }

  /** The inner loop: the listed files in order, stopping at the first failure. */
  function ReadFiles(fs: FileSystem, paths: seq<string>): (r: Result<seq<ChatLog>, StoreError>)
    ensures r.Ok? ==> forall i :: 0 <= i < |paths| ==> ReadFile(fs, paths[i]).Ok?
    ensures r.Err? ==> (r.error.ReadFailed? || r.error.ParseFailed?) && r.error.path in paths
  {
    if |paths| == 0 then Ok([])
    else Then(ReadFiles(fs, paths[..|paths| - 1]), ReadFile(fs, paths[|paths| - 1]))
  }

  /** One day: glob its partition, then read what the glob lists. */
  function ReadDay(fs: FileSystem, date: string, listing: string -> Option<seq<string>>): (r: Result<seq<ChatLog>, StoreError>)
    ensures r.Err? && r.error.GlobFailed? <==> listing(date).None?
    ensures r.Err? && !r.error.GlobFailed? ==> r.error.path in listing(date).value
  {
    match listing(date)
    case None => Err(GlobFailed(date + "*.json"))
    case Some(paths) => ReadFiles(fs, paths)
  }

  /** The outer loop: the days `first .. last` in ascending order, stopping at the first failure. */
  function ReadDays(fs: FileSystem, first: int, last: int, dateOf: int -> string, listing: string -> Option<seq<string>>)
    : (r: Result<seq<ChatLog>, StoreError>)
    ensures last < first ==> r == Ok([])
    ensures r.Ok? ==> forall d :: first <= d <= last ==> ReadDay(fs, dateOf(d), listing).Ok?
    decreases if first <= last then last - first + 1 else 0
  {
    if last < first then Ok([])
    else Then(ReadDays(fs, first, last - 1, dateOf, listing), ReadDay(fs, dateOf(last), listing))
  }

  /** `GetLogs` with its bounds defaulted. */
  function Query(fs: FileSystem, start: Option<int>, end: Option<int>, today: int,
                 dateOf: int -> string, listing: string -> Option<seq<string>>)
    : (r: Result<seq<ChatLog>, StoreError>)
    ensures ResolveRange(start, end, today).first > ResolveRange(start, end, today).last ==> r == Ok([])
  {
    var range := ResolveRange(start, end, today);
    ReadDays(fs, range.first, range.last, dateOf, listing)
  }

  /** `Then` is associative, so chained reads may be grouped either way. */
  lemma ThenAssociative(a: Result<seq<ChatLog>, StoreError>, b: Result<seq<ChatLog>, StoreError>, c: Result<seq<ChatLog>, StoreError>)
    ensures Then(Then(a, b), c) == Then(a, Then(b, c))
  {
    if a.Ok? && b.Ok? && c.Ok? {
      assert (a.value + b.value) + c.value == a.value + (b.value + c.value);
    }
  }

  /** Reading `p + q` is reading `p` and then reading `q`. */
  lemma {:induction false} ReadFilesSplit(fs: FileSystem, p: seq<string>, q: seq<string>)
    ensures ReadFiles(fs, p + q) == Then(ReadFiles(fs, p), ReadFiles(fs, q))
    decreases |q|
  {
    if |q| == 0 {
      assert p + q == p;
      assert ReadFiles(fs, p).Ok? ==> ReadFiles(fs, p).value + [] == ReadFiles(fs, p).value;
    } else {
      var q' := q[..|q| - 1];
      assert (p + q)[..|p + q| - 1] == p + q';
      ReadFilesSplit(fs, p, q');
      ThenAssociative(ReadFiles(fs, p), ReadFiles(fs, q'), ReadFile(fs, q[|q| - 1]));
    }
  }

  /**
   * A query over `first .. last` is the query over `first .. mid` followed by
   * the query over `mid+1 .. last`: the result is the day-by-day concatenation,
   * and the first failing day decides the error.
   */
  lemma {:induction false} ReadDaysSplit(fs: FileSystem, first: int, mid: int, last: int,
                                         dateOf: int -> string, listing: string -> Option<seq<string>>)
    requires first - 1 <= mid <= last
    ensures ReadDays(fs, first, last, dateOf, listing)
         == Then(ReadDays(fs, first, mid, dateOf, listing), ReadDays(fs, mid + 1, last, dateOf, listing))
    decreases last - mid
  {
    if mid < last {
      ReadDaysSplit(fs, first, mid, last - 1, dateOf, listing);
      ThenAssociative(ReadDays(fs, first, mid, dateOf, listing), ReadDays(fs, mid + 1, last - 1, dateOf, listing),
                      ReadDay(fs, dateOf(last), listing));
    } else {
      assert ReadDays(fs, mid + 1, last, dateOf, listing) == Ok([]);
      assert ReadDays(fs, first, mid, dateOf, listing).Ok? ==>
        ReadDays(fs, first, mid, dateOf, listing).value + [] == ReadDays(fs, first, mid, dateOf, listing).value;
    }
  }

  /**
   * A file-level read fails exactly when some listed file is missing,
   * unreadable or unparseable, and then with the error of the first such file.
   */
  lemma {:induction false} ReadFilesFailsAtFirstBadFile(fs: FileSystem, paths: seq<string>)
    ensures ReadFiles(fs, paths).Err? <==> exists i :: 0 <= i < |paths| && ReadFile(fs, paths[i]).Err?
    ensures ReadFiles(fs, paths).Err? ==>
      exists i :: 0 <= i < |paths| && ReadFile(fs, paths[i]) == ReadFiles(fs, paths)
        && forall j :: 0 <= j < i ==> ReadFile(fs, paths[j]).Ok?
  {
    if |paths| > 0 {
      var init := paths[..|paths| - 1];
      ReadFilesFailsAtFirstBadFile(fs, init);
      if ReadFiles(fs, init).Err? {
        var i :| 0 <= i < |init| && ReadFile(fs, init[i]) == ReadFiles(fs, init)
          && forall j :: 0 <= j < i ==> ReadFile(fs, init[j]).Ok?;
        assert paths[i] == init[i];
        assert forall j :: 0 <= j < i ==> paths[j] == init[j];
      } else if ReadFile(fs, paths[|paths| - 1]).Err? {
        assert forall j :: 0 <= j < |paths| - 1 ==> paths[j] == init[j];
      } else {
        forall i | 0 <= i < |paths|
          ensures ReadFile(fs, paths[i]).Ok?
        {
          if i < |paths| - 1 {
            assert paths[i] == init[i];
          }
        }
      }
    }
  }

  /**
   * A range query fails exactly when some day in the range fails, and then
   * with the error of the earliest failing day.
   */
  lemma {:induction false} ReadDaysFailsAtFirstBadDay(fs: FileSystem, first: int, last: int,
                                                      dateOf: int -> string, listing: string -> Option<seq<string>>)
    ensures ReadDays(fs, first, last, dateOf, listing).Err?
        <==> exists d :: first <= d <= last && ReadDay(fs, dateOf(d), listing).Err?
    ensures ReadDays(fs, first, last, dateOf, listing).Err? ==>
      exists d :: first <= d <= last && ReadDay(fs, dateOf(d), listing) == ReadDays(fs, first, last, dateOf, listing)
        && forall e :: first <= e < d ==> ReadDay(fs, dateOf(e), listing).Ok?
    decreases if first <= last then last - first + 1 else 0
  {
    if first <= last {
      ReadDaysFailsAtFirstBadDay(fs, first, last - 1, dateOf, listing);
    }
  }

  /** Every record of every listed, parsed file appears in a successful read of the list. */
  lemma {:induction false} ReadFilesContains(fs: FileSystem, paths: seq<string>, i: int)
    requires ReadFiles(fs, paths).Ok?
    requires 0 <= i < |paths|
    ensures ReadFile(fs, paths[i]).Ok?
    ensures forall x :: x in ReadFile(fs, paths[i]).value ==> x in ReadFiles(fs, paths).value
  {
    var init := paths[..|paths| - 1];
    if i < |paths| - 1 {
      assert paths[i] == init[i];
      ReadFilesContains(fs, init, i);
    }
  }

  /** Every record a day yields appears in a successful query over a range holding that day. */
  lemma {:induction false} ReadDaysContains(fs: FileSystem, first: int, last: int, d: int,
                                            dateOf: int -> string, listing: string -> Option<seq<string>>)
    requires ReadDays(fs, first, last, dateOf, listing).Ok?
    requires first <= d <= last
    ensures ReadDay(fs, dateOf(d), listing).Ok?
    ensures forall x :: x in ReadDay(fs, dateOf(d), listing).value ==> x in ReadDays(fs, first, last, dateOf, listing).value
    decreases last - first
  {
    if d < last {
      ReadDaysContains(fs, first, last - 1, d, dateOf, listing);
    }
  }

  /** A file that fails after readable ones decides the whole day's read. */
  lemma FailingFileAborts(fs: FileSystem, paths: seq<string>, j: int)
    requires 0 <= j < |paths|
    requires ReadFiles(fs, paths[..j]).Ok? && ReadFile(fs, paths[j]).Err?
    ensures ReadFiles(fs, paths) == ReadFile(fs, paths[j])
  {
    assert paths[..j + 1][..j] == paths[..j];
    ReadFilesSplit(fs, paths[..j + 1], paths[j + 1..]);
    assert paths[..j + 1] + paths[j + 1..] == paths;
  }

  /** A day that fails after successful ones decides the whole range query. */
  lemma FailingDayAborts(fs: FileSystem, first: int, d: int, last: int,
                         dateOf: int -> string, listing: string -> Option<seq<string>>)
    requires first <= d <= last
    requires ReadDays(fs, first, d - 1, dateOf, listing).Ok? && ReadDay(fs, dateOf(d), listing).Err?
    ensures ReadDays(fs, first, last, dateOf, listing) == ReadDay(fs, dateOf(d), listing)
  {
    ReadDaysSplit(fs, first, d, last, dateOf, listing);
  }

  /**
   * The write path and the read path parse a partition file alike but treat
   * failure differently: where the read succeeds the write starts from the
   * same records; a file that does not parse fails the read but is taken as
   * empty by the write; a missing file fails the read and is empty for the
   * write; an unreadable file fails both.
   */
  lemma WriteAndReadParse(fs: FileSystem, path: string)
    ensures ReadFile(fs, path).Ok? ==> ExistingRecords(fs, path) == ReadFile(fs, path).value
    ensures ReadFile(fs, path) == Err(ParseFailed(path)) ==> ExistingRecords(fs, path) == []
    ensures path !in fs ==> ExistingRecords(fs, path) == [] && ReadFile(fs, path) == Err(ReadFailed(path))
    ensures path in fs && fs[path].content.Unreadable? ==> ReadFile(fs, path) == Err(ReadFailed(path))
  {
  }

  /**
   * Left alone, the query covers exactly eight consecutive days, ending
   * today; with only an end it covers the eight days ending there; with only
   * a start, the days from the start through today.
   */
  lemma DefaultRanges(today: int, start: int, end: int)
    ensures Days(ResolveRange(None, None, today)) == [today - 7, today - 6, today - 5, today - 4, today - 3, today - 2, today - 1, today]
    ensures |Days(ResolveRange(None, Some(end), today))| == 8 && Days(ResolveRange(None, Some(end), today))[7] == end
    ensures start <= today ==> Days(ResolveRange(Some(start), None, today)) == seq(today - start + 1, i => start + i)
    ensures start > end ==> Days(ResolveRange(Some(start), Some(end), today)) == []
  {
  }

  /**
   * The inner loop of `GetLogs`: read and parse each listed file in order,
   * appending its records; the first failure aborts with that file's error.
   */
  method ReadListedFiles(fs: FileSystem, paths: seq<string>) returns (r: Result<seq<ChatLog>, StoreError>)
    ensures r == ReadFiles(fs, paths)
  {
    var logs: seq<ChatLog> := [];
    var j := 0;
    while j < |paths|
      invariant 0 <= j <= |paths|
      invariant ReadFiles(fs, paths[..j]) == Ok(logs)
    {
      var file := ReadFile(fs, paths[j]);
      assert paths[..j + 1][..j] == paths[..j];
      if file.Err? {
        r := file;
        FailingFileAborts(fs, paths, j);
        return;
      }
      logs := logs + file.value;
      j := j + 1;
    }
    assert paths[..j] == paths;
    r := Ok(logs);
  }

  /**
   * The loops of `GetLogs`: walk the days from the resolved start while not
   * past the resolved end, glob each day's files, read and parse each in
   * order, and append the records; the first failure aborts with no records.
   */
  method GetLogs(fs: FileSystem, start: Option<int>, end: Option<int>, today: int,
                 dateOf: int -> string, listing: string -> Option<seq<string>>)
    returns (r: Result<seq<ChatLog>, StoreError>)
    ensures r == Query(fs, start, end, today, dateOf, listing)
  {
    var allLogs: seq<ChatLog> := [];
    var endDay := if end.Some? then end.value else today;
    var startDay := if start.Some? then start.value else endDay - 7;
    assert ResolveRange(start, end, today) == DayRange(startDay, endDay);
    var current := startDay;
    while current <= endDay
      invariant startDay <= current <= if startDay <= endDay then endDay + 1 else startDay
      invariant ReadDays(fs, startDay, current - 1, dateOf, listing) == Ok(allLogs)
      decreases endDay - current
    {
      var date := dateOf(current);
      var files := listing(date);
      if files.None? {
        r := Err(GlobFailed(date + "*.json"));
        FailingDayAborts(fs, startDay, current, endDay, dateOf, listing);
        return;
      }
      var paths := files.value;
      var dayLogs := ReadListedFiles(fs, paths);
      if dayLogs.Err? {
        r := dayLogs;
        FailingDayAborts(fs, startDay, current, endDay, dateOf, listing);
        return;
      }
      allLogs := allLogs + dayLogs.value;
      current := current + 1;
    }
    r := Ok(allLogs);
  }
}
