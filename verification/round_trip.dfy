/**
 * How the write path and the read path meet: a stored record is found again
 * by any successful query whose range holds its partition day, and a run of
 * writes each of which leaves the file below the size limit reads back as
 * exactly the stamped records in write order.
 */
module RoundTrip {
  import opened Wrappers
  import opened Clock
  import opened ChatLogs
  import opened Storage
  import opened Retrieval

  /** Every file a write can pick for `date` is one that date's glob pattern matches. */
  lemma SlotNameMatchesDay(date: string, slot: Slot)
    ensures MatchesDay(date, SlotName(date, slot))
  {
    var name := SlotName(date, slot);
    assert name[..|date|] == date;
    assert name[|name| - 5..] == ".json";
  }

  /**
   * After a successful write, any successful query over a day range that
   * holds the record's partition day, with a glob that lists that day's files,
   * returns the stored record.
   */
  lemma WrittenRecordIsQueried(fs: FileSystem, log: ChatLog, now: Readings, draws: seq<int>,
                               encodedSize: seq<ChatLog> -> nat,
                               first: int, last: int, day: int,
                               dateOf: int -> string, listing: string -> Option<seq<string>>)
    requires |draws| == RandomPartLength && ValidDraws(draws)
    requires Save(fs, log, now, draws, encodedSize).Ok?
    requires first <= day <= last && dateOf(day) == FormatDate(now.forPartition)
    requires ListsDay(Save(fs, log, now, draws, encodedSize).value.1, listing, dateOf(day))
    requires ReadDays(Save(fs, log, now, draws, encodedSize).value.1, first, last, dateOf, listing).Ok?
    ensures Save(fs, log, now, draws, encodedSize).value.0
         in ReadDays(Save(fs, log, now, draws, encodedSize).value.1, first, last, dateOf, listing).value
  {
    var (stored, fs') := Save(fs, log, now, draws, encodedSize).value;
    var date := FormatDate(now.forPartition);
    var path := TargetFile(fs, now);
    SaveEffect(fs, log, now, draws, encodedSize);
    SlotNameMatchesDay(date, SelectSlot(fs, date));
    ReadDaysContains(fs', first, last, day, dateOf, listing);
    var paths := listing(date).value;
    assert path in paths;
    var i :| 0 <= i < |paths| && paths[i] == path;
    ReadFilesContains(fs', paths, i);
    assert stored in fs'[path].content.logs;
  }

  /** One write request: the record, the clock readings, the random draws. */
  datatype Request = Request(log: ChatLog, now: Readings, draws: seq<int>)

  /** A request whose draws are six results of `rand.Intn(62)`. */
  type Write = w: Request | |w.draws| == RandomPartLength && ValidDraws(w.draws)
    witness Request(ChatLog("", "", "", ""),
                    Readings(DateTime(0, 0, 0, 0, 0, 0, 0), DateTime(0, 0, 0, 0, 0, 0, 0), DateTime(0, 0, 0, 0, 0, 0, 0)),
                    [0, 0, 0, 0, 0, 0])

  /** The record a request stores: its log stamped with an ID and an input time. */
  function Stamp(w: Write): (r: ChatLog)
    ensures r.text == w.log.text && r.inputTime == FormatInputTime(w.now.forInputTime)
  {
    AssignIdentity(w.log, w.now.forId, w.now.forInputTime, w.draws)
  }

  /** The records a run of requests stores, in request order. */
  function Stamped(batch: seq<Write>): (r: seq<ChatLog>)
    ensures |r| == |batch|
    ensures forall i :: 0 <= i < |batch| ==> r[i] == Stamp(batch[i])
  {
    Map(Stamp, batch)
  }

  /** `f` applied to every element, in order. */
  function Map<A, B>(f: A -> B, s: seq<A>): (r: seq<B>)
    ensures |r| == |s|
    ensures forall i :: 0 <= i < |s| ==> r[i] == f(s[i])
  {
    seq(|s|, i requires 0 <= i < |s| => f(s[i]))
  }

  /** Mapping a non-empty sequence is mapping its head, then its tail. */
  lemma MapCons<A, B>(f: A -> B, s: seq<A>)
    requires |s| > 0
    ensures Map(f, s) == [f(s[0])] + Map(f, s[1..])
  {
    var a, b := Map(f, s), [f(s[0])] + Map(f, s[1..]);
    assert forall k :: 0 <= k < |a| ==> a[k] == b[k];
  }

  /**
   * Every array the run writes to a file that started with `existing`
   * serialises below the size limit: the file holds `existing` and the
   * records stored so far, and after each write it still has room.
   */
  predicate PrefixesFit(existing: seq<ChatLog>, batch: seq<Write>, encodedSize: seq<ChatLog> -> nat)
    decreases |batch|
  {
    |batch| > 0 ==>
      && encodedSize(existing + [Stamp(batch[0])]) < MaxFileSize
      && PrefixesFit(existing + [Stamp(batch[0])], batch[1..], encodedSize)
  }

  /** Writes applied one after another; stops at the first failing write. */
  function SaveAll(fs: FileSystem, batch: seq<Write>, encodedSize: seq<ChatLog> -> nat)
    : (r: Result<(seq<ChatLog>, FileSystem), StoreError>)
    ensures r.Ok? ==> |r.value.0| == |batch|
    ensures r.Err? ==> r.error.ReadFailed?
    decreases |batch|
  {
    if |batch| == 0 then Ok(([], fs))
    else
      match Save(fs, batch[0].log, batch[0].now, batch[0].draws, encodedSize)
      case Err(e) => Err(e)
      case Ok((stored, fs')) =>
        match SaveAll(fs', batch[1..], encodedSize)
        case Err(e) => Err(e)
        case Ok((rest, fs'')) => Ok(([stored] + rest, fs''))
  }

  /** One write on `date` while `<date>.json` has room and parses: it is appended there. */
  lemma SaveToPrimary(fs: FileSystem, w: Write, encodedSize: seq<ChatLog> -> nat, date: string)
    requires FormatDate(w.now.forPartition) == date
    requires encodedSize(ExistingRecords(fs, PrimaryName(date)) + [Stamp(w)]) < MaxFileSize
    requires HasRoom(fs, PrimaryName(date))
    requires PrimaryName(date) in fs ==> fs[PrimaryName(date)].content.Records?
    ensures Save(fs, w.log, w.now, w.draws, encodedSize).Ok?
    ensures var fs' := Save(fs, w.log, w.now, w.draws, encodedSize).value.1;
      && PrimaryName(date) in fs'
      && ExistingRecords(fs', PrimaryName(date))
         == ExistingRecords(fs, PrimaryName(date)) + [Save(fs, w.log, w.now, w.draws, encodedSize).value.0]
      && fs'[PrimaryName(date)].content.Records?
      && HasRoom(fs', PrimaryName(date))
  {
    assert SelectSlot(fs, date) == Primary;
    assert TargetFile(fs, w.now) == PrimaryName(date);
    SaveEffect(fs, w.log, w.now, w.draws, encodedSize);
  }

  /**
   * `name` went from `fs` to `fs'` by appending `stored`: it still parses,
   * still has room, and holds its old records followed by `stored`.
   */
  predicate AppendedTo(fs: FileSystem, fs': FileSystem, stored: seq<ChatLog>, name: string) {
    && ExistingRecords(fs', name) == ExistingRecords(fs, name) + stored
    && (name in fs || |stored| > 0 ==> name in fs')
    && (name in fs' ==> fs'[name].content.Records?)
    && HasRoom(fs', name)
  }

  /** Two appends in a row are one append of both runs. */
  lemma AppendedTwice(fs: FileSystem, fs1: FileSystem, fs2: FileSystem, x: seq<ChatLog>, y: seq<ChatLog>, name: string)
    requires AppendedTo(fs, fs1, x, name) && AppendedTo(fs1, fs2, y, name)
    ensures AppendedTo(fs, fs2, x + y, name)
  {
    var e := ExistingRecords(fs, name);
    assert (e + x) + y == e + (x + y);
  }

  /**
   * A run of writes on one date, each leaving `<date>.json` below the size
   * limit, all land in `<date>.json`, after whatever it already held, in
   * write order, and store exactly the stamped requests.
   */
  lemma {:induction false} SaveAllFillsPrimary(fs: FileSystem, batch: seq<Write>, encodedSize: seq<ChatLog> -> nat, date: string)
    requires forall i :: 0 <= i < |batch| ==> FormatDate(batch[i].now.forPartition) == date
    requires PrefixesFit(ExistingRecords(fs, PrimaryName(date)), batch, encodedSize)
    requires HasRoom(fs, PrimaryName(date))
    requires PrimaryName(date) in fs ==> fs[PrimaryName(date)].content.Records?
    ensures SaveAll(fs, batch, encodedSize).Ok?
    ensures var (stored, fs') := SaveAll(fs, batch, encodedSize).value;
      && stored == Stamped(batch)
      && AppendedTo(fs, fs', stored, PrimaryName(date))
    decreases |batch|
  {
    var name := PrimaryName(date);
    if |batch| == 0 {
      assert SaveAll(fs, batch, encodedSize) == Ok(([], fs));
      assert ExistingRecords(fs, name) + [] == ExistingRecords(fs, name);
    } else {
      var w, tail := batch[0], batch[1..];
      assert FormatDate(w.now.forPartition) == date;
      SaveToPrimary(fs, w, encodedSize, date);
      var (s0, fs1) := Save(fs, w.log, w.now, w.draws, encodedSize).value;
      assert AppendedTo(fs, fs1, [s0], name);
      assert forall i :: 0 <= i < |tail| ==> tail[i] == batch[i + 1];
      SaveAllFillsPrimary(fs1, tail, encodedSize, date);
      var (rest, fs2) := SaveAll(fs1, tail, encodedSize).value;
      AppendedTwice(fs, fs1, fs2, [s0], rest, name);
      SaveAllStep(fs, batch, encodedSize);
    }
    SaveAllStores(fs, batch, encodedSize);
  }

  /** A successful run of writes stores exactly the stamped requests, in order. */
  lemma {:induction false} SaveAllStores(fs: FileSystem, batch: seq<Write>, encodedSize: seq<ChatLog> -> nat)
    requires SaveAll(fs, batch, encodedSize).Ok?
    ensures SaveAll(fs, batch, encodedSize).value.0 == Stamped(batch)
    decreases |batch|
  {
    if |batch| > 0 {
      var w := batch[0];
      var fs1 := Save(fs, w.log, w.now, w.draws, encodedSize).value.1;
      SaveAllStores(fs1, batch[1..], encodedSize);
      SaveAllStep(fs, batch, encodedSize);
      MapCons(Stamp, batch);
    }
  }

  /** Unfolds one successful step of `SaveAll`. */
  lemma SaveAllStep(fs: FileSystem, batch: seq<Write>, encodedSize: seq<ChatLog> -> nat)
    requires |batch| > 0
    requires Save(fs, batch[0].log, batch[0].now, batch[0].draws, encodedSize).Ok?
    requires SaveAll(Save(fs, batch[0].log, batch[0].now, batch[0].draws, encodedSize).value.1, batch[1..], encodedSize).Ok?
    ensures var first := Save(fs, batch[0].log, batch[0].now, batch[0].draws, encodedSize).value;
      var rest := SaveAll(first.1, batch[1..], encodedSize).value;
      SaveAll(fs, batch, encodedSize) == Ok(([first.0] + rest.0, rest.1))
  {
  }

  /**
   * Writing N records on one date to a fresh partition, each write leaving
   * the file below the size limit, and then querying that day, when the glob
   * lists the one file `<date>.json`, returns exactly the N stamped records
   * in write order.
   */
  lemma WritesThenQueryDay(fs: FileSystem, batch: seq<Write>, encodedSize: seq<ChatLog> -> nat,
                           day: int, dateOf: int -> string, listing: string -> Option<seq<string>>)
    requires forall i :: 0 <= i < |batch| ==> FormatDate(batch[i].now.forPartition) == dateOf(day)
    requires PrefixesFit([], batch, encodedSize)
    requires PrimaryName(dateOf(day)) !in fs
    requires |batch| > 0 && listing(dateOf(day)) == Some([PrimaryName(dateOf(day))])
    ensures SaveAll(fs, batch, encodedSize).Ok?
    ensures SaveAll(fs, batch, encodedSize).value.0 == Stamped(batch)
    ensures Query(SaveAll(fs, batch, encodedSize).value.1, Some(day), Some(day), day, dateOf, listing)
         == Ok(Stamped(batch))
  {
    var date := dateOf(day);
    var primary := PrimaryName(date);
    assert ExistingRecords(fs, primary) == [];
    SaveAllFillsPrimary(fs, batch, encodedSize, date);
    var stored := SaveAll(fs, batch, encodedSize).value.0;
    var fs' := SaveAll(fs, batch, encodedSize).value.1;
    assert [] + stored == stored;
    assert ExistingRecords(fs', primary) == stored;
    assert fs'[primary].content == Records(stored);
    assert ReadFile(fs', primary) == Ok(stored);
    assert ReadFiles(fs', [primary]) == Then(ReadFiles(fs', []), ReadFile(fs', primary));
    assert ReadDay(fs', date, listing) == Ok(stored);
    assert ReadDays(fs', day, day - 1, dateOf, listing) == Ok([]);
    assert ReadDays(fs', day, day, dateOf, listing) == Ok(stored);
  }
}
