/**
 * The write side of the record store (`SaveLog`, models/models.go:69-142) over
 * an abstract storage directory: a finite map from file name to the file's
 * size and what its contents parse to. Names are relative to the storage
 * directory, which both the write and the read path join in the same way.
 */
module Storage {
  import opened Wrappers
  import opened Decimal
  import opened Clock
  import opened ChatLogs

  /** `maxFileSize`: a file at or above 100 MiB takes no further records. */
  const MaxFileSize: nat := 100 * 1024 * 1024

  /** What `json.Unmarshal` makes of a file's bytes, or that reading them failed. */
  datatype Content =
    | Records(logs: seq<ChatLog>)  // a JSON array of records
    | Garbage                      // bytes that do not parse as an array of records
    | Unreadable                   // `os.Stat` succeeds but `os.ReadFile` fails

  /** A file as `os.Stat` and `os.ReadFile` see it. */
  datatype File = File(size: nat, content: Content)

  type FileSystem = map<string, File>

  /** Why a store operation failed, with the file or pattern involved. */
  datatype StoreError =
    | ReadFailed(path: string)
    | ParseFailed(path: string)
    | GlobFailed(pattern: string)

  /** The file a write may use within one day's partition. */
  datatype Slot = Primary | Rollover(index: nat)

  /** `<date>.json` */
  function PrimaryName(date: string): string {
    date + ".json"
  }

  /** `<date>_<n>.json`, the index printed with `%d`. */
  function RolloverName(date: string, n: nat): string {
    date + "_" + Digits(n) + ".json"
  }

  function SlotName(date: string, slot: Slot): string {
    match slot
    case Primary => PrimaryName(date)
    case Rollover(n) => RolloverName(date, n)
  }

  /** Slots in the order the writer tries them: the primary file, then rollover 1, 2, ... */
  predicate SlotBefore(a: Slot, b: Slot) {
    match (a, b)
    case (Primary, Rollover(_)) => true
    case (Rollover(m), Rollover(n)) => m < n
    case _ => false
  }

  /** A file a write may go to: `os.Stat` fails, or the size is below the limit. */
  predicate HasRoom(fs: FileSystem, name: string) {
    name !in fs || fs[name].size < MaxFileSize
  }

  /**
   * The rollover rule: the primary file if it has room; otherwise the rollover
   * file with the smallest index n >= 1 that has room, every earlier one being
   * present and full.
   */
  predicate IsFirstWithRoom(fs: FileSystem, date: string, slot: Slot) {
    && HasRoom(fs, SlotName(date, slot))
    && match slot
       case Primary => true
       case Rollover(n) =>
         && 1 <= n
         && !HasRoom(fs, PrimaryName(date))
         && forall k :: 1 <= k < n ==> !HasRoom(fs, RolloverName(date, k))
  }

  /** Different indices give different rollover names. */
  lemma RolloverNameInjective(date: string, a: nat, b: nat)
    ensures RolloverName(date, a) == RolloverName(date, b) <==> a == b
  {
    if RolloverName(date, a) == RolloverName(date, b) {
      var s, t := RolloverName(date, a), RolloverName(date, b);
      assert |Digits(a)| == |Digits(b)|;
      assert s[|date| + 1..|s| - 5] == Digits(a);
      assert t[|date| + 1..|t| - 5] == Digits(b);
      DigitsInjective(a, b);
    }
  }

  /** The primary name is never a rollover name of the same date. */
  lemma PrimaryIsNotRollover(date: string, n: nat)
    ensures PrimaryName(date) != RolloverName(date, n)
  {
    assert PrimaryName(date)[|date|] == '.';
    assert RolloverName(date, n)[|date|] == '_';
  }

  /** Slot names of one date coincide only for the same slot. */
  lemma SlotNameInjective(date: string, a: Slot, b: Slot)
    ensures SlotName(date, a) == SlotName(date, b) <==> a == b
  {
    match (a, b)
    case (Primary, Rollover(n)) => PrimaryIsNotRollover(date, n);
    case (Rollover(n), Primary) => PrimaryIsNotRollover(date, n);
    case (Rollover(m), Rollover(n)) => RolloverNameInjective(date, m, n);
    case (Primary, Primary) =>
  }

  /** The rollover names with indices 1 .. n-1 are n-1 distinct names. */
  lemma {:induction false} RolloverNamesCount(date: string, n: nat)
    requires 1 <= n
    ensures |set k | 1 <= k < n :: RolloverName(date, k)| == n - 1
  {
    if n > 1 {
      RolloverNamesCount(date, n - 1);
      var before := set k | 1 <= k < n - 1 :: RolloverName(date, k);
      var all := set k | 1 <= k < n :: RolloverName(date, k);
      assert all == before + {RolloverName(date, n - 1)};
      forall k | 1 <= k < n - 1
        ensures RolloverName(date, k) != RolloverName(date, n - 1)
      {
        RolloverNameInjective(date, k, n - 1);
      }
    }
  }

  /** Pigeonhole: n-1 full rollover files in a row are n-1 keys of the map. */
  lemma FullRolloversFit(fs: FileSystem, date: string, n: nat)
    requires 1 <= n
    requires forall k :: 1 <= k < n ==> !HasRoom(fs, RolloverName(date, k))
    ensures n - 1 <= |fs.Keys|
  {
    RolloverNamesCount(date, n);
    var names := set k | 1 <= k < n :: RolloverName(date, k);
    assert names <= fs.Keys;
    SubsetCardinality(names, fs.Keys);
  }

  lemma {:induction false} SubsetCardinality<T>(a: set<T>, b: set<T>)
    requires a <= b
    ensures |a| <= |b|
  {
    if a != {} {
      var x :| x in a;
      SubsetCardinality(a - {x}, b - {x});
    }
  }

  /** The first rollover index at or after `n` that has room; all before it are full. */
  function FirstRolloverWithRoom(fs: FileSystem, date: string, n: nat): (m: nat)
    requires 1 <= n
    requires forall k :: 1 <= k < n ==> !HasRoom(fs, RolloverName(date, k))
    ensures n <= m <= |fs.Keys| + 1
    ensures HasRoom(fs, RolloverName(date, m))
    ensures forall k :: 1 <= k < m ==> !HasRoom(fs, RolloverName(date, k))
    decreases |fs.Keys| + 1 - n
  {
    FullRolloversFit(fs, date, n);
    if HasRoom(fs, RolloverName(date, n)) then n
    else
      FullRolloversFit(fs, date, n + 1);
      FirstRolloverWithRoom(fs, date, n + 1)
  }

  /** The slot a write on `date` goes to; the search never passes index |fs| + 1. */
  function SelectSlot(fs: FileSystem, date: string): (slot: Slot)
    ensures IsFirstWithRoom(fs, date, slot)
    ensures slot.Rollover? ==> slot.index <= |fs.Keys| + 1
  {
    if HasRoom(fs, PrimaryName(date)) then Primary
    else Rollover(FirstRolloverWithRoom(fs, date, 1))
  }

  /** The rollover rule has exactly one answer, and `SelectSlot` finds it. */
  lemma FirstWithRoomIsUnique(fs: FileSystem, date: string, slot: Slot)
    ensures IsFirstWithRoom(fs, date, slot) <==> slot == SelectSlot(fs, date)
  {
  }

  /**
   * The search loop of `SaveLog`: stat the primary file, and while the
   * candidate is full try `<date>_1.json`, `<date>_2.json`, ... The loop ends
   * because every full candidate it passes is a distinct key of the finite map.
   */
  method FindTargetFile(fs: FileSystem, date: string) returns (path: string)
    ensures path == SlotName(date, SelectSlot(fs, date))
    ensures HasRoom(fs, path)
  {
    path := PrimaryName(date);
    var fileIndex: nat := 1;
    if path in fs {
      if fs[path].size >= MaxFileSize {
        while true
          invariant 1 <= fileIndex <= |fs.Keys| + 1
          invariant forall k :: 1 <= k < fileIndex ==> !HasRoom(fs, RolloverName(date, k))
          decreases |fs.Keys| + 1 - fileIndex
        {
          var candidate := RolloverName(date, fileIndex);
          if candidate !in fs || fs[candidate].size < MaxFileSize {
            path := candidate;
            FirstWithRoomIsUnique(fs, date, Rollover(fileIndex));
            return;
          }
          FullRolloversFit(fs, date, fileIndex + 1);
          fileIndex := fileIndex + 1;
        }
      }
    }
    FirstWithRoomIsUnique(fs, date, Primary);
  }

  /** The records a write starts from: none when the file is absent or does not parse. */
  function ExistingRecords(fs: FileSystem, path: string): (r: seq<ChatLog>) {
    if path in fs && fs[path].content.Records? then fs[path].content.logs else []
  }

  /** The file a write with these clock readings goes to. */
  function TargetFile(fs: FileSystem, now: Readings): (path: string)
    ensures HasRoom(fs, path)
    ensures exists slot :: IsFirstWithRoom(fs, FormatDate(now.forPartition), slot)
                        && path == SlotName(FormatDate(now.forPartition), slot)
  {
    var date := FormatDate(now.forPartition);
    SlotName(date, SelectSlot(fs, date))
  }

  /**
   * `SaveLog`: stamp the record, pick the partition file by the rollover
   * rule, read and parse it (a parse failure counts as an empty file), append
   * the record and write the whole array back. `encodedSize` gives the size of
   * the serialised array, and the written file parses back to that array.
   */
  function Save(fs: FileSystem, log: ChatLog, now: Readings, draws: seq<int>, encodedSize: seq<ChatLog> -> nat)
    : (r: Result<(ChatLog, FileSystem), StoreError>)
    requires |draws| == RandomPartLength && ValidDraws(draws)
    ensures r.Err? <==> TargetFile(fs, now) in fs && fs[TargetFile(fs, now)].content.Unreadable?
    ensures r.Err? ==> r.error == ReadFailed(TargetFile(fs, now))
    ensures r.Ok? ==> r.value.0 == AssignIdentity(log, now.forId, now.forInputTime, draws)
  {
    var stored := AssignIdentity(log, now.forId, now.forInputTime, draws);
    var path := TargetFile(fs, now);
    if path in fs && fs[path].content.Unreadable? then
      Err(ReadFailed(path))
    else
      var logs := ExistingRecords(fs, path) + [stored];
      Ok((stored, fs[path := File(encodedSize(logs), Records(logs))]))
  }

  /**
   * What a successful write does to the directory: only the selected file
   * changes (it is created if absent); it ends up holding its old records
   * followed by the new one, or the new record alone when it was absent or
   * did not parse; its size is that of the serialised array.
   */
  lemma SaveEffect(fs: FileSystem, log: ChatLog, now: Readings, draws: seq<int>, encodedSize: seq<ChatLog> -> nat)
    requires |draws| == RandomPartLength && ValidDraws(draws)
    requires Save(fs, log, now, draws, encodedSize).Ok?
    ensures var (stored, fs') := Save(fs, log, now, draws, encodedSize).value;
      var path := TargetFile(fs, now);
      && HasRoom(fs, path)
      && fs'.Keys == fs.Keys + {path}
      && (forall name :: name in fs && name != path ==> fs'[name] == fs[name])
      && (path in fs && fs[path].content.Records? ==> fs'[path].content == Records(fs[path].content.logs + [stored]))
      && (path !in fs || fs[path].content.Garbage? ==> fs'[path].content == Records([stored]))
      && fs'[path].size == encodedSize(fs'[path].content.logs)
  {
  }

  /** Any two different slots are ordered one way or the other. */
  lemma SlotOrderTotal(a: Slot, b: Slot)
    ensures a == b || SlotBefore(a, b) || SlotBefore(b, a)
  {
  }

  /**
   * Rollover in motion: after a write, the next write on the same date goes
   * to the same file while that file is still below the limit, and otherwise
   * to a later slot; the writer never goes back to an earlier file.
   */
  lemma SaveKeepsOrAdvancesSlot(fs: FileSystem, log: ChatLog, now: Readings, draws: seq<int>, encodedSize: seq<ChatLog> -> nat)
    requires |draws| == RandomPartLength && ValidDraws(draws)
    requires Save(fs, log, now, draws, encodedSize).Ok?
    ensures var fs' := Save(fs, log, now, draws, encodedSize).value.1;
      var date := FormatDate(now.forPartition);
      var path := TargetFile(fs, now);
      && (fs'[path].size < MaxFileSize ==> SelectSlot(fs', date) == SelectSlot(fs, date))
      && (fs'[path].size >= MaxFileSize ==> SlotBefore(SelectSlot(fs, date), SelectSlot(fs', date)))
  {
    var fs' := Save(fs, log, now, draws, encodedSize).value.1;
    SaveEffect(fs, log, now, draws, encodedSize);
    var date := FormatDate(now.forPartition);
    var s := SelectSlot(fs, date);
    // Every slot other than the written one keeps its file, hence its room.
    forall other: Slot | other != s
      ensures HasRoom(fs', SlotName(date, other)) == HasRoom(fs, SlotName(date, other))
    {
      SlotNameInjective(date, other, s);
    }
    SelectAfterChange(fs, fs', date, s);
  }

  /**
   * When only the selected slot's file changes, the selection stays put while
   * that file has room, and otherwise moves past it: every earlier slot was
   * full before and still is.
   */
  lemma SelectAfterChange(fs: FileSystem, fs': FileSystem, date: string, s: Slot)
    requires IsFirstWithRoom(fs, date, s)
    requires forall other: Slot :: other != s ==> HasRoom(fs', SlotName(date, other)) == HasRoom(fs, SlotName(date, other))
    ensures HasRoom(fs', SlotName(date, s)) ==> SelectSlot(fs', date) == s
    ensures !HasRoom(fs', SlotName(date, s)) ==> SlotBefore(s, SelectSlot(fs', date))
  {
    if HasRoom(fs', SlotName(date, s)) {
      match s
      case Primary =>
      case Rollover(n) =>
        assert !HasRoom(fs', SlotName(date, Primary));
        forall k | 1 <= k < n
          ensures !HasRoom(fs', RolloverName(date, k))
        {
          assert !HasRoom(fs', SlotName(date, Rollover(k)));
        }
      FirstWithRoomIsUnique(fs', date, s);
    } else {
      var s' := SelectSlot(fs', date);
      SlotOrderTotal(s, s');
      assert HasRoom(fs, SlotName(date, s'));
    }
  }
}
