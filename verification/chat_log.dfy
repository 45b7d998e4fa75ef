/**
 * The `ChatLog` record and its identity: the random ID suffix of
 * `generateRandomString` and the ID / input-time assignment at the top of
 * `SaveLog` (models/models.go:13-24, 53-79).
 */
module ChatLogs {
  import opened Decimal
  import opened Clock

  /** One chat-log entry; every field is a JSON string. */
  datatype ChatLog = ChatLog(id: string, text: string, validationResult: string, inputTime: string)

  /**
   * The 62 symbols random ID characters are drawn from: the source's one
   * literal, written as its three runs so that each position is easy to reach.
   */
  const Charset: string := "0123456789" + "abcdefghijklmnopqrstuvwxyz" + "ABCDEFGHIJKLMNOPQRSTUVWXYZ"

  /** Number of random characters after the ID's time part. */
  const RandomPartLength: nat := 6

  /** Length of the ID's time part, layout "20060102150405". */
  const IdTimeLength: nat := 14

  predicate IsAlphanumeric(c: char) {
    ('0' <= c <= '9') || ('a' <= c <= 'z') || ('A' <= c <= 'Z')
  }

  /** `n` consecutive code points starting at `first`. */
  function CharRun(first: char, n: nat): (s: string)
    requires first as int + n <= 0xD800
    ensures |s| == n
    ensures forall i :: 0 <= i < n ==> s[i] as int == first as int + i
  {
    seq(n, i requires 0 <= i < n => (first as int + i) as char)
  }

  /** Position of an alphanumeric character in `Charset`. */
  function CharsetIndex(c: char): (i: nat)
    requires IsAlphanumeric(c)
    ensures i < 62
  {
    if '0' <= c <= '9' then c as int - '0' as int
    else if 'a' <= c <= 'z' then 10 + (c as int - 'a' as int)
    else 36 + (c as int - 'A' as int)
  }

  /**
   * `Charset` is the digits, then the lower-case letters, then the upper-case
   * letters, each exactly once: its symbols are exactly the alphanumeric
   * characters and `CharsetIndex` inverts indexing into it.
   */
  lemma CharsetLayout()
    ensures |Charset| == 62
    ensures forall i :: 0 <= i < |Charset| ==> IsAlphanumeric(Charset[i]) && CharsetIndex(Charset[i]) == i
    ensures forall c :: IsAlphanumeric(c) ==> Charset[CharsetIndex(c)] == c
  {
    CharsetRuns();
    var runs := CharRun('0', 10) + CharRun('a', 26) + CharRun('A', 26);
    assert forall i :: 0 <= i < 10 ==> runs[i] as int == '0' as int + i;
    assert forall i :: 10 <= i < 36 ==> runs[i] as int == 'a' as int + (i - 10);
    assert forall i :: 36 <= i < 62 ==> runs[i] as int == 'A' as int + (i - 36);
  }

  lemma CharsetRuns()
    ensures Charset == CharRun('0', 10) + CharRun('a', 26) + CharRun('A', 26)
  {
    DigitRun();
    LowerRun();
    UpperRun();
  }

  lemma DigitRun()
    ensures "0123456789" == CharRun('0', 10)
  {
  }

  lemma LowerRun()
    ensures "abcdefghijklmnopqrstuvwxyz" == CharRun('a', 26)
  {
  }

  lemma UpperRun()
    ensures "ABCDEFGHIJKLMNOPQRSTUVWXYZ" == CharRun('A', 26)
  {
  }

  /** One result of `rand.Intn(len(charset))` per character: an index into `Charset`. */
  predicate ValidDraws(draws: seq<int>) {
    forall i :: 0 <= i < |draws| ==> 0 <= draws[i] < |Charset|
  }

  /**
   * `generateRandomString(length)`: the i-th character is the charset symbol
   * the i-th draw selects. The draws stand for the random source.
   */
  function RandomString(length: nat, draws: seq<int>): (s: string)
    requires |draws| == length && ValidDraws(draws)
    ensures |s| == length
    ensures forall i :: 0 <= i < |s| ==> IsAlphanumeric(s[i])
  {
    CharsetLayout();
    seq(length, i requires 0 <= i < length => Charset[draws[i]])
  }

  /** The random string determines the draws that made it, so distinct draws give distinct strings. */
  lemma RandomStringDecodes(length: nat, draws: seq<int>)
    requires |draws| == length && ValidDraws(draws)
    ensures forall i :: 0 <= i < length ==> CharsetIndex(RandomString(length, draws)[i]) == draws[i]
  {
    CharsetLayout();
  }

  /** A record ID generated from reading `t`: the 14-digit time part, then six charset symbols. */
  predicate IsGeneratedId(id: string, t: DateTime) {
    && |id| == IdTimeLength + RandomPartLength
    && id[..IdTimeLength] == FormatIdTime(t)
    && forall i :: IdTimeLength <= i < |id| ==> IsAlphanumeric(id[i])
  }

  /**
   * Stamps a record on its way into the store: an empty ID is replaced by the
   * ID time of `idReading` followed by the random string of `draws`; a
   * non-empty ID is kept; the input time is always overwritten with the
   * record-time layout of `inputReading`; text and validation result are
   * carried over.
   */
  function AssignIdentity(log: ChatLog, idReading: DateTime, inputReading: DateTime, draws: seq<int>): (r: ChatLog)
    requires |draws| == RandomPartLength && ValidDraws(draws)
    ensures r.id != "" && r.inputTime != ""
    ensures log.id != "" ==> r.id == log.id
    ensures log.id == "" ==>
      && |r.id| == |FormatIdTime(idReading)| + RandomPartLength
      && r.id[..|FormatIdTime(idReading)|] == FormatIdTime(idReading)
      && forall i :: |FormatIdTime(idReading)| <= i < |r.id| ==>
           IsAlphanumeric(r.id[i]) && CharsetIndex(r.id[i]) == draws[i - |FormatIdTime(idReading)|]
    ensures r.inputTime == FormatInputTime(inputReading)
    ensures r.text == log.text && r.validationResult == log.validationResult
  {
    RandomStringDecodes(RandomPartLength, draws);
    var id := if log.id == "" then FormatIdTime(idReading) + RandomString(RandomPartLength, draws) else log.id;
    log.(id := id, inputTime := FormatInputTime(inputReading))
  }

  /**
   * A generated ID is the 14-digit ID time of the reading (for a valid
   * reading with a four-digit year) followed by exactly six charset symbols,
   * twenty characters in all, and the suffix spells out the random draws.
   */
  lemma GeneratedIdShape(log: ChatLog, idReading: DateTime, inputReading: DateTime, draws: seq<int>)
    requires log.id == ""
    requires Valid(idReading) && FourDigitYear(idReading)
    requires |draws| == RandomPartLength && ValidDraws(draws)
    ensures var id := AssignIdentity(log, idReading, inputReading, draws).id;
      && IsGeneratedId(id, idReading)
      && IsDigits(id[..IdTimeLength])
      && forall i :: 0 <= i < RandomPartLength ==> CharsetIndex(id[IdTimeLength + i]) == draws[i]
  {
    IdTimeRoundTrip(idReading);
    RandomStringDecodes(RandomPartLength, draws);
    var id := AssignIdentity(log, idReading, inputReading, draws).id;
    assert id == FormatIdTime(idReading) + RandomString(RandomPartLength, draws);
  }

  /**
   * A write on 2024-01-01: the ID has the shape
   * `20240101` followed by six digits and six alphanumeric characters.
   */
  lemma NewYearIdShape(log: ChatLog, t: DateTime, input: DateTime, draws: seq<int>)
    requires log.id == ""
    requires t.year == 2024 && t.month == 1 && t.day == 1 && Valid(t)
    requires |draws| == RandomPartLength && ValidDraws(draws)
    ensures var id := AssignIdentity(log, t, input, draws).id;
      && |id| == 20
      && id[..8] == "20240101"
      && (forall i :: 8 <= i < 14 ==> IsDigit(id[i]))
      && (forall i :: 14 <= i < 20 ==> IsAlphanumeric(id[i]))
  {
    var id := AssignIdentity(log, t, input, draws).id;
    GeneratedIdShape(log, t, input, draws);
    var time := FormatIdTime(t);
    assert time == "2024" + "01" + "01" + ZeroPad(t.hour, 2) + ZeroPad(t.minute, 2) + ZeroPad(t.second, 2) by {
      NewYearFields();
    }
    assert id[..8] == time[..8];
    assert forall i :: 8 <= i < 14 ==> id[i] == id[..14][i];
  }

  lemma NewYearFields()
    ensures ZeroPad(2024, 4) == "2024" && ZeroPad(1, 2) == "01"
  {
    assert Digits(2024) == "2024";
  }
}
