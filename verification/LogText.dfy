/** The text of log records: queue slots, the uptime prefix, and the chunked command-line dump. */
module LogText {
  import opened Common
  import opened Decimal

  const SLOTS := 96
  const SLOT_BYTES := 160
  const CHUNK := SLOT_BYTES - 40
  const FORMAT_BYTES := 220
  const MESSAGE_BYTES := 160

  /** What snprintf leaves in a buffer of the given size. */
  function Fit(text: string, size: nat): (r: string)
    requires size > 0
    ensures r <= text && (|text| < size ==> r == text)
  {
    text[..Min(|text|, size - 1)]
  }

  /** A message as a queue slot holds it. */
  function Slot(msg: string): string {
    Fit(msg, SLOT_BYTES)
  }

  function Slots(msgs: seq<string>): (r: seq<string>)
    ensures |r| == |msgs|
  {
    seq(|msgs|, i requires 0 <= i < |msgs| => Slot(msgs[i]))
  }

  function Concat(parts: seq<string>): string {
    if parts == [] then "" else Concat(parts[..|parts| - 1]) + parts[|parts| - 1]
  }

  lemma ConcatSnoc(parts: seq<string>, i: nat)
    requires i < |parts|
    ensures Concat(parts[..i + 1]) == Concat(parts[..i]) + parts[i]
  {
    assert parts[..i + 1][..i] == parts[..i];
  }

  lemma ConcatNone(parts: seq<string>)
    ensures Concat(parts[..0]) == ""
  {
  }

  lemma {:induction false} ConcatGrows(parts: seq<string>, i: nat)
    requires i <= |parts|
    ensures |Concat(parts[..i])| <= |Concat(parts)|
  {
    if i < |parts| {
      ConcatGrows(parts[..|parts| - 1], i);
      assert parts[..|parts| - 1][..i] == parts[..i];
    } else {
      assert parts[..i] == parts;
    }
  }

  lemma {:induction false} ConcatBound(parts: seq<string>)
    requires forall i :: 0 <= i < |parts| ==> |parts[i]| <= 159
    ensures |Concat(parts)| <= 159 * |parts|
  {
    if parts != [] {
      ConcatBound(parts[..|parts| - 1]);
    }
  }

  lemma ConcatOfSlots(msgs: seq<string>)
    ensures |Concat(Slots(msgs))| <= 159 * |msgs|
  {
    ConcatBound(Slots(msgs));
  }

  function Pad3(n: nat): string {
    if n < 10 then "00" + Print(n) else if n < 100 then "0" + Print(n) else Print(n)
  }

  /** The line logf_uptime builds at the given uptime. */
  function UptimeLine(ms: nat, text: string): string {
    Fit("[v24 t=" + Print(ms / 1000) + "." + Pad3(ms % 1000) + "s] " + text + "\n", FORMAT_BYTES)
  }

  /** The boot banner; it always fits the 96 bytes it is formatted into. */
  function Banner(attempt: int): string {
    "[v24] ===== BOOT ATTEMPT #"
    + (if attempt >= 0 then PrintInt(attempt) else "unknown, counter unavailable/untrustworthy")
    + " (V24/cinit13) =====\n"
  }

  lemma BannerFits(attempt: int)
    requires attempt < Pow10(7)
    ensures |Banner(attempt)| < 96
  {
    if attempt >= 0 {
      PrintLength(attempt, 7);
    }
  }

  /** The text after a prefix, if it has that prefix. */
  function After(text: string, prefix: string): Option<string> {
    if prefix <= text then Some(text[|prefix|..]) else None
  }

  /** A reader's view of a field: the number between the text before it and the text after it. */
  function FieldRead(text: string, before: string, after: string): Option<nat> {
    match After(text, before)
    case None => None
    case Some(rest) => if after <= rest[DigitRun(rest)..] then Leading(rest) else None
  }

  lemma FieldReads(before: string, n: nat, after: string, more: string)
    requires after != "" && !IsDigit(after[0])
    ensures FieldRead(before + Print(n) + after + more, before, after) == Some(n)
  {
    var tail := after + more;
    Grouped(before, Print(n), after, more);
    LeadingPrint(n, tail);
    assert (Print(n) + tail)[|Print(n)|..] == tail;
    assert (before + (Print(n) + tail))[|before|..] == Print(n) + tail;
  }

  /** The number in a banner: between "#" and the next " (". */
  function AttemptRead(text: string): Option<nat> {
    FieldRead(text, "[v24] ===== BOOT ATTEMPT #", " (")
  }

  lemma NumberedBanner(n: nat, more: string)
    ensures AttemptRead(Banner(n) + more) == Some(n)
  {
    var start, rest := "[v24] ===== BOOT ATTEMPT #", "V24/cinit13) =====\n";
    assert " (V24/cinit13) =====\n" == " (" + rest;
    FieldReads(start, n, " (", rest + more);
    Split(start + Print(n), " (", rest, more);
  }

  lemma Split(a: string, b: string, c: string, d: string)
    ensures a + (b + c) + d == a + b + (c + d)
  {
  }

  lemma NamelessBanner(more: string)
    ensures AttemptRead(Banner(-1) + more) == None
  {
    var start, tail := "[v24] ===== BOOT ATTEMPT #", "unknown, counter unavailable/untrustworthy";
    Grouped(start, tail, " (V24/cinit13) =====\n", more);
    StartsOtherwise(start, tail, " (V24/cinit13) =====\n" + more);
  }

  lemma StartsOtherwise(before: string, tail: string, more: string)
    requires tail != "" && !IsDigit(tail[0])
    ensures FieldRead(before + (tail + more), before, " (") == None
  {
    var rest := tail + more;
    assert rest[0] == tail[0];
    assert (before + rest)[|before|..] == rest;
  }

  /** A banner shows the number it was made for, and no number when there was none. */
  lemma BannerReads(number: Option<nat>, more: string)
    ensures AttemptRead(Banner(if number.Some? then number.value else -1) + more) == number
  {
    hide Banner, AttemptRead;
    if number.Some? {
      NumberedBanner(number.value, more);
    } else {
      NamelessBanner(more);
    }
  }

  lemma Grouped(a: string, b: string, c: string, d: string)
    ensures a + b + c + d == a + (b + (c + d))
  {
  }

  /** A reader's view of an uptime line: seconds, a point, three digits, and then the text. */
  ghost predicate Dated(line: string, ms: nat, text: string) {
    exists seconds, fraction ::
      && Canonical(seconds) && AllDigits(fraction) && |fraction| == 3
      && 1000 * Value(seconds) + Value(fraction) == ms
      && line == "[v24 t=" + seconds + "." + fraction + "s] " + text + "\n"
  }

  lemma Pad3Is(n: nat)
    requires n < 1000
    ensures AllDigits(Pad3(n)) && |Pad3(n)| == 3 && Value(Pad3(n)) == n
  {
    PrintParses(n);
    DigitsInOrder(0);
    assert Print(n) == if n < 10 then [Digit(n)] else Print(n / 10) + [Digit(n % 10)];
    if n < 10 {
      ValueSplits("0", "0");
      ValueSplits("00", Print(n));
    } else if n < 100 {
      ValueSplits("0", Print(n));
    }
  }

  /** Each line says when it was logged, to the millisecond, and what; only a long one is cut. */
  lemma UptimeReads(ms: nat, text: string)
    requires |Print(ms / 1000)| + |text| <= 204
    ensures Dated(UptimeLine(ms, text), ms, text)
  {
    var seconds, fraction := Print(ms / 1000), Pad3(ms % 1000);
    PrintParses(ms / 1000);
    Pad3Is(ms % 1000);
    NotCut(seconds, fraction, text);
    IsDated(seconds, fraction, ms, text);
  }

  lemma NotCut(seconds: string, fraction: string, text: string)
    requires |fraction| == 3 && |seconds| + |text| <= 204
    ensures var line := "[v24 t=" + seconds + "." + fraction + "s] " + text + "\n";
            Fit(line, FORMAT_BYTES) == line
  {
  }

  lemma IsDated(seconds: string, fraction: string, ms: nat, text: string)
    requires Canonical(seconds) && AllDigits(fraction) && |fraction| == 3
    requires 1000 * Value(seconds) + Value(fraction) == ms
    ensures Dated("[v24 t=" + seconds + "." + fraction + "s] " + text + "\n", ms, text)
  {
  }

  // ----- the command-line dump -----

  function Header(idx: nat): string {
    "cmdline[" + Print(idx) + "]: "
  }

  /** The record printed for one chunk: a C string, so it ends at the first NUL. */
  function Record(chunk: string, idx: nat): string {
    CStr(Header(idx) + chunk + "\n")
  }

  /** The k-th piece of the text, cut every 120 characters. */
  function Chunk(text: string, k: nat): string {
    text[Min(120 * k, |text|)..Min(120 * k + 120, |text|)]
  }

  function ChunkCount(text: string): nat {
    (|text| + 119) / 120
  }

  function FirstRecords(text: string, k: nat): (r: seq<string>)
    ensures |r| == k
  {
    if k == 0 then [] else FirstRecords(text, k - 1) + [Record(Chunk(text, k - 1), k - 1)]
  }

  lemma FirstRecordsMore(before: seq<string>, text: string, k: nat)
    ensures before + FirstRecords(text, k) + [Record(Chunk(text, k), k)] == before + FirstRecords(text, k + 1)
  {
  }

  /** The whole dump. */
  function Records(text: string): seq<string> {
    FirstRecords(text, ChunkCount(text))
  }

  /** A reader's view of one record: drop the numbering and one final newline. */
  function Strip(record: string, idx: nat): string {
    if |record| < |Header(idx)| then "" else
      var body := record[|Header(idx)|..];
      if body != "" && body[|body| - 1] == '\n' then body[..|body| - 1] else body
  }

  function Reassemble(records: seq<string>): string {
    if records == [] then "" else
      var last := |records| - 1;
      Reassemble(records[..last]) + Strip(records[last], last)
  }

  lemma {:induction false} CStrAppend(a: string, b: string)
    requires '\0' !in a
    ensures CStr(a + b) == a + CStr(b)
  {
    if a == "" {
      assert a + b == b;
    } else {
      assert a[0] in a;
      assert (a + b)[1..] == a[1..] + b;
      CStrAppend(a[1..], b);
    }
  }

  lemma HeaderHasNoNul(idx: nat)
    ensures '\0' !in Header(idx)
  {
    PrintParses(idx);
  }

  /** The number in a record: between "[" and "]". */
  function IndexRead(record: string): Option<nat> {
    FieldRead(record, "cmdline[", "]: ")
  }

  /** Records are numbered from zero. */
  lemma RecordIsNumbered(chunk: string, idx: nat)
    ensures IndexRead(Record(chunk, idx)) == Some(idx)
  {
    HeaderHasNoNul(idx);
    CStrAppend(Header(idx), chunk + "\n");
    assert Header(idx) + chunk + "\n" == Header(idx) + (chunk + "\n");
    FieldReads("cmdline[", idx, "]: ", CStr(chunk + "\n"));
  }

  /** One chunk comes back whole when NUL-free, and shorter otherwise. */
  lemma ChunkBack(chunk: string, idx: nat)
    ensures |Strip(Record(chunk, idx), idx)| <= |chunk|
    ensures '\0' in chunk ==> |Strip(Record(chunk, idx), idx)| < |chunk|
    ensures '\0' !in chunk ==> Strip(Record(chunk, idx), idx) == chunk
  {
    HeaderHasNoNul(idx);
    var h := Header(idx);
    assert h + chunk + "\n" == h + (chunk + "\n");
    CStrAppend(h, chunk + "\n");
    if '\0' !in chunk {
      CStrAppend(chunk, "\n");
      assert CStr("\n") == "\n" + CStr("");
      assert Record(chunk, idx)[|h|..] == chunk + "\n";
    } else {
      var k :| 0 <= k < |chunk| && chunk[k] == '\0';
      assert (chunk + "\n")[k] == '\0';
      assert Record(chunk, idx)[|h|..] == CStr(chunk + "\n");
    }
  }

  /** What the first k records were cut from. */
  function Sent(text: string, k: nat): string {
    text[..Min(120 * k, |text|)]
  }

  lemma SentMore(text: string, k: nat)
    requires k > 0
    ensures Sent(text, k) == Sent(text, k - 1) + Chunk(text, k - 1)
  {
  }

  lemma ReassembleMore(text: string, k: nat)
    requires k > 0
    ensures Reassemble(FirstRecords(text, k))
         == Reassemble(FirstRecords(text, k - 1)) + Strip(Record(Chunk(text, k - 1), k - 1), k - 1)
  {
    assert FirstRecords(text, k)[..k - 1] == FirstRecords(text, k - 1);
  }

  lemma NothingSent(text: string)
    ensures Reassemble(FirstRecords(text, 0)) == "" == Sent(text, 0)
  {
  }

  /** Reading back the first k records gives the first k chunks, or less when one holds a NUL. */
  lemma {:induction false} ReadBack(text: string, k: nat)
    ensures |Reassemble(FirstRecords(text, k))| <= |Sent(text, k)|
    ensures '\0' in Sent(text, k) ==> |Reassemble(FirstRecords(text, k))| < |Sent(text, k)|
    ensures '\0' !in Sent(text, k) ==> Reassemble(FirstRecords(text, k)) == Sent(text, k)
  {
    hide *;
    if k == 0 {
      NothingSent(text);
    } else {
      ReadBack(text, k - 1);
      SentMore(text, k);
      ReassembleMore(text, k);
      var chunk := Chunk(text, k - 1);
      ChunkBack(chunk, k - 1);
      Appended(Reassemble(FirstRecords(text, k - 1)), Sent(text, k - 1), Strip(Record(chunk, k - 1), k - 1), chunk);
    }
  }

  /** Whole or shorter, piece after piece. */
  lemma Appended(got: string, sent: string, piece: string, chunk: string)
    requires |got| <= |sent| && |piece| <= |chunk|
    requires if '\0' in sent then |got| < |sent| else got == sent
    requires if '\0' in chunk then |piece| < |chunk| else piece == chunk
    ensures |got + piece| <= |sent + chunk|
    ensures if '\0' in sent + chunk then |got + piece| < |sent + chunk| else got + piece == sent + chunk
  {
  }

  /** The dump is lossless exactly when the command line holds no NUL. */
  lemma LosslessExactly(text: string)
    ensures Reassemble(Records(text)) == text <==> '\0' !in text
  {
    ReadBack(text, ChunkCount(text));
    assert Sent(text, ChunkCount(text)) == text;
  }

  lemma HeaderLength(idx: nat)
    requires idx < 100
    ensures |Header(idx)| <= 13
  {
    assert Pow10(2) == 100;
    PrintLength(idx, 2);
  }

  lemma RecordFits(chunk: string, idx: nat)
    requires |chunk| <= CHUNK && idx < 100
    ensures |Record(chunk, idx)| < SLOT_BYTES
  {
    HeaderLength(idx);
  }

  /** No record of a 4095-byte command line is cut by a queue slot, and there are at most 35. */
  lemma RecordsFit(text: string, i: nat)
    requires |text| <= 4095 && i < ChunkCount(text)
    ensures ChunkCount(text) <= 35
    ensures Slot(Record(Chunk(text, i), i)) == Record(Chunk(text, i), i)
  {
    RecordFits(Chunk(text, i), i);
  }

  lemma {:induction false} RecordAt(text: string, k: nat, i: nat)
    requires i < k
    ensures FirstRecords(text, k)[i] == Record(Chunk(text, i), i)
  {
    hide Record, Chunk;
    if i < k - 1 {
      RecordAt(text, k - 1, i);
    }
  }

  /** The dump of a text starts at line k of a log. */
  ghost predicate DumpedAt(lines: seq<string>, k: nat, text: string) {
    k + |Records(text)| <= |lines| && lines[k..k + |Records(text)|] == Records(text)
  }

  lemma DumpStays(lines: seq<string>, more: seq<string>, k: nat, text: string)
    requires lines <= more
    ensures DumpedAt(lines, k, text) ==> DumpedAt(more, k, text)
  {
    if DumpedAt(lines, k, text) {
      assert more[k..k + |Records(text)|] == lines[k..k + |Records(text)|];
    }
  }

  /** Reassembling the queue slots from line k on gives the text back. */
  ghost predicate ReadsBack(lines: seq<string>, k: nat, text: string) {
    k + |Records(text)| <= |lines| && Reassemble(Slots(lines)[k..k + |Records(text)|]) == text
  }

  lemma DumpReadsBack(lines: seq<string>, k: nat, text: string)
    ensures DumpedAt(lines, k, text) && |text| <= 4095 && '\0' !in text ==> ReadsBack(lines, k, text)
  {
    hide Records, Reassemble, Slots;
    if DumpedAt(lines, k, text) && |text| <= 4095 && '\0' !in text {
      LosslessExactly(text);
      DumpSurvivesQueue(text);
      SlotsOfPart(lines, k, |Records(text)|);
    }
  }

  lemma SlotsOfPart(lines: seq<string>, k: nat, n: nat)
    requires k + n <= |lines|
    ensures Slots(lines)[k..k + n] == Slots(lines[k..k + n])
  {
  }

  /** A slot keeps a line whole, newline and all, exactly when it is short enough. */
  lemma SlotKeeps(msg: string)
    ensures Slot(msg) == msg <==> |msg| <= 159
  {
  }

  /** So a queue holds the dump exactly as it was logged. */
  lemma DumpSurvivesQueue(text: string)
    requires |text| <= 4095
    ensures |Records(text)| <= 35
    ensures Slots(Records(text)) == Records(text)
  {
    forall i | 0 <= i < |Records(text)| ensures Slots(Records(text))[i] == Records(text)[i] {
      RecordsFit(text, i);
      RecordAt(text, ChunkCount(text), i);
    }
  }
}
