/** The fatal-signal handler's text: u2a and the record it assembles in a 64-byte buffer. */
module FatalRecord {
  import opened Decimal

  const BUFFER := 64
  const SCRATCH := 24

  ghost function Reversed(s: string): (r: string)
    ensures |r| == |s|
  {
    if s == "" then "" else Reversed(s[1..]) + [s[0]]
  }

  lemma {:induction false} ReversedAt(s: string, k: nat)
    requires k < |s|
    ensures Reversed(s)[k] == s[|s| - 1 - k]
  {
    if k < |s| - 1 {
      ReversedAt(s[1..], k);
    }
  }

  lemma {:induction false} ReversedSnoc(s: string, c: char)
    ensures Reversed(s + [c]) == [c] + Reversed(s)
  {
    if s != "" {
      ReversedSnoc(s[1..], c);
      assert (s + [c])[1..] == s[1..] + [c];
    }
  }

  lemma OneMoreDigit(rest: nat, done: string)
    requires rest > 0
    ensures Print(rest) + Reversed(done)
         == (if rest / 10 > 0 then Print(rest / 10) else "") + Reversed(done + [Digit(rest % 10)])
  {
    ReversedSnoc(done, Digit(rest % 10));
  }

  /** The digits of v, least significant first, in u2a's scratch buffer. */
  method DigitsBackwards(v: nat, tmp: array<char>) returns (len: nat)
    requires v < 0x1_0000_0000_0000_0000 && tmp.Length == SCRATCH
    modifies tmp
    ensures len == |Print(v)| <= 20
    ensures Reversed(tmp[..len]) == Print(v)
  {
    var i := 0;
    var rest := v;
    PrintUint64Length(v);
    if rest == 0 {
      tmp[i] := '0';
      i := i + 1;
      assert tmp[..1] == "0";
    }
    while rest > 0
      invariant 0 <= i <= 20
      invariant Print(v) == (if rest > 0 then Print(rest) else "") + Reversed(tmp[..i])
      invariant i == |Reversed(tmp[..i])|
    {
      ghost var done := tmp[..i];
      OneMoreDigit(rest, done);
      tmp[i] := Digit(rest % 10);
      assert tmp[..i + 1] == done + [Digit(rest % 10)];
      i := i + 1;
      rest := rest / 10;
    }
    len := i;
  }

  /** Writes v in decimal at buf[at..], after whatever is already there. */
  method U2a(v: nat, buf: array<char>, at: nat, ghost before: string) returns (len: nat)
    requires v < 0x1_0000_0000_0000_0000
    requires at + |Print(v)| <= buf.Length && buf[..at] == before
    modifies buf
    ensures len == |Print(v)|
    ensures buf[..at + len] == before + Print(v)
    ensures buf[at + len..] == old(buf[at + len..])
  {
    var tmp := new char[SCRATCH];
    len := DigitsBackwards(v, tmp);
    ghost var digits := Print(v);
    forall k | 0 <= k < len ensures digits[k] == tmp[len - 1 - k] {
      ReversedAt(tmp[..len], k);
    }
    CopyBackwards(tmp, len, buf, at, digits);
    assert buf[..at + len] == buf[..at] + buf[at..at + len];
  }

  method CopyBackwards(tmp: array<char>, len: nat, buf: array<char>, at: nat, ghost digits: string)
    requires len == |digits| <= tmp.Length && at + len <= buf.Length && tmp != buf
    requires forall k :: 0 <= k < len ==> digits[k] == tmp[len - 1 - k]
    modifies buf
    ensures buf[..at] == old(buf[..at]) && buf[at..at + len] == digits
    ensures buf[at + len..] == old(buf[at + len..])
  {
    var j := 0;
    while j < len
      invariant 0 <= j <= len
      invariant forall k :: 0 <= k < len ==> digits[k] == tmp[len - 1 - k]
      invariant forall k :: 0 <= k < j ==> buf[at + k] == digits[k]
      invariant forall k :: 0 <= k < at ==> buf[k] == old(buf[k])
      invariant forall k :: at + len <= k < buf.Length ==> buf[k] == old(buf[k])
    {
      buf[at + j] := tmp[len - 1 - j];
      j := j + 1;
    }
  }

  /** The handler's copying loop for its two fixed tags. */
  method AppendText(text: string, buf: array<char>, at: nat, ghost before: string) returns (end: nat)
    requires at + |text| <= buf.Length && buf[..at] == before
    modifies buf
    ensures end == at + |text|
    ensures buf[..end] == before + text
    ensures buf[end..] == old(buf[end..])
  {
    var c := 0;
    while c < |text|
      invariant 0 <= c <= |text|
      invariant forall k :: 0 <= k < at ==> buf[k] == before[k]
      invariant forall k :: 0 <= k < c ==> buf[at + k] == text[k]
      invariant forall k :: at + |text| <= k < buf.Length ==> buf[k] == old(buf[k])
    {
      buf[at + c] := text[c];
      c := c + 1;
    }
    end := at + c;
    assert buf[..at] == before && buf[at..end] == text;
    assert buf[..end] == buf[..at] + buf[at..end];
  }

  function TimePart(seconds: nat): string {
    "[v24 t=" + Print(seconds) + "s] "
  }

  function Record(seconds: nat, sig: nat): string {
    TimePart(seconds) + "FATAL sig=" + Print(sig) + " PID1 dying\n"
  }

  /** Every record the handler can build fits its buffer: Linux signal numbers stop at 64. */
  lemma RecordFits(seconds: nat, sig: nat)
    requires seconds < 0x1_0000_0000_0000_0000 && sig <= 64
    ensures |Record(seconds, sig)| == 32 + |Print(seconds)| + |Print(sig)| <= BUFFER
  {
    PrintUint64Length(seconds);
    assert Pow10(2) == 100;
    PrintLength(sig, 2);
  }

  /** A reader's view of a record: the seconds it names, and the signal. */
  ghost predicate Names(text: string, seconds: nat, sig: nat) {
    exists time, number ::
      && Canonical(time) && Value(time) == seconds && Canonical(number) && Value(number) == sig
      && text == "[v24 t=" + time + "s] FATAL sig=" + number + " PID1 dying\n"
  }

  /** A record names the time and the signal it was made for, and no others. */
  lemma RecordNames(seconds: nat, sig: nat, other: nat, another: nat)
    ensures Names(Record(seconds, sig), seconds, sig)
    ensures Names(Record(seconds, sig), other, another) ==> other == seconds && another == sig
  {
    PrintParses(seconds);
    PrintParses(sig);
    assert Record(seconds, sig) == "[v24 t=" + Print(seconds) + "s] FATAL sig=" + Print(sig) + " PID1 dying\n";
    if Names(Record(seconds, sig), other, another) {
      var time, number :| Canonical(time) && Value(time) == other && Canonical(number) && Value(number) == another
        && Record(seconds, sig) == "[v24 t=" + time + "s] FATAL sig=" + number + " PID1 dying\n";
      SameFields(Print(seconds), Print(sig), time, number);
    }
  }

  lemma SameFields(a: string, b: string, time: string, number: string)
    requires AllDigits(a) && AllDigits(b) && AllDigits(time) && AllDigits(number)
    requires "[v24 t=" + a + "s] FATAL sig=" + b + " PID1 dying\n"
          == "[v24 t=" + time + "s] FATAL sig=" + number + " PID1 dying\n"
    ensures a == time && b == number
  {
    var middle, end := "s] FATAL sig=", " PID1 dying\n";
    Regroup("[v24 t=", a, middle, b, end);
    Regroup("[v24 t=", time, middle, number, end);
    SameRun(a, middle + b + end, time, middle + number + end, "[v24 t=");
    SameRun(b, end, number, end, middle);
  }

  lemma Regroup(start: string, a: string, middle: string, b: string, end: string)
    ensures start + a + middle + b + end == start + a + (middle + b + end)
  {
  }

  /** Text that begins alike and goes on with digits up to another character. */
  lemma SameRun(a: string, rest: string, b: string, more: string, start: string)
    requires AllDigits(a) && AllDigits(b) && rest != "" && !IsDigit(rest[0]) && more != "" && !IsDigit(more[0])
    requires start + a + rest == start + b + more
    ensures a == b && rest == more
  {
    var whole, other := a + rest, b + more;
    assert whole == (start + a + rest)[|start|..];
    assert other == (start + b + more)[|start|..];
    assert whole[..|a|] == a && other[..|b|] == b;
    DigitRunIs(whole, |a|);
    DigitRunIs(other, |b|);
    assert whole[|a|..] == rest && other[|b|..] == more;
  }

  /** Some record, perhaps cut short. */
  ghost predicate CutRecord(text: string) {
    exists seconds: nat, sig: nat :: text <= Record(seconds, sig)
  }

  /** What dying handlers can leave behind: one cut record after another. */
  ghost predicate LastWords(text: string)
    decreases |text|
  {
    text == "" || exists k: nat :: 0 < k <= |text| && CutRecord(text[..k]) && LastWords(text[k..])
  }

  lemma MoreLastWords(first: string, rest: string)
    requires CutRecord(first) && LastWords(rest)
    ensures LastWords(first + rest)
  {
    if first == "" {
      assert first + rest == rest;
    } else {
      var text := first + rest;
      assert text[..|first|] == first && text[|first|..] == rest;
      assert |first| <= |text|;
    }
  }

  method AppendField(tag: string, v: nat, buf: array<char>, at: nat, ghost before: string) returns (end: nat)
    requires v < 0x1_0000_0000_0000_0000
    requires at + |tag| + |Print(v)| <= buf.Length && buf[..at] == before
    modifies buf
    ensures end == at + |tag| + |Print(v)|
    ensures buf[..end] == before + tag + Print(v)
  {
    var n := AppendText(tag, buf, at, before);
    var len := U2a(v, buf, n, before + tag);
    end := n + len;
  }

  method AssembleTime(seconds: nat, buf: array<char>) returns (n: nat)
    requires seconds < 0x1_0000_0000_0000_0000 && |TimePart(seconds)| <= buf.Length
    modifies buf
    ensures n == |TimePart(seconds)| && buf[..n] == TimePart(seconds)
  {
    assert "" + "[v24 t=" == "[v24 t=";
    n := AppendField("[v24 t=", seconds, buf, 0, "");
    n := AppendText("s] ", buf, n, "[v24 t=" + Print(seconds));
  }

  /** Assembles the record piece by piece, as the handler does. */
  method Assemble(seconds: nat, sig: nat) returns (buf: array<char>, n: nat)
    requires seconds < 0x1_0000_0000_0000_0000 && sig <= 64
    ensures fresh(buf) && buf.Length == BUFFER
    ensures n <= BUFFER && buf[..n] == Record(seconds, sig)
  {
    buf := new char[BUFFER];
    RecordFits(seconds, sig);
    n := AssembleTime(seconds, buf);
    ghost var time := TimePart(seconds);
    n := AppendField("FATAL sig=", sig, buf, n, time);
    n := AppendText(" PID1 dying\n", buf, n, time + "FATAL sig=" + Print(sig));
  }
}
