/** What the init program and the kernel share: replies, files, meters and the log, as values. */
module Machine {
  import opened Common
  import opened LogText
  import FatalRecord

  // ----- the kernel's answers -----

  /** A system call's result: a count or success, EINTR, or another errno. */
  datatype Ret = Count(n: nat) | Interrupted | Failed(errno: nat)

  type SignalNumber = s: nat | s <= 64

  const EINTR := 4

  function Errno(ret: Ret): nat
    requires !ret.Count?
  {
    if ret.Failed? then ret.errno else EINTR
  }

  /** Each event says how many milliseconds of latency it brings. */
  datatype Event =
    | Reply(ret: Ret, took: nat)
    | Signal(sig: SignalNumber, took: nat)

  const ENOENT := 2

  /** An error reply other than "no such file". */
  predicate Refuses(e: Event) {
    e.Reply? && !e.ret.Count? && e.ret != Failed(ENOENT)
  }

  /**
   * What the program does with a reply: nothing; anything but success is a failure; EINTR is asked
   * again and no progress is a failure; zero means not yet and EINTR is asked again; or it opens a
   * file that is missing, of which "no such file" is the proper answer.
   */
  datatype Call = Ignored | Single | Retried | Polled | Missing

  /** Replies that the program does not treat as failures. */
  predicate Succeeds(c: Call, e: Event) {
    && e.Reply?
    && match c
       case Ignored => true
       case Single => e.ret.Count?
       case Retried => e.ret.Interrupted? || (e.ret.Count? && e.ret.n > 0)
       case Polled => !e.ret.Failed?
       case Missing => e.ret.Count? || e.ret == Failed(ENOENT)
  }

  /** EINTR where the program asks again. */
  predicate Repeats(c: Call, e: Event) {
    (c.Retried? || c.Polled?) && e.Reply? && e.ret.Interrupted?
  }

  /** The outcome of running some steps: a value, or the process is gone. */
  datatype Step<+T> = Next(value: T) | Halted {
    predicate IsFailure() {
      Halted?
    }

    function PropagateFailure<U>(): Step<U>
      requires Halted?
    {
      Halted
    }

    function Extract(): T
      requires Next?
    {
      value
    }
  }

  // ----- files -----

  /** A file's bytes, and how many of them are known to be on stable storage. */
  datatype AnyFile = File(content: string, durable: nat)

  type File = f: AnyFile | f.durable <= |f.content| witness File("", 0)

  const EMPTY: File := File("", 0)

  ghost predicate Synced(f: File) {
    f.durable == |f.content|
  }

  function Extended(f: File, text: string): File {
    f.(content := f.content + text)
  }

  function Flushed(f: File): File {
    f.(durable := |f.content|)
  }

  /** The text is at the front of the file, and safe. */
  ghost predicate OnDevice(f: File, text: string) {
    text <= f.content && |text| <= f.durable
  }

  ghost predicate Grew(a: File, b: File) {
    a.content <= b.content && a.durable <= b.durable
  }

  /**
   * log, counter and tmp are on the ext4 device; ramLog is what lands in the bare /cache directory
   * when the device is not mounted there; options is the watchdog module's options file. What
   * /dev/kmsg holds is the kernel's business.
   */
  datatype Files = Files(log: File, counter: Option<File>, tmp: Option<File>,
                         ramLog: File, options: Option<File>)

  datatype Fd = LogFd | RamLogFd | TmpFd | OptionsFd | KmsgFd

  function Get(fs: Files, fd: Fd): File {
    match fd
    case LogFd => fs.log
    case RamLogFd => fs.ramLog
    case TmpFd => if fs.tmp.Some? then fs.tmp.value else EMPTY
    case OptionsFd => if fs.options.Some? then fs.options.value else EMPTY
    case KmsgFd => EMPTY
  }

  function Put(fs: Files, fd: Fd, f: File): Files {
    match fd
    case LogFd => fs.(log := f)
    case RamLogFd => fs.(ramLog := f)
    case TmpFd => fs.(tmp := Some(f))
    case OptionsFd => fs.(options := Some(f))
    case KmsgFd => fs
  }

  /** The counter file's text, when there is a counter file. */
  function Stored(fs: Files): Option<string> {
    if fs.counter.Some? then Some(fs.counter.value.content) else None
  }

  /** The counter file is absent or wholly on stable storage. */
  ghost predicate CounterDurable(fs: Files) {
    fs.counter.Some? ==> Synced(fs.counter.value)
  }

  /**
   * Nothing changed except that, while cache logging is enabled, the device log may have grown.
   * This is what a dying process may leave.
   */
  ghost predicate OnlyLogs(a: Files, b: Files, cacheOk: bool) {
    && b == a.(log := b.log)
    && Grew(a.log, b.log)
    && (!cacheOk ==> b.log == a.log)
  }

  /** The text grew by nothing but what dying handlers write. */
  ghost predicate Dying(a: string, b: string) {
    a <= b && FatalRecord.LastWords(b[|a|..])
  }

  /** What a stop between two writes may leave: fatal records, cut anywhere. */
  ghost predicate Died(a: Files, b: Files, cacheOk: bool) {
    OnlyLogs(a, b, cacheOk) && Dying(a.log.content, b.log.content)
  }

  lemma DiedAtOnce(a: Files)
    ensures Died(a, a, true) && Died(a, a, false)
  {
    assert a.log.content[|a.log.content|..] == "";
  }

  /** A handler's own record, as far as it got, and then whatever interrupted it. */
  lemma DiedWriting(before: string, record: string, after: string)
    requires FatalRecord.CutRecord(record) && Dying(before + record, after)
    ensures Dying(before, after)
  {
    var rest := after[|before + record|..];
    FatalRecord.MoreLastWords(record, rest);
    assert after[|before|..] == record + rest;
  }

  /** The number a banner shows: -1 when the boot could not be counted. */
  function Reported(n: Option<nat>): int {
    if n.Some? then n.value else -1
  }

  /** What the counter block may touch besides the logs. */
  ghost predicate CounterUpdate(a: Files, b: Files) {
    OnlyLogs(a.(counter := b.counter, tmp := b.tmp), b, true)
  }

  /** What a whole boot may touch: never the bare /cache directory, and the log only by appending. */
  ghost predicate Survives(a: Files, b: Files) {
    b == a.(log := b.log, counter := b.counter, tmp := b.tmp, options := b.options) && Grew(a.log, b.log)
  }

  // ----- metering a run -----

  /**
   * What the events of a script add up to for the calls that took them: their latency, how many the
   * program treats as failures, how many were signals, and how many steps were made before the first
   * signal. An EINTR that is asked again is no step.
   */
  datatype Tally = Tally(lag: nat, faults: nat, signals: nat, steps: nat)

  function Tallied(events: seq<Event>, calls: seq<Call>): Tally
    requires |calls| <= |events|
  {
    if calls == [] then Tally(0, 0, 0, 0) else
      var n := |calls| - 1;
      Counted(Tallied(events, calls[..n]), calls[n], events[n])
  }

  function Counted(t: Tally, c: Call, e: Event): Tally {
    Tally(t.lag + e.took,
          t.faults + (if Succeeds(c, e) then 0 else 1),
          t.signals + (if e.Signal? then 1 else 0),
          t.steps + (if t.signals > 0 || e.Signal? || Repeats(c, e) then 0 else 1))
  }

  lemma TallyNone(events: seq<Event>)
    ensures Tallied(events, []) == Tally(0, 0, 0, 0)
  {
  }

  lemma TallyMore(events: seq<Event>, calls: seq<Call>, c: Call)
    requires |calls| < |events|
    ensures Tallied(events, calls + [c]) == Counted(Tallied(events, calls), c, events[|calls|])
  {
    assert (calls + [c])[..|calls|] == calls;
  }

  /** No call met a reply that it treats as a failure, or a signal. */
  ghost predicate AllSucceed(events: seq<Event>, calls: seq<Call>)
    requires |calls| <= |events|
  {
    forall i :: 0 <= i < |calls| ==> Succeeds(calls[i], events[i])
  }

  ghost predicate AllInstant(events: seq<Event>) {
    forall e :: e in events ==> e.took == 0
  }

  ghost predicate NoSignals(events: seq<Event>) {
    forall e :: e in events ==> !e.Signal?
  }

  /** How often a script answers EINTR. */
  function Interruptions(events: seq<Event>): nat {
    if events == [] then 0 else
      var last := |events| - 1;
      Interruptions(events[..last]) + (if events[last].Reply? && events[last].ret.Interrupted? then 1 else 0)
  }

  /** A script on which every call succeeds, whatever the calls are. */
  lemma {:induction false} EasyScript(events: seq<Event>, calls: seq<Call>)
    requires |calls| <= |events|
    requires forall e :: e in events ==> e.Reply? && e.ret.Count? && e.ret.n > 0
    ensures AllSucceed(events, calls) && NoSignals(events) && Interruptions(events) == 0
  {
    if events != [] {
      EasyScript(events[..|events| - 1], []);
    }
  }

  /** What the tally means for the script it was taken from. */
  lemma {:induction false} TallyMeans(events: seq<Event>, calls: seq<Call>)
    requires |calls| <= |events|
    ensures Tallied(events, calls).faults == 0 <==> AllSucceed(events, calls)
    ensures Tallied(events, calls).lag == 0 <==> AllInstant(events[..|calls|])
    ensures Tallied(events, calls).signals == 0 <==> NoSignals(events[..|calls|])
    ensures Tallied(events, calls).signals == 0 ==>
              |calls| <= Tallied(events, calls).steps + Interruptions(events[..|calls|])
  {
    if calls != [] {
      hide AllSucceed, AllInstant, NoSignals, Interruptions;
      var n := |calls| - 1;
      TallyMeans(events, calls[..n]);
      SucceedMore(events, calls);
      ScriptMore(events, n);
    } else {
      assert events[..0] == [];
    }
  }

  lemma SucceedMore(events: seq<Event>, calls: seq<Call>)
    requires 0 < |calls| <= |events|
    ensures var n := |calls| - 1;
      AllSucceed(events, calls) <==> AllSucceed(events, calls[..n]) && Succeeds(calls[n], events[n])
  {
    hide Succeeds;
    assert forall i :: 0 <= i < |calls| - 1 ==> calls[..|calls| - 1][i] == calls[i];
  }

  lemma ScriptMore(events: seq<Event>, n: nat)
    requires n < |events|
    ensures AllInstant(events[..n + 1]) <==> AllInstant(events[..n]) && events[n].took == 0
    ensures NoSignals(events[..n + 1]) <==> NoSignals(events[..n]) && !events[n].Signal?
    ensures Interruptions(events[..n + 1])
         == Interruptions(events[..n]) + if events[n].Reply? && events[n].ret.Interrupted? then 1 else 0
  {
    assert events[..n + 1] == events[..n] + [events[n]];
    assert events[..n + 1][..n] == events[..n];
  }

  /**
   * now is the uptime in milliseconds, and slept the part of it spent in coded sleeps. pet is the
   * value of slept at the last write to the watchdog.
   */
  datatype Meter = Meter(now: nat, slept: nat, tally: Tally, watchdog: bool, pet: nat, restarting: bool)

  /** Uptime without the latency of the calls. */
  function Own(m: Meter): int {
    m.now - m.tally.lag
  }

  ghost predicate Later(a: Tally, b: Tally) {
    && a.lag <= b.lag && 0 <= b.signals - a.signals <= b.faults - a.faults
    && (a.signals > 0 ==> b.steps == a.steps)
  }

  const PET_GAP := 1000

  /** While the watchdog is open, at most one second of coded sleep separates two writes to it. */
  ghost predicate Fed(m: Meter) {
    m.watchdog && !m.restarting ==> m.pet <= m.slept <= m.pet + 1000
  }

  /** At most that many steps between two instants, and no coded sleep or write to the watchdog. */
  ghost predicate Lagged(a: Meter, b: Meter, steps: nat) {
    && b == a.(now := b.now, tally := b.tally)
    && Later(a.tally, b.tally) && Own(b) == Own(a)
    && b.tally.steps <= a.tally.steps + steps
  }

  /** At most ms of coded sleep and that many steps between two instants; the watchdog stays open and fed. */
  ghost predicate Passed(a: Meter, b: Meter, ms: nat, steps: nat) {
    && b.restarting == a.restarting
    && a.slept <= b.slept <= a.slept + ms && Later(a.tally, b.tally)
    && Own(b) - Own(a) == b.slept - a.slept
    && (Fed(a) ==> Fed(b)) && (a.watchdog ==> b.watchdog)
    && b.tally.steps <= a.tally.steps + steps
  }

  /** Whole seconds of uptime as the handler's unsigned long. */
  function Seconds(m: Meter): nat {
    (m.now / 1000) % 0x1_0000_0000_0000_0000
  }

  /** now counts milliseconds: the seconds are its whole thousands, unless they pass 64 bits. */
  lemma SecondsAre(m: Meter)
    ensures m.now < 1000 * 0x1_0000_0000_0000_0000 ==> 1000 * Seconds(m) <= m.now < 1000 * Seconds(m) + 1000
  {
  }

  // ----- reading -----

  /** How a read loop ended: true end of file, a full buffer, or an error. */
  datatype Ending = Eof | Full | ReadError

  datatype Input = Input(data: string, ending: Ending)

  // ----- the log, as a value -----

  type Queue = q: seq<string> | |q| <= SLOTS

  datatype Log = Log(files: Files, cacheOk: bool, queue: Queue, history: seq<string>)

  /** Every line logged so far is in the queue, in order. */
  ghost predicate Kept(v: Log) {
    !v.cacheOk && v.queue == Slots(v.history)
  }

  /** A stretch of code that logs at most the given number of lines. */
  ghost predicate Logged(a: Log, b: Log, lines: nat) {
    && OnlyLogs(a.files, b.files, a.cacheOk)
    && (b.cacheOk ==> a.cacheOk)
    && a.history <= b.history && |b.history| <= |a.history| + lines
    && (Kept(a) && |a.history| + lines <= 96 ==> Kept(b))
  }

  lemma Chain(a: Log, b: Log, c: Log, l1: nat, l2: nat)
    requires Logged(a, b, l1) && Logged(b, c, l2)
    ensures Logged(a, c, l1 + l2)
  {
  }

  /** The same for code that also rewrites the watchdog module's options file. */
  ghost predicate LoggedBut(a: Log, b: Log, lines: nat) {
    Logged(a.(files := a.files.(options := b.files.options)), b, lines)
  }

  lemma ChainBut(a: Log, b: Log, c: Log, l1: nat, l2: nat)
    requires LoggedBut(a, b, l1) || Logged(a, b, l1)
    requires LoggedBut(b, c, l2) || Logged(b, c, l2)
    ensures LoggedBut(a, c, l1 + l2)
  {
  }

  predicate Opened(fs: Files, fd: Fd) {
    (fd.TmpFd? ==> fs.tmp.Some?) && (fd.OptionsFd? ==> fs.options.Some?)
  }

  /** The files with text appended to, or everything flushed from, one open file. */
  function Wrote(fs: Files, fd: Fd, text: string): Files {
    Put(fs, fd, Extended(Get(fs, fd), text))
  }

  function Flush(fs: Files, fd: Fd): Files {
    Put(fs, fd, Flushed(Get(fs, fd)))
  }

  lemma WroteTwice(fs: Files, fd: Fd, a: string, b: string)
    ensures Wrote(Wrote(fs, fd, a), fd, b) == Wrote(fs, fd, a + b)
  {
    assert Get(fs, fd).content + a + b == Get(fs, fd).content + (a + b);
  }

  lemma TakeMore(text: string, off: nat, n: nat)
    requires off + n <= |text|
    ensures text[..off] + text[off..][..n] == text[..off + n]
  {
  }

  lemma WroteNothing(fs: Files, fd: Fd)
    requires Opened(fs, fd)
    ensures Wrote(fs, fd, "") == fs
  {
    assert Get(fs, fd).content + "" == Get(fs, fd).content;
  }
}
