/**
 * The init program as one object: its static globals, the files it touches, and the kernel as an
 * adversary. Every system call, and every point between two steps at which a signal matters,
 * takes one event from a script: a reply of any kind, or a fatal signal. When the script is
 * exhausted the machine stops, so a contract that holds for every script holds for a crash at
 * every step.
 */
module Pid1 {
  import opened Common
  import opened LogText
  import opened Machine
  import FatalRecord
  import ProcText
  import BootCounter
  import Decimal

  /** What the log says about the watchdog module's options file. */
  datatype OptionsClaim = Complete | Removed | Unknown(errno: nat)

  /** A boot requests the restart within so many steps, not counting EINTR. */
  const BOOT_STEPS := 1_565_369

  /** A meter reading at the first reboot call: after 45 s of uptime and, latency aside, by the deadline. */
  ghost predicate InTime(m: Meter, deadline: int) {
    45_000 <= m.now && Own(m) <= Max(46_000, deadline)
  }

  /** The line for each claim. */
  function OptionsText(c: OptionsClaim): string {
    match c
    case Complete => "wrote " + "/etc/modules/s3c2410_wdt: tmr_atboot=1 (match stock bootloader policy)"
    case Removed =>
      "FAILED to write /etc/modules/s3c2410_wdt (removed any partial content)"
      + " - watchdog will probe with compiled default tmr_atboot=0, diverging from stock"
    case Unknown(errno) =>
      Fit("FAILED to write /etc/modules/s3c2410_wdt AND failed to remove partial content" + " errno="
          + Decimal.Print(errno) + " - probe outcome unknown", 140)
  }

  /** A reader's view of the options line: what it says happened to the write and to the removal. */
  lemma OptionsReads(c: OptionsClaim)
    ensures c.Complete? ==> "wrote " <= OptionsText(c)
    ensures c.Removed? ==> "FAILED to write /etc/modules/s3c2410_wdt (removed any partial content)" <= OptionsText(c)
    ensures c.Unknown? ==>
              "FAILED to write /etc/modules/s3c2410_wdt AND failed to remove partial content" <= OptionsText(c)
  {
    if c.Unknown? {
      UnknownReads(c.errno);
    }
  }

  lemma UnknownReads(errno: nat)
    ensures "FAILED to write /etc/modules/s3c2410_wdt AND failed to remove partial content"
         <= OptionsText(Unknown(errno))
  {
  }

  lemma OptionsLength(c: OptionsClaim)
    ensures c.Complete? ==> |OptionsText(c)| == 76
    ensures c.Removed? ==> |OptionsText(c)| == 149
    ensures c.Unknown? ==> 100 <= |OptionsText(c)| <= 139
  {
    if c.Unknown? {
      UnknownLength(c.errno);
    }
  }

  lemma UnknownLength(errno: nat)
    ensures 100 <= |OptionsText(Unknown(errno))| <= 139
  {
    Decimal.PrintParses(errno);
  }

  /** No line reads as two of them. */
  lemma OptionsDiffer(a: OptionsClaim, b: OptionsClaim)
    requires OptionsText(a) == OptionsText(b)
    ensures (a.Complete? <==> b.Complete?) && (a.Removed? <==> b.Removed?)
  {
    hide OptionsText;
    OptionsLength(a);
    OptionsLength(b);
  }

  /** The claim is true of the files. */
  ghost predicate Claims(c: OptionsClaim, fs: Files) {
    && (c.Complete? ==> fs.options.Some? && fs.options.value.content == "tmr_atboot=1")
    && (c.Removed? ==> fs.options == None)
  }

  /** WEXITSTATUS, or -1 for a child that a signal ended. */
  type ExitCode = code: int | -1 <= code < 256

  /** What the mount block can report. */
  datatype MountOutcome = AllSafe | QueueOnly | BannerOnly | NothingSafe | Unmounted(errno: nat)

  function OutcomeText(o: MountOutcome): string {
    match o
    case AllSafe => "cache mounted OK, banner + early log flushed" + " and confirmed written"
    case QueueOnly =>
      "cache mounted OK, early log flushed but BANNER WRITE FAILED"
      + " - attempt numbering may be missing for this run"
    case BannerOnly =>
      "cache mounted OK, banner written, but flush_early_log() FAILED"
      + " - early pre-mount lines lost, live logging continues"
    case NothingSafe => "cache mounted but flush_early_log() FAILED" + " - staying on in-memory log only"
    case Unmounted(errno) => Fit("cache mount FAILED errno=" + Decimal.Print(errno), 64)
  }

  /** A reader's view of the mount report: what it says of the banner and of the queue. */
  lemma OutcomeReads(o: MountOutcome)
    ensures o.AllSafe? ==> "cache mounted OK, banner + early log flushed" <= OutcomeText(o)
    ensures o.QueueOnly? ==> "cache mounted OK, early log flushed but BANNER WRITE FAILED" <= OutcomeText(o)
    ensures o.BannerOnly? ==> "cache mounted OK, banner written, but flush_early_log() FAILED" <= OutcomeText(o)
    ensures o.NothingSafe? ==> "cache mounted but flush_early_log() FAILED" <= OutcomeText(o)
    ensures o.Unmounted? ==> "cache mount FAILED errno=" <= OutcomeText(o)
  {
  }

  lemma OutcomeLength(o: MountOutcome)
    ensures |OutcomeText(o)| ==
            match o
            case AllSafe => 66
            case QueueOnly => 107
            case BannerOnly => 115
            case NothingSafe => 74
            case Unmounted(errno) => Min(25 + |Decimal.Print(errno)|, 63)
  {
  }

  /** No report reads as two outcomes. */
  lemma OutcomesDiffer(a: MountOutcome, b: MountOutcome)
    requires OutcomeText(a) == OutcomeText(b)
    ensures (a.AllSafe? <==> b.AllSafe?) && (a.QueueOnly? <==> b.QueueOnly?)
    ensures (a.BannerOnly? <==> b.BannerOnly?) && (a.NothingSafe? <==> b.NothingSafe?)
  {
    hide OutcomeText;
    OutcomeLength(a);
    OutcomeLength(b);
  }

  /** What is on the device when the block reports that outcome; a banner that failed may be there in part. */
  ghost predicate Backs(o: MountOutcome, before: string, banner: string, queued: string, log: File) {
    && (o.AllSafe? ==> OnDevice(log, before + banner + queued))
    && (o.QueueOnly? ==> exists k :: 0 <= k <= |banner| && OnDevice(log, before + banner[..k] + queued))
    && (o.BannerOnly? ==> OnDevice(log, before + banner))
  }

  lemma NothingBacked(o: MountOutcome, before: string, banner: string, queued: string, log: File)
    requires o.Unmounted?
    ensures Backs(o, before, banner, queued, log)
  {
  }

  lemma BacksStill(o: MountOutcome, before: string, banner: string, queued: string, log: File, after: File)
    requires Backs(o, before, banner, queued, log) && Grew(log, after)
    ensures Backs(o, before, banner, queued, after)
  {
    if o.QueueOnly? {
      var k :| 0 <= k <= |banner| && OnDevice(log, before + banner[..k] + queued);
      assert OnDevice(after, before + banner[..k] + queued);
    }
  }

  /** Where the report claims the banner, the number read from the banner in the log is this one. */
  ghost predicate Numbered(o: MountOutcome, before: string, log: File, number: Option<nat>) {
    o.AllSafe? || o.BannerOnly? ==> before <= log.content && AttemptRead(log.content[|before|..]) == number
  }

  lemma BannerIsRead(o: MountOutcome, before: string, number: Option<nat>, queued: string, log: File)
    requires Backs(o, before, Banner(Reported(number)), queued, log)
    ensures Numbered(o, before, log, number)
  {
    hide Banner, AttemptRead;
    if o.AllSafe? || o.BannerOnly? {
      var banner := Banner(Reported(number));
      assert before + banner <= log.content by {
        if o.AllSafe? {
          assert before + banner <= before + banner + queued;
        }
      }
      var more := log.content[|before + banner|..];
      assert log.content[|before|..] == banner + more;
      BannerReads(number, more);
    }
  }

  /** How the mount block went: what had been logged before it, what it reported, and when. */
  datatype Mounting = Mounting(early: seq<string>, outcome: MountOutcome, when: nat)

  /** The report is the next line of the log. */
  ghost predicate Told(m: Mounting, history: seq<string>) {
    m.early + [UptimeLine(m.when, OutcomeText(m.outcome))] <= history
  }

  /** How the wait for a modprobe child ends. */
  datatype WaitEnd = Exited(code: ExitCode) | Abandoned | Unreaped(errno: nat)

  function ForkText(name: string, errno: nat): string {
    Fit("modprobe " + name + ": fork() FAILED errno=" + Decimal.Print(errno), MESSAGE_BYTES)
  }

  /** The reply to waitpid that ends a wait that way. */
  ghost predicate Ended(e: Event, end: WaitEnd) {
    && e.Reply?
    && (end.Exited? ==> e.ret.Count? && e.ret.n > 0)
    && (end.Abandoned? ==> e.ret == Count(0))
    && (end.Unreaped? ==> e.ret == Failed(end.errno))
  }

  /** The wording of modprobe's result line. */
  function ResultText(name: string, end: WaitEnd, present: bool): string {
    Fit("modprobe " + name + ": " + How(end) + " proc_modules=" + (if present then "yes" else "no"), MESSAGE_BYTES)
  }

  function StartText(name: string): string {
    Fit("modprobe " + name + ": starting", MESSAGE_BYTES)
  }

  /** The text reports the module as present, or as absent. */
  ghost predicate Tells(text: string, name: string, present: bool) {
    exists end: WaitEnd :: !end.Unreaped? && text == ResultText(name, end, present)
  }

  /** The answer is the end of the line, which the message buffer never cuts off. */
  lemma ResultEnds(name: string, end: WaitEnd, present: bool)
    requires |name| < 64 && !end.Unreaped?
    ensures var text := ResultText(name, end, present);
      text != [] && (text[|text| - 1] == 's' <==> present)
  {
    assert Decimal.Print(1) == "1";
    assert Decimal.Pow10(3) == 1000;
    if end.Exited? && end.code >= 0 {
      Decimal.PrintLength(end.code, 3);
    }
  }

  function How(end: WaitEnd): string {
    match end
    case Exited(code) => "exit=" + Decimal.PrintInt(code)
    case Abandoned => "TIMED OUT" + " after 20s, abandoning wait (child leaked)"
    case Unreaped(errno) => "waitpid FAILED errno=" + Decimal.Print(errno)
  }

  /** A reader's view of how the wait ended: an exit with its code, a timeout, or a failed wait. */
  lemma ResultReads(name: string, end: WaitEnd, present: bool)
    requires |name| < 64 && !end.Unreaped?
    ensures var how := After(ResultText(name, end, present), "modprobe " + name + ": ");
      && how.Some?
      && (end.Exited? ==> "exit=" <= how.value)
      && (end.Abandoned? ==> "TIMED OUT" <= how.value)
      && (end.Exited? && end.code >= 0 ==> FieldRead(how.value, "exit=", " proc_modules=") == Some(end.code))
  {
    hide How, FieldRead;
    var start, answer := "modprobe " + name + ": ", if present then "yes" else "no";
    HowReads(end, answer);
    HowIsShort(end);
    Rest(start, How(end), " proc_modules=", answer);
    assert start + How(end) + " proc_modules=" + answer == ResultText(name, end, present);
  }

  lemma Rest(start: string, how: string, sep: string, answer: string)
    ensures After(start + how + sep + answer, start) == Some(how + sep + answer)
  {
    assert start + how + sep + answer == start + (how + sep + answer);
    assert (start + (how + sep + answer))[|start|..] == how + sep + answer;
  }

  lemma HowReads(end: WaitEnd, answer: string)
    ensures end.Exited? ==> "exit=" <= How(end) + " proc_modules=" + answer
    ensures end.Abandoned? ==> "TIMED OUT" <= How(end) + " proc_modules=" + answer
    ensures end.Exited? && end.code >= 0 ==>
              FieldRead(How(end) + " proc_modules=" + answer, "exit=", " proc_modules=") == Some(end.code)
  {
    if end.Exited? && end.code >= 0 {
      FieldReads("exit=", end.code, " proc_modules=", answer);
    }
  }

  lemma HowIsShort(end: WaitEnd)
    requires !end.Unreaped?
    ensures |How(end)| <= 60
  {
    assert Decimal.Print(1) == "1";
    if end.Exited? && end.code >= 0 {
      ShortCode(end.code);
    }
  }

  lemma ShortCode(code: nat)
    requires code < 256
    ensures |Decimal.Print(code)| <= 3
  {
    assert Decimal.Pow10(3) == 1000;
    Decimal.PrintLength(code, 3);
  }

  /** No result line says both. */
  lemma TellsOneAnswer(text: string, name: string)
    requires |name| < 64
    ensures !(Tells(text, name, true) && Tells(text, name, false))
  {
    if Tells(text, name, true) && Tells(text, name, false) {
      var a: WaitEnd :| !a.Unreaped? && text == ResultText(name, a, true);
      var b: WaitEnd :| !b.Unreaped? && text == ResultText(name, b, false);
      ResultEnds(name, a, true);
      ResultEnds(name, b, false);
    }
  }

  /** The module is a first field of /proc/modules, in the kernel's spelling. */
  ghost predicate Loaded(name: string, modules: string) {
    ProcText.Listed(CStr(modules), ProcText.KernelName(name))
  }

  /** What /proc/partitions holds at the i-th poll. */
  function Look(looks: seq<string>, i: nat): string {
    if i < |looks| then looks[i] else ""
  }

  /** The listing has the name as one of its fields. */
  ghost predicate Shows(name: string, listing: string) {
    name in ProcText.Tokens(CStr(listing))
  }

  /** Every listing fits the buffer it is read into. */
  ghost predicate Short(looks: seq<string>) {
    forall look :: look in looks ==> |look| < 16383
  }

  ghost predicate ShownWithin(name: string, looks: seq<string>, polls: nat) {
    exists i: nat :: i < polls && Shows(name, Look(looks, i))
  }

  class Init {
    const pid: int
    const events: seq<Event>
    var pos: nat
    var calls: seq<Call>
    var files: Files
    var mounted: bool
    var cacheOk: bool
    var cacheMounted: bool
    var kmsgOpen: bool
    var handlers: bool
    var pid1: int
    var queue: Queue
    var meter: Meter
    var bootNumber: Option<nat>
    ghost var history: seq<string>
    ghost var mounting: Option<Mounting>
    ghost var rebootAt: Option<Meter>
    ghost var restarts: nat

    /** The meter has counted exactly the events taken so far. */
    ghost predicate Metered()
      reads `pos, `calls, `meter
    {
      pos == |calls| <= |events| && meter.tally == Tallied(events, calls)
    }

    /** Signal safety: logging to /cache is enabled only while the device is mounted there. */
    ghost predicate Safe()
      reads `pos, `calls, `meter, `cacheOk, `mounted
    {
      Metered() && (cacheOk ==> mounted)
    }

    ghost function L(): Log
      reads this
    {
      Log(files, cacheOk, queue, history)
    }

    /** The file /cache/v24_log.txt names: what lies behind /cache decides. */
    function LogTarget(): Fd
      reads this
    {
      if mounted then LogFd else RamLogFd
    }

    /** The mount block reported everything safe. */
    ghost predicate Confirmed()
      reads `mounting
    {
      mounting.Some? && mounting.value.outcome.AllSafe?
    }

    /** No call since then met a reply that it treats as a failure. */
    ghost predicate Unharmed(since: Meter)
      reads this
    {
      meter.tally.faults == since.tally.faults
    }

    /** A stop is due to the machine going away or to a signal taken since then. */
    ghost predicate Excused(since: Meter)
      reads this
    {
      pos == |events| || meter.tally.signals > since.tally.signals
    }

    // ----- events -----

    /** The log grew by the record of this signal, which names the second it came in, and is durable. */
    ghost predicate LastWords(before: File, after: File, m: Meter, e: Event)
      requires e.Signal?
    {
      && Synced(after)
      && after.content == before.content + FatalRecord.Record(Seconds(m.(now := m.now + e.took)), e.sig)
    }

    /** Takes one event: the caller gets the kernel's reply, or the process dies here. */
    method Take(call: Call) returns (r: Step<Ret>)
      requires Safe()
      modifies `pos, `calls, `meter, `files
      ensures Metered() && pos >= old(pos) && Lagged(old(meter), meter, 1)
      ensures r.Next? ==> files == old(files) && pos > old(pos)
      ensures r.Halted? ==> Died(old(files), files, cacheOk)
      ensures r.Next? ==> old(pos) < |events| && events[old(pos)].Reply? && r.value == events[old(pos)].ret
      ensures r.Halted? ==> old(pos) == |events| || events[old(pos)].Signal?
      ensures r.Next? ==> (Unharmed(old(meter)) <==> Succeeds(call, events[old(pos)]))
      ensures r.Next? && Repeats(call, events[old(pos)]) ==> meter.tally.steps == old(meter.tally.steps)
      ensures r.Halted? && old(pos) < |events| && handlers && pid1 == pid && cacheOk ==>
                pos == |events| || meter.tally.faults > old(meter.tally.faults) + 1
                || LastWords(old(files.log), files.log, old(meter), events[old(pos)])
      ensures r.Halted? ==> Excused(old(meter))
      decreases |events| - pos, 0
    {
      hide Tallied, Died, Synced, FatalRecord.Record;
      DiedAtOnce(files);
      if pos == |events| {
        return Halted;
      }
      var event := events[pos];
      TallyMore(events, calls, call);
      pos, calls := pos + 1, calls + [call];
      meter := meter.(now := meter.now + event.took, tally := Tallied(events, calls));
      match event
      case Reply(ret, _) =>
        r := Next(ret);
      case Signal(sig, _) =>
        if handlers {
          var recorded := FatalSigHandler(sig, pid);
        }
        r := Halted;
    }

    /** A call whose result is dropped, or any instant at which only a signal matters. */
    method Tick() returns (r: Step<()>)
      requires Safe()
      modifies `pos, `calls, `meter, `files
      ensures Metered() && pos >= old(pos) && Lagged(old(meter), meter, 1)
      ensures r.Next? ==> files == old(files) && pos > old(pos) && Unharmed(old(meter))
      ensures r.Next? <==> old(pos) < |events| && events[old(pos)].Reply?
      ensures r.Halted? ==> Died(old(files), files, cacheOk)
      ensures r.Halted? ==> Excused(old(meter))
      decreases |events| - pos, 1
    {
      hide Tallied;
      var _ :- Take(Ignored);
      return Next(());
    }

    /** write: appends as many bytes as the kernel chooses to take. */
    method Write(fd: Fd, text: string) returns (r: Step<Ret>)
      requires Safe() && text != ""
      modifies `pos, `calls, `meter, `files
      ensures Metered() && pos >= old(pos) && Lagged(old(meter), meter, 1)
      ensures r.Next? ==> pos > old(pos)
      ensures r.Next? && !r.value.Count? ==> files == old(files)
      ensures r.Next? && r.value.Count? ==> r.value.n <= |text|
      ensures r.Next? && r.value.Count? ==> files == Wrote(old(files), fd, text[..r.value.n])
      ensures r.Halted? ==> Died(old(files), files, cacheOk)
      ensures r.Next? && Unharmed(old(meter)) ==> r.value.Interrupted? || (r.value.Count? && r.value.n > 0)
      ensures r.Next? && r.value.Interrupted? ==> meter.tally.steps == old(meter.tally.steps)
      ensures r.Halted? ==> Excused(old(meter))
      decreases |events| - pos, 1
    {
      hide Tallied;
      var ret :- Take(Retried);
      if ret.Count? {
        var n := Min(ret.n, |text|);
        files := Wrote(files, fd, text[..n]);
        return Next(Count(n));
      }
      return Next(ret);
    }

    /** Writes everything, retrying EINTR and short writes; false on an error or no progress. */
    method WriteFull(fd: Fd, text: string) returns (r: Step<bool>, ghost wrote: nat)
      requires Safe() && Opened(files, fd)
      modifies `pos, `calls, `meter, `files
      ensures Metered() && pos >= old(pos) && Lagged(old(meter), meter, |text|)
      ensures wrote <= |text|
      ensures r.Next? ==> files == Wrote(old(files), fd, text[..wrote])
      ensures r.Next? ==> (r.value <==> wrote == |text|)
      ensures r.Halted? ==> Died(Wrote(old(files), fd, text[..wrote]), files, cacheOk)
      ensures r.Next? && Unharmed(old(meter)) ==> r.value
      ensures r.Halted? ==> Excused(old(meter))
      decreases |events| - pos, 2
    {
      hide Tallied;
      var off := 0;
      wrote := 0;
      ghost var start := files;
      WroteNothing(start, fd);
      while off < |text|
        invariant 0 <= off == wrote <= |text|
        invariant Metered() && pos >= old(pos) && Lagged(old(meter), meter, off)
        invariant files == Wrote(start, fd, text[..off])
        decreases |events| - pos
      {
        var step := Write(fd, text[off..]);
        match step
        case Halted =>
          return Halted, wrote;
        case Next(Interrupted) =>
        case Next(Failed(_)) =>
          return Next(false), wrote;
        case Next(Count(n)) =>
          if n == 0 {
            assert text[off..][..n] == "";
            WroteNothing(Wrote(start, fd, text[..off]), fd);
            return Next(false), wrote;
          }
          WroteTwice(start, fd, text[..off], text[off..][..n]);
          TakeMore(text, off, n);
          off := off + n;
          wrote := off;
      }
      assert text[..off] == text;
      return Next(true), wrote;
    }

    /** fsync: on success everything written so far is on stable storage. */
    method Fsync(fd: Fd) returns (r: Step<bool>)
      requires Safe()
      modifies `pos, `calls, `meter, `files
      ensures Metered() && pos >= old(pos) && Lagged(old(meter), meter, 1)
      ensures r.Next? ==> files == if r.value then Flush(old(files), fd) else old(files)
      ensures r.Halted? ==> Died(old(files), files, cacheOk)
      ensures r.Next? && Unharmed(old(meter)) ==> r.value
      ensures r.Halted? ==> Excused(old(meter))
      decreases |events| - pos, 1
    {
      hide Tallied;
      var ret :- Take(Single);
      if ret.Count? {
        files := Flush(files, fd);
        return Next(true);
      }
      return Next(false);
    }

    /** Opens the log for appending; None when open fails. */
    method OpenLog() returns (r: Step<Option<Fd>>)
      requires Safe()
      modifies `pos, `calls, `meter, `files
      ensures Metered() && pos >= old(pos) && Lagged(old(meter), meter, 1)
      ensures r.Next? ==> files == old(files)
      ensures r.Next? && r.value.Some? ==> r.value.value == LogTarget()
      ensures r.Halted? ==> Died(old(files), files, cacheOk)
      ensures r.Next? && Unharmed(old(meter)) ==> r.value.Some?
      ensures r.Halted? ==> Excused(old(meter))
      decreases |events| - pos, 1
    {
      hide Tallied;
      var ret :- Take(Single);
      return Next(if ret.Count? then Some(LogTarget()) else None);
    }

    /** write_full and then fsync in any case: false when either failed. */
    method WriteAndSync(fd: Fd, text: string) returns (r: Step<bool>, ghost wrote: nat)
      requires Safe() && cacheOk && fd == LogTarget()
      modifies `pos, `calls, `meter, `files
      ensures Metered() && pos >= old(pos) && Lagged(old(meter), meter, |text| + 1)
      ensures OnlyLogs(old(files), files, true)
      ensures wrote <= |text|
      ensures r.Next? ==> files.log.content == old(files.log.content) + text[..wrote]
      ensures r.Halted? ==> Dying(old(files.log.content) + text[..wrote], files.log.content)
      ensures r.Next? && r.value ==> wrote == |text| && Synced(files.log)
      ensures r.Next? && Unharmed(old(meter)) ==> r.value
      ensures r.Halted? ==> Excused(old(meter))
      decreases |events| - pos, 3
    {
      hide Tallied;
      r, wrote := WriteFull(fd, text);
      if r.Next? {
        var synced := Fsync(fd);
        r := if synced.Halted? then Halted else Next(r.value && synced.value);
      }
    }

    /** Open, write, sync, close: one append to the log while logging to it is enabled. */
    method AppendLog(text: string) returns (r: Step<bool>, ghost wrote: nat)
      requires Safe() && cacheOk
      modifies `pos, `calls, `meter, `files
      ensures Metered() && pos >= old(pos) && Lagged(old(meter), meter, |text| + 3)
      ensures OnlyLogs(old(files), files, true)
      ensures wrote <= |text|
      ensures r.Next? ==> files.log.content == old(files.log.content) + text[..wrote]
      ensures r.Halted? ==> Dying(old(files.log.content) + text[..wrote], files.log.content)
      ensures r.Next? && r.value ==> wrote == |text| && Synced(files.log)
      ensures r.Next? && Unharmed(old(meter)) ==> r.value
      ensures r.Halted? ==> Excused(old(meter))
      decreases |events| - pos, 4
    {
      hide Tallied;
      wrote := 0;
      var open := OpenLog();
      if open.Halted? || open.value.None? {
        return if open.Halted? then Halted else Next(false), wrote;
      }
      r, wrote := WriteAndSync(open.value.value, text);
      if r.Next? {
        var closed := Tick();
        r := if closed.Halted? then Halted else r;
      }
    }

    // ----- the fatal-signal handler -----

    method RecordText(sig: SignalNumber) returns (text: string)
      ensures text == FatalRecord.Record(Seconds(meter), sig) && |text| <= 64
    {
      FatalRecord.RecordFits(Seconds(meter), sig);
      var buf, n := FatalRecord.Assemble(Seconds(meter), sig);
      text := buf[..n];
    }

    lemma AppendedRecord(before: string, record: string, after: string, halted: bool)
      requires FatalRecord.CutRecord(record)
      requires if halted then Dying(before + record, after) else after == before + record
      ensures Dying(before, after)
    {
      assert !halted ==> after[|before + record|..] == "";
      DiedWriting(before, record, after);
    }

    /** Runs in whichever process took the signal; only the real PID 1 writes anything. */
    method FatalSigHandler(sig: SignalNumber, runner: int) returns (recorded: bool)
      requires Safe()
      modifies `pos, `calls, `meter, `files
      ensures Metered() && pos >= old(pos) && Lagged(old(meter), meter, 131)
      ensures Died(old(files), files, cacheOk)
      ensures runner != pid1 ==>
                files == old(files) && pos == old(pos) && calls == old(calls) && meter == old(meter)
      ensures recorded ==> cacheOk && Synced(files.log)
      ensures recorded ==>
                files.log.content == old(files.log.content) + FatalRecord.Record(Seconds(old(meter)), sig)
      ensures !recorded && cacheOk && runner == pid1 ==> pos == |events| || meter.tally.faults > old(meter.tally.faults)
      decreases |events| - pos, 5
    {
      hide Tallied, FatalRecord.Record, FatalRecord.LastWords;
      recorded := false;
      DiedAtOnce(files);
      if runner != pid1 {
        return;
      }
      var text := RecordText(sig);
      if kmsgOpen {
        var kmsg, _ := WriteFull(KmsgFd, text);
        if kmsg.Halted? {
          return;
        }
      }
      if cacheOk {
        ghost var before := files.log.content;
        var appended, wrote := AppendLog(text);
        assert text[..|text|] == text;
        AppendedRecord(before, text[..wrote], files.log.content, appended.Halted?);
        recorded := appended == Next(true);
      }
    }

    // ----- the two-tier log -----

    /** The file half of log_line: the kernel log, then the device while that is enabled. */
    method LogToFiles(msg: string) returns (r: Step<()>)
      requires Safe()
      modifies `pos, `calls, `meter, `files, `cacheOk
      ensures Safe() && pos >= old(pos) && Lagged(old(meter), meter, |msg| + 5)
      ensures OnlyLogs(old(files), files, old(cacheOk)) && (cacheOk ==> old(cacheOk))
      ensures r.Next? && cacheOk ==>
                Synced(files.log) && files.log.content == old(files.log.content) + msg
      ensures r.Next? && !cacheOk && old(cacheOk) ==>
                exists k :: 0 <= k <= |msg| && files.log.content == old(files.log.content) + msg[..k]
      ensures r.Next? && Unharmed(old(meter)) ==> cacheOk == old(cacheOk)
      ensures r.Halted? ==>
                exists k :: 0 <= k <= |msg| && Dying(old(files.log.content) + msg[..k], files.log.content)
      ensures r.Halted? ==> Excused(old(meter))
    {
      hide Tallied, FatalRecord.LastWords;
      assert files.log.content + msg[..0] == files.log.content;
      if kmsgOpen {
        var _ :- Tick();
      }
      if cacheOk {
        r := LogToCache(msg);
      } else {
        r := Next(());
      }
    }

    /** The append to the device log; any failure switches logging to the device off. */
    method LogToCache(msg: string) returns (r: Step<()>)
      requires Safe() && cacheOk
      modifies `pos, `calls, `meter, `files, `cacheOk
      ensures Safe() && pos >= old(pos) && Lagged(old(meter), meter, |msg| + 4)
      ensures OnlyLogs(old(files), files, true)
      ensures r.Next? && cacheOk ==>
                Synced(files.log) && files.log.content == old(files.log.content) + msg
      ensures r.Next? && !cacheOk ==>
                exists k :: 0 <= k <= |msg| && files.log.content == old(files.log.content) + msg[..k]
      ensures r.Next? && Unharmed(old(meter)) ==> cacheOk
      ensures r.Halted? ==>
                exists k :: 0 <= k <= |msg| && Dying(old(files.log.content) + msg[..k], files.log.content)
      ensures r.Halted? ==> Excused(old(meter))
    {
      hide Tallied, FatalRecord.LastWords;
      var ok, wrote := AppendLog(msg);
      if ok.Halted? {
        return Halted;
      }
      assert msg[..|msg|] == msg;
      if !ok.value {
        var _ :- Tick();
        cacheOk := false;
      }
      return Next(());
    }

    /** Logs one line: to the kernel log, and to the device file or else the in-memory queue. */
    method LogLine(msg: string) returns (r: Step<()>)
      requires Safe()
      modifies `pos, `calls, `meter, `files, `cacheOk, `queue, `history
      ensures Safe() && pos >= old(pos) && Lagged(old(meter), meter, |msg| + 5)
      ensures Logged(old(L()), L(), 1)
      ensures r.Next? ==> history == old(history) + [msg]
      ensures r.Next? && cacheOk ==> queue == old(queue) && Synced(files.log)
      ensures r.Next? && cacheOk ==> files.log.content == old(files.log.content) + msg
      ensures r.Next? && !cacheOk ==>
                queue == old(queue) + if old(|queue|) < 96 then [Slot(msg)] else []
      ensures r.Next? && !cacheOk && old(cacheOk) ==>
                exists k :: 0 <= k <= |msg| && files.log.content == old(files.log.content) + msg[..k]
      ensures r.Next? && Unharmed(old(meter)) ==> cacheOk == old(cacheOk)
      ensures r.Halted? ==>
                exists k :: 0 <= k <= |msg| && Dying(old(files.log.content) + msg[..k], files.log.content)
      ensures r.Halted? ==> Excused(old(meter))
    {
      hide Tallied;
      var _ :- LogToFiles(msg);
      if !cacheOk && |queue| < SLOTS {
        queue := queue + [Slot(msg)];
      }
      history := history + [msg];
      assert Slots(history) == Slots(old(history)) + [Slot(msg)];
      return Next(());
    }

    /** logf_uptime, for any wording of the line. */
    method Say(text: string) returns (r: Step<()>)
      requires Safe()
      modifies `pos, `calls, `meter, `files, `cacheOk, `queue, `history
      ensures Safe() && pos >= old(pos) && Lagged(old(meter), meter, 224)
      ensures Logged(old(L()), L(), 1)
      ensures r.Next? ==> history == old(history) + [UptimeLine(old(meter.now), text)]
      ensures r.Next? && cacheOk ==> queue == old(queue) && Synced(files.log)
      ensures r.Next? && cacheOk ==>
                files.log.content == old(files.log.content) + UptimeLine(old(meter.now), text)
      ensures r.Next? && !cacheOk ==>
                queue == old(queue) + if old(|queue|) < 96 then [Slot(UptimeLine(old(meter.now), text))] else []
      ensures r.Next? && Unharmed(old(meter)) ==> cacheOk == old(cacheOk)
      ensures r.Halted? ==> Excused(old(meter))
    {
      hide Tallied;
      r := LogLine(UptimeLine(meter.now, text));
    }

    /** Writes the queue to an open log, line by line, going on after a failed one. */
    method WriteQueue(fd: Fd) returns (r: Step<bool>)
      requires Safe() && fd == LogTarget()
      modifies `pos, `calls, `meter, `files
      ensures Metered() && pos >= old(pos) && Lagged(old(meter), meter, |Concat(queue)|)
      ensures mounted ==> OnlyLogs(old(files), files, true)
      ensures files == old(files).(log := files.log, ramLog := files.ramLog)
      ensures r.Next? && r.value ==> files == Wrote(old(files), fd, Concat(queue))
      ensures r.Next? && Unharmed(old(meter)) ==> r.value
      ensures r.Halted? ==> Excused(old(meter))
    {
      hide Tallied, Concat;
      ConcatNone(queue);
      var ok := true;
      var i := 0;
      WroteNothing(files, fd);
      while i < |queue|
        invariant 0 <= i <= |queue|
        invariant Metered() && pos >= old(pos) && Lagged(old(meter), meter, |Concat(queue[..i])|)
        invariant mounted ==> OnlyLogs(old(files), files, true)
        invariant files == old(files).(log := files.log, ramLog := files.ramLog)
        invariant ok ==> files == Wrote(old(files), fd, Concat(queue[..i]))
        invariant !ok ==> !Unharmed(old(meter))
      {
        ConcatSnoc(queue, i);
        ConcatGrows(queue, i + 1);
        var wrote, k := WriteFull(fd, queue[i]);
        if wrote.Halted? {
          return Halted;
        }
        if !wrote.value {
          ok := false;
        } else if ok {
          assert queue[i][..k] == queue[i];
          WroteTwice(old(files), fd, Concat(queue[..i]), queue[i]);
        }
        i := i + 1;
      }
      assert queue[..i] == queue;
      return Next(ok);
    }

    /** Appends every queued line to the log file; true when all of it reached the device. */
    method FlushEarlyLog() returns (r: Step<bool>)
      requires Safe()
      modifies `pos, `calls, `meter, `files
      ensures Metered() && pos >= old(pos) && Lagged(old(meter), meter, |Concat(queue)| + 3)
      ensures mounted ==> OnlyLogs(old(files), files, true)
      ensures files == old(files).(log := files.log, ramLog := files.ramLog)
      ensures r.Next? && r.value ==>
                files == Flush(Wrote(old(files), LogTarget(), Concat(queue)), LogTarget())
      ensures r.Next? && Unharmed(old(meter)) ==> r.value
      ensures r.Halted? ==> Excused(old(meter))
    {
      hide Tallied;
      var open :- OpenLog();
      if open.None? {
        return Next(false);
      }
      var ok :- WriteQueue(open.value);
      var synced :- SyncAndClose(open.value);
      return Next(ok && synced);
    }

    method SyncAndClose(fd: Fd) returns (r: Step<bool>)
      requires Safe() && fd == LogTarget()
      modifies `pos, `calls, `meter, `files
      ensures Metered() && pos >= old(pos) && Lagged(old(meter), meter, 2)
      ensures mounted ==> OnlyLogs(old(files), files, true)
      ensures files == old(files).(log := files.log, ramLog := files.ramLog)
      ensures r.Next? && r.value ==> files == Flush(old(files), fd)
      ensures r.Next? && Unharmed(old(meter)) ==> r.value
      ensures r.Halted? ==> Excused(old(meter))
    {
      hide Tallied;
      r := Fsync(fd);
      if r.Next? {
        var closed := Tick();
        r := if closed.Halted? then Halted else r;
      }
    }

    /** write_full and then, only if that succeeded, fsync. */
    method WriteDurably(fd: Fd, text: string) returns (r: Step<bool>, ghost wrote: nat)
      requires Safe() && Opened(files, fd)
      modifies `pos, `calls, `meter, `files
      ensures Metered() && pos >= old(pos) && Lagged(old(meter), meter, |text| + 1)
      ensures wrote <= |text|
      ensures r.Next? && !r.value ==> files == Wrote(old(files), fd, text[..wrote])
      ensures r.Next? && r.value ==> files == Flush(Wrote(old(files), fd, text), fd)
      ensures r.Halted? ==> OnlyLogs(Wrote(old(files), fd, text[..wrote]), files, cacheOk)
      ensures r.Next? && Unharmed(old(meter)) ==> r.value
      ensures r.Halted? ==> Excused(old(meter))
    {
      hide Tallied;
      r, wrote := WriteFull(fd, text);
      if r.Next? && r.value {
        assert text[..wrote] == text;
        r := Fsync(fd);
      }
    }

    /** Writes the boot banner straight to the log, and enables logging before closing the file. */
    method WriteBanner(text: string) returns (r: Step<bool>, ghost wrote: nat)
      requires Safe() && mounted
      modifies `pos, `calls, `meter, `files, `cacheOk
      ensures Safe() && pos >= old(pos) && Lagged(old(meter), meter, |text| + 4)
      ensures OnlyLogs(old(files), files, true)
      ensures old(cacheOk) ==> cacheOk
      ensures r.Next? ==> (cacheOk <==> old(cacheOk) || r.value)
      ensures r.Next? && r.value ==> Synced(files.log) && wrote == |text|
      ensures wrote <= |text|
      ensures r.Next? ==> files.log.content == old(files.log.content) + text[..wrote]
      ensures r.Next? && Unharmed(old(meter)) ==> r.value
      ensures r.Halted? ==> Excused(old(meter))
    {
      hide Tallied;
      wrote := 0;
      var open := OpenLog();
      if open.Halted? || open.value.None? {
        assert text[..0] == "";
        return if open.Halted? then Halted else Next(false), wrote;
      }
      r, wrote := WriteDurably(open.value.value, text);
      if r.Halted? {
        return;
      }
      assert r.value ==> text[..|text|] == text;
      if r.value {
        wrote := |text|;
      }
      ghost var written := files;
      var closed := EnableAndClose(r.value);
      assert OnlyLogs(written, files, true);
      r := if closed.Halted? then Halted else r;
    }

    /** Enables logging if the banner is on the device, and then closes the file. */
    method EnableAndClose(ok: bool) returns (r: Step<()>)
      requires Safe() && mounted
      modifies `pos, `calls, `meter, `files, `cacheOk
      ensures Safe() && pos >= old(pos) && Lagged(old(meter), meter, 2)
      ensures OnlyLogs(old(files), files, true) && (r.Next? ==> files == old(files))
      ensures old(cacheOk) ==> cacheOk
      ensures r.Next? ==> (cacheOk <==> old(cacheOk) || ok)
      ensures r.Halted? ==> Excused(old(meter))
    {
      hide Tallied;
      if ok {
        var _ :- EnableLogging();
      }
      r := Tick();
    }

    /**
     * A signal may still come between the fsync and this assignment: then nothing records it, since
     * logging to the device is still disabled.
     */
    method EnableLogging() returns (r: Step<()>)
      requires Safe() && mounted
      modifies `pos, `calls, `meter, `files, `cacheOk
      ensures Metered() && pos >= old(pos) && Lagged(old(meter), meter, 1)
      ensures r.Next? <==> old(pos) < |events| && events[old(pos)].Reply?
      ensures r.Halted? && !old(cacheOk) ==> files == old(files)
      ensures r.Next? ==> files == old(files) && cacheOk
      ensures r.Halted? ==> OnlyLogs(old(files), files, cacheOk) && cacheOk == old(cacheOk)
      ensures r.Halted? ==> Excused(old(meter))
    {
      hide Tallied;
      var _ :- Tick();
      cacheOk := true;
      return Next(());
    }

    // ----- reading files -----

    /** The read loop: to end of file through short reads and EINTR, or until buffer or kernel gives up. */
    method ReadAll(file: string, room: nat) returns (r: Step<Input>)
      requires Safe()
      modifies `pos, `calls, `meter, `files
      ensures Metered() && pos >= old(pos) && Lagged(old(meter), meter, room)
      ensures r.Next? ==> files == old(files)
      ensures r.Next? ==> r.value.data <= file && |r.value.data| <= room
      ensures r.Next? && r.value.ending.Eof? ==> r.value.data == file && |file| < room
      ensures r.Next? && r.value.ending.Full? ==> |r.value.data| == room
      ensures r.Halted? ==> OnlyLogs(old(files), files, cacheOk)
      ensures r.Next? && Unharmed(old(meter)) ==>
                r.value.ending == if |file| < room then Eof else Full
      ensures r.Halted? ==> Excused(old(meter))
    {
      hide Tallied;
      var total := 0;
      while total < room
        invariant 0 <= total <= |file| && total <= room
        invariant Metered() && pos >= old(pos) && Lagged(old(meter), meter, total) && files == old(files)
        decreases |events| - pos
      {
        var ret :- Take(Retried);
        match ret
        case Interrupted =>
        case Failed(_) =>
          return Next(Input(file[..total], ReadError));
        case Count(n) =>
          if total == |file| {
            return Next(Input(file[..total], Eof));
          }
          total := total + Min(Max(n, 1), Min(room - total, |file| - total));
      }
      return Next(Input(file[..total], Full));
    }

    /** The scan of module_present, over what was read. */
    method ScanFor(name: string, data: string) returns (present: bool)
      ensures ProcText.OneWord(name) && |name| < 64 ==>
                (present <==> ProcText.Listed(CStr(data), ProcText.KernelName(name)))
    {
      var buffer := new char[64];
      ProcText.Normalize(buffer, CStr(name));
      present := ProcText.ScanModules(CStr(data), CStr(buffer[..]));
      if ProcText.OneWord(name) && |name| < 64 {
        ProcText.KernelNameIsOneWord(name, |name|);
        assert '\0' !in name;
        assert ProcText.KernelName(name)[..|name|] == ProcText.KernelName(name);
      }
    }

    /** Whether a module is listed; complete says the whole file was read. */
    method ModulePresent(name: string, modules: string) returns (r: Step<bool>, ghost complete: bool)
      requires Safe()
      modifies `pos, `calls, `meter, `files
      ensures Metered() && pos >= old(pos) && Lagged(old(meter), meter, 32_769)
      ensures r.Next? ==> files == old(files)
      ensures r.Next? && complete && ProcText.OneWord(name) && |name| < 64 ==>
                (r.value <==> ProcText.Listed(CStr(modules), ProcText.KernelName(name)))
      ensures r.Halted? ==> OnlyLogs(old(files), files, cacheOk)
      ensures r.Next? && Unharmed(old(meter)) && |modules| < 32767 ==> complete
      ensures r.Halted? ==> Excused(old(meter))
    {
      hide Tallied;
      var input := ReadProc(modules, 32767);
      if input.Halted? || input.value.None? {
        return if input.Halted? then Halted else Next(false), false;
      }
      complete := input.value.value.ending.Eof?;
      var present := ScanFor(name, input.value.value.data);
      return Next(present), complete;
    }

    /** Open, read to the end or to the buffer's, close; None when open fails. */
    method ReadProc(file: string, room: nat) returns (r: Step<Option<Input>>)
      requires Safe()
      modifies `pos, `calls, `meter, `files
      ensures Metered() && pos >= old(pos) && Lagged(old(meter), meter, room + 2)
      ensures r.Next? ==> files == old(files)
      ensures r.Next? ==> pos > old(pos)
      ensures r.Next? && r.value.Some? ==> r.value.value.data <= file && |r.value.value.data| <= room
      ensures r.Next? && r.value.Some? && r.value.value.ending.Eof? ==> r.value.value.data == file
      ensures r.Next? && Unharmed(old(meter)) && |file| <= room ==>
                r.value.Some? && r.value.value.data == file
                && r.value.value.ending == if |file| < room then Eof else Full
      ensures r.Halted? ==> OnlyLogs(old(files), files, cacheOk)
      ensures r.Halted? ==> Excused(old(meter))
    {
      hide Tallied;
      var open :- Take(Single);
      if !open.Count? {
        return Next(None);
      }
      var input :- ReadAll(file, room);
      var _ :- Tick();
      return Next(Some(input));
    }

    // ----- the boot counter -----

    /** Digits, at most seven, an optional newline, and a number that still has a successor. */
    method ParseCounter(data: string) returns (prev: Option<nat>)
      ensures prev == BootCounter.Trusted(data)
    {
      var dl := 0;
      while dl < |data| && '0' <= data[dl] <= '9'
        invariant 0 <= dl <= |data| && Decimal.AllDigits(data[..dl])
      {
        dl := dl + 1;
      }
      Decimal.DigitRunIs(data, dl);
      var trailingOk := dl == |data| || (dl == |data| - 1 && data[dl] == '\n');
      if 0 < dl <= 7 && trailingOk {
        var parsed := Decimal.Value(data[..dl]);
        return if parsed < BootCounter.LIMIT then Some(parsed) else None;
      }
      return None;
    }

    /** The number to count on from: what the whole file says, or nothing at all. */
    method ReadCounter() returns (r: Step<Option<nat>>)
      requires Safe()
      modifies `pos, `calls, `meter, `files
      ensures Metered() && pos >= old(pos) && Lagged(old(meter), meter, 33)
      ensures r.Next? ==> files == old(files)
      ensures r.Next? && r.value.Some? ==> r.value == BootCounter.Previous(Stored(files))
      ensures r.Halted? ==> OnlyLogs(old(files), files, cacheOk)
      ensures r.Next? && Unharmed(old(meter)) ==> r.value == BootCounter.Previous(Stored(files))
      ensures r.Next? && old(pos) < |events| && Refuses(events[old(pos)]) ==> r.value == None
      ensures r.Halted? ==> Excused(old(meter))
    {
      hide Tallied, Dying;
      var open :- Take(if files.counter.None? then Missing else Single);
      if files.counter.None? {
        return Next(if open == Failed(ENOENT) || open.Count? then Some(0) else None);
      }
      if !open.Count? {
        return Next(None);
      }
      var input :- ReadAll(files.counter.value.content, 31);
      var _ :- Tick();
      if input.ending.Eof? && 0 < |input.data| < 31 {
        var prev := ParseCounter(input.data);
        return Next(prev);
      }
      return Next(None);
    }

    /** Truncates the temporary file, writes the text, makes it durable, and closes it. */
    method WriteTmp(text: string) returns (r: Step<bool>)
      requires Safe()
      modifies `pos, `calls, `meter, `files
      ensures Metered() && pos >= old(pos) && Lagged(old(meter), meter, |text| + 3)
      ensures CounterUpdate(old(files), files) && files.counter == old(files.counter)
      ensures r.Next? ==> files.log == old(files.log)
      ensures r.Next? && r.value ==> files.tmp == Some(Flushed(File(text, 0)))
      ensures r.Next? && Unharmed(old(meter)) ==> r.value
      ensures r.Halted? ==> Excused(old(meter))
    {
      hide Tallied;
      var open :- Take(Single);
      if !open.Count? {
        return Next(false);
      }
      files := files.(tmp := Some(EMPTY));
      var ok, k := WriteDurably(TmpFd, text);
      if ok.Halted? {
        return Halted;
      }
      assert "" + text == text;
      assert CounterUpdate(old(files), files);
      ghost var written := files;
      var closed := Tick();
      assert closed.Halted? ==> OnlyLogs(written, files, true);
      return if closed.Halted? then Halted else ok;
    }

    /** Stores the successor: a durable temporary file renamed into place, and only then reported. */
    method WriteCounter(candidate: nat) returns (r: Step<bool>)
      requires Safe() && bootNumber.None?
      modifies `pos, `calls, `meter, `files, `bootNumber
      ensures Metered() && pos >= old(pos) && Lagged(old(meter), meter, |Decimal.Print(candidate)| + 5)
      ensures CounterUpdate(old(files), files)
      ensures r.Next? ==> files.log == old(files.log)
      ensures files.counter == old(files.counter)
           || files.counter == Some(Flushed(File(Decimal.Print(candidate), 0)))
      ensures bootNumber.Some? ==>
                bootNumber.value == candidate && Stored(files) == Some(Decimal.Print(candidate))
      ensures r.Next? ==> (r.value <==> bootNumber.Some?)
      ensures r.Next? && Unharmed(old(meter)) ==> r.value
      ensures r.Halted? ==> Excused(old(meter))
    {
      hide Tallied;
      var ok :- WriteTmp(Decimal.Print(candidate));
      if !ok {
        return Next(false);
      }
      var renamed :- Take(Single);
      if !renamed.Count? {
        return Next(false);
      }
      files := files.(counter := files.tmp, tmp := None);
      var _ :- Tick();
      bootNumber := Some(candidate);
      return Next(true);
    }

    /** The whole counter block: -1 when no attempt number could be stored. */
    method CountBoot() returns (r: Step<int>)
      requires Safe() && bootNumber.None? && CounterDurable(files)
      modifies `pos, `calls, `meter, `files, `bootNumber
      ensures Metered() && pos >= old(pos) && Lagged(old(meter), meter, 45)
      ensures CounterUpdate(old(files), files) && CounterDurable(files)
      ensures BootCounter.Attempt(Stored(old(files)), Stored(files), bootNumber)
      ensures r.Next? ==> files.log == old(files.log) && r.value == Reported(bootNumber) <= BootCounter.LIMIT
      ensures r.Next? && Unharmed(old(meter)) ==> bootNumber == BootCounter.Successor(Stored(old(files)))
      ensures r.Halted? ==> Excused(old(meter))
    {
      hide Tallied;
      var prev :- ReadCounter();
      if prev.Some? {
        BootCounter.PrintIsShort(prev.value + 1);
        var ok :- WriteCounter(prev.value + 1);
        if ok {
          return Next(prev.value + 1);
        }
      }
      return Next(-1);
    }

    // ----- the command-line dump -----

    /** One turn of the chunk loop. */
    method LogChunk(text: string, idx: nat) returns (r: Step<nat>)
      requires Safe() && 120 * idx < |text| && idx < 100
      modifies `pos, `calls, `meter, `files, `cacheOk, `queue, `history
      ensures Safe() && pos >= old(pos) && Lagged(old(meter), meter, 224)
      ensures Logged(old(L()), L(), 1)
      ensures r.Next? ==> r.value == Min(|text| - 120 * idx, CHUNK)
      ensures r.Next? ==> history == old(history) + [Record(Chunk(text, idx), idx)]
      ensures r.Halted? ==> Excused(old(meter))
    {
      hide Tallied;
      var off := 120 * idx;
      var n := Min(|text| - off, CHUNK);
      var room := SLOT_BYTES - |Header(idx)| - 2;
      HeaderLength(idx);
      if n > room {
        n := room;
      }
      var _ :- LogLine(CStr(Header(idx) + text[off..off + n] + "\n"));
      return Next(n);
    }

    /** Logs text in numbered records short enough for any queue slot. */
    method LogChunks(text: string) returns (r: Step<()>)
      requires Safe() && |text| <= 4095
      modifies `pos, `calls, `meter, `files, `cacheOk, `queue, `history
      ensures Safe() && pos >= old(pos) && Lagged(old(meter), meter, 7840)
      ensures Logged(old(L()), L(), 35)
      ensures r.Next? ==> history == old(history) + Records(text)
      ensures r.Halted? ==> Excused(old(meter))
    {
      hide Tallied, Record, Chunk;
      var off := 0;
      var idx := 0;
      while off < |text|
        invariant off == Min(120 * idx, |text|) && 120 * idx < |text| + 120
        invariant Safe() && pos >= old(pos) && Lagged(old(meter), meter, 224 * idx)
        invariant Logged(old(L()), L(), idx)
        invariant history == old(history) + FirstRecords(text, idx)
        decreases |text| - off
      {
        ghost var start := L();
        var n :- LogChunk(text, idx);
        Chain(old(L()), start, L(), idx, 1);
        FirstRecordsMore(old(history), text, idx);
        off := off + n;
        idx := idx + 1;
      }
      assert idx == ChunkCount(text);
      return Next(());
    }

    method LogCmdlineChunked(text: string, truncated: bool) returns (r: Step<()>)
      requires Safe() && |text| <= 4095
      modifies `pos, `calls, `meter, `files, `cacheOk, `queue, `history
      ensures Safe() && pos >= old(pos) && Lagged(old(meter), meter, if truncated then 8064 else 7840)
      ensures Logged(old(L()), L(), if truncated then 36 else 35)
      ensures r.Next? ==> old(history) + Records(text) <= history
      ensures r.Next? && !truncated ==> history == old(history) + Records(text)
      ensures r.Halted? ==> Excused(old(meter))
    {
      hide Tallied;
      var _ :- LogChunks(text);
      if truncated {
        var note: string := *;
        var _ :- Say(note);
      }
      return Next(());
    }

    /** The whole /proc/cmdline block, for any content of that file. */
    method DumpCmdline(cmdline: string) returns (r: Step<()>)
      requires Safe()
      modifies `pos, `calls, `meter, `files, `cacheOk, `queue, `history
      ensures Safe() && pos >= old(pos) && Lagged(old(meter), meter, 12_161)
      ensures Logged(old(L()), L(), 36)
      ensures r.Next? ==> |history| > |old(history)|
      ensures r.Next? && Unharmed(old(meter)) && 0 < |cmdline| <= 4095 ==>
                old(history) + Records(cmdline) <= history
      ensures r.Halted? ==> Excused(old(meter))
    {
      hide Tallied;
      var input :- ReadProc(cmdline, 4095);
      if input.None? {
        r := SayLines(1);
      } else {
        r := DumpInput(input.value.data, input.value.ending);
      }
    }

    /** A warning when the read failed, then the dump of whatever was read. */
    method DumpInput(data: string, ending: Ending) returns (r: Step<()>)
      requires Safe() && |data| <= 4095
      modifies `pos, `calls, `meter, `files, `cacheOk, `queue, `history
      ensures Safe() && pos >= old(pos) && Lagged(old(meter), meter, 8064)
      ensures Logged(old(L()), L(), 36)
      ensures r.Next? ==> |history| > |old(history)|
      ensures r.Next? && ending.Eof? && data != "" ==> history == old(history) + Records(data)
      ensures r.Next? && ending.Full? && data != "" ==> old(history) + Records(data) <= history
      ensures r.Halted? ==> Excused(old(meter))
    {
      hide Tallied;
      if !ending.ReadError? {
        if data == "" {
          r := SayLines(1);
        } else {
          r := LogCmdlineChunked(data, ending.Full?);
        }
        return;
      }
      var _ :- SayLines(1);
      if data == "" {
        return Next(());
      }
      ghost var start := L();
      r := LogCmdlineChunked(data, false);
      Chain(old(L()), start, L(), 1, 35);
    }

    // ----- waiting -----

    method PetWatchdog() returns (r: Step<()>)
      requires Safe()
      modifies `pos, `calls, `meter, `files
      ensures Metered() && pos >= old(pos) && Passed(old(meter), meter, 0, 1)
      ensures r.Next? ==> files == old(files) && meter.slept == old(meter.slept)
      ensures r.Next? && meter.watchdog ==> meter.pet == meter.slept
      ensures r.Next? && meter.watchdog ==> pos > old(pos)
      ensures r.Halted? ==> OnlyLogs(old(files), files, cacheOk)
      ensures r.Halted? ==> Excused(old(meter))
    {
      hide Tallied;
      if meter.watchdog {
        meter := meter.(pet := meter.slept);
        var _ :- Tick();
      }
      return Next(());
    }

    /** A coded sleep; the watchdog must have been written to recently enough. */
    method Sleep(ms: nat) returns (r: Step<()>)
      requires Safe()
      requires meter.watchdog && !meter.restarting ==> meter.slept + ms <= meter.pet + PET_GAP
      modifies `pos, `calls, `meter, `files
      ensures Metered() && pos >= old(pos) && Passed(old(meter), meter, ms, 1)
      ensures r.Next? ==> files == old(files) && pos > old(pos)
      ensures r.Next? ==> meter.slept == old(meter.slept) + ms && meter.pet == old(meter.pet)
      ensures r.Halted? ==> OnlyLogs(old(files), files, cacheOk)
      ensures r.Halted? ==> Excused(old(meter))
    {
      hide Tallied;
      var _ :- Tick();
      meter := meter.(now := meter.now + ms, slept := meter.slept + ms);
      return Next(());
    }

    /** A write to the watchdog and a coded sleep. */
    method Nap(ms: nat) returns (r: Step<()>)
      requires Safe() && (Fed(meter) || meter.restarting) && (ms <= PET_GAP || meter.restarting)
      modifies `pos, `calls, `meter, `files
      ensures Metered() && pos >= old(pos) && Passed(old(meter), meter, ms, 2)
      ensures r.Next? ==> files == old(files) && pos > old(pos) && meter.slept == old(meter.slept) + ms
      ensures r.Halted? ==> OnlyLogs(old(files), files, cacheOk)
      ensures r.Halted? ==> Excused(old(meter))
    {
      hide Tallied, Dying;
      var _ :- PetWatchdog();
      r := Sleep(ms);
    }

    // ----- loading modules -----

    /**
     * The forked child up to its exec: its own events, and handlers inherited until each is reset.
     * It leaves no trace in any file, whatever signals it takes.
     */
    method ModprobeChild(child: int, own: seq<Event>)
      requires Safe() && child != pid1
      modifies `pos, `calls, `meter, `files
      ensures pos == old(pos) && calls == old(calls) && meter == old(meter) && files == old(files)
    {
      hide Tallied;
      var inherited: set<SignalNumber> := if handlers then {4, 6, 7, 8, 11} else {};
      var resets: seq<SignalNumber> := [11, 7, 4, 6, 8];
      var step := 0;
      while step < |own|
        invariant 0 <= step <= |own|
        invariant pos == old(pos) && calls == old(calls) && meter == old(meter) && files == old(files)
      {
        match own[step]
        case Reply(_, _) =>
          if step < |resets| {
            inherited := inherited - {resets[step]};
          }
          step := step + 1;
        case Signal(sig, _) =>
          if sig in inherited {
            var _ := FatalSigHandler(sig, child);
          }
          return;
      }
    }

    /** One of the replies since then ended the wait that way. */
    ghost predicate Waited(since: nat, end: WaitEnd)
      reads `pos
    {
      exists k :: since <= k < pos <= |events| && Ended(events[k], end)
    }

    /** Waits for the child, petting the watchdog, for at most 20 s; the child is never killed. */
    method WaitForChild() returns (r: Step<WaitEnd>)
      requires Safe() && Fed(meter)
      modifies `pos, `calls, `meter, `files
      ensures Metered() && pos >= old(pos) && Passed(old(meter), meter, 20_000, 301)
      ensures r.Next? ==> files == old(files)
      ensures r.Next? && Unharmed(old(meter)) ==> !r.value.Unreaped?
      ensures r.Next? && r.value.Abandoned? ==> meter.now >= old(meter.now) + 20_000
      ensures r.Next? ==> Waited(old(pos), r.value)
      ensures r.Halted? ==> OnlyLogs(old(files), files, cacheOk)
      ensures r.Halted? ==> Excused(old(meter))
    {
      hide Tallied, Dying;
      var deadline := meter.now + 20_000;
      ghost var turns: nat := 0;
      while true
        invariant Metered() && pos >= old(pos) && Passed(old(meter), meter, 20_000, 3 * turns) && files == old(files)
        invariant meter.slept == old(meter.slept) + 200 * turns && turns <= 100
        invariant deadline <= meter.now + 20_000 - 200 * turns
        decreases |events| - pos
      {
        var ret :- Take(Polled);
        match ret
        case Interrupted => continue;
        case Failed(errno) => return Next(Unreaped(errno));
        case Count(n) =>
          if n > 0 {
            var code: ExitCode := *;
            return Next(Exited(code));
          }
        if meter.now >= deadline {
          return Next(Abandoned);
        }
        var _ :- Nap(200);
        turns := turns + 1;
      }
    }

    /**
     * Loads one module in a child and logs a line before and a line after; when is the second line's
     * uptime, and end how the wait for the child ended, if there was a child.
     */
    method Modprobe(name: string, modules: string)
        returns (r: Step<()>, ghost text: string, ghost when: nat, ghost end: Option<WaitEnd>)
      requires Safe() && pid1 == pid && Fed(meter)
      modifies `pos, `calls, `meter, `files, `cacheOk, `queue, `history
      ensures Safe() && pos >= old(pos) && Passed(old(meter), meter, 20_000, 33_520)
      ensures Logged(old(L()), L(), 2)
      ensures r.Next? ==>
                history == old(history) + [UptimeLine(old(meter.now), StartText(name)), UptimeLine(when, text)]
      ensures r.Next? ==> Describes(text, name, end, old(pos))
      ensures r.Next? && end == Some(Abandoned) ==> meter.now >= old(meter.now) + 20_000
      ensures r.Next? && Unharmed(old(meter)) && ProcText.OneWord(name) && |name| < 64 && |modules| < 32767 ==>
                end.Some? && text == ResultText(name, end.value, Loaded(name, modules))
      ensures r.Halted? ==> Excused(old(meter))
    {
      hide Tallied, UptimeLine, StartText, ResultText, Ended, Loaded, ProcText.OneWord;
      text, when, end := "", 0, None;
      r := Say(StartText(name));
      if r.Halted? {
        return;
      }
      var result;
      result, end := RunModprobe(name, modules);
      if result.Halted? {
        return Halted, text, when, end;
      }
      text, when := result.value, meter.now;
      ghost var between := L();
      r := Say(result.value);
      Chain(old(L()), between, L(), 1, 1);
    }

    /** The line says how the wait ended since then, or that there was no child. */
    ghost predicate Describes(text: string, name: string, end: Option<WaitEnd>, since: nat)
      reads `pos
    {
      match end
      case None => exists errno :: text == ForkText(name, errno)
      case Some(how) => Waited(since, how) && text in {ResultText(name, how, true), ResultText(name, how, false)}
    }

    /** The part of modprobe between its two lines: fork, wait, and the wording of the result. */
    method RunModprobe(name: string, modules: string) returns (r: Step<string>, ghost end: Option<WaitEnd>)
      requires Safe() && pid1 == pid && Fed(meter)
      modifies `pos, `calls, `meter, `files
      ensures Metered() && pos >= old(pos) && Passed(old(meter), meter, 20_000, 33_072)
      ensures r.Next? ==> files == old(files)
      ensures r.Next? ==> Describes(r.value, name, end, old(pos))
      ensures r.Next? && end == Some(Abandoned) ==> meter.now >= old(meter.now) + 20_000
      ensures r.Next? && Unharmed(old(meter)) && ProcText.OneWord(name) && |name| < 64 && |modules| < 32767 ==>
                end.Some? && r.value == ResultText(name, end.value, Loaded(name, modules))
      ensures r.Halted? ==> OnlyLogs(old(files), files, cacheOk)
      ensures r.Halted? ==> Excused(old(meter))
    {
      hide Tallied, Dying, ResultText, Ended, ProcText.OneWord, ProcText.Listed, CStr;
      end := None;
      var devNull := Tick();
      if devNull.Halted? {
        return Halted, end;
      }
      var fork := Take(Single);
      if fork.Halted? {
        return Halted, end;
      }
      if !fork.value.Count? {
        return Next(ForkText(name, Errno(fork.value))), end;
      }
      var child := if fork.value.n == pid then pid + 1 else fork.value.n;
      var own: seq<Event> := *;
      ModprobeChild(child, own);
      var waited := WaitForChild();
      if waited.Halted? {
        return Halted, end;
      }
      end := Some(waited.value);
      var present, _ := ModulePresent(name, modules);
      r := if present.Halted? then Halted else Next(ResultText(name, waited.value, present.value));
    }

    // ----- the partition -----

    /** One look at /proc/partitions; data is as much of it as was read. */
    method PartitionListed(name: string, partitions: string) returns (r: Step<bool>, ghost data: string)
      requires Safe() && name != ""
      modifies `pos, `calls, `meter, `files
      ensures Metered() && pos >= old(pos) && Lagged(old(meter), meter, 16_385)
      ensures r.Next? ==> files == old(files)
      ensures data <= partitions
      ensures r.Next? ==> pos > old(pos)
      ensures r.Next? && ProcText.SpaceFree(name) ==> (r.value <==> Shows(name, data))
      ensures r.Halted? ==> OnlyLogs(old(files), files, cacheOk)
      ensures r.Next? && Unharmed(old(meter)) && |partitions| < 16383 ==> data == partitions
      ensures r.Halted? ==> Excused(old(meter))
    {
      hide Tallied;
      data := "";
      var input := ReadProc(partitions, 16383);
      if input.Halted? || input.value.None? {
        assert ProcText.Tokens("") == [""];
        return if input.Halted? then Halted else Next(false), data;
      }
      data := input.value.value.data;
      var found := ProcText.ScanPartitions(CStr(input.value.value.data), name);
      return Next(found), data;
    }

    /**
     * Polls five times a second until the partition shows up or the time is over; seen is what was
     * read at the last poll, the at-th one.
     */
    method WaitForPartition(name: string, seconds: nat, looks: seq<string>)
        returns (r: Step<bool>, ghost seen: string, ghost at: nat)
      requires Safe() && name != "" && Fed(meter)
      modifies `pos, `calls, `meter, `files
      ensures Metered() && pos >= old(pos) && Passed(old(meter), meter, 1000 * seconds, 81_935 * seconds)
      ensures r.Next? ==> files == old(files)
      ensures r.Next? && r.value ==> pos > old(pos) && at < 5 * seconds && seen <= Look(looks, at)
      ensures r.Next? && r.value && ProcText.SpaceFree(name) ==> Shows(name, seen)
      ensures r.Next? && !r.value ==> meter.slept == old(meter.slept) + 1000 * seconds
      ensures r.Next? && Unharmed(old(meter)) && Short(looks) && ProcText.SpaceFree(name) ==>
                (r.value <==> ShownWithin(name, looks, 5 * seconds))
      ensures r.Halted? ==> OnlyLogs(old(files), files, cacheOk)
      ensures r.Halted? ==> Excused(old(meter))
    {
      hide Tallied, ProcText.Tokens, CStr;
      at, seen := 0, "";
      var i := 0;
      while i < seconds * 5
        invariant 0 <= i <= seconds * 5
        invariant Metered() && pos >= old(pos) && files == old(files)
        invariant Passed(old(meter), meter, 200 * i, 16_387 * i)
        invariant meter.slept == old(meter.slept) + 200 * i
        invariant Unharmed(old(meter)) && Short(looks) && ProcText.SpaceFree(name) ==>
                    !ShownWithin(name, looks, i)
      {
        at := i;
        r, seen := Poll(name, looks, i);
        if r.Halted? || r.value {
          return;
        }
        i := i + 1;
      }
      return Next(false), seen, at;
    }

    /** One turn of the poll: a write to the watchdog, a look, and a sleep if there was nothing. */
    method Poll(name: string, looks: seq<string>, at: nat) returns (r: Step<bool>, ghost seen: string)
      requires Safe() && name != "" && Fed(meter)
      modifies `pos, `calls, `meter, `files
      ensures Metered() && pos >= old(pos) && Passed(old(meter), meter, 200, 16_387)
      ensures r.Next? ==> files == old(files) && pos > old(pos)
      ensures seen <= Look(looks, at)
      ensures r.Next? && ProcText.SpaceFree(name) ==> (r.value <==> Shows(name, seen))
      ensures r.Next? && Unharmed(old(meter)) && Short(looks) ==> seen == Look(looks, at)
      ensures r.Next? ==> meter.slept == old(meter.slept) + if r.value then 0 else 200
      ensures r.Halted? ==> OnlyLogs(old(files), files, cacheOk)
      ensures r.Halted? ==> Excused(old(meter))
    {
      hide Tallied;
      seen := "";
      var pet := PetWatchdog();
      if pet.Halted? {
        return Halted, seen;
      }
      r, seen := PartitionListed(name, Look(looks, at));
      if r.Halted? || r.value {
        return;
      }
      var slept := Sleep(200);
      r := if slept.Halted? then Halted else Next(false);
    }

    // ----- main, before the mount -----

    /** Records the process identity, makes the device nodes, opens kmsg, then installs the handlers. */
    method Setup() returns (r: Step<()>)
      requires Safe()
      modifies `pos, `calls, `meter, `files, `cacheOk, `queue, `history, `pid1, `kmsgOpen, `handlers
      ensures Safe() && pos >= old(pos) && Lagged(old(meter), meter, 690)
      ensures Logged(old(L()), L(), 3)
      ensures pid1 == pid && (r.Next? ==> handlers && |history| == |old(history)| + 3)
      ensures r.Halted? ==> Excused(old(meter))
    {
      hide Tallied;
      pid1 := pid;
      var _ :- EarlySyscalls();
      handlers := true;
      r := SayLines(3);
    }

    /** Fifteen mkdir, mount and mknod calls, whose errors are only logged, the console, and kmsg. */
    method EarlySyscalls() returns (r: Step<()>)
      requires Safe()
      modifies `pos, `calls, `meter, `files, `kmsgOpen
      ensures Metered() && pos >= old(pos) && Lagged(old(meter), meter, 18)
      ensures r.Next? ==> files == old(files)
      ensures r.Halted? ==> OnlyLogs(old(files), files, cacheOk)
      ensures r.Halted? ==> Excused(old(meter))
    {
      hide Tallied, Dying;
      var i := 0;
      while i < 16
        invariant Metered() && pos >= old(pos) && Lagged(old(meter), meter, i) && files == old(files)
      {
        var _ :- Tick();
        i := i + 1;
      }
      var kmsg :- Take(Single);
      kmsgOpen := kmsg.Count?;
      var _ :- Tick();
      return Next(());
    }

    /** So many consecutive lines of any wording. */
    method SayLines(count: nat) returns (r: Step<()>)
      requires Safe()
      modifies `pos, `calls, `meter, `files, `cacheOk, `queue, `history
      ensures Safe() && pos >= old(pos) && Lagged(old(meter), meter, 224 * count)
      ensures Logged(old(L()), L(), count)
      ensures r.Next? ==> |history| == |old(history)| + count
      ensures r.Halted? ==> Excused(old(meter))
    {
      hide Tallied;
      var i := 0;
      while i < count
        invariant 0 <= i <= count && |history| == |old(history)| + i
        invariant Safe() && pos >= old(pos) && Lagged(old(meter), meter, 224 * i)
        invariant Logged(old(L()), L(), i)
      {
        ghost var start := L();
        var note: string := *;
        r := Say(note);
        Chain(old(L()), start, L(), i, 1);
        if r.Halted? {
          return;
        }
        i := i + 1;
      }
      return Next(());
    }

    /** Writes the watchdog module's options file, or removes what a failed write left of it. */
    method WriteOptions() returns (r: Step<OptionsClaim>)
      requires Safe()
      modifies `pos, `calls, `meter, `files
      ensures Metered() && pos >= old(pos) && Lagged(old(meter), meter, 15)
      ensures OnlyLogs(old(files).(options := files.options), files, cacheOk)
      ensures r.Next? ==> files == old(files).(options := files.options)
      ensures r.Next? ==> Claims(r.value, files)
      ensures r.Next? && Unharmed(old(meter)) ==> r.value.Complete?
      ensures r.Halted? ==> Excused(old(meter))
    {
      hide Tallied, Dying;
      var wrote :- FillOptions();
      if wrote {
        return Next(Complete);
      }
      var unlinked :- Take(Single);
      if files.options.None? {
        return Next(if unlinked.Count? || unlinked == Failed(ENOENT) then Removed else Unknown(Errno(unlinked)));
      }
      if unlinked.Count? {
        files := files.(options := None);
        return Next(Removed);
      }
      return Next(Unknown(Errno(unlinked)));
    }

    /** Creates the options file and writes its one line; false when either failed. */
    method FillOptions() returns (r: Step<bool>)
      requires Safe()
      modifies `pos, `calls, `meter, `files
      ensures Metered() && pos >= old(pos) && Lagged(old(meter), meter, 14)
      ensures OnlyLogs(old(files).(options := files.options), files, cacheOk)
      ensures r.Next? ==> files == old(files).(options := files.options)
      ensures r.Next? && r.value ==> Claims(Complete, files)
      ensures r.Next? && Unharmed(old(meter)) ==> r.value
      ensures r.Halted? ==> Excused(old(meter))
    {
      hide Tallied;
      var open :- Take(Single);
      if !open.Count? {
        return Next(false);
      }
      files := files.(options := Some(EMPTY));
      var text := "tmr_atboot=1";
      var wrote, k := WriteFull(OptionsFd, text);
      if wrote.Halted? {
        return Halted;
      }
      assert wrote.value ==> text[..k] == text && "" + text == text;
      var closed := Tick();
      return if closed.Halted? then Halted else wrote;
    }

    /** Opens the watchdog, which starts it, and asks for its timeout. */
    method StartWatchdog() returns (r: Step<bool>)
      requires Safe() && Fed(meter)
      modifies `pos, `calls, `meter, `files
      ensures Metered() && pos >= old(pos) && Passed(old(meter), meter, 0, 2)
      ensures r.Next? ==> files == old(files)
      ensures r.Next? ==> old(pos) < |events| && events[old(pos)].Reply?
      ensures r.Next? ==> (r.value <==> events[old(pos)].ret.Count?)
      ensures r.Next? ==> (meter.watchdog <==> old(meter.watchdog) || r.value)
      ensures r.Next? && r.value ==> meter.pet == meter.slept
      ensures r.Next? && Unharmed(old(meter)) ==> r.value
      ensures r.Halted? ==> OnlyLogs(old(files), files, cacheOk)
      ensures r.Halted? ==> Excused(old(meter))
    {
      hide Tallied, Dying;
      var open :- Take(Single);
      if !open.Count? {
        return Next(false);
      }
      meter := meter.(watchdog := true, pet := meter.slept);
      var _ :- Tick();
      return Next(true);
    }

    /** The watchdog block: at most four lines, one of them after the first write to it. */
    method OpenWatchdog() returns (r: Step<()>)
      requires Safe() && Fed(meter)
      modifies `pos, `calls, `meter, `files, `cacheOk, `queue, `history
      ensures Safe() && pos >= old(pos) && Passed(old(meter), meter, 0, 899)
      ensures Logged(old(L()), L(), 4)
      ensures r.Next? ==> |history| > |old(history)|
      ensures r.Next? && Unharmed(old(meter)) ==> meter.watchdog && meter.pet == meter.slept
      ensures r.Next? && !old(meter.watchdog) ==>
                (meter.watchdog <==>
                   old(pos) < |events| && events[old(pos)].Reply? && events[old(pos)].ret.Count?)
      ensures r.Halted? ==> Excused(old(meter))
    {
      hide Tallied;
      var started :- StartWatchdog();
      r := SayLines(1);
      if started && r.Next? {
        ghost var start := L();
        r := PetAndSay(3);
        Chain(old(L()), start, L(), 1, 3);
      }
    }

    method PetAndSay(count: nat) returns (r: Step<()>)
      requires Safe()
      modifies `pos, `calls, `meter, `files, `cacheOk, `queue, `history
      ensures Safe() && pos >= old(pos) && Passed(old(meter), meter, 0, 224 * count + 1)
      ensures Logged(old(L()), L(), count)
      ensures r.Next? ==> |history| == |old(history)| + count && meter.slept == old(meter.slept)
      ensures r.Next? && meter.watchdog ==> meter.pet == meter.slept
      ensures r.Halted? ==> Excused(old(meter))
    {
      hide Tallied;
      var _ :- PetWatchdog();
      r := SayLines(count);
    }

    /** dss, the options file, the watchdog module, and the watchdog itself. */
    method LoadWatchdog() returns (r: Step<()>)
      requires Safe() && pid1 == pid && Fed(meter)
      modifies `pos, `calls, `meter, `files, `cacheOk, `queue, `history
      ensures Safe() && pos >= old(pos) && Passed(old(meter), meter, 40_000, 68_178)
      ensures LoggedBut(old(L()), L(), 9)
      ensures r.Next? ==> |history| >= |old(history)| + 6
      ensures r.Next? && Unharmed(old(meter)) ==> meter.watchdog
      ensures r.Halted? ==> Excused(old(meter))
    {
      hide Tallied, OptionsText, Describes, ResultText, StartText, UptimeLine, Loaded, ProcText.OneWord;
      var modules: string := *;
      var probed, _, _, _ := Modprobe("dss", modules);
      if probed.Halted? {
        return Halted;
      }
      ghost var v1 := L();
      var said, _, _ := SayOptions();
      ChainBut(old(L()), v1, L(), 2, 1);
      if said.Halted? {
        return Halted;
      }
      ghost var v2 := L();
      r := LoadWatchdogModule();
      ChainBut(old(L()), v2, L(), 3, 6);
    }

    method LoadWatchdogModule() returns (r: Step<()>)
      requires Safe() && pid1 == pid && Fed(meter)
      modifies `pos, `calls, `meter, `files, `cacheOk, `queue, `history
      ensures Safe() && pos >= old(pos) && Passed(old(meter), meter, 20_000, 34_419)
      ensures Logged(old(L()), L(), 6)
      ensures r.Next? ==> |history| >= |old(history)| + 3
      ensures r.Next? && Unharmed(old(meter)) ==> meter.watchdog
      ensures r.Halted? ==> Excused(old(meter))
    {
      hide Tallied, Describes, ResultText, StartText, UptimeLine, Loaded, ProcText.OneWord;
      var modules: string := *;
      var probed, _, _, _ := Modprobe("s3c2410_wdt", modules);
      if probed.Halted? {
        return Halted;
      }
      ghost var v1 := L();
      r := OpenWatchdog();
      Chain(old(L()), v1, L(), 2, 4);
    }

    /** The options file, and the line that says what became of it. */
    method SayOptions() returns (r: Step<()>, ghost claim: OptionsClaim, ghost when: nat)
      requires Safe()
      modifies `pos, `calls, `meter, `files, `cacheOk, `queue, `history
      ensures Safe() && pos >= old(pos) && Lagged(old(meter), meter, 239)
      ensures LoggedBut(old(L()), L(), 1)
      ensures r.Next? ==> history == old(history) + [UptimeLine(when, OptionsText(claim))]
      ensures r.Next? ==> Claims(claim, files)
      ensures r.Halted? ==> Excused(old(meter))
    {
      hide Tallied, OptionsText;
      claim, when := Removed, 0;
      var wrote := WriteOptions();
      if wrote.Halted? {
        return Halted, claim, when;
      }
      claim, when := wrote.value, meter.now;
      r := Say(OptionsText(wrote.value));
    }

    /**
     * Everything up to the partition wait, and the line that ends that wait; seen is the listing the
     * partition was found in, read at the at-th poll.
     */
    method BeforeMount(cmdline: string, looks: seq<string>)
        returns (r: Step<bool>, ghost seen: string, ghost at: nat)
      requires Safe() && Fed(meter)
      modifies `pos, `calls, `meter, `files, `cacheOk, `queue, `history, `pid1, `kmsgOpen, `handlers
      ensures Safe() && pos >= old(pos) && Passed(old(meter), meter, 75_000, 1_343_798)
      ensures LoggedBut(old(L()), L(), 51)
      ensures pid1 == pid
      ensures r.Next? ==> |history| >= |old(history)| + 13
      ensures r.Next? && Unharmed(old(meter)) && 0 < |cmdline| <= 4095 ==>
                DumpedAt(history, |old(history)| + 3, cmdline)
      ensures r.Next? && r.value ==> at < 75 && seen <= Look(looks, at) && Shows("sda33", seen)
      ensures r.Next? && Unharmed(old(meter)) && Short(looks) ==> (r.value <==> ShownWithin("sda33", looks, 75))
      ensures r.Next? && Unharmed(old(meter)) ==> meter.watchdog
      ensures r.Next? ==> handlers
      ensures r.Halted? ==> Excused(old(meter))
    {
      hide Tallied, Records, ShownWithin, Shows, Look, DumpedAt;
      at, seen := 0, "";
      ghost var h0 := history;
      var setUp := SetupAndDump(cmdline);
      if setUp.Halted? {
        return Halted, seen, at;
      }
      ghost var v1 := L();
      var loaded := LoadWatchdog();
      ChainBut(old(L()), v1, L(), 39, 9);
      if loaded.Halted? {
        return Halted, seen, at;
      }
      ghost var v2 := L();
      r, seen, at := FindPartition(looks);
      ChainBut(old(L()), v2, L(), 48, 3);
      DumpStays(v1.history, history, |h0| + 3, cmdline);
    }

    method SetupAndDump(cmdline: string) returns (r: Step<()>)
      requires Safe()
      modifies `pos, `calls, `meter, `files, `cacheOk, `queue, `history, `pid1, `kmsgOpen, `handlers
      ensures Safe() && pos >= old(pos) && Lagged(old(meter), meter, 12_851)
      ensures Logged(old(L()), L(), 39)
      ensures pid1 == pid
      ensures r.Next? ==> |history| >= |old(history)| + 4
      ensures r.Next? && Unharmed(old(meter)) && 0 < |cmdline| <= 4095 ==>
                DumpedAt(history, |old(history)| + 3, cmdline)
      ensures r.Next? ==> handlers
      ensures r.Halted? ==> Excused(old(meter))
    {
      hide Tallied;
      var _ :- Setup();
      ghost var v1 := L();
      r := DumpCmdline(cmdline);
      Chain(old(L()), v1, L(), 3, 36);
    }

    /** Loads the storage controller and waits for the cache partition. */
    method FindPartition(looks: seq<string>) returns (r: Step<bool>, ghost seen: string, ghost at: nat)
      requires Safe() && pid1 == pid && Fed(meter)
      modifies `pos, `calls, `meter, `files, `cacheOk, `queue, `history
      ensures Safe() && pos >= old(pos) && Passed(old(meter), meter, 35_000, 1_262_769)
      ensures Logged(old(L()), L(), 3)
      ensures r.Next? ==> |history| == |old(history)| + 3
      ensures r.Next? && r.value ==> at < 75 && seen <= Look(looks, at) && Shows("sda33", seen)
      ensures r.Next? && !r.value ==> meter.slept >= old(meter.slept) + 15_000
      ensures r.Next? && Unharmed(old(meter)) && Short(looks) ==> (r.value <==> ShownWithin("sda33", looks, 75))
      ensures r.Halted? ==> Excused(old(meter))
    {
      hide Tallied, Loaded, ProcText.OneWord, UptimeLine, ProcText.Tokens, CStr, Describes, ResultText, StartText;
      at, seen := 0, "";
      var modules: string := *;
      var loaded, _, _, _ := Modprobe("ufs-exynos-core", modules);
      if loaded.Halted? {
        return Halted, seen, at;
      }
      ghost var v1 := L();
      r, seen, at := WaitForPartition("sda33", 15, looks);
      if r.Next? {
        var said := SayLines(1);
        Chain(old(L()), v1, L(), 2, 1);
        r := if said.Halted? then Halted else r;
      }
    }

    // ----- main, the mount -----

    /** mount, with a write to the watchdog on either side; owning the mount is recorded last. */
    method MountCache() returns (r: Step<Ret>)
      requires Safe() && Fed(meter)
      modifies `pos, `calls, `meter, `files, `mounted, `cacheMounted
      ensures Safe() && pos >= old(pos) && Passed(old(meter), meter, 0, 4)
      ensures OnlyLogs(old(files), files, cacheOk) && (r.Next? ==> files == old(files))
      ensures old(mounted) ==> mounted
      ensures r.Next? && r.value.Count? ==> mounted && cacheMounted
      ensures r.Next? && !r.value.Count? ==> mounted == old(mounted) && cacheMounted == old(cacheMounted)
      ensures r.Next? && Unharmed(old(meter)) ==> r.value.Count?
      ensures r.Halted? ==> Excused(old(meter))
    {
      hide Tallied, Dying;
      var _ :- PetWatchdog();
      var ret :- Take(Single);
      if !ret.Count? {
        return Next(ret);
      }
      mounted := true;
      var owned := OwnMount();
      return if owned.Halted? then Halted else Next(ret);
    }

    method OwnMount() returns (r: Step<()>)
      requires Safe() && mounted && Fed(meter)
      modifies `pos, `calls, `meter, `files, `cacheMounted
      ensures Safe() && pos >= old(pos) && Passed(old(meter), meter, 0, 2)
      ensures OnlyLogs(old(files), files, cacheOk) && (r.Next? ==> files == old(files))
      ensures r.Next? ==> cacheMounted
      ensures r.Halted? ==> Excused(old(meter))
    {
      hide Tallied, Dying;
      var _ :- PetWatchdog();
      r := Tick();
      if r.Next? {
        cacheMounted := true;
      }
    }

    /** Banner first, then the queued lines; logging stays enabled if either reached the device. */
    method WriteEvidence(banner: string) returns (r: Step<MountOutcome>)
      requires Safe() && mounted && !cacheOk
      modifies `pos, `calls, `meter, `files, `cacheOk
      ensures Safe() && pos >= old(pos) && Lagged(old(meter), meter, |banner| + |Concat(queue)| + 8)
      ensures OnlyLogs(old(files), files, true)
      ensures r.Next? ==> !r.value.Unmounted? && (cacheOk <==> !r.value.NothingSafe?)
      ensures r.Next? && r.value.AllSafe? ==>
                Synced(files.log) && files.log.content == old(files.log.content) + banner + Concat(queue)
      ensures r.Next? ==> Backs(r.value, old(files.log.content), banner, Concat(queue), files.log)
      ensures r.Next? && Unharmed(old(meter)) ==> r.value.AllSafe?
      ensures r.Halted? ==> Excused(old(meter))
    {
      hide Tallied, Concat;
      ghost var before := files.log.content;
      var bannerOk, k := WriteBanner(banner);
      if bannerOk.Halted? {
        return Halted;
      }
      assert banner[..|banner|] == banner;
      ghost var written := files;
      var flushed := FlushAndEnable();
      assert OnlyLogs(written, files, true);
      if flushed.Halted? {
        return Halted;
      }
      if flushed.value {
        assert OnDevice(files.log, before + banner[..k] + Concat(queue));
        return Next(if bannerOk.value then AllSafe else QueueOnly);
      }
      return Next(if bannerOk.value then BannerOnly else NothingSafe);
    }

    /** The flush, which enables logging when all of the queue reached the device. */
    method FlushAndEnable() returns (r: Step<bool>)
      requires Safe() && mounted
      modifies `pos, `calls, `meter, `files, `cacheOk
      ensures Safe() && pos >= old(pos) && Lagged(old(meter), meter, |Concat(queue)| + 4)
      ensures OnlyLogs(old(files), files, true)
      ensures r.Next? ==> (cacheOk <==> old(cacheOk) || r.value)
      ensures r.Next? && r.value ==>
                Synced(files.log) && files.log.content == old(files.log.content) + Concat(queue)
      ensures r.Next? && Unharmed(old(meter)) ==> r.value
      ensures r.Halted? ==> Excused(old(meter))
    {
      hide Tallied, Concat;
      r := FlushEarlyLog();
      if r.Next? && r.value {
        ghost var before := files;
        var enabled := EnableLogging();
        assert OnlyLogs(before, files, true);
        r := if enabled.Halted? then Halted else r;
      }
    }

    /** Counter, banner, flush. */
    method OpenEvidence() returns (r: Step<MountOutcome>)
      requires Safe() && mounted && !cacheOk && bootNumber.None? && CounterDurable(files)
      modifies `pos, `calls, `meter, `files, `cacheOk, `bootNumber
      ensures Safe() && pos >= old(pos) && Lagged(old(meter), meter, |Concat(queue)| + 149)
      ensures CounterUpdate(old(files), files) && CounterDurable(files)
      ensures BootCounter.Attempt(Stored(old(files)), Stored(files), bootNumber)
      ensures r.Next? ==> !r.value.Unmounted? && (cacheOk <==> !r.value.NothingSafe?)
      ensures r.Next? && r.value.AllSafe? ==>
                Synced(files.log)
                && files.log.content == old(files.log.content) + Banner(Reported(bootNumber)) + Concat(queue)
      ensures r.Next? ==>
                Backs(r.value, old(files.log.content), Banner(Reported(bootNumber)), Concat(queue), files.log)
      ensures r.Next? ==> Numbered(r.value, old(files.log.content), files.log, bootNumber)
      ensures r.Next? && Unharmed(old(meter)) ==>
                r.value.AllSafe? && bootNumber == BootCounter.Successor(Stored(old(files)))
      ensures r.Halted? ==> Excused(old(meter))
    {
      hide Numbered, Tallied, Concat, Banner, Backs;
      ghost var before := files.log.content;
      var n :- CountBoot();
      BannerFits(n);
      r := WriteEvidence(Banner(n));
      if r.Next? {
        BannerIsRead(r.value, before, bootNumber, Concat(queue), files.log);
      }
    }

    /** The mount block, to the line that reports its outcome. */
    method MountStage() returns (r: Step<()>)
      requires Safe() && !mounted && !cacheMounted && bootNumber.None? && CounterDurable(files) && Fed(meter)
      requires mounting.None?
      modifies `pos, `calls, `meter, `files, `mounted, `cacheOk, `cacheMounted, `bootNumber, `queue, `history,
        `mounting
      ensures Safe() && pos >= old(pos) && Passed(old(meter), meter, 0, |Concat(old(queue))| + 377)
      ensures CounterUpdate(old(files), files) && CounterDurable(files)
      ensures BootCounter.Attempt(Stored(old(files)), Stored(files), bootNumber)
      ensures old(history) <= history && (r.Next? ==> |history| == |old(history)| + 1)
      ensures r.Next? ==> mounted == cacheMounted
      ensures r.Next? ==> mounting.Some? && mounting.value.early == old(history) && Told(mounting.value, history)
      ensures r.Next? ==>
                Backs(mounting.value.outcome, old(files.log.content), Banner(Reported(bootNumber)),
                      Concat(old(queue)), files.log)
      ensures r.Next? && Unharmed(old(meter)) ==>
                Confirmed() && bootNumber == BootCounter.Successor(Stored(old(files)))
      ensures r.Next? && Unharmed(old(meter)) ==> cacheOk
      ensures r.Halted? ==> mounting.None? && Excused(old(meter))
    {
      hide Tallied, Concat, Banner, Backs, OutcomeText;
      var mount :- MountCache();
      var outcome := if mount.Count? then Next(NothingSafe) else Next(Unmounted(Errno(mount)));
      if mount.Count? {
        outcome := OpenEvidence();
      }
      if outcome.Halted? {
        return Halted;
      }
      if !mount.Count? {
        NothingBacked(outcome.value, old(files.log.content), Banner(Reported(bootNumber)), Concat(queue), files.log);
      }
      r := SayOutcome(outcome.value, old(files.log.content), Banner(Reported(bootNumber)), Concat(queue));
    }

    /** The line that reports the mount block's outcome. */
    method SayOutcome(outcome: MountOutcome, ghost before: string, ghost banner: string, ghost queued: string)
        returns (r: Step<()>)
      requires Safe()
      requires Backs(outcome, before, banner, queued, files.log)
      modifies `pos, `calls, `meter, `files, `cacheOk, `queue, `history, `mounting
      ensures Safe() && pos >= old(pos) && Lagged(old(meter), meter, 224)
      ensures OnlyLogs(old(files), files, true) && old(history) <= history
      ensures r.Next? ==> |history| == |old(history)| + 1
      ensures r.Next? ==> mounting == Some(Mounting(old(history), outcome, old(meter.now)))
      ensures r.Next? ==> Told(mounting.value, history)
      ensures Backs(outcome, before, banner, queued, files.log)
      ensures r.Next? && Unharmed(old(meter)) ==> cacheOk == old(cacheOk)
      ensures r.Halted? ==> mounting == old(mounting) && Excused(old(meter))
    {
      hide Tallied, Backs, OutcomeText;
      ghost var m := Mounting(history, outcome, meter.now);
      ghost var log := files.log;
      r := Say(OutcomeText(outcome));
      BacksStill(outcome, before, banner, queued, log, files.log);
      if r.Next? {
        mounting := Some(m);
      }
    }

    // ----- main, after the mount -----

    /** The six USB modules, the summary line, and the four bound-driver checks. */
    method LoadUsb() returns (r: Step<()>)
      requires Safe() && pid1 == pid && Fed(meter)
      modifies `pos, `calls, `meter, `files, `cacheOk, `queue, `history
      ensures Safe() && pos >= old(pos) && Passed(old(meter), meter, 120_000, 202_240)
      ensures OnlyLogs(old(files), files, old(cacheOk)) && (cacheOk ==> old(cacheOk))
      ensures old(history) <= history
      ensures r.Next? ==> |history| == |old(history)| + 17
      ensures r.Halted? ==> Excused(old(meter))
    {
      hide Tallied, Describes, ResultText, StartText, UptimeLine, Loaded, ProcText.OneWord;
      var names := ["phy-exynos-usbdrd-super", "dwc3-exynos-usb", "usb_typec_manager",
                    "usb_notify_layer", "usb_notifier", "usb_f_conn_gadget"];
      var i := 0;
      while i < 6
        invariant 0 <= i <= 6 == |names| && |history| == |old(history)| + 2 * i
        invariant Safe() && pos >= old(pos) && Passed(old(meter), meter, 20_000 * i, 33_520 * i)
        invariant OnlyLogs(old(files), files, old(cacheOk)) && (cacheOk ==> old(cacheOk))
        invariant old(history) <= history
      {
        ghost var before, beforeOk := files, cacheOk;
        var modules: string := *;
        var loaded, _, _, _ := Modprobe(names[i], modules);
        assert OnlyLogs(before, files, beforeOk);
        if loaded.Halted? {
          return Halted;
        }
        i := i + 1;
      }
      ghost var before, beforeOk := files, cacheOk;
      r := SayLines(5);
      assert OnlyLogs(before, files, beforeOk);
    }

    /** One line and one write to the watchdog a second until 45 s of uptime. */
    method Heartbeat() returns (r: Step<()>)
      requires Safe() && Fed(meter)
      modifies `pos, `calls, `meter, `files, `cacheOk, `queue, `history
      ensures Safe() && pos >= old(pos) && OnlyLogs(old(files), files, old(cacheOk)) && (cacheOk ==> old(cacheOk))
      ensures old(history) <= history
      ensures Passed(old(meter), meter, 46_000, 10_170)
      ensures r.Next? ==> 45_000 <= meter.now
      ensures Own(meter) <= Max(46_000, old(Own(meter)))
      ensures r.Halted? ==> Excused(old(meter))
    {
      hide Tallied;
      ghost var beats: nat := 0;
      while meter.now < 45_000
        invariant meter.slept == old(meter.slept) + 1000 * beats && beats <= 45
        invariant meter.now >= 1000 * beats
        invariant Safe() && pos >= old(pos) && OnlyLogs(old(files), files, old(cacheOk)) && (cacheOk ==> old(cacheOk))
        invariant old(history) <= history
        invariant Passed(old(meter), meter, 46_000, 226 * beats)
        invariant Own(meter) <= Max(46_000, old(Own(meter)))
        decreases |events| - pos
      {
        ghost var before, beforeOk := files, cacheOk;
        r := Beat();
        assert OnlyLogs(before, files, beforeOk);
        if r.Halted? {
          return;
        }
        beats := beats + 1;
      }
      return Next(());
    }

    method Beat() returns (r: Step<()>)
      requires Safe() && Fed(meter)
      modifies `pos, `calls, `meter, `files, `cacheOk, `queue, `history
      ensures Safe() && pos >= old(pos) && Passed(old(meter), meter, 1000, 226)
      ensures OnlyLogs(old(files), files, old(cacheOk)) && (cacheOk ==> old(cacheOk))
      ensures old(history) <= history
      ensures r.Next? ==> pos > old(pos) && meter.slept == old(meter.slept) + 1000
      ensures r.Halted? ==> Excused(old(meter))
    {
      hide Tallied;
      var _ :- PetAndSay(1);
      ghost var before, beforeOk := files, cacheOk;
      r := Sleep(1000);
      assert OnlyLogs(before, files, beforeOk);
    }

    /** Disables logging to /cache, then unmounts it; a failed umount leaves it mounted and disabled. */
    method Shutdown() returns (r: Step<()>)
      requires Safe()
      modifies `pos, `calls, `meter, `files, `cacheOk, `queue, `history, `mounted, `cacheMounted
      ensures Safe() && pos >= old(pos) && Lagged(old(meter), meter, 227)
      ensures OnlyLogs(old(files), files, old(cacheOk)) && (cacheOk ==> old(cacheOk))
      ensures old(history) <= history
      ensures r.Next? && old(cacheMounted) ==> !cacheOk && mounted == (old(mounted) && cacheMounted)
      ensures r.Next? && old(cacheMounted) && Unharmed(old(meter)) ==> !mounted && !cacheMounted
      ensures r.Next? && !old(cacheMounted) ==> mounted == old(mounted)
      ensures r.Halted? ==> Excused(old(meter))
    {
      hide Tallied;
      if !cacheMounted {
        r := Tick();
        return;
      }
      var _ :- SayLines(1);
      ghost var said, saidOk := files, cacheOk;
      var sync := Tick();
      assert OnlyLogs(said, files, saidOk);
      if sync.Halted? {
        return Halted;
      }
      cacheOk := false;
      var _ :- Unmount();
      r := Next(());
    }

    /** umount with logging to /cache already disabled. */
    method Unmount() returns (r: Step<()>)
      requires Metered() && !cacheOk && cacheMounted
      modifies `pos, `calls, `meter, `files, `mounted, `cacheMounted
      ensures Metered() && pos >= old(pos) && Lagged(old(meter), meter, 2) && files == old(files)
      ensures r.Next? ==> mounted == (old(mounted) && cacheMounted)
      ensures r.Next? && Unharmed(old(meter)) ==> !mounted && !cacheMounted
      ensures r.Halted? ==> Excused(old(meter))
    {
      hide Tallied, Dying;
      var ret :- Take(Single);
      if ret.Count? {
        mounted := false;
        var _ :- Tick();
        cacheMounted := false;
      } else if kmsgOpen {
        var _ :- Tick();
      }
      return Next(());
    }

    /** Asks for the restart, and then only keeps the watchdog fed, until the machine goes away. */
    method RebootForever() returns (r: Step<()>)
      requires Safe() && Fed(meter) && rebootAt.None? && !meter.restarting
      modifies `pos, `calls, `meter, `files, `rebootAt, `restarts
      ensures r.Halted? && Metered() && Fed(meter) && Later(old(meter.tally), meter.tally)
      ensures OnlyLogs(old(files), files, cacheOk)
      ensures rebootAt == Some(old(meter)) && restarts > old(restarts)
      ensures !meter.restarting ==> meter.slept <= old(meter.slept) + 15_000 * (restarts - old(restarts))
      ensures old(meter.watchdog) ==> meter.watchdog
      ensures Excused(old(meter))
    {
      hide Tallied;
      rebootAt := Some(meter);
      var _ :- RequestRestart();
      meter := meter.(restarting := true);
      while true
        invariant files == old(files) && rebootAt == Some(old(meter)) && restarts > old(restarts)
        invariant Metered() && Later(old(meter.tally), meter.tally)
        invariant old(meter.watchdog) ==> meter.watchdog
        invariant Fed(meter) && meter.restarting
        decreases |events| - pos
      {
        var _ :- Nap(5000);
      }
    }

    /**
     * Asks until the restart is granted: at most 15 s of coded sleep follow each refusal, and the
     * watchdog never starves. restarts counts the requests.
     */
    method RequestRestart() returns (r: Step<()>)
      requires Safe() && Fed(meter)
      modifies `pos, `calls, `meter, `files, `restarts
      ensures Metered() && pos >= old(pos) && Later(old(meter.tally), meter.tally)
      ensures Fed(meter) && meter.restarting == old(meter.restarting)
      ensures meter.slept <= old(meter.slept) + 15_000 * (restarts - old(restarts)) && restarts > old(restarts)
      ensures old(meter.watchdog) ==> meter.watchdog
      ensures r.Next? ==> files == old(files) && pos > old(pos)
      ensures r.Halted? ==> OnlyLogs(old(files), files, cacheOk)
      ensures r.Halted? ==> Excused(old(meter))
    {
      hide Tallied, Dying;
      while true
        invariant files == old(files) && restarts >= old(restarts)
        invariant Metered() && pos >= old(pos) && Later(old(meter.tally), meter.tally)
        invariant old(meter.watchdog) ==> meter.watchdog
        invariant Fed(meter) && meter.restarting == old(meter.restarting)
        invariant meter.slept <= old(meter.slept) + 15_000 * (restarts - old(restarts))
        decreases |events| - pos
      {
        restarts := restarts + 1;
        var ret :- Take(Single);
        if ret.Count? {
          return Next(());
        }
        var _ :- Refused();
      }
    }

    /** A refused request: a note to the kernel log, and the pause. */
    method Refused() returns (r: Step<()>)
      requires Safe() && Fed(meter)
      modifies `pos, `calls, `meter, `files
      ensures Metered() && pos >= old(pos) && Passed(old(meter), meter, 15_000, 31)
      ensures r.Next? ==> files == old(files)
      ensures r.Halted? ==> OnlyLogs(old(files), files, cacheOk)
      ensures r.Halted? ==> Excused(old(meter))
    {
      hide Tallied, Dying;
      if kmsgOpen {
        var _ :- Tick();
      }
      r := Pause();
    }

    /** Fifteen seconds between two requests. */
    method Pause() returns (r: Step<()>)
      requires Safe() && Fed(meter)
      modifies `pos, `calls, `meter, `files
      ensures Metered() && pos >= old(pos) && Passed(old(meter), meter, 15_000, 30)
      ensures r.Next? ==> files == old(files)
      ensures r.Halted? ==> OnlyLogs(old(files), files, cacheOk)
      ensures r.Halted? ==> Excused(old(meter))
    {
      hide Tallied;
      var i := 0;
      while i < 15
        invariant 0 <= i <= 15
        invariant Metered() && pos >= old(pos) && files == old(files)
        invariant Passed(old(meter), meter, 1000 * i, 2 * i)
      {
        var _ :- Nap(1000);
        i := i + 1;
      }
      return Next(());
    }

    // ----- the whole program -----

    /** A process that has just been started on the given device files. */
    constructor (pid: int, device: Files, events: seq<Event>, uptime: nat)
      ensures files == device && this.pid == pid && this.events == events && Started(uptime)
    {
      this.pid := pid;
      this.events, pos, calls, files := events, 0, [], device;
      mounted, cacheOk, cacheMounted, kmsgOpen, handlers := false, false, false, false, false;
      pid1, queue, bootNumber := 0, [], None;
      meter := Meter(uptime, 0, Tally(0, 0, 0, 0), false, 0, false);
      history, mounting, rebootAt, restarts := [], None, None, 0;
    }

    ghost predicate Started(uptime: nat)
      reads this
    {
      && pos == 0 && calls == [] && meter == Meter(uptime, 0, Tally(0, 0, 0, 0), false, 0, false)
      && !mounted && !cacheOk && !cacheMounted && !handlers && queue == [] && history == []
      && bootNumber.None? && mounting.None? && rebootAt.None?
    }

    /** Up to the end of the mount block. */
    method FirstHalf(cmdline: string, looks: seq<string>) returns (r: Step<()>)
      requires Started(meter.now) && CounterDurable(files)
      modifies this
      ensures Safe() && pos >= old(pos) && Passed(old(meter), meter, 75_000, 1_352_284)
      ensures Survives(old(files), files) && CounterDurable(files)
      ensures BootCounter.Attempt(Stored(old(files)), Stored(files), bootNumber)
      ensures pid1 == pid && rebootAt.None? && !meter.restarting
      ensures r.Next? ==> handlers
      ensures r.Next? ==> mounted == cacheMounted
      ensures r.Next? && mounting.None? ==> !mounted && files.log == old(files.log) && 13 <= |history| <= 51
      ensures mounting.Some? ==> Reports(old(files.log.content)) && 13 <= |mounting.value.early| <= 51
      ensures r.Next? && mounting.Some? ==> |history| == |mounting.value.early| + 1
      ensures mounting.Some? && Unharmed(old(meter)) && 0 < |cmdline| <= 4095 ==>
                DumpedAt(mounting.value.early, 3, cmdline)
      ensures r.Next? && Unharmed(old(meter)) && Short(looks) ==> (Confirmed() <==> ShownWithin("sda33", looks, 75))
      ensures mounting.Some? && Unharmed(old(meter)) ==>
                Confirmed() && bootNumber == BootCounter.Successor(Stored(old(files)))
      ensures r.Next? && Unharmed(old(meter)) ==> meter.watchdog
      ensures mounting.Some? && Unharmed(old(meter)) ==> cacheOk
      ensures r.Halted? ==> mounting.None? && Excused(old(meter))
    {
      hide Numbered, Tallied, Concat, Banner, Backs, OutcomeText, ShownWithin, Shows, Look, Short, DumpedAt, Records,
        UptimeLine, BootCounter.Successor, ProcText.Tokens, CStr;
      ghost var log := files.log.content;
      TallyNone(events);
      var found, _, _ := BeforeMount(cmdline, looks);
      if found.Halted? {
        return Halted;
      }
      if !found.value {
        return Next(());
      }
      ConcatOfSlots(history);
      r := MountStage();
      if r.Next? {
        BannerIsRead(mounting.value.outcome, log, bootNumber, Concat(Slots(mounting.value.early)), files.log);
      }
    }

    /** The mount block's report is in the log, and true of the device. */
    ghost predicate Reports(log: string)
      requires mounting.Some?
      reads this
    {
      && Told(mounting.value, history)
      && Backs(mounting.value.outcome, log, Banner(Reported(bootNumber)), Concat(Slots(mounting.value.early)),
               files.log)
      && Numbered(mounting.value.outcome, log, files.log, bootNumber)
    }

    /** From the USB modules to the restart: it never returns. */
    method SecondHalf() returns (r: Step<()>)
      requires Safe() && pid1 == pid && Fed(meter) && rebootAt.None? && !meter.restarting
      requires mounted == cacheMounted
      modifies `pos, `calls, `meter, `files, `cacheOk, `queue, `history, `mounted, `cacheMounted, `rebootAt,
        `restarts
      ensures r.Halted? && Safe() && Fed(meter) && Later(old(meter.tally), meter.tally)
      ensures OnlyLogs(old(files), files, old(cacheOk)) && old(history) <= history
      ensures rebootAt.Some? ==> InTime(rebootAt.value, old(Own(meter)) + 120_000)
      ensures rebootAt.Some? ==> rebootAt.value.tally.lag <= meter.tally.lag
      ensures rebootAt.None? ==> Own(meter) <= Max(46_000, old(Own(meter)) + 120_000)
      ensures rebootAt.None? ==> meter.tally.steps <= old(meter.tally.steps) + 213_085
      ensures rebootAt.Some? ==> !cacheOk && |history| >= |old(history)| + 18
      ensures rebootAt.Some? && Unharmed(old(meter)) ==> !mounted
      ensures rebootAt.Some? && old(meter.watchdog) ==> rebootAt.value.watchdog && meter.watchdog
      ensures Excused(old(meter))
    {
      hide Tallied;
      var _ :- UsbAndHeartbeat();
      ghost var v1, ok := files, cacheOk;
      r := ShutdownAndReboot();
      assert OnlyLogs(v1, files, ok);
    }

    method UsbAndHeartbeat() returns (r: Step<()>)
      requires Safe() && pid1 == pid && Fed(meter)
      modifies `pos, `calls, `meter, `files, `cacheOk, `queue, `history
      ensures Safe() && pos >= old(pos) && Passed(old(meter), meter, 166_000, 212_858)
      ensures OnlyLogs(old(files), files, old(cacheOk)) && (cacheOk ==> old(cacheOk))
      ensures old(history) <= history
      ensures r.Next? ==> 45_000 <= meter.now
      ensures Own(meter) <= Max(46_000, old(Own(meter)) + 120_000)
      ensures r.Next? ==> |history| >= |old(history)| + 18
      ensures r.Halted? ==> Excused(old(meter))
    {
      hide Tallied;
      var _ :- LoadUsb();
      ghost var v1, v1Ok := files, cacheOk;
      r := HeartbeatAndReport();
      assert OnlyLogs(v1, files, v1Ok);
    }

    method ShutdownAndReboot() returns (r: Step<()>)
      requires Safe() && Fed(meter) && rebootAt.None? && !meter.restarting && mounted == cacheMounted
      requires 45_000 <= meter.now
      modifies `pos, `calls, `meter, `files, `cacheOk, `queue, `history, `mounted, `cacheMounted, `rebootAt, `restarts
      ensures r.Halted? && Safe() && Fed(meter)
      ensures Later(old(meter.tally), meter.tally)
      ensures OnlyLogs(old(files), files, old(cacheOk)) && (cacheOk ==> old(cacheOk))
      ensures old(history) <= history
      ensures rebootAt.Some? ==> 45_000 <= rebootAt.value.now && Own(rebootAt.value) == old(Own(meter))
      ensures rebootAt.Some? ==> rebootAt.value.tally.lag <= meter.tally.lag && !cacheOk
      ensures rebootAt.Some? && Unharmed(old(meter)) ==> !mounted
      ensures rebootAt.None? ==> Own(meter) == old(Own(meter))
      ensures rebootAt.None? ==> meter.tally.steps <= old(meter.tally.steps) + 227
      ensures rebootAt.Some? && old(meter.watchdog) ==> rebootAt.value.watchdog && meter.watchdog
      ensures Excused(old(meter))
    {
      hide Tallied;
      var down := Shutdown();
      if down.Halted? {
        return Halted;
      }
      ghost var v1, v1Ok := files, cacheOk;
      r := RebootForever();
      assert OnlyLogs(v1, files, v1Ok);
    }

    method HeartbeatAndReport() returns (r: Step<()>)
      requires Safe() && Fed(meter)
      modifies `pos, `calls, `meter, `files, `cacheOk, `queue, `history
      ensures Safe() && pos >= old(pos) && OnlyLogs(old(files), files, old(cacheOk)) && (cacheOk ==> old(cacheOk))
      ensures old(history) <= history
      ensures Passed(old(meter), meter, 46_000, 10_618)
      ensures r.Next? ==> 45_000 <= meter.now
      ensures Own(meter) <= Max(46_000, old(Own(meter)))
      ensures r.Next? ==> |history| > |old(history)|
      ensures r.Halted? ==> Excused(old(meter))
    {
      hide Tallied;
      var late := if meter.now >= 45_000 then 1 else 0;
      var _ :- SayLines(late);
      ghost var v1, v1Ok := files, cacheOk;
      var beaten := Heartbeat();
      assert OnlyLogs(v1, files, v1Ok);
      if beaten.Halted? {
        return Halted;
      }
      ghost var v2, v2Ok := files, cacheOk;
      r := SayLines(1);
      assert OnlyLogs(v2, files, v2Ok);
    }

    /**
     * One boot, for any replies and any signal or stop at any step. Nothing is ever written under a
     * bare /cache; the device log only grows; the counter file keeps its content or holds the
     * durable successor; a reported number is that successor; the watchdog stays fed. The first
     * reboot call comes after 45 s of uptime and, latency aside, by 46 s or 195 s after the start. A
     * boot ends before that call only within that time and within BOOT_STEPS steps, because the
     * machine goes away or a signal comes. What the mount block reports is true of the device.
     */
    method Boot(cmdline: string, looks: seq<string>)
      requires Started(meter.now) && CounterDurable(files)
      modifies this
      ensures Safe() && Fed(meter)
      ensures Survives(old(files), files) && CounterDurable(files)
      ensures BootCounter.Attempt(Stored(old(files)), Stored(files), bootNumber)
      ensures pos == |events| || !NoSignals(events[..pos])
      ensures rebootAt.None? ==> Own(meter) <= Max(46_000, old(meter.now) + 195_000)
      ensures NoSignals(events) && |events| > BOOT_STEPS + Interruptions(events) ==> rebootAt.Some?
      ensures rebootAt.Some? ==> InTime(rebootAt.value, old(meter.now) + 195_000)
      ensures rebootAt.Some? && AllInstant(events[..pos]) ==>
                45_000 <= rebootAt.value.now <= Max(46_000, old(meter.now) + 195_000)
      ensures rebootAt.Some? ==> !cacheOk && (AllSucceed(events, calls) ==> !mounted)
      ensures rebootAt.Some? && AllSucceed(events, calls) ==> rebootAt.value.watchdog && meter.watchdog
      ensures mounting.Some? ==> Reports(old(files.log.content))
      ensures rebootAt.Some? && mounting.None? ==> files.log == old(files.log)
      ensures rebootAt.Some? && AllSucceed(events, calls) && Short(looks) ==>
                (Confirmed() <==> ShownWithin("sda33", looks, 75))
      ensures mounting.Some? && AllSucceed(events, calls) ==>
                Confirmed() && bootNumber == BootCounter.Successor(Stored(old(files)))
                && (0 < |cmdline| <= 4095 && '\0' !in cmdline ==> ReadsBack(mounting.value.early, 3, cmdline))
    {
      hide Numbered, Tallied, Concat, Banner, Backs, OutcomeText, ShownWithin, DumpedAt, ReadsBack;
      ghost var log := files.log.content;
      var first := FirstHalf(cmdline, looks);
      TallyMeans(events, calls);
      assert events[..|events|] == events;
      if first.Next? {
        if mounting.Some? {
          DumpReadsBack(mounting.value.early, 3, cmdline);
        }
        ghost var kept := files;
        var _ := SecondHalf();
        if mounting.Some? {
          BacksStill(mounting.value.outcome, log, Banner(Reported(bootNumber)),
                     Concat(Slots(mounting.value.early)), kept.log, files.log);
          BannerIsRead(mounting.value.outcome, log, bootNumber, Concat(Slots(mounting.value.early)), files.log);
        }
        TallyMeans(events, calls);
      }
    }
  }
}
