/** Boot after boot on the same device, each one ending anywhere. */
module CrashLoop {
  import opened Common
  import opened LogText
  import opened Machine
  import BootCounter
  import Pid1

  /** What a stop does to a file: bytes known durable survive, the rest may turn into anything. */
  ghost predicate FileAfterStop(before: File, after: File) {
    && Synced(after)
    && before.content[..before.durable] <= after.content
    && (Synced(before) ==> after == before)
  }

  /** The device as the next boot finds it: the temporary file may be missing, stale or garbage. */
  ghost predicate DeviceAfterStop(before: Files, after: Files) {
    && FileAfterStop(before.log, after.log)
    && before.counter.Some? == after.counter.Some?
    && (before.counter.Some? ==> FileAfterStop(before.counter.value, after.counter.value))
  }

  /** Everything the outside decides about one boot, and what its end does to unflushed bytes. */
  datatype Outside = Outside(events: seq<Event>, cmdline: string, looks: seq<string>, uptime: nat,
                             logTail: string, counterTail: string, tmp: Option<File>)

  /** The device after a stop. */
  function Stop(before: Files, o: Outside): (after: Files)
    ensures DeviceAfterStop(before, after) && after.tmp == o.tmp
  {
    var counter := if before.counter.None? then None
                   else Some(LoseTail(before.counter.value, o.counterTail));
    Files(LoseTail(before.log, o.logTail), counter, o.tmp, EMPTY, None)
  }

  function LoseTail(before: File, tail: string): (after: File)
    ensures FileAfterStop(before, after)
  {
    if before.durable == |before.content| then before else
      var content := before.content[..before.durable] + tail;
      File(content, |content|)
  }

  /** What was safe before a boot, or became safe during it, is there after its stop. */
  lemma EvidenceKept(before: Files, stopped: Files, after: Files, text: string)
    requires Synced(before.log) && Survives(before, stopped) && DeviceAfterStop(stopped, after)
    ensures before.log.content <= after.log.content && Synced(after.log)
    ensures text <= before.log.content || OnDevice(stopped.log, text) ==> text <= after.log.content
  {
    var safe := stopped.log.content[..stopped.log.durable];
    assert before.log.content <= safe;
    assert OnDevice(stopped.log, text) ==> text <= safe;
  }

  /**
   * What one boot leaves to be checked: the log it found, its number, its lines, its report, and
   * whether it came to its reboot request.
   */
  datatype Trace = Trace(found: string, number: Option<nat>, history: seq<string>,
                         mounting: Option<Pid1.Mounting>, rebooted: bool)

  /** The kernel lets the boot run long enough, and no signal comes. */
  ghost predicate Completes(o: Outside) {
    NoSignals(o.events) && |o.events| > Pid1.BOOT_STEPS + Interruptions(o.events)
  }

  /** A boot that is let run asks for its reboot, and one without a report has left the log alone. */
  ghost predicate Follows(o: Outside, t: Trace, log: string) {
    && (Completes(o) ==> t.rebooted)
    && (t.rebooted && t.mounting.None? ==> log == t.found)
  }

  /** The log after the i-th boot. */
  function LogAfter(traces: seq<Trace>, i: nat, last: string): string {
    if i + 1 < |traces| then traces[i + 1].found else last
  }

  /** The log still holds what the boot found, and after it what the boot's report claims. */
  ghost predicate KeptAt(log: File, t: Trace) {
    && Synced(log) && t.found <= log.content
    && (t.mounting.Some? ==>
          Pid1.Told(t.mounting.value, t.history)
          && Pid1.Backs(t.mounting.value.outcome, t.found, Banner(Reported(t.number)),
                        Concat(Slots(t.mounting.value.early)), log)
          && Pid1.Numbered(t.mounting.value.outcome, t.found, log, t.number))
  }

  ghost predicate AllKept(log: File, traces: seq<Trace>) {
    forall t :: t in traces ==> KeptAt(log, t)
  }

  lemma KeptStill(log: File, more: File, traces: seq<Trace>)
    requires AllKept(log, traces) && Grew(log, more) && Synced(more)
    ensures AllKept(more, traces)
  {
    forall t | t in traces
      ensures KeptAt(more, t)
    {
      assert KeptAt(log, t);
      if t.mounting.Some? {
        Pid1.BacksStill(t.mounting.value.outcome, t.found, Banner(Reported(t.number)),
                        Concat(Slots(t.mounting.value.early)), log, more);
        Pid1.BannerIsRead(t.mounting.value.outcome, t.found, t.number, Concat(Slots(t.mounting.value.early)), more);
      }
    }
  }

  /** What a report claims of the device when the boot stops is true of it afterwards. */
  lemma BacksAfterStop(o: Pid1.MountOutcome, before: string, banner: string, queued: string, log: File, after: File)
    requires Pid1.Backs(o, before, banner, queued, log) && FileAfterStop(log, after)
    ensures Pid1.Backs(o, before, banner, queued, after)
  {
    if o.QueueOnly? {
      var k :| 0 <= k <= |banner| && OnDevice(log, before + banner[..k] + queued);
      Survived(before + banner[..k] + queued, log, after);
    }
    Survived(before + banner + queued, log, after);
    Survived(before + banner, log, after);
  }

  lemma Survived(text: string, log: File, after: File)
    requires FileAfterStop(log, after)
    ensures OnDevice(log, text) ==> OnDevice(after, text)
  {
    if OnDevice(log, text) {
      assert text <= log.content[..log.durable];
    }
  }

  /** One boot and its end. */
  method BootOnce(device: Files, boot: Outside) returns (files: Files, report: Option<nat>, ghost t: Trace)
    requires CounterDurable(device) && Synced(device.log)
    ensures CounterDurable(files) && Synced(files.log)
    ensures BootCounter.Attempt(Stored(device), Stored(files), report)
    ensures device.log.content <= files.log.content
    ensures t.found == device.log.content && t.number == report && KeptAt(files.log, t)
    ensures Follows(boot, t, files.log.content)
  {
    hide Pid1.Backs, Pid1.OutcomeText, Banner, Concat;
    var init := new Pid1.Init(1, device, boot.events, boot.uptime);
    init.Boot(boot.cmdline, boot.looks);
    files := Stop(init.files, boot);
    report := init.bootNumber;
    t := Trace(device.log.content, report, init.history, init.mounting, init.rebootAt.Some?);
    EvidenceKept(device, init.files, files, "");
    if t.mounting.Some? {
      BacksAfterStop(t.mounting.value.outcome, t.found, Banner(Reported(report)),
                     Concat(Slots(t.mounting.value.early)), init.files.log, files.log);
      Pid1.BannerIsRead(t.mounting.value.outcome, t.found, report, Concat(Slots(t.mounting.value.early)), files.log);
    }
  }

  /**
   * Any number of boots, each with its own kernel behaviour, signals and stopping point: the
   * counter's history is a run in the sense of BootCounter, reported numbers strictly increase, and
   * the final log still holds what every boot found and what it reported as safe.
   */
  method BootRepeatedly(device: Files, boots: seq<Outside>)
      returns (files: Files, states: seq<Option<string>>, reports: seq<Option<nat>>, ghost traces: seq<Trace>)
    requires CounterDurable(device) && Synced(device.log)
    ensures |traces| == |reports| == |boots| && BootCounter.Run(states, reports)
    ensures states[0] == Stored(device) && states[|boots|] == Stored(files)
    ensures AllKept(files.log, traces)
    ensures forall i :: 0 <= i < |boots| ==>
              traces[i].number == reports[i] && Follows(boots[i], traces[i], LogAfter(traces, i, files.log.content))
    ensures device.log.content <= files.log.content
    ensures forall i, j :: 0 <= i < j < |boots| && reports[i].Some? && reports[j].Some? ==>
              reports[i].value < reports[j].value
  {
    hide Pid1.Backs, Pid1.Told, Follows, KeptAt, Banner, Concat;
    files := device;
    states, reports, traces := [Stored(device)], [], [];
    var i := 0;
    while i < |boots|
      invariant 0 <= i <= |boots| && |reports| == |traces| == i
      invariant BootCounter.Run(states, reports) && states[0] == Stored(device)
      invariant states[i] == Stored(files) && CounterDurable(files)
      invariant Synced(files.log) && device.log.content <= files.log.content
      invariant AllKept(files.log, traces)
      invariant forall k :: 0 <= k < i ==>
          traces[k].number == reports[k] && Follows(boots[k], traces[k], LogAfter(traces, k, files.log.content))
    {
      var after, report, t := BootOnce(files, boots[i]);
      KeptStill(files.log, after.log, traces);
      files := after;
      states, reports, traces := states + [Stored(files)], reports + [report], traces + [t];
      i := i + 1;
    }
    forall i, j | 0 <= i < j < |boots| && reports[i].Some? && reports[j].Some?
      ensures reports[i].value < reports[j].value
    {
      BootCounter.ReportsIncrease(states, reports, i, j);
    }
  }
}
