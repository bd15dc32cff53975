/** Running a metadata command and draining its two pipes within bounds. */
module Listing {
  import opened Common

  const MAX_STDOUT := 262144
  const MAX_STDERR := 4096
  const MAX_TIMEOUT := 30.0
  const MAX_CLEANUP := 2.0

  datatype Stream = Stdout | Stderr

  /** How one nonblocking read of a ready pipe goes; Data(n) has up to n bytes at hand. */
  datatype Read = Data(n: nat) | Blocked | Broken

  datatype Ready = Ready(stream: Stream, read: Read)

  /** One turn of a polling loop: has the child exited, is the deadline past, what does select report. */
  datatype Turn = Turn(exited: Option<int>, late: bool, select: Option<seq<Ready>>)

  /** How the calls after the loops go; the abort fields are for the exception path. */
  datatype Ending = Ending(
    killFails: bool, closeFails: bool, waited: Option<int>, rekillFails: bool, lateWait: Option<int>,
    abortKillFails: bool, abortCloseFails: bool)

  datatype Start = NotStarted | Unprepared | Started

  datatype Fault = TimedOut | Capture | NotReaped | Exit(code: int) | Cleanup

  datatype Report = Report(
    available: bool,
    complete: bool,
    returncode: Option<int>,
    timedOut: bool,
    reaped: bool,
    cleanupComplete: bool,
    counts: map<Stream, nat>,
    truncated: map<Stream, bool>,
    retained: map<Stream, seq<byte>>,
    error: Option<Fault>)

  /** select reports registered streams, each at most once. */
  function Reported(proposed: seq<Ready>, open: set<Stream>): (r: seq<Ready>)
    ensures OnceEach(r) && forall e :: e in r ==> e.stream in open
  {
    if proposed == [] then []
    else if proposed[0].stream in open then
      [proposed[0]] + Reported(proposed[1..], open - {proposed[0].stream})
    else Reported(proposed[1..], open)
  }

  ghost predicate OnceEach(events: seq<Ready>) {
    forall i, j :: 0 <= i < j < |events| ==> events[i].stream != events[j].stream
  }

  predicate SelectWorks(script: seq<Turn>) {
    forall t :: t in script ==> t.select.Some?
  }

  ghost predicate FailsSomewhere(script: seq<Turn>) {
    exists t :: t in script && t.select.None?
  }

  /** The very first select fails, before any deadline. */
  predicate FailsAtOnce(script: seq<Turn>) {
    script != [] && !script[0].late && script[0].select.None?
  }

  ghost predicate BrokenAmong(events: seq<Ready>, n: nat)
    requires n <= |events|
  {
    exists k :: 0 <= k < n && events[k].read == Broken
  }

  /** What one stream still has to give, and whether anyone still listens. */
  datatype Pipe = Pipe(unread: seq<byte>, open: bool, lost: bool)

  predicate Harmless(t: Turn) {
    t.select.Some? && forall e :: e in t.select.value ==> e.read != Broken
  }

  /** No read and no select call of the script fails. */
  predicate Faultless(script: seq<Turn>) {
    forall t :: t in script ==> Harmless(t)
  }

  /** A read takes at most one chunk; it finds end of file exactly when nothing is left. */
  function Taken(unread: seq<byte>, n: nat): (r: nat)
    ensures r <= |unread| && r <= 8192 && (r == 0 <==> unread == [])
  {
    Min(|unread|, Min(8192, Max(n, 1)))
  }

  function Served(p: Pipe, read: Read): Pipe {
    match read
    case Blocked => p
    case Broken => p.(open := false, lost := true)
    case Data(n) =>
      if p.unread == [] then p.(open := false) else p.(unread := p.unread[Taken(p.unread, n)..])
  }

  /** Retaining a chunk keeps the retained bytes a prefix of everything read. */
  lemma RetainChunk(output: seq<byte>, read: nat, limit: nat, n: nat)
    requires read + n <= |output|
    ensures var room := limit - Min(read, limit);
            output[..Min(read, limit)] + output[read..read + n][..Min(n, room)] == output[..Min(read + n, limit)]
  {
  }

  lemma Onward(output: seq<byte>, unread: seq<byte>, n: nat)
    requires n <= |unread| <= |output| && unread == output[|output| - |unread|..]
    ensures var read := |output| - |unread|;
            unread[..n] == output[read..read + n] && unread[n..] == output[read + n..]
  {
  }

  class Listing {
    const limits: map<Stream, nat>
    var registered: set<Stream>
    var buffers: map<Stream, seq<byte>>
    var counts: map<Stream, nat>
    var truncated: map<Stream, bool>
    var captureError: bool
    var returncode: Option<int>
    // The world: what each stream will still deliver, and how the coming turns go.
    ghost const output: map<Stream, seq<byte>>
    var unread: map<Stream, seq<byte>>
    var script: seq<Turn>
    // The streams given up before their end of file, and those of them whose read failed.
    ghost var lost: set<Stream>
    ghost var broken: set<Stream>
    // The turns in which select was called.
    ghost var selected: seq<Turn>

    ghost predicate Sound(s: Stream)
      reads this`registered, this`buffers, this`counts, this`truncated, this`unread, this`lost
    {
      && s in limits && s in output && s in unread && s in buffers && s in counts && s in truncated
      && |unread[s]| <= |output[s]| && unread[s] == output[s][|output[s]| - |unread[s]|..]
      && counts[s] == |output[s]| - |unread[s]|
      && buffers[s] == output[s][..Min(counts[s], limits[s])]
      && (truncated[s] <==> counts[s] > limits[s] || s in lost)
      && (s in registered ==> s !in lost)
      && (s !in registered && s !in lost ==> unread[s] == [])
    }

    /** So far only failed reads count as capture errors. */
    ghost predicate Blamed()
      reads `captureError, `broken
    {
      captureError <==> broken != {}
    }

    /** select was called only in turns of the script, and never past the deadline. */
    ghost predicate Selected(turns: seq<Turn>)
      reads `selected
    {
      forall t :: t in selected ==> t in turns && !t.late
    }

    ghost predicate Valid()
      reads this`registered, this`buffers, this`counts, this`truncated, this`unread, this`lost
    {
      forall s :: Sound(s)
    }

    ghost function Results(): (map<Stream, nat>, map<Stream, bool>, map<Stream, seq<byte>>)
      reads this
    {
      (counts, truncated, buffers)
    }

    ghost function View(s: Stream): Pipe
      reads this
    {
      Pipe(if s in unread then unread[s] else [], s in registered, s in lost)
    }

    constructor (stdoutLimit: nat, stderrLimit: nat, out: seq<byte>, err: seq<byte>, turns: seq<Turn>)
      ensures Valid() && registered == {Stdout, Stderr} && lost == broken == {} && !captureError && returncode == None
      ensures selected == []
      ensures limits == map[Stdout := stdoutLimit, Stderr := stderrLimit]
      ensures output == map[Stdout := out, Stderr := err] && script == turns
      ensures buffers == map[Stdout := [], Stderr := []] && counts == map[Stdout := 0, Stderr := 0]
      ensures truncated == map[Stdout := false, Stderr := false]
    {
      limits := map[Stdout := stdoutLimit, Stderr := stderrLimit];
      registered := {Stdout, Stderr};
      buffers := map[Stdout := [], Stderr := []];
      counts := map[Stdout := 0, Stderr := 0];
      truncated := map[Stdout := false, Stderr := false];
      captureError, returncode := false, None;
      output := map[Stdout := out, Stderr := err];
      unread := map[Stdout := out, Stderr := err];
      script := turns;
      lost, broken, selected := {}, {}, [];
      new;
      forall s
        ensures Sound(s)
      {
        assert s == Stdout || s == Stderr;
      }
    }

    /** One read of a ready stream. */
    method ReadOnce(key: Ready)
      requires Valid() && key.stream in registered
      modifies this`registered, this`buffers, this`counts, this`truncated, this`captureError, this`unread, this`lost,
        this`broken
      ensures Valid()
      ensures View(key.stream) == Served(old(View(key.stream)), key.read)
      ensures forall s :: s != key.stream ==> View(s) == old(View(s))
      ensures captureError == (old(captureError) || key.read == Broken)
      ensures key.read != Broken ==> lost == old(lost)
      ensures old(lost == broken) ==> lost == broken
      ensures old(Blamed()) ==> Blamed()
    {
      var name := key.stream;
      match key.read {
        case Blocked =>
        case Broken =>
          captureError := true;
          broken := broken + {name};
          Abandon(name);
        case Data(n) =>
          Receive(name, n);
      }
    }

    /** A read that returns: a chunk, or nothing at end of file. */
    method Receive(name: Stream, n: nat)
      requires Valid() && name in registered
      modifies this`registered, this`buffers, this`counts, this`truncated, this`unread
      ensures Valid()
      ensures View(name) == Served(old(View(name)), Data(n))
      ensures forall s :: s != name ==> View(s) == old(View(s))
    {
      assert Sound(name);
      var data := unread[name][..Taken(unread[name], n)];
      if data == [] {
        registered := registered - {name};
        forall s
          ensures Sound(s)
        {
          assert old(Sound(s));
        }
      } else {
        Accept(name, data);
      }
    }

    method Accept(name: Stream, data: seq<byte>)
      requires Valid() && name in registered && name in unread && data <= unread[name]
      modifies this`buffers, this`counts, this`truncated, this`unread
      ensures Valid()
      ensures View(name) == old(View(name)).(unread := old(unread[name])[|data|..])
      ensures forall s :: s != name ==> View(s) == old(View(s))
    {
      assert Sound(name);
      Onward(output[name], unread[name], |data|);
      unread := unread[name := unread[name][|data|..]];
      Retain(name, data);
      assert Sound(name);
      forall s | s != name
        ensures Sound(s)
      {
        assert old(Sound(s));
      }
    }

    /** Account for a chunk just read, keeping what still fits. */
    method Retain(name: Stream, data: seq<byte>)
      requires name in limits && name in output && name in buffers && name in counts && name in truncated
      requires counts[name] + |data| <= |output[name]|
      requires data == output[name][counts[name]..counts[name] + |data|]
      requires buffers[name] == output[name][..Min(counts[name], limits[name])]
      requires truncated[name] <==> counts[name] > limits[name]
      modifies this`buffers, this`counts, this`truncated
      ensures counts == old(counts)[name := old(counts)[name] + |data|]
      ensures buffers == old(buffers)[name := output[name][..Min(counts[name], limits[name])]]
      ensures truncated == old(truncated)[name := counts[name] > limits[name]]
    {
      RetainChunk(output[name], counts[name], limits[name], |data|);
      counts := counts[name := counts[name] + |data|];
      var room: nat := limits[name] - |buffers[name]|;
      if room > 0 {
        buffers := buffers[name := buffers[name] + data[..Min(room, |data|)]];
      }
      if |data| > room {
        truncated := truncated[name := true];
      }
    }

    /** Serve every ready stream once. */
    method Drain(events: seq<Ready>)
      requires Valid() && OnceEach(events) && forall e :: e in events ==> e.stream in registered
      modifies this`registered, this`buffers, this`counts, this`truncated, this`captureError, this`unread, this`lost,
        this`broken
      ensures Valid()
      ensures forall k :: 0 <= k < |events| ==>
                View(events[k].stream) == Served(old(View(events[k].stream)), events[k].read)
      ensures forall s :: (forall k :: 0 <= k < |events| ==> events[k].stream != s) ==> View(s) == old(View(s))
      ensures captureError == (old(captureError) || BrokenAmong(events, |events|))
      ensures !BrokenAmong(events, |events|) ==> lost == old(lost)
      ensures old(lost == broken) ==> lost == broken
      ensures old(Blamed()) ==> Blamed()
    {
      for i := 0 to |events|
        invariant Valid()
        invariant forall k :: 0 <= k < i ==>
                    View(events[k].stream) == Served(old(View(events[k].stream)), events[k].read)
        invariant forall s :: (forall k :: 0 <= k < i ==> events[k].stream != s) ==> View(s) == old(View(s))
        invariant captureError == (old(captureError) || BrokenAmong(events, i))
        invariant !BrokenAmong(events, i) ==> lost == old(lost)
        invariant old(Blamed()) ==> Blamed()
        invariant old(lost == broken) ==> lost == broken
      {
        assert forall k :: 0 <= k < i ==> events[k].stream != events[i].stream;
        assert View(events[i].stream) == old(View(events[i].stream));
        assert events[i] in events;
        ReadOnce(events[i]);
      }
    }

    /** The next turn; once the script is over the deadline has passed. */
    method Take() returns (t: Turn)
      modifies this`script
      ensures old(script) == [] ==> script == [] && t == Turn(None, true, Some([]))
      ensures old(script) != [] ==> [t] + script == old(script)
    {
      if script == [] {
        t := Turn(None, true, Some([]));
      } else {
        t, script := script[0], script[1..];
      }
    }

    method Poll(t: Turn)
      modifies this`returncode
      ensures returncode == if old(returncode).Some? then old(returncode) else t.exited
    {
      if returncode.None? {
        returncode := t.exited;
      }
    }

    /** select, then drain what it reports; false when select itself fails. */
    method SelectAndDrain(t: Turn) returns (ok: bool)
      requires Valid()
      modifies this`registered, this`buffers, this`counts, this`truncated, this`captureError, this`unread, this`lost,
        this`broken, this`selected
      ensures Valid() && ok == t.select.Some? && selected == old(selected) + [t]
      ensures Harmless(t) ==> captureError == old(captureError) && lost == old(lost)
      ensures old(captureError) ==> captureError
      ensures !captureError ==> lost == old(lost)
      ensures !ok ==> Results() == old(Results()) && lost == old(lost) && broken == old(broken)
      ensures old(lost == broken) ==> lost == broken
      ensures old(Blamed()) ==> Blamed()
      ensures ok ==> forall e :: e in Reported(t.select.value, old(registered)) ==>
                View(e.stream) == Served(old(View(e.stream)), e.read)
      ensures forall s :: (!ok || forall e :: e in Reported(t.select.value, old(registered)) ==> e.stream != s) ==>
                View(s) == old(View(s))
    {
      ok := t.select.Some?;
      selected := selected + [t];
      if ok {
        HonestReads(t.select.value, registered);
        Drain(Reported(t.select.value, registered));
      }
    }

    /** The main loop: until both pipes are closed and the child has exited. */
    method Watch() returns (timedOut: bool, interrupted: bool)
      requires Valid() && !captureError && lost == broken == {} && selected == []
      modifies this
      ensures Valid() && lost == broken && (!captureError ==> lost == {})
      ensures interrupted ==> lost == {}
      ensures Selected(old(script)) && (interrupted <==> FailsSomewhere(selected))
      ensures forall u :: u in script ==> u in old(script)
      ensures !timedOut && !interrupted && !captureError ==> registered == {} && returncode.Some?
      ensures Faultless(old(script)) ==> !interrupted && !captureError && Faultless(script)
      ensures timedOut ==> script == [] || exists t :: t in old(script) && t.late
      ensures SelectWorks(old(script)) ==> !interrupted && SelectWorks(script)
      ensures FailsAtOnce(old(script)) && old(registered) != {} ==>
                interrupted && Results() == old(Results())
      ensures Blamed()
    {
      timedOut, interrupted := false, false;
      ghost var first := true;
      var t := Take();
      while true
        invariant Valid() && !captureError && lost == broken == {}
        invariant Selected(old(script)) && !FailsSomewhere(selected)
        invariant script == [] || t in old(script)
        invariant t.late || t in old(script)
        invariant forall u :: u in script ==> u in old(script)
        invariant Faultless(old(script)) ==> Harmless(t) && Faultless(script)
        invariant SelectWorks(old(script)) ==> t.select.Some?
        invariant first ==> registered == old(registered) && Results() == old(Results())
        invariant first && FailsAtOnce(old(script)) ==> t == old(script)[0]
        invariant !first ==> !(FailsAtOnce(old(script)) && old(registered) != {})
        decreases |script| + if t.late then 0 else 1
      {
        if registered == {} {
          Poll(t);
          if returncode.Some? {
            break;
          }
        }
        if t.late {
          timedOut := true;
          break;
        }
        var ok := SelectAndDrain(t);
        if !ok {
          interrupted := true;
          break;
        }
        if captureError {
          break;
        }
        first := false;
        t := Take();
      }
    }

    /** After a timeout or a failed read: drain for the cleanup time, then give the rest up. */
    method CleanUp() returns (interrupted: bool)
      requires Valid()
      modifies this
      ensures Valid() && returncode == old(returncode)
      ensures !interrupted ==> registered == {}
      ensures interrupted && old(lost == broken) ==> lost == broken
      ensures forall t :: t in selected ==> t in old(selected) || (t in old(script) && !t.late)
      ensures interrupted || old(FailsSomewhere(selected)) <==> FailsSomewhere(selected)
      ensures old(captureError) ==> captureError
      ensures Faultless(old(script)) ==> !interrupted && captureError == old(captureError)
      ensures Faultless(old(script)) && lost != old(lost) ==>
                script == [] || exists t :: t in old(script) && t.late
      ensures SelectWorks(old(script)) ==> !interrupted
      ensures old(Blamed()) ==> Blamed()
    {
      interrupted := false;
      var t := Take();
      while registered != {} && !t.late
        invariant Valid() && returncode == old(returncode)
        invariant old(captureError) ==> captureError
        invariant old(Blamed()) ==> Blamed()
        invariant old(lost == broken) ==> lost == broken
        invariant forall u :: u in selected ==> u in old(selected) || (u in old(script) && !u.late)
        invariant FailsSomewhere(selected) <==> old(FailsSomewhere(selected))
        invariant Faultless(old(script)) ==>
            Harmless(t) && Faultless(script) && captureError == old(captureError) && lost == old(lost)
        invariant script == [] || t in old(script)
        invariant t.late || t in old(script)
        invariant forall u :: u in script ==> u in old(script)
        invariant SelectWorks(old(script)) ==> t.select.Some?
        decreases |script| + if t.late then 0 else 1
      {
        var ok := SelectAndDrain(t);
        if !ok {
          interrupted := true;
          return;
        }
        t := Take();
      }
      GiveUp();
    }

    /** Stop listening to a stream before its end of file. */
    method Abandon(s: Stream)
      requires Valid() && s in registered
      modifies this`registered, this`truncated, this`lost
      ensures Valid() && registered == old(registered) - {s} && lost == old(lost) + {s}
    {
      truncated := truncated[s := true];
      registered, lost := registered - {s}, lost + {s};
      assert old(Sound(s));
      forall u
        ensures Sound(u)
      {
        assert old(Sound(u));
      }
    }

    method GiveUp()
      requires Valid()
      modifies this`registered, this`truncated, this`lost
      ensures Valid() && registered == {} && lost == old(lost) + old(registered)
    {
      while registered != {}
        invariant Valid() && lost + registered == old(lost) + old(registered)
        decreases |registered|
      {
        var s :| s in registered;
        Abandon(s);
      }
    }

    /** Reap the child, killing its group again if it lingers. */
    method Wait(ending: Ending) returns (clean: bool)
      modifies this`returncode
      ensures old(returncode).Some? ==> returncode == old(returncode) && clean
      ensures old(returncode).None? ==> returncode == if ending.waited.Some? then ending.waited else ending.lateWait
      ensures returncode.None? ==> !clean
    {
      clean := true;
      if returncode.None? {
        returncode := ending.waited;
      }
      if returncode.None? {
        clean := !ending.rekillFails;
        returncode := ending.lateWait;
        if returncode.None? {
          clean := false;
        }
      }
    }

    /**
     * Everything after the main loop, up to the report; the exception path counts as a capture error.
     * cut says that the draining itself was cut short: before it began, or by a select that failed.
     */
    method Settle(timedOut: bool, failed: bool, ending: Ending) returns (clean: bool, ghost cut: bool)
      requires Valid() && lost == broken && (!captureError ==> lost == {})
      requires !timedOut && !failed && !captureError ==> registered == {} && returncode.Some?
      requires (!failed ==> !FailsSomewhere(selected)) && Blamed()
      modifies this
      ensures captureError <==> broken != {} || cut || ending.closeFails
      ensures Valid() && (returncode.None? ==> !clean)
      ensures !timedOut && !captureError ==> registered == {} && lost == {}
      ensures failed ==> Results() == old(Results()) && broken == old(broken) && selected == old(selected)
      ensures cut <==> failed || FailsSomewhere(selected)
      ensures forall t :: t in selected ==> t in old(selected) || (t in old(script) && !t.late)
      ensures cut ==> captureError && lost == broken
      ensures !cut ==> registered == {}
      ensures !failed && (timedOut || old(captureError)) && ending.killFails ==> !clean
      ensures !timedOut && !failed && !old(captureError) && !ending.closeFails ==>
                !captureError && returncode == old(returncode) && clean
    {
      var interrupted := failed;
      clean := true;
      if !interrupted && (timedOut || captureError) {
        clean := !ending.killFails;
        interrupted := CleanUp();
      }
      cut := interrupted;
      if interrupted || ending.closeFails {
        captureError := true;
        clean := clean && !ending.abortKillFails && !ending.abortCloseFails;
      }
      var reaped := Wait(ending);
      clean := clean && reaped;
    }

    function Grade(timedOut: bool, clean: bool): Option<Fault>
      reads this
    {
      if timedOut then Some(TimedOut)
      else if captureError then Some(Capture)
      else if returncode.None? then Some(NotReaped)
      else if returncode.value != 0 then Some(Exit(returncode.value))
      else if !clean then Some(Cleanup)
      else None
    }

    function Summary(timedOut: bool, clean: bool): Report
      requires Stdout in truncated && Stderr in truncated
      reads this
    {
      var available := returncode == Some(0) && !timedOut && !captureError;
      Report(
        available,
        available && !truncated[Stdout] && !truncated[Stderr] && clean,
        returncode,
        timedOut,
        returncode.Some?,
        returncode.Some? && clean,
        counts,
        truncated,
        buffers,
        Grade(timedOut, clean))
    }

    lemma Reports(s: Stream, timedOut: bool, clean: bool, cut: bool)
      requires Sound(Stdout) && Sound(Stderr) && Sound(s)
      requires !timedOut && !captureError ==> registered == {} && lost == {}
      requires cut ==> captureError && lost == broken
      requires !cut ==> registered == {}
      ensures Delivers(Summary(timedOut, clean), s, output[s], limits[s])
      ensures Trustworthy(Summary(timedOut, clean), s, output[s], limits[s], cut, broken)
    {
    }

    lemma Grades(timedOut: bool, clean: bool)
      requires Sound(Stdout) && Sound(Stderr) && (returncode.None? ==> !clean)
      requires !timedOut && !captureError ==> registered == {} && lost == {}
      ensures Graded(Summary(timedOut, clean), |output[Stdout]| <= limits[Stdout] && |output[Stderr]| <= limits[Stderr])
      ensures Errs(Summary(timedOut, clean), captureError)
    {
    }
  }

  lemma HonestReads(proposed: seq<Ready>, open: set<Stream>)
    ensures forall e :: e in Reported(proposed, open) ==> e in proposed
  {
  }

  /** No registered stream that is ready goes unreported. */
  lemma {:induction false} ReadyIsReported(proposed: seq<Ready>, open: set<Stream>, e: Ready)
    requires e in proposed && e.stream in open
    ensures exists f :: f in Reported(proposed, open) && f.stream == e.stream
  {
    var first := proposed[0];
    if first.stream in open {
      assert first in Reported(proposed, open);
      if first.stream != e.stream {
        ReadyIsReported(proposed[1..], open - {first.stream}, e);
      }
    } else {
      ReadyIsReported(proposed[1..], open, e);
    }
  }

  /** What a report says about one stream whose whole output is known. */
  ghost predicate Delivers(r: Report, s: Stream, total: seq<byte>, limit: nat) {
    && s in r.counts && s in r.truncated && s in r.retained
    && r.counts[s] <= |total|
    && r.retained[s] == total[..Min(r.counts[s], limit)]
    && (r.counts[s] > limit ==> r.truncated[s])
    && (r.available ==> r.counts[s] == |total| && (r.truncated[s] <==> |total| > limit))
  }

  /** What the verdict fields of a report say about one another and about the child's output. */
  ghost predicate Graded(r: Report, fits: bool) {
    && (r.complete <==> r.available && r.cleanupComplete && fits)
    && (r.error == None <==> r.available && r.cleanupComplete)
    && (r.available <==> r.error == None || r.error == Some(Cleanup))
    && (r.available ==> r.returncode == Some(0))
    && (r.error == Some(TimedOut) <==> r.timedOut)
  }

  /** The error a report names: the first that applies of timeout, capture, unreaped child, exit, cleanup. */
  ghost predicate Errs(r: Report, capture: bool) {
    && (r.error == Some(TimedOut) <==> r.timedOut)
    && (r.error == Some(Capture) <==> !r.timedOut && capture)
    && (r.error == Some(NotReaped) <==> !r.timedOut && !capture && r.returncode == None)
    && (forall code :: r.error == Some(Exit(code)) <==>
          !r.timedOut && !capture && r.returncode == Some(code) && code != 0)
    && (r.error == Some(Cleanup) <==> !r.timedOut && !capture && r.returncode == Some(0) && !r.cleanupComplete)
  }

  /**
   * What an untruncated stream is worth. If draining was cut short the flag only tells of bytes over
   * the limit and of failed reads, so the retained bytes are the whole output exactly when the count
   * happens to be complete, and the report is not available; otherwise they always are.
   */
  ghost predicate Trustworthy(r: Report, s: Stream, total: seq<byte>, limit: nat, cut: bool, broken: set<Stream>) {
    && s in r.counts && s in r.truncated && s in r.retained
    && (cut ==> !r.available && (r.truncated[s] <==> r.counts[s] > limit || s in broken))
    && (!r.truncated[s] ==> (r.retained[s] == total <==> !cut || r.counts[s] == |total|))
  }

  /** The call once its arguments have been checked and the child started. */
  method Collect(prepared: bool, stdoutLimit: nat, stderrLimit: nat,
                 out: seq<byte>, err: seq<byte>, turns: seq<Turn>, ending: Ending)
    returns (r: Report, ghost selected: seq<Turn>, ghost broken: set<Stream>)
    ensures Delivers(r, Stdout, out, stdoutLimit) && Delivers(r, Stderr, err, stderrLimit)
    ensures Graded(r, |out| <= stdoutLimit && |err| <= stderrLimit)
    ensures r.reaped <==> r.returncode.Some?
    ensures Errs(r, !prepared || FailsSomewhere(selected) || broken != {} || ending.closeFails)
    ensures prepared && Faultless(turns) && !r.timedOut && !ending.closeFails ==>
              r.cleanupComplete && (r.available <==> r.returncode == Some(0))
    ensures Trustworthy(r, Stdout, out, stdoutLimit, !prepared || FailsSomewhere(selected), broken)
    ensures Trustworthy(r, Stderr, err, stderrLimit, !prepared || FailsSomewhere(selected), broken)
    ensures !prepared ==> selected == [] && broken == {}
    ensures forall t :: t in selected ==> t in turns && !t.late
    ensures prepared && FailsAtOnce(turns) ==>
              FailsSomewhere(selected) && broken == {} && r.counts == map[Stdout := 0, Stderr := 0]
  {
    hide Faultless, FailsAtOnce, Harmless, Delivers, Graded, Errs, Trustworthy;
    var l := new Listing(stdoutLimit, stderrLimit, out, err, turns);
    var timedOut, failed := false, !prepared;
    if prepared {
      timedOut, failed := l.Watch();
    }
    var clean, cut := l.Settle(timedOut, failed, ending);
    selected, broken := l.selected, l.broken;
    assert l.Sound(Stdout) && l.Sound(Stderr);
    l.Reports(Stdout, timedOut, clean, cut);
    l.Reports(Stderr, timedOut, clean, cut);
    l.Grades(timedOut, clean);
    r := l.Summary(timedOut, clean);
  }

  /**
   * The whole listing call; None stands for the ValueError of a bad argument. selected holds the
   * turns in which select was called; draining was cut short exactly when one of them failed, or
   * before it began. broken says whose reads failed.
   */
  method Run(stdoutLimit: int, stderrLimit: int, timeout: real, cleanup: real, start: Start,
             out: seq<byte>, err: seq<byte>, turns: seq<Turn>, ending: Ending)
    returns (r: Option<Report>, ghost selected: seq<Turn>, ghost broken: set<Stream>)
    ensures r.None? <==> !(0 <= stdoutLimit <= 262144 && 0 <= stderrLimit <= 4096 &&
                           0.0 < timeout <= 30.0 && 0.0 <= cleanup <= 2.0)
    ensures r.Some? ==> Delivers(r.value, Stdout, out, stdoutLimit) && Delivers(r.value, Stderr, err, stderrLimit)
    ensures r.Some? ==> Graded(r.value, |out| <= stdoutLimit && |err| <= stderrLimit)
    ensures r.Some? ==>
              Errs(r.value, start != Started || FailsSomewhere(selected) || broken != {} || ending.closeFails)
    ensures r.Some? && start != NotStarted ==> (r.value.reaped <==> r.value.returncode.Some?)
    ensures r.Some? && r.value.complete ==> r.value.retained[Stdout] == out && r.value.retained[Stderr] == err
    ensures r.Some? && start == Started && Faultless(turns) && !r.value.timedOut && !ending.closeFails ==>
              r.value.cleanupComplete && (r.value.available <==> r.value.returncode == Some(0))
    ensures r.Some? ==>
              Trustworthy(r.value, Stdout, out, stdoutLimit, start != Started || FailsSomewhere(selected), broken)
    ensures r.Some? ==>
              Trustworthy(r.value, Stderr, err, stderrLimit, start != Started || FailsSomewhere(selected), broken)
    ensures start != Started ==> selected == [] && broken == {}
    ensures forall t :: t in selected ==> t in turns && !t.late
    ensures r.Some? && start == Started && FailsAtOnce(turns) ==> FailsSomewhere(selected) && broken == {}
  {
    selected, broken := [], {};
    if stdoutLimit < 0 || stdoutLimit > MAX_STDOUT || stderrLimit < 0 || stderrLimit > MAX_STDERR {
      return None, selected, broken;
    }
    if timeout <= 0.0 || timeout > MAX_TIMEOUT || cleanup < 0.0 || cleanup > MAX_CLEANUP {
      return None, selected, broken;
    }
    if start == NotStarted {
      var nothing := map[Stdout := [], Stderr := []];
      var zeros := map[Stdout := 0, Stderr := 0];
      var no := map[Stdout := false, Stderr := false];
      r := Some(Report(false, false, None, false, true, true, zeros, no, nothing, Some(Capture)));
      return;
    }
    var report;
    report, selected, broken := Collect(start == Started, stdoutLimit, stderrLimit, out, err, turns, ending);
    r := Some(report);
  }
}
