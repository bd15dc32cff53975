/** A whole run of the observer: sampling, the final checks, and the acceptance protocol. */
module StabilityRun {
  import opened Common
  import opened StabilityMarker
  import opened Stability

  /** Provisional is all an operation without a guard marker can report. */
  datatype Verdict = Accepted | Provisional

  /** Sampling and the final checks on the samples. */
  method Sampling(o: Observer) returns (r: Outcome<()>)
    requires o.Chained() && o.accepted == [] && o.reconnects == 0 && o.attempts == 0 && o.saved == 0
    modifies o
    ensures o.Chained() && o.started == old(o.started)
    ensures o.pos > old(o.pos) && o.now >= old(o.now) && o.Lag() >= old(o.Lag()) && o.Lost() >= old(o.Lost())
    ensures o.attempts <= 22
    ensures r.Ok? ==> o.attempts >= 7 && o.saved >= 4
    ensures o.Own() <= old(o.Own()) + 515.0
    ensures r.Ok? ==> Stable(o.boot, o.accepted) && o.now - o.started < 600.0
    ensures r.Raised? && r.fault == Timeout ==> o.now - o.started >= TOTAL_DEADLINE
    ensures r.Raised? && BlamesClock(r.fault) ==> !o.AllTruthful()
    ensures r.Raised? && r.fault != Timeout && o.Healthy() ==> old(o.now) + o.offset < 0.0
    ensures r.Ok? && old(o.AllSound()) ==> o.AllSound()
  {
    hide Delays, Gaps, Heard, Truthful, Ready, Follows, Sourced, Sound;
    var probed, _, _ := o.Probes();
    if probed.Raised? {
      return Raised(probed.fault);
    }
    r := SampleThrice(o);
  }

  /** The three samples after the uptime gate, and the final checks. */
  method SampleThrice(o: Observer) returns (r: Outcome<()>)
    requires o.Chained() && o.accepted == []
    modifies o
    ensures o.Chained() && o.started == old(o.started) && old(o.reconnects) <= o.reconnects
    ensures old(o.judged) <= o.judged
    ensures o.pos > old(o.pos) && o.now >= old(o.now) && o.Lag() >= old(o.Lag()) && o.Lost() >= old(o.Lost())
    ensures o.attempts <= old(o.attempts) + 8 + (o.reconnects - old(o.reconnects))
    ensures r.Ok? ==> o.attempts >= old(o.attempts) + 6 && o.saved >= old(o.saved) + 3
    ensures old(o.Own()) <= o.Own() <= old(o.Own()) + 300.0 + (o.reconnects - old(o.reconnects)) as real * 32.0
    ensures r.Ok? ==> Stable(o.boot, o.accepted) && o.now - o.started < 600.0
    ensures r.Raised? && r.fault == Timeout ==> o.now - o.started >= TOTAL_DEADLINE
    ensures r.Raised? && BlamesClock(r.fault) ==> !o.AllTruthful()
    ensures r.Raised? && r.fault != Timeout && o.Healthy() ==> old(o.now) + o.offset < UPTIME_GATE
    ensures o.reconnects == old(o.reconnects) ==> o.disturbed == old(o.disturbed)
    ensures r.Ok? && old(o.AllSound()) ==> o.AllSound()
  {
    hide Delays, Gaps, Heard, Truthful, Ready, Follows, Sourced, Sound;
    var first, mark, uses := o.FirstSample();
    if first.Raised? {
      return Raised(first.fault);
    }
    var later := o.LaterSamples(mark, uses);
    if later.Raised? {
      return Raised(later.fault);
    }
    r := FinalChecks(o);
  }

  /** The deadline, the host span and the phone's span; the last never fails a truthful clock. */
  method FinalChecks(o: Observer) returns (r: Outcome<()>)
    requires o.Chained() && |o.accepted| == 3 && Spaced(o.accepted)
    modifies o`pos, o`now
    ensures o.Chained() && o.pos > old(o.pos) && o.now >= old(o.now)
    ensures o.Own() == old(o.Own()) && o.Lag() >= old(o.Lag()) && o.Lost() >= old(o.Lost())
    ensures r.Ok? ==> Stable(o.boot, o.accepted) && o.now - o.started < 600.0
    ensures r.Raised? && r.fault == Timeout ==> o.now - o.started >= TOTAL_DEADLINE
    ensures r.Raised? && r.fault != Timeout ==> r.fault == ShortInterval && !o.AllTruthful()
  {
    hide Delays, Gaps, Heard, Sourced;
    var _ :- o.Remaining();
    var samples := o.accepted;
    if samples[2].start - samples[0].start < MIN_SECONDS {
      return Raised(Other);
    }
    assert samples[0] in samples && samples[1] in samples && samples[2] in samples;
    if o.AllTruthful() {
      TruthfulSamplesPass(o.offset, samples[0], samples[2]);
    }
    if Uptime(samples[2]) - Uptime(samples[0]) < MIN_SECONDS {
      return Raised(ShortInterval);
    }
    return Ok(());
  }

  /** The result receipt: persisted, digested, and still within the deadline after each. */
  method PersistResult(o: Observer) returns (r: Outcome<()>)
    modifies o`pos, o`now, o`saved
    ensures o.pos > old(o.pos) && o.now >= old(o.now) && o.Own() == old(o.Own())
    ensures o.Lag() >= old(o.Lag()) && o.Lost() >= old(o.Lost())
    ensures o.saved >= old(o.saved)
    ensures r.Ok? ==> o.saved == old(o.saved) + 2 && o.now - o.started < TOTAL_DEADLINE
    ensures r.Raised? ==> r.fault == Timeout || (r.fault == Other && !o.Healthy())
    ensures r.Raised? && r.fault == Timeout ==> o.now - o.started >= TOTAL_DEADLINE
  {
    hide Delays, Gaps;
    var _ :- o.Persist();
    var _ :- o.Remaining();
    var _ :- o.Persist();
    var _ :- o.Remaining();
    return Ok(());
  }

  /** Nothing but pending markers was overwritten since. */
  ghost predicate PendingOnly(before: seq<Marker>, after: seq<Marker>) {
    before <= after && forall i :: |before| <= i < |after| ==> after[i].Marker? && after[i].body.Pending?
  }

  /** Checks the pending marker and the deadline, then completes the marker. */
  method CompleteMarker(o: Observer, op: Operation, path: string, digest: string, stamp: int)
      returns (r: Outcome<()>)
    requires op.started && !op.finished
    modifies o`pos, o`now, op
    ensures op.started && op.faults >= old(op.faults)
    ensures o.pos >= old(o.pos) && o.now >= old(o.now) && o.Own() == old(o.Own())
    ensures o.Lag() >= old(o.Lag()) && o.Lost() >= old(o.Lost())
    ensures r.Ok? ==> op.finished && o.now - o.started < TOTAL_DEADLINE
    ensures PendingOnly(old(op.overwritten), op.overwritten)
    ensures r.Ok? && op.faults == old(op.faults) ==>
              op.marker == Some(Completed(op.id, op.kind, path, digest, stamp))
    ensures r.Raised? ==> !BlamesClock(r.fault)
    ensures r.Raised? && r.fault == Timeout ==> o.now - o.started >= TOTAL_DEADLINE
    ensures r.Raised? && op.faults == old(op.faults) ==> op.marker == old(op.marker)
    ensures op.faults == old(op.faults)
            && old(op.marker) == Some(Marker(op.id, op.kind, Pending(op.project, op.pid))) ==>
              r.Ok? || (r.fault == Timeout && !op.finished)
    ensures Honest(old(op.store)) && old(op.marker) == Some(Marker(op.id, op.kind, Pending(op.project, op.pid))) ==>
              (op.marker == old(op.marker)
               || op.marker == Some(Completed(op.id, op.kind, path, digest, stamp)))
              && (r.Ok? ==>
                    Reaches(old(op.store), 6) && op.store == Skip(old(op.store), 6) && op.marker != old(op.marker))
              && (r.Raised? && op.marker != old(op.marker) ==>
                    !op.finished && op.store == Skip(old(op.store), 6) && Open(old(op.store), op.store, false))
              && (!(r.Raised? && r.fault == Timeout) && Changes(old(op.store), 5) ==> op.marker != old(op.marker))
    ensures FromOld(old(op.store), op.store)
  {
    var pending :- op.ReadOwn();
    var _ :- op.RequirePending(pending);
    var _ :- o.Remaining();
    r := op.CompleteWith(path, digest, stamp);
  }

  /** Reads the completed marker back; a mismatch is terminal. */
  method ReadCompleted(op: Operation, path: string, sha: string) returns (r: Outcome<Marker>)
    requires op.started && op.finished
    modifies op
    ensures op.started && op.finished && op.faults >= old(op.faults)
    ensures r.Ok? ==> op.marker == Some(r.value) && Binds(r.value, path, sha) && op.Ours(r.value)
    ensures r.Raised? ==> r.fault == Terminal(AmbiguousMarker)
    ensures op.faults == old(op.faults) ==> op.marker == old(op.marker)
    ensures op.faults == old(op.faults) && old(op.marker).Some? && op.Ours(old(op.marker).value) ==>
              (r.Ok? <==> Binds(old(op.marker).value, path, sha))
    ensures r.Ok? ==> op.store == Skip(old(op.store), 3)
    ensures Honest(old(op.store)) && old(op.marker).Some? && op.Ours(old(op.marker).value) ==>
              op.marker == old(op.marker)
              && (r.Ok? <==> Reaches(old(op.store), 3) && Binds(old(op.marker).value, path, sha))
    ensures FromOld(old(op.store), op.store)
    ensures r.Ok? ==> exists stamp :: r.value == Marker(op.id, op.kind, Complete("success", path, sha, stamp))
  {
    var m :- op.ReadOwn();
    var _ :- op.RequireComplete(m, path, sha);
    assert m == Marker(op.id, op.kind, Complete("success", path, sha, m.body.stamp));
    return Ok(m);
  }

  /** The stored marker is this operation's, and says that the receipt with this digest succeeded. */
  ghost predicate Accepts(op: Operation, path: string, sha: string)
    reads op
  {
    exists stamp :: op.marker == Some(Marker(op.id, op.kind, Complete("success", path, sha, stamp)))
  }

  /** What can be left of a completed marker, from the store's answers after the completion. */
  ghost predicate Lingers(op: Operation, r: Outcome<()>, path: string, sha: string, store: seq<Store>, late: bool)
    reads op
  {
    && (!Reaches(store, 3) ==> r.Raised? && op.finished && op.marker.Some? && Binds(op.marker.value, path, sha))
    && (r.Raised? && op.marker.Some? && Binds(op.marker.value, path, sha) ==>
          if op.finished then !Reaches(store, 3) || (late && !Reaches(Skip(store, 3), 3))
          else
            late && Reaches(store, 6)
            && !Changes(Skip(store, 6), 3) && !Changes(AfterFailure(Skip(store, 6)), 3)
            && op.store == AfterFailure(AfterFailure(Skip(store, 6))))
  }

  /**
   * Everything after operation.complete: a success that landed before the deadline is accepted
   * after it has been read back; one that landed late is taken back, and the timeout raised.
   */
  method Confirm(o: Observer, op: Operation, path: string, sha: string) returns (r: Outcome<()>)
    requires op.started && op.finished
    modifies o`pos, o`now, op
    ensures op.started && op.faults >= old(op.faults)
    ensures o.pos >= old(o.pos) && o.now >= old(o.now) && o.Own() == old(o.Own())
    ensures o.Lag() >= old(o.Lag()) && o.Lost() >= old(o.Lost())
    ensures r.Ok? ==> o.now - o.started < TOTAL_DEADLINE && op.finished
    ensures r.Ok? ==> op.marker.Some? && Binds(op.marker.value, path, sha)
    ensures r.Ok? ==> Accepts(op, path, sha)
    ensures r.Raised? && r.fault == Timeout ==> o.now - o.started >= TOTAL_DEADLINE
    ensures r.Raised? && r.fault == Timeout ==>
              op.finished && exists m :: Binds(m, path, sha) && op.marker == Some(op.LateMarker(m, path, sha))
    ensures r.Raised? ==> !BlamesClock(r.fault)
    ensures r.Raised? && op.faults == old(op.faults) && old(op.marker).Some? && op.Ours(old(op.marker).value) ==>
              op.finished && op.marker.Some? && !Binds(op.marker.value, path, sha)
              && (Binds(old(op.marker).value, path, sha) ==> r.fault == Timeout)
    ensures Honest(old(op.store)) && old(op.marker).Some? && op.Ours(old(op.marker).value)
            && Binds(old(op.marker).value, path, sha) ==>
              Lingers(op, r, path, sha, old(op.store), o.now - o.started >= TOTAL_DEADLINE)
    ensures FromOld(old(op.store), op.store)
  {
    hide Changes, AfterFailure, Delays, Gaps;
    var first := o.Remaining();
    if first.Raised? {
      var completed :- ReadCompleted(op, path, sha);
      var _ :- op.Demote(completed, path, sha);
      return Raised(first.fault);
    }
    var completed :- ReadCompleted(op, path, sha);
    var second := o.Remaining();
    if second.Raised? {
      var _ :- op.Demote(completed, path, sha);
      return Raised(second.fault);
    }
    return Ok(());
  }

  /** A binding marker is there after a refusal, from the store's answers since the pending marker was checked. */
  ghost predicate Ends(op: Operation, r: Outcome<Verdict>, path: string, sha: string, store: seq<Store>,
                       late: bool, healthy: bool)
    reads op
  {
    var left := Refused(op, r, path, sha);
    && (left ==> if op.finished then Closed(store, late) else Open(store, op.store, late))
    && (!late && healthy && Closed(store, false) ==> left && op.finished)
    && (!late && healthy && Open(store, Skip(store, 6), false) ==>
          left && !op.finished && op.store == Skip(store, 6))
  }

  /** From the answers after the completion to those since the pending marker was checked. */
  lemma LingersEnds(store: seq<Store>, late: bool)
    ensures Reaches(store, 6) && (!Reaches(Skip(store, 6), 3) || (late && !Reaches(Skip(Skip(store, 6), 3), 3))) <==>
            Closed(store, late)
    ensures late && Reaches(store, 6) && Reaches(Skip(store, 6), 6)
            && !Changes(Skip(Skip(store, 6), 6), 3) && !Changes(AfterFailure(Skip(Skip(store, 6), 6)), 3) ==>
              Open(store, AfterFailure(AfterFailure(Skip(Skip(store, 6), 6))), late)
    ensures Reaches(store, 6) ==> Changes(store, 5) && !Open(store, Skip(store, 6), false)
    ensures Closed(store, late) ==> Reaches(store, 6)
    ensures Open(store, Skip(store, 6), false) ==> Changes(store, 5) && Open(store, Skip(store, 6), late)
  {
    SkipMore(store, 6, 3);
    SkipMore(store, 6, 6);
    ReachesMore(store, 6, 6);
    ReachesMore(store, 5, 1);
  }

  /** The end of the run, with or without a guard operation. */
  method Finish(o: Observer, op: Operation?, path: string, sha: string, digest: string, stamp: int)
      returns (r: Outcome<Verdict>)
    requires op != null ==> op.started && !op.finished
    requires op != null && op.faults == 0 ==>
               op.marker == Some(Marker(op.id, op.kind, Pending(op.project, op.pid)))
    modifies o`pos, o`now, o`saved, op
    ensures op != null ==> op.started && op.faults >= old(op.faults)
    ensures o.pos >= old(o.pos) && o.now >= old(o.now) && o.Own() == old(o.Own())
    ensures o.Lag() >= old(o.Lag()) && o.Lost() >= old(o.Lost())
    ensures r.Ok? && r.value.Accepted? ==>
              op != null && op.finished && o.now - o.started < TOTAL_DEADLINE
              && op.marker.Some? && Binds(op.marker.value, path, sha) && Accepts(op, path, sha)
    ensures r.Ok? && r.value.Provisional? ==> op == null
    ensures o.saved >= old(o.saved) && (r.Ok? ==> o.saved >= old(o.saved) + 2)
    ensures r.Raised? && r.fault == Timeout ==> o.now - o.started >= TOTAL_DEADLINE
    ensures r.Raised? ==> !BlamesClock(r.fault)
    ensures op != null && r.Raised? && op.faults == 0 ==>
              !op.finished || (op.marker.Some? && !Binds(op.marker.value, path, sha))
    ensures op != null && r.Raised? && op.faults == 0 && digest == sha ==>
              r.fault == Timeout || !o.Healthy()
    ensures op != null && Honest(old(op.store)) && digest == sha
            && old(op.marker) == Some(Marker(op.id, op.kind, Pending(op.project, op.pid))) ==>
              Ends(op, r, path, sha, old(op.store), o.now - o.started >= TOTAL_DEADLINE, o.Healthy())
    ensures op != null ==> FromOld(old(op.store), op.store)
  {
    hide Reaches, Skip, Changes, AfterFailure, Open, Closed, Delays, Gaps;
    if op != null {
      LingersEnds(op.store, false);
      LingersEnds(op.store, true);
      if Honest(op.store) {
        SkipIsHonest(op.store, 6);
      }
    }
    var _ :- PersistResult(o);
    if op == null {
      return Ok(Provisional);
    }
    var _ :- CompleteMarker(o, op, path, digest, stamp);
    var _ :- Confirm(o, op, path, sha);
    return Ok(Accepted);
  }

  /** The run was refused, and yet the durable marker says that it succeeded. */
  ghost predicate Refused(op: Operation, r: Outcome<Verdict>, path: string, sha: string)
    reads op
  {
    r.Raised? && op.marker.Some? && Binds(op.marker.value, path, sha)
  }

  /** A run that has not begun. */
  ghost predicate Fresh(o: Observer, op: Operation?)
    reads o, op
  {
    && o.pos == 0 && o.started == o.now && o.accepted == [] && o.judged == [] && !o.disturbed
    && o.reconnects == 0 && o.attempts == 0 && o.saved == 0
    && (op != null ==> !op.started && !op.finished && op.marker.None? && op.faults == 0)
  }

  /**
   * observe_stability. Whatever the phone, the clock, the receipts and the marker store do:
   * acceptance certifies a stable boot, samples made of heard answers, a timely run and a marker
   * bound to this receipt; the run takes at most 515 s besides the delays, one reconnect and 22
   * queries, so on a punctual outside the deadline never fires; the phone's clock is blamed only if
   * some judged sample was not truthful, and never on a steady outside; if the marker store is sound,
   * the durable marker binds the receipt exactly when the run was accepted; a healthy run on a phone
   * that had booted when it began is accepted unless it times out; and a favourable outside, even
   * with one transport gap outside a reading, and a sound store always lead to acceptance. Left says
   * when an honest store keeps a binding marker although the run was refused.
   */
  method ObserveStability(o: Observer, op: Operation?, path: string, sha: string, digest: string, stamp: int)
      returns (r: Outcome<Verdict>)
    requires Fresh(o, op)
    modifies o, op
    ensures o.started == old(o.started) && o.Chained()
    ensures o.reconnects <= MAX_RECONNECTS && o.attempts <= 22
    ensures o.now - o.started <= 515.0 + o.Lag()
    ensures r.Ok? && r.value.Accepted? ==> Stable(o.boot, o.accepted) && o.now - o.started < 600.0
    ensures r.Ok? ==> o.attempts >= 7 && o.saved >= 6
    ensures r.Ok? ==> forall s :: s in o.judged ==> Sound(o.boot, s.state, s.identity)
    ensures r.Ok? && r.value.Accepted? ==>
              op != null && op.marker.Some? && Binds(op.marker.value, path, sha) && Accepts(op, path, sha)
    ensures r.Raised? && r.fault == Timeout ==> o.now - o.started >= TOTAL_DEADLINE
    ensures Punctual(o.outside) ==> o.now - o.started <= 515.0 && !(r.Raised? && r.fault == Timeout)
    ensures r.Raised? && BlamesClock(r.fault) ==> !o.AllTruthful() && !o.Steady()
    ensures op != null && op.faults == 0 ==>
              (r == Ok(Accepted) <==> op.marker.Some? && Binds(op.marker.value, path, sha))
    ensures o.Healthy() && o.started + o.offset >= 0.0 && op != null && op.faults == 0 && digest == sha ==>
              r == Ok(Accepted) || (r.Raised? && r.fault == Timeout)
    ensures (Favourable(o) || Tolerable(o)) && op != null && op.faults == 0 && digest == sha ==> r == Ok(Accepted)
    ensures op != null && Honest(old(op.store)) && digest == sha && Refused(op, r, path, sha) ==>
              Left(old(op.store), o.now - o.started >= TOTAL_DEADLINE)
    ensures op != null && Honest(old(op.store)) && digest == sha
            && o.Healthy() && o.started + o.offset >= 0.0 && o.now - o.started < TOTAL_DEADLINE ==>
              (Refused(op, r, path, sha) <==> Left(old(op.store), false))
  {
    hide Delays, Gaps, Heard, Truthful, Ready, Follows, Sourced, Sound, Stable, Skip, Reaches, Changes, Open,
      Closed, Kept;
    if op != null {
      var begun := op.Begin();
      if begun.Raised? {
        op.Exit();
        return Raised(begun.fault);
      }
    }
    var sampled := Sampling(o);
    if sampled.Raised? {
      r := Raised(sampled.fault);
    } else {
      r := Finish(o, op, path, sha, digest, stamp);
    }
    if op != null {
      LeftIs(op, old(op.store), o.now - o.started >= TOTAL_DEADLINE);
      op.Exit();
    }
    NoDelays(o);
    StaysHealthy(o);
  }

  lemma LeftIs(op: Operation, store: seq<Store>, late: bool)
    ensures var begun := Skip(store, 3);
      && (Closed(begun, late) ==> Kept(begun, late))
      && (Open(begun, op.store, late) && !Changes(op.store, 1) ==> Kept(begun, late))
      && (Kept(begun, false) ==>
            Closed(begun, false) || (Open(begun, Skip(begun, 6), false) && !Changes(Skip(begun, 6), 1)))
  {
    KeptIs(Skip(store, 3), op.store, late);
    KeptIs(Skip(store, 3), op.store, false);
  }

  /** On a punctual outside nothing but sleeps and queries takes time. */
  lemma NoDelays(o: Observer)
    ensures Punctual(o.outside) ==> o.Lag() == 0.0
  {
    if Punctual(o.outside) {
      PunctualMeans(o.outside, o.pos);
    }
  }

  /** Such a run is healthy to its end. */
  lemma StaysHealthy(o: Observer)
    requires o.Chained() && o.now - o.started <= 515.0 + o.Lag()
    ensures Tolerable(o) ==> o.Healthy()
    ensures Favourable(o) ==> Tolerable(o)
  {
    hide Sourced, Heard, Truthful, Ready, Follows, GoodState, GoodIdentity;
    NoDelays(o);
    if NoGaps(o.outside) {
      NoGapsMeans(o.outside, o.pos);
    }
  }

  /** Every moment is healthy, the clock is read promptly, and the phone's uptime is in range. */
  ghost predicate Favourable(o: Observer)
    reads o`started
  {
    && Punctual(o.outside) && TrueClock(o.outside) && NoGaps(o.outside)
    && (forall i: nat :: Good(o.outside(i), o.boot, o.build))
    && 0.0 <= o.started + o.offset <= 9_000_000.0
  }

  /** The same, but for at most one transport gap, which did not come in the middle of a reading. */
  ghost predicate Tolerable(o: Observer)
    reads o`started, o`pos, o`disturbed
  {
    && Punctual(o.outside) && TrueClock(o.outside) && o.Lost() <= MAX_RECONNECTS && !o.disturbed
    && (forall i: nat :: Fine(o.outside(i), o.boot, o.build))
    && 0.0 <= o.started + o.offset <= 9_000_000.0
  }
}
