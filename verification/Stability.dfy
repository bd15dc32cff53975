/**
 * The bounded stability observer. Time is real-valued seconds on the host clock. Everything the
 * outside decides comes from an endless script of moments, taken one by one: a delay before each
 * step, how long a query takes, what it answers, and whether a receipt is saved. Lag is what the
 * delays taken so far add up to, and a query's time beyond its own timeout is part of the next delay.
 */
module Stability {
  import opened Common
  import opened StabilityMarker

  const MIN_SECONDS := 180.0
  const MIN_GAP := 60.0
  const TOTAL_DEADLINE := 600.0
  const UPTIME_GATE := 180.0
  const POLL_GAP := 15.0
  const POLLS := 13
  const READINESS_GAP := 15.0
  const SKEW := 15.0
  const FINAL_OFFSET := 195.0
  const UPTIME_MAX := 10_000_000.0
  const MAX_RECONNECTS := 1
  const BACKOFF := 2.0

  type Span = r: real | r >= 0.0

  // ----- what the phone answers -----

  /** uptime is None unless the response carries an exact finite number. */
  datatype State = State(bootId: string, uptime: Option<real>, seriousFault: bool, fatalLog: bool,
                         buildId: string, targetPinned: bool, gateSatisfied: bool)

  /** accepted: the image and module identity matches the profile. */
  datatype Identity = Identity(bootId: string, buildId: string, accepted: bool)

  datatype Query = Startup | Readiness | FullIdentity

  function Cap(q: Query): real {
    match q
    case Startup => 3.0
    case Readiness => 15.0
    case FullIdentity => 30.0
  }

  /** The uptime in a response: as told by the phone, or its clock read that long after the query began. */
  datatype Clock = Told | Read(after: Span)

  datatype Answer = Answered(state: State, identity: Identity, clock: Clock) | Gap | Broken

  /** One thing the outside decides: a delay before a step, a query's duration and answer, a receipt. */
  datatype Moment = Moment(delay: Span, took: Span, answer: Answer, persists: bool)

  /** The delays before the first n steps. */
  function Delays(outside: nat -> Moment, n: nat): (d: real)
    ensures d >= 0.0
  {
    if n == 0 then 0.0 else Delays(outside, n - 1) + outside(n - 1).delay
  }

  /** Nothing takes time but the sleeps, and the queries within their timeouts. */
  ghost predicate Punctual(outside: nat -> Moment) {
    forall i :: outside(i).delay == 0.0
  }

  /** Every uptime in a response is a reading of the phone's clock, which runs at the host's rate. */
  ghost predicate TrueClock(outside: nat -> Moment) {
    forall i :: outside(i).answer.Answered? ==> outside(i).answer.clock.Read?
  }

  ghost predicate NoGaps(outside: nat -> Moment) {
    forall i :: !outside(i).answer.Gap?
  }

  /** How many of the first n answers are transport gaps. */
  function Gaps(outside: nat -> Moment, n: nat): nat {
    if n == 0 then 0 else Gaps(outside, n - 1) + (if outside(n - 1).answer.Gap? then 1 else 0)
  }

  lemma {:induction false} NoGapsMeans(outside: nat -> Moment, n: nat)
    requires NoGaps(outside)
    ensures Gaps(outside, n) == 0
  {
    if n > 0 {
      NoGapsMeans(outside, n - 1);
    }
  }

  lemma {:induction false} PunctualMeans(outside: nat -> Moment, n: nat)
    requires Punctual(outside)
    ensures Delays(outside, n) == 0.0
  {
    if n > 0 {
      PunctualMeans(outside, n - 1);
    }
  }

  /** Where a response came from: the moment it is, and when its query began and ended. */
  datatype Source = Source(at: nat, asked: real, answered: real)

  /** The state in a response; offset is the phone's uptime when the host clock read zero. */
  function Heard(m: Moment, offset: real, source: Source): State
    requires m.answer.Answered?
  {
    match m.answer.clock
    case Told => m.answer.state
    case Read(after) =>
      m.answer.state.(uptime := Some(offset + RealMin(source.asked + after, source.answered)))
  }

  function RealMin(a: real, b: real): (r: real)
    ensures r <= a && r <= b && (r == a || r == b)
  {
    if a < b then a else b
  }

  function RealMax(a: real, b: real): (r: real)
    ensures r >= a && r >= b && (r == a || r == b)
  {
    if a < b then b else a
  }

  // ----- judging one sample -----

  /** _validated_remote_uptime. */
  function ValidUptime(s: State): Outcome<real> {
    if s.uptime.Some? && 0.0 <= s.uptime.value < UPTIME_MAX then Ok(s.uptime.value)
    else Raised(Terminal(AmbiguousResponse))
  }

  /** _assess_stability_sample: ready, not yet ready, or a terminal observation. */
  function Assess(expectedBoot: string, s: State, i: Identity): Outcome<bool> {
    if s.bootId == "" then Raised(Terminal(WrongIdentity))
    else if s.bootId != expectedBoot then Raised(Terminal(ChangedBoot))
    else if i.bootId != expectedBoot then Raised(Terminal(ChangedBoot))
    else if s.seriousFault || s.fatalLog then Raised(Terminal(SeriousFault))
    else if !i.accepted then Raised(Terminal(WrongIdentity))
    else if s.buildId != i.buildId then Raised(Terminal(ChangedBoot))
    else if !s.targetPinned then Raised(Terminal(WrongIdentity))
    else Ok(s.gateSatisfied)
  }

  /** Both responses come from the expected boot. */
  ghost predicate SameBoot(boot: string, s: State, i: Identity) {
    s.bootId == boot && i.bootId == boot && boot != ""
  }

  ghost predicate Faulty(s: State) {
    s.seriousFault || s.fatalLog
  }

  /** Nothing in the two responses ends the observation: one boot, no fault, the right image on the right target. */
  ghost predicate Sound(boot: string, s: State, i: Identity) {
    SameBoot(boot, s, i) && !Faulty(s) && i.accepted && s.buildId == i.buildId && s.targetPinned
  }

  /** What the assessment says of two responses, by their fields. */
  lemma AssessExactly(boot: string, s: State, i: Identity)
    requires boot != ""
    ensures var r := Assess(boot, s, i);
      && (r.Ok? <==> Sound(boot, s, i))
      && (r.Ok? ==> (r.value <==> s.gateSatisfied))
      && (r == Raised(Terminal(ChangedBoot)) <==>
            s.bootId != "" && (!SameBoot(boot, s, i) || (!Faulty(s) && i.accepted && s.buildId != i.buildId)))
      && (r == Raised(Terminal(SeriousFault)) <==> SameBoot(boot, s, i) && Faulty(s))
      && (r == Raised(Terminal(WrongIdentity)) <==>
            s.bootId == "" || (SameBoot(boot, s, i) && !Faulty(s)
                               && (!i.accepted || (s.buildId == i.buildId && !s.targetPinned))))
  {
  }

  /** An uptime is valid if it is an exact number from 0 to ten million. */
  lemma ValidUptimeExactly(s: State)
    ensures ValidUptime(s).Ok? <==> s.uptime.Some? && 0.0 <= s.uptime.value < 10_000_000.0
    ensures ValidUptime(s).Ok? ==> ValidUptime(s).value == s.uptime.value
    ensures ValidUptime(s).Raised? ==> ValidUptime(s).fault == Terminal(AmbiguousResponse)
  {
  }

  /** A sample: when it started on the host, the two responses it consists of, and their sources. */
  datatype Sample = Sample(start: real, state: State, identity: Identity, heard: Source, checked: Source)

  function Uptime(s: Sample): real {
    if s.state.uptime.Some? then s.state.uptime.value else 0.0
  }

  /** collect_pair's verdict: the assessment, then the uptime gate, then the check against the host clock. */
  function Judge(boot: string, accepted: seq<Sample>, start: real, s: State, i: Identity): Outcome<bool> {
    var assessed :- Assess(boot, s, i);
    var uptime :- ValidUptime(s);
    if assessed && uptime < UPTIME_GATE then Ok(false)
    else if assessed && accepted != [] then
      var previous := accepted[|accepted| - 1];
      var remote, host := uptime - Uptime(previous), start - previous.start;
      if remote <= 0.0 then Raised(Terminal(UptimeNotAdvancing))
      else if (if host - SKEW > 0.0 then host - SKEW else 0.0) <= remote <= host + SKEW then Ok(true)
      else Raised(Terminal(UptimeMismatch))
    else Ok(assessed)
  }

  /** Faults that blame the phone's clock. */
  predicate BlamesClock(f: Fault) {
    f == Terminal(UptimeNotAdvancing) || f == Terminal(UptimeMismatch) || f == ShortInterval
  }

  /** The sample's two responses show a sound, ready phone on the expected boot, up long enough. */
  ghost predicate Ready(boot: string, s: Sample) {
    && s.state.bootId == s.identity.bootId == boot != ""
    && !s.state.seriousFault && !s.state.fatalLog
    && s.identity.accepted && s.state.buildId == s.identity.buildId
    && s.state.targetPinned && s.state.gateSatisfied
    && s.state.uptime.Some? && 180.0 <= s.state.uptime.value < 10_000_000.0
  }

  /** Two consecutive samples: the phone's clock advanced, and by the host's gap give or take 15 s. */
  ghost predicate Consistent(a: Sample, b: Sample) {
    && Uptime(a) < Uptime(b)
    && -15.0 <= (Uptime(b) - Uptime(a)) - (b.start - a.start) <= 15.0
  }

  /** The same, and made of later responses. */
  ghost predicate Follows(a: Sample, b: Sample) {
    Consistent(a, b) && a.checked.at < b.heard.at
  }

  /** What an acceptance certifies. */
  ghost predicate Stable(boot: string, samples: seq<Sample>) {
    && |samples| == 3
    && (forall k :: 0 <= k < 3 ==> Ready(boot, samples[k]))
    && Follows(samples[0], samples[1]) && Follows(samples[1], samples[2])
    && samples[1].start - samples[0].start >= 60.0
    && samples[2].start - samples[1].start >= 60.0
    && samples[2].start - samples[0].start >= 180.0
    && Uptime(samples[2]) - Uptime(samples[0]) >= 180.0
  }

  /** The phone's clock runs at the host's rate and was read within 15 s of the sample's start. */
  ghost predicate Truthful(offset: real, s: Sample) {
    0.0 <= Uptime(s) - offset - s.start <= 15.0
  }

  /** Both responses of the sample were heard, one after the other, after the sample began. */
  ghost predicate Sourced(outside: nat -> Moment, offset: real, s: Sample) {
    var first, second := outside(s.heard.at).answer, outside(s.checked.at).answer;
    && s.heard.at < s.checked.at && first.Answered? && second.Answered?
    && s.start <= s.heard.asked <= s.heard.answered <= s.checked.asked <= s.checked.answered
    && s.state == Heard(outside(s.heard.at), offset, s.heard)
    && s.identity == second.identity
  }

  /** A sample whose clock was really read, and in time, is truthful. */
  lemma ReadInTime(outside: nat -> Moment, offset: real, s: Sample)
    requires Sourced(outside, offset, s) && outside(s.heard.at).answer.clock.Read?
    requires s.heard.answered - s.start <= SKEW
    ensures Truthful(offset, s)
  {
  }

  /** The window and the span rest on this: truthful samples far enough apart always satisfy them. */
  lemma TruthfulSamplesPass(offset: real, a: Sample, b: Sample)
    requires Truthful(offset, a) && Truthful(offset, b) && b.start - a.start >= MIN_GAP
    ensures Consistent(a, b)
    ensures b.start - a.start >= FINAL_OFFSET ==> Uptime(b) - Uptime(a) >= MIN_SECONDS
  {
  }

  /** What collect_pair's verdict means for a sample and the one accepted before it. */
  lemma JudgeMeans(boot: string, offset: real, accepted: seq<Sample>, s: Sample)
    ensures var verdict := Judge(boot, accepted, s.start, s.state, s.identity);
            && (verdict == Ok(true) ==> Ready(boot, s))
            && (verdict == Ok(true) && accepted != [] ==> Consistent(accepted[|accepted| - 1], s))
            && (verdict == Ok(true) <== Ready(boot, s) && (accepted == [] || Consistent(accepted[|accepted| - 1], s)))
            && (verdict == Raised(Terminal(UptimeMismatch)) || verdict == Raised(Terminal(UptimeNotAdvancing)) ==>
                  Ready(boot, s) && accepted != [] && !Consistent(accepted[|accepted| - 1], s))
            && (verdict.Ok? ==> Sound(boot, s.state, s.identity))
            && (verdict.Raised? ==> verdict.fault.Terminal?)
            && (verdict.Raised? && BlamesClock(verdict.fault) ==> accepted != [] && ValidUptime(s.state).Ok?)
  {
  }

  /** A truthful clock is blamed, and a ready sample turned away, only for coming too early. */
  lemma TruthfulIsAccepted(boot: string, offset: real, accepted: seq<Sample>, s: Sample)
    requires accepted != [] ==> Truthful(offset, accepted[|accepted| - 1])
    requires accepted != [] ==> s.start - accepted[|accepted| - 1].start >= MIN_GAP
    requires ValidUptime(s.state).Ok? && Truthful(offset, s)
    ensures var verdict := Judge(boot, accepted, s.start, s.state, s.identity);
            && (verdict.Raised? ==> !BlamesClock(verdict.fault))
            && (Assess(boot, s.state, s.identity) == Ok(true) && s.start + offset >= UPTIME_GATE ==>
                  verdict == Ok(true))
  {
    if accepted != [] {
      TruthfulSamplesPass(offset, accepted[|accepted| - 1], s);
    }
  }

  /** A healthy moment: an answer that passes every check but the clock's, and a receipt that is saved. */
  ghost predicate Good(m: Moment, boot: string, build: string) {
    && m.persists && m.answer.Answered? && m.answer.clock.Read?
    && GoodState(m.answer.state, boot, build) && GoodIdentity(m.answer.identity, boot, build)
  }

  /** The same, or a transport gap. */
  ghost predicate Fine(m: Moment, boot: string, build: string) {
    Good(m, boot, build) || (m.persists && m.answer.Gap?)
  }

  ghost predicate GoodState(s: State, boot: string, build: string) {
    && s.bootId == boot != "" && !s.seriousFault && !s.fatalLog && s.buildId == build
    && s.targetPinned && s.gateSatisfied
  }

  ghost predicate GoodIdentity(i: Identity, boot: string, build: string) {
    i.bootId == boot && i.accepted && i.buildId == build
  }

  /** A sample of healthy moments passes every check whose range the clock allows. */
  lemma GoodSample(outside: nat -> Moment, offset: real, boot: string, build: string, s: Sample)
    requires Sourced(outside, offset, s)
    requires Good(outside(s.heard.at), boot, build) && Good(outside(s.checked.at), boot, build)
    requires 0.0 <= s.start + offset && s.heard.answered + offset < UPTIME_MAX
    ensures Assess(boot, s.state, s.identity) == Ok(true) && ValidUptime(s.state).Ok?
  {
  }

  class Observer {
    const boot: string
    ghost const build: string
    const offset: real
    const outside: nat -> Moment
    var pos: nat
    var now: real
    var started: real
    var reconnects: nat
    var attempts: nat
    var accepted: seq<Sample>
    ghost var judged: seq<Sample>
    ghost var saved: nat
    // A readiness query went through a reconnect.
    ghost var disturbed: bool

    ghost function Lag(): real
      reads `pos
    {
      Delays(outside, pos)
    }

    /** How many transport gaps have come so far. */
    ghost function Lost(): nat
      reads `pos
    {
      Gaps(outside, pos)
    }

    /** Clock time minus lag: what the protocol itself has asked for. */
    ghost function Own(): real
      reads `pos, `now
    {
      now - Lag()
    }

    /** Every judged sample with a valid uptime was truthful. */
    ghost predicate AllTruthful()
      reads `judged
    {
      forall s :: s in judged && ValidUptime(s.state).Ok? ==> Truthful(offset, s)
    }

    /** No judged sample held anything that ends the observation. */
    ghost predicate AllSound()
      reads `judged
    {
      forall s :: s in judged ==> Sound(boot, s.state, s.identity)
    }

    /** All has gone well so far but for one gap, and the phone's uptime is in range. */
    ghost predicate Healthy()
      reads `pos, `now, `judged
    {
      && (forall i: nat :: i < pos ==> Fine(outside(i), boot, build)) && Lost() <= MAX_RECONNECTS
      && AllTruthful() && now + offset < UPTIME_MAX
    }

    /** A clock that is always read, with nothing slow and no reconnect in the middle of a reading. */
    ghost predicate Steady()
      reads `disturbed
    {
      Punctual(outside) && TrueClock(outside) && !disturbed
    }

    constructor (boot: string, ghost build: string, offset: real, outside: nat -> Moment, now: real)
      ensures this.boot == boot && this.build == build && this.offset == offset && this.outside == outside
      ensures this.now == this.started == now && pos == 0 && Lag() == 0.0
      ensures reconnects == 0 && attempts == 0 && accepted == [] && judged == [] && saved == 0 && !disturbed
    {
      this.boot, this.build, this.offset, this.outside := boot, build, offset, outside;
      this.now, this.started, pos := now, now, 0;
      reconnects, attempts, accepted, judged, saved, disturbed := 0, 0, [], [], 0, false;
    }

    /** The next moment, after its delay. */
    method Take() returns (m: Moment)
      modifies `pos, `now
      ensures m == outside(old(pos)) && pos == old(pos) + 1
      ensures now == old(now) + m.delay && Own() == old(Own()) && Lag() == old(Lag()) + m.delay
      ensures Lost() == old(Lost()) + if m.answer.Gap? then 1 else 0
    {
      m := outside(pos);
      pos := pos + 1;
      now := now + m.delay;
    }

    /** Reads the clock. */
    method ReadClock() returns (t: real)
      modifies `pos, `now
      ensures pos > old(pos) && t == now >= old(now) && Own() == old(Own())
      ensures Lag() >= old(Lag()) && Lost() >= old(Lost())
    {
      var _ := Take();
      t := now;
    }

    /** remaining_time. */
    method Remaining() returns (r: Outcome<real>)
      modifies `pos, `now
      ensures pos > old(pos) && now >= old(now) && Own() == old(Own()) && Lag() >= old(Lag()) && Lost() >= old(Lost())
      ensures r.Ok? ==> r.value == started + TOTAL_DEADLINE - now > 0.0
      ensures r.Raised? ==> r.fault == Timeout && now - started >= TOTAL_DEADLINE
    {
      var t := ReadClock();
      var remaining := started + TOTAL_DEADLINE - t;
      return if remaining <= 0.0 then Raised(Timeout) else Ok(remaining);
    }

    /** sleeper: at least the pause; anything more is lag. */
    method Sleep(pause: real)
      requires pause > 0.0
      modifies `pos, `now
      ensures pos > old(pos) && Own() == old(Own()) + pause && now >= old(now) + pause
      ensures Lag() >= old(Lag()) && Lost() >= old(Lost())
    {
      var _ := Take();
      now := now + pause;
    }

    /** Sleeps until the target unless it has passed, but never beyond the deadline. */
    method SleepUntil(target: real) returns (r: Outcome<()>)
      modifies `pos, `now
      ensures pos > old(pos) && now >= old(now) && Lag() >= old(Lag()) && Lost() >= old(Lost()) && Own() >= old(Own())
      ensures Own() == old(Own()) || Own() <= target - old(Lag())
      ensures Own() == old(Own()) || Own() <= started + TOTAL_DEADLINE - old(Lag())
      ensures r.Ok? ==> now >= target || now >= started + TOTAL_DEADLINE
      ensures r.Raised? ==> r.fault == Timeout && now - started >= TOTAL_DEADLINE && Own() == old(Own())
    {
      var t := ReadClock();
      var pause := target - t;
      if pause > 0.0 {
        var remaining :- Remaining();
        Sleep(if pause < remaining then pause else remaining);
      }
      return Ok(());
    }

    /** The reader itself, which returns within its timeout. */
    method Ask(timeout: real) returns (answer: Answer, source: Source)
      requires timeout > 0.0
      modifies `pos, `now, `attempts
      ensures attempts == old(attempts) + 1 && pos == old(pos) + 1
      ensures answer == outside(old(pos)).answer
      ensures source == Source(old(pos), old(now) + outside(old(pos)).delay, now)
      ensures now == source.asked + RealMin(outside(old(pos)).took, timeout)
      ensures Lag() == old(Lag()) + outside(old(pos)).delay
      ensures Lost() == old(Lost()) + if answer.Gap? then 1 else 0
    {
      attempts := attempts + 1;
      source := Source(pos, 0.0, 0.0);
      var m := Take();
      source := source.(asked := now);
      now := now + RealMin(m.took, timeout);
      source := source.(answered := now);
      answer := m.answer;
    }

    /** No query so far was broken off for good, and at most one met a gap. */
    ghost predicate Served()
      reads `pos
    {
      (forall i: nat :: i < pos ==> !outside(i).answer.Broken?) && Lost() <= MAX_RECONNECTS
    }

    /** One attempt of a query, within its timeout and before the deadline; None is a gap. */
    method Attempt(q: Query) returns (r: Outcome<Option<(State, Identity)>>, source: Source)
      modifies `pos, `now, `attempts
      ensures pos > old(pos) && now >= old(now) && Lag() >= old(Lag()) && Lost() >= old(Lost())
      ensures old(Own()) <= Own() <= old(Own()) + Cap(q)
      ensures old(attempts) <= attempts <= old(attempts) + 1
      ensures r.Ok? ==> attempts == old(attempts) + 1
      ensures !(r.Raised? && r.fault == Timeout) ==> old(now) - started < TOTAL_DEADLINE
      ensures r.Ok? && r.value.Some? ==> FromMoment(r.value.value, source, old(pos), q)
      ensures r.Ok? && r.value.Some? ==> old(now) <= source.asked && now - started <= TOTAL_DEADLINE
      ensures r.Ok? && r.value.Some? ==> source.asked - old(now) <= Lag() - old(Lag())
      ensures r.Ok? && r.value.None? ==> !NoGaps(outside) && Lost() > old(Lost())
      ensures r.Raised? ==>
                (r.fault == Timeout && now - started >= TOTAL_DEADLINE) || (r.fault == Other && !Served())
    {
      hide Delays, Gaps, Heard;
      source := Source(0, 0.0, 0.0);
      var remaining := Remaining();
      if remaining.Raised? {
        return Raised(remaining.fault), source;
      }
      var answer: Answer;
      answer, source := Ask(if remaining.value < Cap(q) then remaining.value else Cap(q));
      if !answer.Answered? {
        assert answer.Broken? ==> outside(source.at).answer.Broken?;
        return if answer.Gap? then Ok(None) else Raised(Other), source;
      }
      var reply := (Heard(outside(source.at), offset, source), answer.identity);
      var t := ReadClock();
      return if t > started + TOTAL_DEADLINE then Raised(Timeout) else Ok(Some(reply)), source;
    }

    /** The query went on until its answer, its own limit or the protocol's deadline. */
    ghost predicate Awaited(source: Source, limit: real)
      reads `started
    {
      || source.answered == source.asked + RealMin(outside(source.at).took, limit)
      || source.answered - started >= 600.0
    }

    /** The reply is what a moment since then answered, within the query's time. */
    ghost predicate FromMoment(reply: (State, Identity), source: Source, since: nat, q: Query)
      reads `pos, `now, `started
    {
      && since <= source.at < pos && outside(source.at).answer.Answered?
      && reply.0 == Heard(outside(source.at), offset, source)
      && reply.1 == outside(source.at).answer.identity
      && source.asked <= source.answered <= now && source.answered - source.asked <= Cap(q)
      && Awaited(source, Cap(q))
    }

    /** bounded_query: one reconnect in the whole run, each attempt within its own timeout. */
    method BoundedQuery(q: Query) returns (r: Outcome<(State, Identity)>, source: Source)
      requires reconnects <= Lost()
      modifies `pos, `now, `reconnects, `attempts
      ensures pos > old(pos) && now >= old(now) && Lag() >= old(Lag()) && Lost() >= old(Lost())
      ensures r.Ok? ==> FromMoment(r.value, source, old(pos), q)
      ensures r.Ok? ==> old(now) + 2.0 * (reconnects - old(reconnects)) as real <= source.asked
      ensures r.Ok? && reconnects == old(reconnects) ==> source.asked - old(now) <= Lag() - old(Lag())
      ensures reconnects - old(reconnects) <= Lost() - old(Lost())
      ensures NoGaps(outside) ==> reconnects == old(reconnects)
      ensures r.Raised? && r.fault != Timeout ==> !Served()
      ensures old(reconnects) <= reconnects <= Max(old(reconnects), MAX_RECONNECTS)
      ensures old(attempts) <= attempts <= old(attempts) + 1 + (reconnects - old(reconnects))
      ensures old(Own()) <= Own()
      ensures Own() <= old(Own()) + Cap(q) + (reconnects - old(reconnects)) as real * (Cap(q) + BACKOFF)
      ensures !(r.Raised? && r.fault == Timeout) ==> old(now) - started < TOTAL_DEADLINE
      ensures r.Ok? ==> now - started <= TOTAL_DEADLINE && attempts > old(attempts)
      ensures r.Raised? && r.fault == Timeout ==> now - started >= TOTAL_DEADLINE
      ensures r.Raised? ==> !r.fault.Terminal? && !BlamesClock(r.fault)
      ensures r.Raised? && r.fault == TransportGap ==>
                reconnects == Max(old(reconnects), MAX_RECONNECTS)
                && attempts == old(attempts) + 1 + (reconnects - old(reconnects))
    {
      hide Delays, Gaps, Heard;
      source := Source(0, 0.0, 0.0);
      while true
        invariant pos >= old(pos) && now >= old(now) && Lag() >= old(Lag()) && Lost() >= old(Lost())
        invariant old(reconnects) <= reconnects <= Max(old(reconnects), MAX_RECONNECTS)
        invariant attempts == old(attempts) + (reconnects - old(reconnects))
        invariant reconnects > old(reconnects) ==> old(now) - started < TOTAL_DEADLINE
        invariant reconnects > old(reconnects) ==> !NoGaps(outside)
        invariant reconnects - old(reconnects) <= Lost() - old(Lost())
        invariant reconnects == old(reconnects) ==> now == old(now) && pos == old(pos)
        invariant old(Own()) <= Own() && old(now) + 2.0 * (reconnects - old(reconnects)) as real <= now
        invariant Own() <= old(Own()) + (reconnects - old(reconnects)) as real * (Cap(q) + BACKOFF)
        decreases Max(old(reconnects), MAX_RECONNECTS) - reconnects
      {
        var answer;
        answer, source := Attempt(q);
        if answer.Raised? {
          return Raised(answer.fault), source;
        }
        if answer.value.Some? {
          return Ok(answer.value.value), source;
        }
        if reconnects >= MAX_RECONNECTS {
          return Raised(TransportGap), source;
        }
        reconnects := reconnects + 1;
        var backed := BackOff();
        if backed.Raised? {
          return Raised(backed.fault), source;
        }
      }
    }

    /** The pause before a reconnect, between two checks of the deadline. */
    method BackOff() returns (r: Outcome<()>)
      modifies `pos, `now
      ensures pos > old(pos) && now >= old(now) && Lag() >= old(Lag()) && Lost() >= old(Lost())
      ensures old(Own()) <= Own() <= old(Own()) + BACKOFF
      ensures r.Ok? ==> now - started < TOTAL_DEADLINE && Own() == old(Own()) + 2.0
      ensures r.Raised? ==> r.fault == Timeout && now - started >= TOTAL_DEADLINE
    {
      var left :- Remaining();
      Sleep(if left < BACKOFF then left else BACKOFF);
      var _ :- Remaining();
      return Ok(());
    }

    /** persist_receipt and the digest read after it: either may fail, and both take only lag. */
    method Persist() returns (r: Outcome<()>)
      modifies `pos, `now, `saved
      ensures pos == old(pos) + 1 && now >= old(now) && Own() == old(Own())
      ensures Lag() >= old(Lag()) && Lost() >= old(Lost())
      ensures saved == old(saved) + if r.Ok? then 1 else 0
      ensures r.Ok? <==> outside(old(pos)).persists
      ensures r.Raised? ==> r.fault == Other
    {
      var m := Take();
      saved := saved + if m.persists then 1 else 0;
      return if m.persists then Ok(()) else Raised(Other);
    }

    /** What holds of the samples judged and accepted so far. */
    ghost predicate Chained()
      reads this
    {
      && reconnects <= MAX_RECONNECTS && reconnects <= Lost() && (NoGaps(outside) ==> !disturbed)
      && (forall s :: s in judged ==> s.checked.at < pos && Sourced(outside, offset, s))
      && (Steady() ==> AllTruthful())
      && (forall s :: s in accepted ==> s in judged && Ready(boot, s))
      && (forall k :: 0 < k < |accepted| ==> Follows(accepted[k - 1], accepted[k]))
    }

    /** The second half of collect_pair: judge the sample, save its receipt, accept it if ready. */
    method Settle(sample: Sample) returns (r: Outcome<bool>)
      requires Chained() && Sourced(outside, offset, sample)
      requires sample.checked.at < pos && sample.checked.answered <= now
      requires Steady() ==> Truthful(offset, sample)
      requires forall s :: s in judged ==> s.checked.at < sample.heard.at
      modifies `pos, `now, `accepted, `judged, `saved
      ensures Chained() && judged == old(judged) + [sample]
      ensures pos > old(pos) && now >= old(now) && Own() == old(Own()) && Lag() >= old(Lag()) && Lost() >= old(Lost())
      ensures saved >= old(saved) && (r.Ok? ==> saved == old(saved) + 1)
      ensures accepted == old(accepted) + if r.Ok? && r.value then [sample] else []
      ensures r.Raised? && r.fault.Terminal? ==>
                Judge(boot, old(accepted), sample.start, sample.state, sample.identity) == Raised(r.fault)
      ensures r.Raised? ==> r.fault == Other || r.fault.Terminal?
      ensures r.Raised? && BlamesClock(r.fault) && AllTruthful() ==> TooSoon(old(accepted), sample.start)
      ensures Healthy() && !(r.Ok? && r.value) ==>
                sample.start + offset < UPTIME_GATE || TooSoon(old(accepted), sample.start)
      ensures r.Ok? && old(AllSound()) ==> AllSound()
    {
      hide Delays, Gaps, Heard, Sourced, Judge, Truthful;
      r := Judge(boot, accepted, sample.start, sample.state, sample.identity);
      Note(sample);
      JudgeMeans(boot, offset, accepted, sample);
      var saved := Persist();
      Deserved(sample, r);
      if saved.Raised? {
        return Raised(saved.fault);
      }
      if r.Ok? && r.value {
        assert accepted != [] ==> accepted[|accepted| - 1] in accepted;
        Accept(sample);
      }
    }

    ghost method Note(sample: Sample)
      requires Chained() && Sourced(outside, offset, sample) && sample.checked.at < pos
      requires Steady() ==> Truthful(offset, sample)
      modifies `judged
      ensures Chained() && judged == old(judged) + [sample]
    {
      hide Sourced, Heard, Truthful, Ready, Follows;
      judged := judged + [sample];
    }

    method Accept(sample: Sample)
      requires Chained() && sample in judged && Ready(boot, sample)
      requires accepted != [] ==> Follows(accepted[|accepted| - 1], sample)
      modifies `accepted
      ensures Chained() && accepted == old(accepted) + [sample]
    {
      hide Sourced, Heard, Truthful, Ready, Follows;
      accepted := accepted + [sample];
    }

    /** Why a truthful clock is blamed, or a healthy sample turned away: it came too soon. */
    lemma Deserved(sample: Sample, r: Outcome<bool>)
      requires Chained() && Sourced(outside, offset, sample) && sample in judged
      requires sample.checked.at < pos && sample.checked.answered <= now
      requires r == Judge(boot, accepted, sample.start, sample.state, sample.identity)
      ensures r.Raised? && BlamesClock(r.fault) && AllTruthful() ==> TooSoon(accepted, sample.start)
      ensures Healthy() && !(r.Ok? && r.value) ==>
                sample.start + offset < UPTIME_GATE || TooSoon(accepted, sample.start)
    {
      hide Delays, Gaps, Heard;
      JudgeMeans(boot, offset, accepted, sample);
      assert accepted != [] ==> accepted[|accepted| - 1] in accepted;
      if AllTruthful() && ValidUptime(sample.state).Ok? && !TooSoon(accepted, sample.start) {
        TruthfulIsAccepted(boot, offset, accepted, sample);
      }
      if Healthy() && sample.start + offset >= UPTIME_GATE {
        GoodSample(outside, offset, boot, build, sample);
      }
    }

    /** The sample judged last began then, and its answers have been heard. */
    ghost predicate Latest(start: real)
      reads `judged, `now
    {
      judged != [] && judged[|judged| - 1].start == start && judged[|judged| - 1].checked.answered <= now
    }

    /** collect_pair: one fresh sample, accepted, not ready, or terminal. */
    method CollectPair() returns (r: Outcome<bool>, start: real)
      requires Chained()
      modifies `pos, `now, `reconnects, `attempts, `accepted, `judged, `saved, `disturbed
      ensures Chained() && old(judged) <= judged && old(reconnects) <= reconnects
      ensures pos > old(pos) && now >= start >= old(now) && Lag() >= old(Lag()) && Lost() >= old(Lost())
      ensures r.Ok? ==> attempts >= old(attempts) + 2 && saved == old(saved) + 1
      ensures attempts >= old(attempts) && saved >= old(saved)
      ensures attempts <= old(attempts) + 2 + (reconnects - old(reconnects))
      ensures old(Own()) <= Own() <= old(Own()) + 45.0 + (reconnects - old(reconnects)) as real * 32.0
      ensures start - Lag() <= old(Own())
      ensures r.Ok? && r.value ==> Accepts(old(accepted), start, old(pos))
      ensures !(r.Ok? && r.value) ==> accepted == old(accepted)
      ensures r.Ok? ==> |judged| == |old(judged)| + 1 && Latest(start)
      ensures !(r.Raised? && r.fault == Timeout) ==> start - started < TOTAL_DEADLINE
      ensures r.Raised? ==> r.fault != ShortInterval
      ensures r.Raised? && r.fault == Timeout ==> now - started >= TOTAL_DEADLINE
      ensures r.Raised? && BlamesClock(r.fault) && AllTruthful() ==> TooSoon(old(accepted), start)
      ensures Healthy() && !(r.Ok? && r.value) && !(r.Raised? && r.fault == Timeout) ==>
                old(now) + offset < UPTIME_GATE || TooSoon(old(accepted), start)
      ensures reconnects == old(reconnects) ==> disturbed == old(disturbed)
      ensures r.Ok? && old(AllSound()) ==> AllSound()
    {
      hide Delays, Gaps, Heard, Sourced, Truthful, Judge, Ready, Follows;
      var pair;
      pair, start := QueryPair();
      if pair.Raised? {
        return Raised(pair.fault), start;
      }
      r := Settle(pair.value);
    }

    /** The two queries of one sample. */
    method QueryPair() returns (r: Outcome<Sample>, start: real)
      requires Chained()
      modifies `pos, `now, `reconnects, `attempts, `disturbed
      ensures Chained() && old(reconnects) <= reconnects
      ensures pos > old(pos) && now >= start >= old(now) && Lag() >= old(Lag()) && Lost() >= old(Lost())
      ensures old(attempts) <= attempts <= old(attempts) + 2 + (reconnects - old(reconnects))
      ensures old(Own()) <= Own() <= old(Own()) + 45.0 + (reconnects - old(reconnects)) as real * 32.0
      ensures start - Lag() <= old(Own())
      ensures r.Ok? ==> attempts >= old(attempts) + 2
      ensures r.Ok? ==> r.value.start == start && Sourced(outside, offset, r.value)
      ensures r.Ok? ==> old(pos) <= r.value.heard.at < r.value.checked.at < pos && r.value.checked.answered <= now
      ensures r.Ok? ==> Awaited(r.value.heard, 15.0) && Awaited(r.value.checked, 30.0)
      ensures r.Ok? ==> forall s :: s in judged ==> s.checked.at < r.value.heard.at
      ensures r.Ok? && Steady() ==> Truthful(offset, r.value)
      ensures !(r.Raised? && r.fault == Timeout) ==> start - started < TOTAL_DEADLINE
      ensures r.Raised? && r.fault == Timeout ==> now - started >= TOTAL_DEADLINE
      ensures r.Raised? && r.fault != Timeout ==> !Served()
      ensures r.Raised? ==> !r.fault.Terminal? && !BlamesClock(r.fault)
      ensures reconnects == old(reconnects) ==> disturbed == old(disturbed)
    {
      hide Delays, Gaps, Heard, Truthful, Ready, Follows;
      start := ReadClock();
      ghost var begun, used := pos, reconnects;
      var first, heard := BoundedQuery(Readiness);
      disturbed := disturbed || reconnects > used;
      if first.Raised? {
        return Raised(first.fault), start;
      }
      ghost var asked := pos;
      var second, checked := BoundedQuery(FullIdentity);
      if second.Raised? {
        return Raised(second.fault), start;
      }
      var sample := Sample(start, first.value.0, second.value.1, heard, checked);
      if Steady() {
        PunctualMeans(outside, begun);
        PunctualMeans(outside, asked);
        ReadInTime(outside, offset, sample);
      }
      r := Ok(sample);
    }

    /** One more sample is accepted: it began then, and was asked for since. */
    ghost predicate Accepts(before: seq<Sample>, start: real, since: nat)
      reads `accepted
    {
      && |accepted| == |before| + 1 && before <= accepted
      && accepted[|before|].start == start && accepted[|before|].heard.at >= since
    }

    /** One uptime probe, no earlier than the target: whether the phone has been up long enough. */
    method Probe(target: real) returns (r: Outcome<bool>, ghost last: State, ghost source: Source)
      requires reconnects <= MAX_RECONNECTS && reconnects <= Lost()
      modifies `pos, `now, `reconnects, `attempts, `saved
      ensures r.Ok? && r.value ==> PassedGate(last, source, old(pos))
      ensures r.Ok? ==> Awaited(source, 3.0)
      ensures saved >= old(saved) && (r.Ok? ==> saved > old(saved) && attempts > old(attempts))
      ensures pos > old(pos) && now >= old(now) && Lag() >= old(Lag()) && Lost() >= old(Lost())
      ensures old(reconnects) <= reconnects <= MAX_RECONNECTS && reconnects <= Lost()
      ensures old(attempts) <= attempts <= old(attempts) + 1 + (reconnects - old(reconnects))
      ensures old(Own()) <= Own()
      ensures Own() <= RealMax(old(Own()), target - old(Lag())) + 3.0 + (reconnects - old(reconnects)) as real * 5.0
      ensures r.Raised? && r.fault == Timeout ==> now - started >= TOTAL_DEADLINE
      ensures r.Raised? ==> !BlamesClock(r.fault)
      ensures r.Ok? && r.value && Healthy() ==> now + offset >= UPTIME_GATE
      ensures r.Ok? && !r.value && Healthy() ==> target + offset < UPTIME_GATE
      ensures r.Raised? && r.fault != Timeout && Healthy() ==> old(now) + offset < 0.0
    {
      hide Delays, Gaps;
      last, source := *, *;
      var slept := SleepUntil(target);
      if slept.Raised? {
        return Raised(slept.fault), last, source;
      }
      var query, from := BoundedQuery(Startup);
      if query.Raised? {
        return Raised(query.fault), last, source;
      }
      last, source := query.value.0, from;
      r := Weigh(query.value.0, from);
    }

    /** The response is what a moment since then answered, on this boot, at or above the gate. */
    ghost predicate PassedGate(s: State, source: Source, since: nat)
      reads `pos
    {
      && since <= source.at < pos && outside(source.at).answer.Answered?
      && s == Heard(outside(source.at), offset, source)
      && s.bootId == boot && s.uptime.Some? && 180.0 <= s.uptime.value < 10_000_000.0
    }

    /** The checks on one probe's response, and its receipt. */
    method Weigh(state: State, source: Source) returns (r: Outcome<bool>)
      requires source.at < pos && outside(source.at).answer.Answered? && source.asked <= source.answered <= now
      requires state == Heard(outside(source.at), offset, source)
      modifies `pos, `now, `saved
      ensures pos >= old(pos) && now >= old(now) && Own() == old(Own()) && Lag() >= old(Lag()) && Lost() >= old(Lost())
      ensures saved >= old(saved) && (r.Ok? ==> saved > old(saved))
      ensures r.Ok? && r.value ==> PassedGate(state, source, source.at)
      ensures r.Raised? ==> !BlamesClock(r.fault) && r.fault != Timeout
      ensures r.Ok? && r.value && Healthy() ==> now + offset >= UPTIME_GATE
      ensures r.Ok? && !r.value && Healthy() ==> source.asked + offset < UPTIME_GATE
      ensures r.Raised? && Healthy() ==> source.asked + offset < 0.0
    {
      hide Delays, Gaps;
      if state.bootId != boot {
        return Raised(Terminal(ChangedBoot));
      }
      var uptime :- ValidUptime(state);
      var _ :- Persist();
      return Ok(uptime >= UPTIME_GATE);
    }

    /** The uptime gate: up to 13 probes on a 15-second grid; last is the response that passed it. */
    method Probes() returns (r: Outcome<()>, ghost last: State, ghost source: Source)
      requires reconnects <= MAX_RECONNECTS && reconnects <= Lost()
      modifies `pos, `now, `reconnects, `attempts, `saved
      ensures r.Ok? ==> PassedGate(last, source, old(pos))
      ensures r.Ok? ==> saved > old(saved) && attempts > old(attempts)
      ensures pos > old(pos) && now >= old(now) && Lag() >= old(Lag()) && Lost() >= old(Lost())
      ensures old(reconnects) <= reconnects <= MAX_RECONNECTS && reconnects <= Lost()
      ensures attempts <= old(attempts) + POLLS + (reconnects - old(reconnects))
      ensures old(Own()) <= Own() <= old(Own()) + 183.0 + (reconnects - old(reconnects)) as real * 5.0
      ensures r.Raised? && r.fault == Timeout ==> now - started >= TOTAL_DEADLINE
      ensures r.Raised? ==> !BlamesClock(r.fault)
      ensures r.Ok? && Healthy() ==> now + offset >= UPTIME_GATE
      ensures r.Raised? && r.fault != Timeout && Healthy() ==> old(now) + offset < 0.0
    {
      hide Delays, Gaps, Heard;
      last, source := *, *;
      var origin := ReadClock();
      var index := 0;
      while index < POLLS
        invariant 0 <= index <= POLLS
        invariant pos > old(pos) && now >= old(now) && Lag() >= old(Lag()) && Lost() >= old(Lost())
        invariant old(reconnects) <= reconnects <= MAX_RECONNECTS && reconnects <= Lost()
        invariant old(attempts) <= attempts <= old(attempts) + index + (reconnects - old(reconnects))
        invariant saved >= old(saved)
        invariant origin - Lag() <= old(Own()) <= Own() && origin >= old(now)
        invariant index == POLLS && Healthy() ==> old(now) + offset < 0.0
        invariant index == 0 ==> Own() == old(Own()) && reconnects == old(reconnects)
        invariant index > 0 ==>
            Own() <= old(Own()) + (index - 1) as real * 15.0 + 3.0 + (reconnects - old(reconnects)) as real * 5.0
      {
        var passed: Outcome<bool>;
        passed, last, source := Probe(origin + index as real * POLL_GAP);
        if passed.Raised? {
          return Raised(passed.fault), last, source;
        }
        if passed.value {
          return Ok(()), last, source;
        }
        index := index + 1;
      }
      return Raised(Other), last, source;
    }

    /** One reading since then, or two, the second at least 15 s after the first one's answers. */
    ghost predicate Polled(before: seq<Sample>)
      reads `judged
    {
      || |judged| == |before| + 1
      || (|judged| == |before| + 2
          && judged[|before|].checked.answered + 15.0 <= judged[|before| + 1].start)
    }

    /**
     * The first accepted sample: at most two full-readiness polls, 15 s apart. mark and uses are
     * the protocol's time and the reconnects used when the accepted poll began.
     */
    method FirstSample() returns (r: Outcome<()>, ghost mark: real, ghost uses: nat)
      requires Chained() && accepted == []
      modifies `pos, `now, `reconnects, `attempts, `accepted, `judged, `saved, `disturbed
      ensures Chained() && old(judged) <= judged && old(reconnects) <= uses <= reconnects
      ensures pos > old(pos) && now >= old(now) && Lag() >= old(Lag()) && Lost() >= old(Lost())
      ensures r.Ok? ==> attempts >= old(attempts) + 2 && saved > old(saved)
      ensures attempts <= old(attempts) + 4 + (reconnects - old(reconnects))
      ensures old(Own()) <= mark <= old(Own()) + 60.0 + (uses - old(reconnects)) as real * 32.0
      ensures mark <= Own() <= mark + 45.0 + (reconnects - uses) as real * 32.0
      ensures r.Ok? ==> |accepted| == 1 && accepted[0].start <= now && accepted[0].start - Lag() <= mark
      ensures r.Ok? ==> Polled(old(judged))
      ensures r.Raised? && r.fault == Timeout ==> now - started >= TOTAL_DEADLINE
      ensures r.Raised? && BlamesClock(r.fault) ==> !AllTruthful()
      ensures r.Raised? && r.fault != Timeout && Healthy() ==> old(now) + offset < UPTIME_GATE
      ensures reconnects == old(reconnects) ==> disturbed == old(disturbed)
      ensures r.Ok? && old(AllSound()) ==> AllSound()
    {
      hide Delays, Gaps, Heard, Sourced, Ready, Follows, Truthful;
      mark, uses := Own(), reconnects;
      var ready, start := CollectPair();
      if ready.Raised? {
        return Raised(ready.fault), mark, uses;
      }
      if ready.value {
        return Ok(()), mark, uses;
      }
      var t := ReadClock();
      var slept := SleepUntil(t + READINESS_GAP);
      mark, uses := Own(), reconnects;
      if slept.Raised? {
        return Raised(slept.fault), mark, uses;
      }
      ready, start := CollectPair();
      if ready.Raised? {
        return Raised(ready.fault), mark, uses;
      }
      return if ready.value then Ok(()) else Raised(Other), mark, uses;
    }

    /** One later sample, no earlier than the target. */
    method LaterSample(target: real) returns (r: Outcome<()>)
      requires Chained() && accepted != [] && target - accepted[|accepted| - 1].start >= MIN_GAP
      modifies `pos, `now, `reconnects, `attempts, `accepted, `judged, `saved, `disturbed
      ensures Chained() && old(judged) <= judged && old(reconnects) <= reconnects
      ensures pos > old(pos) && now >= old(now) && Lag() >= old(Lag()) && Lost() >= old(Lost())
      ensures r.Ok? ==> attempts >= old(attempts) + 2 && saved > old(saved)
      ensures attempts <= old(attempts) + 2 + (reconnects - old(reconnects))
      ensures old(Own()) <= Own()
      ensures Own() <= RealMax(old(Own()), target - old(Lag())) + 45.0 + (reconnects - old(reconnects)) as real * 32.0
      ensures r.Ok? ==> |accepted| == |old(accepted)| + 1 && old(accepted) <= accepted
      ensures r.Ok? ==> target <= accepted[|old(accepted)|].start <= now
      ensures r.Ok? ==> accepted[|old(accepted)|].start - Lag() <= RealMax(old(Own()), target - old(Lag()))
      ensures r.Ok? ==> accepted[|old(accepted)|].heard.at >= old(pos)
      ensures r.Raised? && r.fault == Timeout ==> now - started >= TOTAL_DEADLINE
      ensures r.Raised? && BlamesClock(r.fault) ==> !AllTruthful()
      ensures r.Raised? && r.fault != Timeout && Healthy() ==> old(now) + offset < UPTIME_GATE
      ensures reconnects == old(reconnects) ==> disturbed == old(disturbed)
      ensures r.Ok? && old(AllSound()) ==> AllSound()
    {
      hide Delays, Gaps, Heard;
      var _ :- SleepUntil(target);
      var ready, start := CollectPair();
      if ready.Raised? {
        return Raised(ready.fault);
      }
      if !ready.value {
        return Raised(Other);
      }
      if start - accepted[|accepted| - 2].start < MIN_GAP {
        return Raised(Other);
      }
      return Ok(());
    }

    /** The second and third samples, at 90 s and 195 s after the first. */
    method LaterSamples(ghost mark: real, ghost uses: nat) returns (r: Outcome<()>)
      requires Chained() && |accepted| == 1 && uses <= reconnects
      requires accepted[0].start - Lag() <= mark
      requires Own() <= mark + 45.0 + (reconnects - uses) as real * 32.0
      modifies `pos, `now, `reconnects, `attempts, `accepted, `judged, `saved, `disturbed
      ensures Chained() && old(judged) <= judged && old(reconnects) <= reconnects
      ensures pos > old(pos) && now >= old(now) && Lag() >= old(Lag()) && Lost() >= old(Lost())
      ensures r.Ok? ==> attempts >= old(attempts) + 4 && saved >= old(saved) + 2
      ensures attempts <= old(attempts) + 4 + (reconnects - old(reconnects))
      ensures old(Own()) <= Own() <= RealMax(old(Own()), mark + 240.0 + (reconnects - uses) as real * 32.0)
      ensures r.Ok? ==> |accepted| == 3 && Spaced(accepted) && accepted[2].start <= now
      ensures r.Raised? && r.fault == Timeout ==> now - started >= TOTAL_DEADLINE
      ensures r.Raised? && BlamesClock(r.fault) ==> !AllTruthful()
      ensures r.Raised? && r.fault != Timeout && Healthy() ==> old(now) + offset < UPTIME_GATE
      ensures reconnects == old(reconnects) ==> disturbed == old(disturbed)
      ensures r.Ok? && old(AllSound()) ==> AllSound()
    {
      hide Delays, Gaps, Heard;
      var stable := accepted[0].start;
      var _ :- LaterSample(RealMax(stable + 90.0, stable + MIN_GAP));
      var prior := accepted[1].start;
      var _ :- LaterSample(RealMax(RealMax(stable + 180.0, prior + MIN_GAP), stable + FINAL_OFFSET));
      return Ok(());
    }
  }

  /** The sample begins less than the minimum gap after the last accepted one. */
  ghost predicate TooSoon(accepted: seq<Sample>, start: real) {
    accepted != [] && start - accepted[|accepted| - 1].start < MIN_GAP
  }

  /** Three samples: at least 60 s apart, and 195 s from first to last. */
  ghost predicate Spaced(samples: seq<Sample>) {
    && |samples| == 3
    && samples[1].start - samples[0].start >= MIN_GAP
    && samples[2].start - samples[1].start >= MIN_GAP
    && samples[2].start - samples[0].start >= FINAL_OFFSET
  }
}
