/**
 * The guard marker of the stability operation: the durable record whose completed form accepts a
 * receipt, kept in a store whose reads can fail and whose updates can be lost, torn, or persisted
 * while still reporting an error, and in which a foreign marker can turn up.
 */
module StabilityMarker {
  import opened Common

  datatype Marker =
    | Marker(trialId: string, kind: string, body: Body)
    | Torn

  datatype Body =
    | Pending(project: string, pid: int)
    | Complete(outcome: string, path: string, sha: string, stamp: int)
    | Unknown(project: string, pid: int, late: Option<Marker>, receipt: string, sha: string)

  datatype Fault = TransportGap | Timeout | Terminal(category: Category) | ShortInterval | Other

  datatype Category =
    | AmbiguousMarker | AmbiguousResponse | WrongIdentity | ChangedBoot | SeriousFault
    | UptimeNotAdvancing | UptimeMismatch

  datatype Outcome<+T> = Ok(value: T) | Raised(fault: Fault) {
    predicate IsFailure() {
      Raised?
    }

    function PropagateFailure<U>(): Outcome<U>
      requires Raised?
    {
      Raised(fault)
    }

    function Extract(): T
      requires Ok?
    {
      value
    }
  }

  /**
   * How the store answers one call: Persists applies an update and then raises; Tears leaves
   * garbage and raises; Loses drops an update without a word; Intrudes lets a foreign marker
   * appear just before a read.
   */
  datatype Store = Works | Fails | Persists | Tears | Loses | Intrudes(foreign: Marker)

  /** The completed marker written at the given instant. */
  function Completed(id: string, kind: string, path: string, sha: string, stamp: int): Marker {
    Marker(id, kind, Complete("success", path, sha, stamp))
  }

  /** A completed marker that binds the receipt with this path and digest. */
  predicate Binds(m: Marker, path: string, sha: string) {
    && m.Marker? && m.body.Complete? && m.body.outcome == "success"
    && m.body.path == path && m.body.sha == sha
  }

  /** A marker that binds a receipt is a completed success that names its path and its digest. */
  lemma BindsExactly(m: Marker, path: string, sha: string)
    ensures Binds(m, path, sha) <==>
            exists id, kind, stamp :: m == Marker(id, kind, Complete("success", path, sha, stamp))
  {
    if Binds(m, path, sha) {
      assert m == Marker(m.trialId, m.kind, Complete("success", path, sha, m.body.stamp));
    }
  }

  /** No update is torn and no foreign marker turns up. */
  ghost predicate Mild(store: seq<Store>) {
    forall s :: s in store ==> !s.Tears? && !s.Intrudes?
  }

  ghost predicate FromOld(before: seq<Store>, after: seq<Store>) {
    forall s :: s in after ==> s in before
  }

  /** Updates fail, take effect and still report an error, or work; nothing is lost, torn or foreign. */
  ghost predicate Honest(store: seq<Store>) {
    forall s :: s in store ==> s.Works? || s.Fails? || s.Persists?
  }

  /** The store's next answer, and what is left after it; a store that is gone fails. */
  function First(store: seq<Store>): Store {
    if store == [] then Fails else store[0]
  }

  function Rest(store: seq<Store>): seq<Store> {
    if store == [] then [] else store[1..]
  }

  /** The next n answers are all good. */
  predicate Reaches(store: seq<Store>, n: nat)
    decreases n
  {
    n == 0 || (First(store).Works? && Reaches(Rest(store), n - 1))
  }

  function Skip(store: seq<Store>, n: nat): seq<Store>
    decreases n
  {
    if n == 0 then store else Skip(Rest(store), n - 1)
  }

  /** Answer by answer: the first n are there and work, and skipping drops them. */
  lemma {:induction false} ReachesExactly(store: seq<Store>, n: nat)
    ensures Reaches(store, n) <==> n <= |store| && forall i :: 0 <= i < n ==> store[i] == Works
    ensures Skip(store, n) == store[Min(n, |store|)..]
    decreases n
  {
    if n > 0 {
      ReachesExactly(Rest(store), n - 1);
      if store != [] {
        assert forall i :: 0 <= i < |store| - 1 ==> Rest(store)[i] == store[i + 1];
      }
    }
  }

  /** An update of the marker after n good answers takes effect, whatever it reports. */
  predicate Changes(store: seq<Store>, n: nat) {
    Reaches(store, n) && (First(Skip(store, n)).Works? || First(Skip(store, n)).Persists?)
  }

  /** What is left after the first bad answer. */
  function AfterFailure(store: seq<Store>): seq<Store> {
    if store == [] then [] else if store[0].Works? then AfterFailure(store[1..]) else store[1..]
  }

  lemma {:induction false} FailsAfter(store: seq<Store>, n: nat)
    requires Reaches(store, n) && !First(Skip(store, n)).Works?
    ensures AfterFailure(store) == Rest(Skip(store, n))
    decreases n
  {
    if n > 0 {
      FailsAfter(Rest(store), n - 1);
    }
  }

  lemma AttemptFails(store: seq<Store>)
    ensures var second := Rest(Rest(store));
      && (!Reaches(store, 2) ==>
            !Changes(store, 3)
            && AfterFailure(store) == if First(store).Works? then Rest(Rest(store)) else Rest(store))
      && (Reaches(store, 2) && !Changes(second, 1) ==>
            AfterFailure(store) == if First(second).Works? then Rest(Rest(second)) else Rest(second))
      && (Reaches(store, 2) ==> (Changes(store, 3) <==> Changes(second, 1)))
      && (Reaches(second, 2) ==> Changes(second, 1))
      && (Reaches(store, 2) ==> First(store).Works?)
  {
    if !First(store).Works? {
      FailsAfter(store, 0);
    } else if !First(Rest(store)).Works? {
      FailsAfter(store, 1);
    } else if !First(Rest(Rest(store))).Works? {
      FailsAfter(store, 2);
    } else if !First(Rest(Rest(Rest(store)))).Works? {
      FailsAfter(store, 3);
    }
  }

  /** After some attempts from the given answers: whether all of them failed to change the marker. */
  predicate AttemptsLeft(start: seq<Store>, now: seq<Store>, attempts: nat, same: bool) {
    match attempts
    case 0 => same && now == start
    case 1 => same == !Changes(start, 3) && (same ==> now == AfterFailure(start))
    case _ =>
      && same == (!Changes(start, 3) && !Changes(AfterFailure(start), 3))
      && (same ==> now == AfterFailure(AfterFailure(start)))
  }

  /** Neither attempt of the demotion gets as far as its update, nor does the one on leaving. */
  predicate Stuck(store: seq<Store>) {
    && !Changes(store, 3)
    && !Changes(AfterFailure(store), 3)
    && !Changes(AfterFailure(AfterFailure(store)), 1)
  }

  /** A completed marker stays although the run is refused: reading it back fails, or taking it back does. */
  predicate Stays(store: seq<Store>, late: bool) {
    !Reaches(store, 3) || (late && (!Reaches(Skip(store, 3), 3) || Stuck(Skip(store, 6))))
  }

  /** The same from the first check of the pending marker on: or the completion itself reports an error. */
  predicate Kept(store: seq<Store>, late: bool) {
    && Reaches(store, 5)
    && match First(Skip(store, 5))
       case Works => Stays(Skip(store, 6), late)
       case Persists => !Changes(Skip(store, 6), 1)
       case _ => false
  }

  /** The same for the answers of a whole run. */
  predicate Left(store: seq<Store>, late: bool) {
    Reaches(store, 3) && Kept(Skip(store, 3), late)
  }

  /** The operation is over, and its completed marker stays. */
  predicate Closed(store: seq<Store>, late: bool) {
    Reaches(store, 6) && (!Reaches(Skip(store, 6), 3) || (late && !Reaches(Skip(store, 9), 3)))
  }

  /** One update is still to come on leaving, and the marker is the completed one until then. */
  predicate Open(store: seq<Store>, now: seq<Store>, late: bool) {
    || (Reaches(store, 5) && First(Skip(store, 5)).Persists? && now == Skip(store, 6))
    || (late && Reaches(store, 12)
        && !Changes(Skip(store, 12), 3) && !Changes(AfterFailure(Skip(store, 12)), 3)
        && now == AfterFailure(AfterFailure(Skip(store, 12))))
  }

  lemma KeptIs(store: seq<Store>, now: seq<Store>, late: bool)
    ensures Closed(store, late) ==> Kept(store, late)
    ensures Open(store, now, late) && !Changes(now, 1) ==> Kept(store, late)
    ensures Kept(store, false) ==> Closed(store, false) || Open(store, Skip(store, 6), false)
  {
    SkipMore(store, 6, 3);
    SkipMore(store, 6, 6);
    ReachesMore(store, 6, 3);
    ReachesMore(store, 9, 3);
    SkipMore(store, 3, 3);
    ReachesMore(Skip(store, 6), 3, 3);
    ReachesMore(store, 5, 1);
  }

  /**
   * In time, a refused run leaves its success in place exactly if it was completed and one of the
   * three answers that read it back is bad, or the completion took effect but reported an error and
   * the update on leaving did not take effect either.
   */
  lemma LeftInTime(store: seq<Store>)
    ensures Left(store, false) <==>
            || (Reaches(store, 9) && !Reaches(store, 12))
            || (Reaches(store, 8) && First(Skip(store, 8)).Persists? && !Changes(Skip(store, 9), 1))
  {
    ReachesMore(store, 3, 5);
    ReachesMore(store, 8, 1);
    ReachesMore(store, 9, 3);
    SkipMore(store, 3, 5);
    SkipMore(store, 3, 6);
  }

  lemma {:induction false} SkipMore(store: seq<Store>, a: nat, b: nat)
    ensures Skip(Skip(store, a), b) == Skip(store, a + b)
    decreases a
  {
    if a > 0 {
      SkipMore(Rest(store), a - 1, b);
    }
  }

  lemma {:induction false} SkipIsHonest(store: seq<Store>, n: nat)
    requires Honest(store)
    ensures Honest(Skip(store, n))
    decreases n
  {
    if n > 0 {
      SkipIsHonest(Rest(store), n - 1);
    }
  }

  lemma {:induction false} ReachesMore(store: seq<Store>, a: nat, b: nat)
    ensures Reaches(store, a + b) <==> Reaches(store, a) && Reaches(Skip(store, a), b)
    decreases a
  {
    if a > 0 {
      ReachesMore(Rest(store), a - 1, b);
    }
  }

  class Operation {
    const id: string
    const kind: string
    const project: string
    const pid: int
    var store: seq<Store>
    var marker: Option<Marker>
    var started: bool
    var finished: bool
    ghost var faults: nat
    ghost var overwritten: seq<Marker>

    constructor (id: string, kind: string, project: string, pid: int, store: seq<Store>)
      ensures this.id == id && this.kind == kind && this.project == project && this.pid == pid
      ensures marker == None && !started && !finished && faults == 0 && overwritten == []
    {
      this.id, this.kind, this.project, this.pid := id, kind, project, pid;
      this.store := store;
      marker, started, finished := None, false, false;
      faults, overwritten := 0, [];
    }

    /** The store's next answer; a store that is gone fails. */
    method Answer() returns (s: Store)
      modifies `store, `faults
      ensures faults >= old(faults) && (s.Works? <==> faults == old(faults))
      ensures FromOld(old(store), store) && (s == Fails || s in old(store))
      ensures s == First(old(store)) && store == Rest(old(store))
    {
      s := if store == [] then Fails else store[0];
      store := if store == [] then [] else store[1..];
      if !s.Works? {
        faults := faults + 1;
      }
    }

    /** _verify_marker_identity. */
    method VerifyIdentity() returns (r: Outcome<()>)
      modifies `store, `faults
      ensures faults >= old(faults) && (r.Ok? <==> faults == old(faults))
      ensures r.Raised? ==> r.fault == Other
      ensures store == Rest(old(store)) && (r.Ok? <==> First(old(store)).Works?)
      ensures FromOld(old(store), store)
    {
      var s := Answer();
      return if s.Works? then Ok(()) else Raised(Other);
    }

    /** GUARD._read_marker: fails on a missing or unparsable marker. */
    method ReadMarker() returns (r: Outcome<Marker>)
      modifies `store, `faults, `marker
      ensures faults >= old(faults) && FromOld(old(store), store)
      ensures store == Rest(old(store))
      ensures Honest(old(store)) ==>
                marker == old(marker)
                && (r.Ok? <==> First(old(store)).Works? && marker.Some? && marker.value.Marker?)
      ensures Mild(old(store)) ==>
                marker == old(marker) && (r.Raised? && marker.Some? && marker.value.Marker? ==> faults > old(faults))
      ensures r.Ok? ==> marker == Some(r.value) && r.value.Marker?
      ensures r.Raised? ==> r.fault == Other
      ensures faults == old(faults) ==>
                marker == old(marker) && (r.Ok? <==> marker.Some? && marker.value.Marker?)
    {
      var s := Answer();
      if s.Intrudes? {
        marker := Some(s.foreign);
      } else if !s.Works? {
        return Raised(Other);
      }
      return if marker.Some? && marker.value.Marker? then Ok(marker.value) else Raised(Other);
    }

    /** Rewrites the marker file and flushes it. */
    method Rewrite(next: Marker) returns (r: Outcome<()>)
      modifies `store, `faults, `marker, `overwritten
      ensures faults >= old(faults) && FromOld(old(store), store)
      ensures faults == old(faults) ==> r.Ok? && marker == Some(next)
      ensures store == Rest(old(store)) && (First(old(store)).Works? ==> r.Ok?)
      ensures Honest(old(store)) ==> (r.Ok? <==> First(old(store)).Works?)
      ensures Honest(old(store)) ==>
                marker == if Changes(old(store), 0) then Some(next) else old(marker)
      ensures Mild(old(store)) ==> marker == old(marker) || marker == Some(next)
      ensures r.Raised? ==> r.fault == Other
      ensures marker == old(marker) || marker == Some(next) || marker == Some(Torn)
      ensures overwritten == old(overwritten)
           || (old(marker).Some? && overwritten == old(overwritten) + [old(marker).value])
      ensures marker != old(marker) && old(marker).Some? ==> overwritten != old(overwritten)
    {
      var s := Answer();
      if s.Fails? || s.Intrudes? {
        return Raised(Other);
      }
      if s.Loses? {
        return Ok(());
      }
      overwritten := if marker.Some? then overwritten + [marker.value] else overwritten;
      marker := Some(if s.Tears? then Torn else next);
      return if s.Works? then Ok(()) else Raised(Other);
    }

    /** _update: verifies the identity, then rewrites the marker. */
    method Update(next: Marker) returns (r: Outcome<()>)
      modifies `store, `faults, `marker, `overwritten
      ensures faults >= old(faults) && FromOld(old(store), store)
      ensures faults == old(faults) ==> r.Ok? && marker == Some(next)
      ensures Honest(old(store)) ==> (r.Ok? <==> Reaches(old(store), 2))
      ensures Honest(old(store)) ==> marker == if Changes(old(store), 1) then Some(next) else old(marker)
      ensures store == if First(old(store)).Works? then Rest(Rest(old(store))) else Rest(old(store))
      ensures Mild(old(store)) ==> marker == old(marker) || marker == Some(next)
      ensures r.Raised? ==> r.fault == Other
      ensures marker == old(marker) || marker == Some(next) || marker == Some(Torn)
      ensures overwritten == old(overwritten)
           || (old(marker).Some? && overwritten == old(overwritten) + [old(marker).value])
      ensures marker != old(marker) && old(marker).Some? ==> overwritten != old(overwritten)
    {
      var _ :- VerifyIdentity();
      r := Rewrite(next);
    }

    /** begin: creates the marker file, which must not exist, and writes the pending marker to it. */
    method Begin() returns (r: Outcome<()>)
      requires !started
      modifies `store, `faults, `marker, `overwritten, `started
      ensures FromOld(old(store), store)
      ensures faults >= old(faults)
      ensures old(marker).None? && faults == old(faults) ==>
                r.Ok? && marker == Some(Marker(id, kind, Pending(project, pid)))
      ensures r.Ok? && Honest(old(store)) ==>
                Reaches(old(store), 3) && store == Skip(old(store), 3)
                && marker == Some(Marker(id, kind, Pending(project, pid)))
      ensures old(marker).None? && Reaches(old(store), 3) ==> r.Ok?
      ensures r.Ok? ==> started && old(marker).None?
      ensures r.Raised? ==> r.fault == Other
      ensures old(marker).Some? ==> marker == old(marker) && !started
      ensures marker == old(marker) || marker == Some(Torn)
           || marker == Some(Marker(id, kind, Pending(project, pid)))
    {
      if marker.Some? {
        return Raised(Other);
      }
      var s := Answer();
      if s.Fails? || s.Intrudes? || s.Loses? {
        return Raised(Other);
      }
      marker := Some(Torn);
      if !s.Works? {
        return Raised(Other);
      }
      started := true;
      var _ :- Rewrite(Marker(id, kind, Pending(project, pid)));
      r := VerifyIdentity();
    }

    /** complete: a terminal marker carrying the digest it computed itself from the receipt. */
    method CompleteWith(path: string, digest: string, stamp: int) returns (r: Outcome<()>)
      modifies `store, `faults, `marker, `overwritten, `finished
      ensures FromOld(old(store), store)
      ensures faults >= old(faults)
      ensures faults == old(faults) ==> r.Ok? && marker == Some(Completed(id, kind, path, digest, stamp))
      ensures Honest(old(store)) ==> (r.Ok? <==> Reaches(old(store), 3))
      ensures Honest(old(store)) && r.Ok? ==> store == Skip(old(store), 3)
      ensures Honest(old(store)) && r.Raised? && Changes(old(store), 2) ==> store == Skip(old(store), 3)
      ensures Honest(old(store)) ==>
                marker == if Changes(old(store), 2) then Some(Completed(id, kind, path, digest, stamp)) else old(marker)
      ensures r.Ok? ==> finished
      ensures overwritten == old(overwritten)
           || (old(marker).Some? && overwritten == old(overwritten) + [old(marker).value])
      ensures r.Raised? ==> r.fault == Other && finished == old(finished)
      ensures marker == old(marker) || marker == Some(Torn)
           || marker == Some(Completed(id, kind, path, digest, stamp))
    {
      var s := Answer();
      if !s.Works? {
        return Raised(Other);
      }
      var _ :- Update(Completed(id, kind, path, digest, stamp));
      finished := true;
      return Ok(());
    }

    /** Leaving the guard context: an unfinished operation gets one best-effort UNKNOWN marker. */
    method Exit()
      modifies `store, `faults, `marker, `overwritten
      ensures faults >= old(faults)
      ensures old(!started || finished) ==> marker == old(marker) && faults == old(faults)
      ensures started && !finished && faults == old(faults) ==>
                marker == Some(Marker(id, kind, Unknown("", 0, None, "", "")))
      ensures started && !finished && Honest(old(store)) ==>
                marker == if Changes(old(store), 1) then Some(Marker(id, kind, Unknown("", 0, None, "", "")))
                          else old(marker)
      ensures marker == old(marker) || marker == Some(Torn)
           || marker == Some(Marker(id, kind, Unknown("", 0, None, "", "")))
    {
      if started && !finished {
        var _ := Update(Marker(id, kind, Unknown("", 0, None, "", "")));
      }
    }

    /** Fields every marker of this operation carries. */
    predicate Ours(m: Marker) {
      && m.Marker? && m.trialId == id && m.kind == kind
      && (m.body.Pending? || m.body.Unknown? ==> m.body.project == project && m.body.pid == pid)
    }

    /** _read_stability_operation_marker: refusing also stops the context from rewriting the marker. */
    method ReadOwn() returns (r: Outcome<Marker>)
      modifies `store, `faults, `marker, `finished
      ensures faults >= old(faults) && FromOld(old(store), store)
      ensures r.Ok? ==> marker == Some(r.value) && Ours(r.value) && finished == old(finished)
      ensures r.Ok? ==> r.value.Marker? && r.value.trialId == id && r.value.kind == kind
      ensures r.Ok? && (r.value.body.Pending? || r.value.body.Unknown?) ==>
                r.value.body.project == project && r.value.body.pid == pid
      ensures r.Raised? ==> r.fault == Terminal(AmbiguousMarker) && finished == (old(finished) || started)
      ensures Honest(old(store)) ==>
                marker == old(marker)
                && (r.Ok? <==> started && Reaches(old(store), 3) && marker.Some? && Ours(marker.value))
      ensures r.Ok? ==> store == Skip(old(store), 3)
      ensures faults == old(faults) ==> marker == old(marker)
      ensures faults == old(faults) ==> (r.Ok? <==> started && marker.Some? && Ours(marker.value))
    {
      if started {
        var before := VerifyIdentity();
        if before.Ok? {
          var read := ReadMarker();
          if read.Ok? {
            var again := VerifyIdentity();
            if again.Ok? && Ours(read.value) {
              return Ok(read.value);
            }
          }
        }
      }
      finished := finished || started;
      return Raised(Terminal(AmbiguousMarker));
    }

    /** _require_stability_marker_phase for the pending phase: a mismatch ends the operation. */
    method RequirePending(m: Marker) returns (r: Outcome<()>)
      modifies `finished
      ensures r.Ok? ==> m.Marker? && m.body.Pending? && finished == old(finished)
      ensures r.Raised? ==> r.fault == Terminal(AmbiguousMarker) && !(m.Marker? && m.body.Pending?)
      ensures r.Raised? ==> finished == (old(finished) || started)
    {
      if m.Marker? && m.body.Pending? {
        return Ok(());
      }
      finished := finished || started;
      return Raised(Terminal(AmbiguousMarker));
    }

    /** The same for the completed phase, which binds the receipt by path and digest. */
    method RequireComplete(m: Marker, path: string, sha: string) returns (r: Outcome<()>)
      ensures r.Ok? <==> Binds(m, path, sha)
      ensures r.Raised? ==> r.fault == Terminal(AmbiguousMarker)
    {
      return if Binds(m, path, sha) then Ok(()) else Raised(Terminal(AmbiguousMarker));
    }

    /** The UNKNOWN marker that records a success which came too late. */
    function LateMarker(completed: Marker, path: string, sha: string): Marker {
      Marker(id, kind, Unknown(project, pid, Some(completed), path, sha))
    }

    /** It names the operation and its process, keeps the completed marker, and names the receipt. */
    lemma LateMarkerCarries(completed: Marker, path: string, sha: string)
      ensures LateMarker(completed, path, sha)
           == Marker(id, kind, Unknown(project, pid, late := Some(completed), receipt := path, sha := sha))
      ensures forall other :: LateMarker(other, path, sha) == LateMarker(completed, path, sha) ==> other == completed
    {
    }

    /**
     * _demote_late_stability_completion. A normal return means the late UNKNOWN marker was read
     * back from the store; nothing but this operation's completed marker, or that UNKNOWN marker, is
     * ever overwritten; a marker that is neither is left as found; and unless something is torn or
     * foreign, it takes two store faults to make it give up.
     */
    method Demote(completed: Marker, path: string, sha: string) returns (r: Outcome<()>)
      requires started && finished && Binds(completed, path, sha)
      modifies `store, `faults, `marker, `overwritten, `finished
      ensures FromOld(old(store), store)
      ensures faults >= old(faults)
      ensures r.Ok? ==> marker == Some(LateMarker(completed, path, sha)) && finished
      ensures r.Ok? ==>
                marker.value.Marker? && marker.value.trialId == id && marker.value.kind == kind
                && marker.value.body == Unknown(project, pid, Some(completed), path, sha)
      ensures r.Raised? ==> r.fault == Other || r.fault == Terminal(AmbiguousMarker)
      ensures r.Raised? ==> (finished <==> r.fault.Terminal?)
      ensures Honest(old(store)) && old(marker) == Some(completed) && Ours(completed) ==>
                marker in {Some(completed), Some(LateMarker(completed, path, sha))}
                && (r.Raised? && r.fault.Terminal? <==> !Reaches(old(store), 3))
                && (r.Raised? && r.fault.Terminal? ==> marker == Some(completed))
                && (r == Raised(Other) && marker == Some(completed) ==>
                      !Changes(Skip(old(store), 3), 3) && !Changes(AfterFailure(Skip(old(store), 3)), 3)
                      && store == AfterFailure(AfterFailure(Skip(old(store), 3))))
                && (r.Ok? || marker != Some(completed) ==>
                      Changes(Skip(old(store), 3), 3) || Changes(AfterFailure(Skip(old(store), 3)), 3))
      ensures OnlyOurs(old(overwritten), overwritten, {completed, LateMarker(completed, path, sha)})
      ensures faults == old(faults) && Ours(completed) ==> (r.Ok? <==> old(marker) == Some(completed))
      ensures Mild(old(store)) && r == Raised(Other) ==> faults >= old(faults) + 2
      ensures r.Raised? && faults == old(faults) ==> marker == old(marker) && r.fault.Terminal?
    {
      hide Reaches, Changes, AfterFailure, First, Rest, Skip;
      var unknown := LateMarker(completed, path, sha);
      var current :- ReadOwn();
      var _ :- RequireComplete(current, path, sha);
      if current != completed {
        finished := true;
        return Raised(Terminal(AmbiguousMarker));
      }
      ghost var reached := store;
      var attempt := 0;
      while attempt < 2
        invariant 0 <= attempt <= 2 && faults >= old(faults)
        invariant faults == old(faults) ==> attempt == 0 && marker == old(marker) == Some(completed)
        invariant OnlyOurs(old(overwritten), overwritten, {completed, unknown})
        invariant FromOld(old(store), store)
        invariant Honest(old(store)) && old(marker) == Some(completed) ==>
            AttemptsLeft(reached, store, attempt, marker == Some(completed))
            && marker in {Some(completed), Some(unknown)}
        invariant Mild(old(store)) ==>
            Mild(store) && faults >= old(faults) + attempt && marker in {Some(completed), Some(unknown)}
      {
        r := TryDemote(completed, unknown);
        if r.Ok? || r.fault.Terminal? {
          finished := true;
          return;
        }
        attempt := attempt + 1;
      }
      finished := false;
      return Raised(Other);
    }

    /** The identity check and the read that follows it. */
    method ReadAgain() returns (r: Outcome<Marker>)
      modifies `store, `faults, `marker
      ensures faults >= old(faults) && FromOld(old(store), store)
      ensures store == if First(old(store)).Works? then Rest(Rest(old(store))) else Rest(old(store))
      ensures Honest(old(store)) ==>
                marker == old(marker)
                && (r.Ok? <==> Reaches(old(store), 2) && marker.Some? && marker.value.Marker?)
      ensures Mild(old(store)) ==>
                marker == old(marker) && (r.Raised? && marker.Some? && marker.value.Marker? ==> faults > old(faults))
      ensures r.Ok? ==> marker == Some(r.value) && r.value.Marker?
      ensures r.Raised? ==> r.fault == Other
      ensures faults == old(faults) ==>
                marker == old(marker) && (r.Ok? <==> marker.Some? && marker.value.Marker?)
    {
      var _ :- VerifyIdentity();
      r := ReadMarker();
    }

    /** One attempt: check what is there, rewrite it, and read it back. */
    method TryDemote(completed: Marker, unknown: Marker) returns (r: Outcome<()>)
      requires completed.Marker? && unknown.Marker?
      modifies `store, `faults, `marker, `overwritten
      ensures faults >= old(faults) && FromOld(old(store), store)
      ensures Mild(old(store)) && old(marker) in {Some(completed), Some(unknown)} ==>
                marker in {Some(completed), Some(unknown)} && (r.Ok? || (r.fault == Other && faults > old(faults)))
      ensures r.Ok? ==> marker == Some(unknown)
      ensures r.Raised? ==> r.fault == Other || r.fault == Terminal(AmbiguousMarker)
      ensures r.Raised? && r.fault.Terminal? ==>
                overwritten == old(overwritten) && marker != Some(completed) && marker != Some(unknown)
      ensures Honest(old(store)) && old(marker) == Some(unknown) ==>
                marker == old(marker) && (r.Ok? || r.fault == Other)
      ensures Honest(old(store)) && old(marker) == Some(completed) ==>
                marker == Some(if Changes(old(store), 3) then unknown else completed)
                && (r.Ok? ==> Changes(old(store), 3)) && (r.Raised? ==> r.fault == Other)
                && (!Changes(old(store), 3) ==> store == AfterFailure(old(store)))
      ensures OnlyOurs(old(overwritten), overwritten, {completed, unknown})
      ensures faults == old(faults) && (old(marker) == Some(completed) || old(marker) == Some(unknown)) ==> r.Ok?
    {
      hide Reaches, Changes, AfterFailure, First, Rest, Skip;
      AttemptFails(store);
      var current :- ReadAgain();
      if current != completed && current != unknown {
        return Raised(Terminal(AmbiguousMarker));
      }
      var _ :- Update(unknown);
      var persisted :- ReadAgain();
      return if persisted == unknown then Ok(()) else Raised(Other);
    }
  }

  /** Everything overwritten since is one of the given markers. */
  ghost predicate OnlyOurs(before: seq<Marker>, after: seq<Marker>, ours: set<Marker>) {
    before <= after && forall i :: |before| <= i < |after| ==> after[i] in ours
  }
}
