/** The boot-attempt counter: which file contents are trusted, and what a run of boots does to it. */
module BootCounter {
  import opened Common
  import opened Decimal

  const LIMIT := 9_999_999

  /** The stored attempt number, when the code is willing to count on from it. */
  function Trusted(content: string): Option<nat> {
    var n := DigitRun(content);
    if 0 < n <= 7 && (n == |content| || (n == |content| - 1 && content[n] == '\n'))
       && Value(content[..n]) < LIMIT
    then Some(Value(content[..n]))
    else None
  }

  /** One to seven digits that denote a number below the limit, with an optional final newline. */
  ghost predicate Spells(content: string, digits: string, n: nat) {
    && AllDigits(digits) && 1 <= |digits| <= 7 && Value(digits) == n < 9_999_999
    && (content == digits || content == digits + "\n")
  }

  /** Trusted contents are exactly those. */
  lemma TrustedExactly(content: string, n: nat)
    ensures Trusted(content) == Some(n) <==> exists digits :: Spells(content, digits, n)
  {
    if Trusted(content) == Some(n) {
      var digits := content[..DigitRun(content)];
      assert content == digits || content == digits + "\n";
      assert Spells(content, digits, n);
    }
    forall digits | Spells(content, digits, n)
      ensures Trusted(content) == Some(n)
    {
      SpelledIsTrusted(content, digits, n);
    }
  }

  lemma SpelledIsTrusted(content: string, digits: string, n: nat)
    requires Spells(content, digits, n)
    ensures Trusted(content) == Some(n)
  {
    assert content[..|digits|] == digits;
    DigitRunIs(content, |digits|);
  }

  lemma PrintedIsTrusted(n: nat)
    requires n < LIMIT
    ensures Trusted(Print(n)) == Some(n)
  {
    PrintParses(n);
    assert Pow10(7) == 10_000_000;
    PrintLength(n, 7);
    SpelledIsTrusted(Print(n), Print(n), n);
  }

  lemma PrintIsShort(n: nat)
    requires n <= LIMIT
    ensures |Print(n)| <= 7
  {
    PrintLength(n, 7);
  }

  /** The number a boot counts on from: 0 when no file exists yet. */
  function Previous(stored: Option<string>): Option<nat> {
    if stored.None? then Some(0) else Trusted(stored.value)
  }

  /** The attempt number a boot stores and reports when nothing goes wrong. */
  function Successor(stored: Option<string>): Option<nat> {
    if Previous(stored).Some? then Some(Previous(stored).value + 1) else None
  }

  /** The first boot is number 1, and each later one follows the number its file spells. */
  lemma SuccessorIs(content: string, digits: string, n: nat)
    ensures Successor(None) == Some(1)
    ensures Spells(content, digits, n) ==> Successor(Some(content)) == Some(n + 1)
    ensures Trusted(content) == None ==> Successor(Some(content)) == None
  {
    if Spells(content, digits, n) {
      SpelledIsTrusted(content, digits, n);
    }
  }

  /** What one boot may do, wherever it stops: nothing, or store and then maybe report the successor. */
  ghost predicate Attempt(before: Option<string>, after: Option<string>, reported: Option<nat>) {
    || (after == before && reported == None)
    || (&& Previous(before).Some?
        && after == Some(Print(Previous(before).value + 1))
        && (reported == None || reported == Some(Previous(before).value + 1)))
  }

  /** A run of boots: states[i] is what boot i finds, states[i + 1] what it leaves. */
  ghost predicate Run(states: seq<Option<string>>, reports: seq<Option<nat>>) {
    && |states| == |reports| + 1
    && forall i :: 0 <= i < |reports| ==> Attempt(states[i], states[i + 1], reports[i])
  }

  /** The largest number this content can stand for, so that untrusted content ranks highest. */
  function Rank(stored: Option<string>): nat {
    if Previous(stored).Some? then Previous(stored).value else LIMIT
  }

  lemma AttemptCounts(before: Option<string>, after: Option<string>, reported: Option<nat>)
    requires Attempt(before, after, reported)
    ensures Rank(before) <= Rank(after) <= Rank(before) + 1
    ensures after != before ==> Rank(after) == Rank(before) + 1 && after == Some(Print(Rank(after)))
    ensures reported.Some? ==> reported.value == Rank(after) == Rank(before) + 1 <= LIMIT
  {
    if after != before || reported.Some? {
      var n := Previous(before).value;
      if n + 1 < LIMIT {
        PrintedIsTrusted(n + 1);
      } else {
        LastNumberIsFinal();
        if before.Some? {
          assert n < LIMIT;
        }
      }
    }
  }

  /** The largest number ever written is one the code then refuses to count on from. */
  lemma LastNumberIsFinal()
    ensures Trusted(Print(LIMIT)) == None
  {
    PrintParses(LIMIT);
    DigitRunIs(Print(LIMIT), |Print(LIMIT)|);
    assert Print(LIMIT)[..|Print(LIMIT)|] == Print(LIMIT);
  }

  lemma {:induction false} RunRanks(states: seq<Option<string>>, reports: seq<Option<nat>>, i: nat, j: nat)
    requires Run(states, reports) && i <= j <= |reports|
    ensures Rank(states[i]) <= Rank(states[j]) <= Rank(states[i]) + (j - i)
    decreases j
  {
    if i < j {
      RunRanks(states, reports, i, j - 1);
      AttemptCounts(states[j - 1], states[j], reports[j - 1]);
    }
  }

  /** Reported attempt numbers strictly increase over any run of boots. */
  lemma ReportsIncrease(states: seq<Option<string>>, reports: seq<Option<nat>>, i: nat, j: nat)
    requires Run(states, reports) && i < j < |reports|
    requires reports[i].Some? && reports[j].Some?
    ensures reports[i].value < reports[j].value <= LIMIT
  {
    AttemptCounts(states[i], states[i + 1], reports[i]);
    RunRanks(states, reports, i + 1, j);
    AttemptCounts(states[j], states[j + 1], reports[j]);
  }

  /** Whatever happens, the file holds its original content or a printed number no greater than the limit. */
  lemma {:induction false} NeverPartial(states: seq<Option<string>>, reports: seq<Option<nat>>, j: nat)
    requires Run(states, reports) && j <= |reports|
    ensures states[j] == states[0]
         || (Rank(states[0]) < Rank(states[j]) <= LIMIT && states[j] == Some(Print(Rank(states[j]))))
  {
    if j > 0 {
      NeverPartial(states, reports, j - 1);
      AttemptCounts(states[j - 1], states[j], reports[j - 1]);
      RunRanks(states, reports, 0, j - 1);
      RankBound(states[j]);
    }
  }

  lemma RankBound(stored: Option<string>)
    ensures Rank(stored) <= LIMIT
  {
  }

  /** Content the code does not trust survives every run, and no number is ever reported over it. */
  lemma {:induction false} UntrustedIsUntouched(states: seq<Option<string>>, reports: seq<Option<nat>>, j: nat)
    requires Run(states, reports) && j <= |reports|
    requires states[0].Some? && Trusted(states[0].value) == None
    ensures states[j] == states[0]
    ensures forall i :: 0 <= i < j ==> reports[i] == None
  {
    if j > 0 {
      UntrustedIsUntouched(states, reports, j - 1);
      assert Attempt(states[j - 1], states[j], reports[j - 1]);
    }
  }
}
