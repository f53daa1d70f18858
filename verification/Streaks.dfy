/** Runs of consecutive flags, the notion behind every "N samples in a row" test. */
module Streaks {

  /** The length of the longest suffix in which every flag is set. */
  function Streak(flags: seq<bool>): nat
    decreases |flags|
  {
    if flags == [] || !flags[|flags| - 1] then 0 else Streak(flags[..|flags| - 1]) + 1
  }

  lemma StreakGrows(flags: seq<bool>, b: bool)
    ensures Streak(flags + [b]) == if b then Streak(flags) + 1 else 0
  {
  }

  /** The k flags from position i are all set. */
  predicate AllSet(flags: seq<bool>, i: nat, k: nat) {
    i + k <= |flags| && forall j :: i <= j < i + k ==> flags[j]
  }

  ghost predicate HasRun(flags: seq<bool>, k: nat) {
    exists i: nat :: AllSet(flags, i, k)
  }

  /** A streak is set throughout and cannot be extended to the left. */
  lemma {:induction false} StreakIsMaximal(flags: seq<bool>)
    ensures Streak(flags) <= |flags|
    ensures AllSet(flags, |flags| - Streak(flags), Streak(flags))
    ensures Streak(flags) < |flags| ==> !flags[|flags| - 1 - Streak(flags)]
    decreases |flags|
  {
    if flags != [] && flags[|flags| - 1] {
      StreakIsMaximal(flags[..|flags| - 1]);
    }
  }

  lemma StreakOf(flags: seq<bool>, k: nat)
    requires k <= |flags|
    ensures Streak(flags) >= k <==> AllSet(flags, |flags| - k, k)
  {
    StreakIsMaximal(flags);
  }

  /** A new flag completes a run of k exactly when the streak it ends is that long. */
  lemma HasRunGrows(flags: seq<bool>, b: bool, k: nat)
    requires k > 0
    ensures HasRun(flags + [b], k) <==> HasRun(flags, k) || Streak(flags + [b]) >= k
  {
    var longer := flags + [b];
    StreakIsMaximal(longer);
    if HasRun(flags, k) {
      var i: nat :| AllSet(flags, i, k);
      forall j | i <= j < i + k ensures longer[j] {
        assert flags[j];
      }
      assert AllSet(longer, i, k);
    }
    if Streak(longer) >= k {
      StreakOf(longer, k);
    }
    if HasRun(longer, k) {
      var i: nat :| AllSet(longer, i, k);
      if i + k < |longer| {
        forall j | i <= j < i + k ensures flags[j] {
          assert longer[j];
        }
        assert AllSet(flags, i, k);
      } else {
        StreakOf(longer, k);
      }
    }
  }

  lemma NoRunOfUnset(flags: seq<bool>, k: nat)
    requires k > 0 && forall j :: 0 <= j < |flags| ==> !flags[j]
    ensures !HasRun(flags, k)
  {
    assert forall i: nat :: AllSet(flags, i, k) ==> flags[i];
  }
}
