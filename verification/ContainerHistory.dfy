/** What the history of one container says: measures read off the marks alone, without the
    protocol state. */
module ContainerHistory {
  import opened ActionProtocol
  import opened Common
  import opened ContainerState

  /** The mark ends the life of a state entry. */
  predicate Deletes(m: Mark) {
    m.ContainerRecovered? || m.StateReset?
  }

  /** Actions started since the entry was last deleted. */
  function StartsSinceDeletion(h: seq<Mark>): nat {
    if h == [] || Deletes(Last(h)) then 0
    else StartsSinceDeletion(Front(h)) + if Last(h).ActionStarted? then 1 else 0
  }

  /** No stretch of the history between two deletions has more than `r` starts. */
  predicate StartsStayWithin(h: seq<Mark>, r: int) {
    StartsSinceDeletion(h) <= r && (h != [] ==> StartsStayWithin(Front(h), r))
  }

  /** Exhaustions logged since the state was last reset. */
  function ExhaustionsLogged(h: seq<Mark>): nat {
    if h == [] || Last(h).StateReset? then 0
    else ExhaustionsLogged(Front(h)) + if Last(h).ExhaustionLogged? then 1 else 0
  }

  /** Between two resets exhaustion is logged at most once. */
  predicate LoggedOnce(h: seq<Mark>) {
    ExhaustionsLogged(h) <= 1 && (h != [] ==> LoggedOnce(Front(h)))
  }

  predicate NoStartAfterExhaustion(h: seq<Mark>) {
    h != [] ==>
      NoStartAfterExhaustion(Front(h)) && (Last(h).ActionStarted? ==> ExhaustionsLogged(Front(h)) == 0)
  }

  /** The latest time up to which any wait set since the last reset runs; 0 if none was set. */
  function LatestWait(h: seq<Mark>): int {
    if h == [] || Last(h).StateReset? then 0
    else
      var before := LatestWait(Front(h));
      if Last(h).WaitSet? && Last(h).until > before then Last(h).until else before
  }

  predicate WaitsRespected(h: seq<Mark>) {
    h != [] ==>
      WaitsRespected(Front(h)) && (Last(h).ActionStarted? ==> LatestWait(Front(h)) <= Last(h).at)
  }

  /** The mark ends a stretch of stable scans. */
  predicate Breaks(m: Mark) {
    Deletes(m) || m.ActionFailed? || m.ProblemScan?
  }

  /** Scans that counted the container stable since it last failed, was seen problematic, or
      lost its entry. */
  function StableRun(h: seq<Mark>): nat {
    if h == [] || Breaks(Last(h)) then 0
    else StableRun(Front(h)) + if Last(h).StableScan? then 1 else 0
  }

  /** The last finished action failed, and the entry has not been deleted since. */
  predicate LastActionFailed(h: seq<Mark>) {
    h != [] && !Deletes(Last(h)) && (Last(h).ActionFailed? || (!Last(h).ActionSucceeded? && LastActionFailed(Front(h))))
  }

  /** The configured threshold in force; 0 if none was set since the last deletion. */
  function Threshold(h: seq<Mark>): int {
    if h == [] || Deletes(Last(h)) then 0
    else if Last(h).ThresholdSet? then Last(h).required
    else Threshold(Front(h))
  }

  function EffectiveThreshold(h: seq<Mark>): int {
    if Threshold(h) <= 0 then DEFAULT_STABLE_SCANS_REQUIRED else Threshold(h)
  }

  /** After a failed action a recovery is declared only once the stable run has reached the
      threshold. */
  predicate RecoveriesEarned(h: seq<Mark>) {
    h != [] ==>
      RecoveriesEarned(Front(h))
      && (Last(h).ContainerRecovered? && LastActionFailed(Front(h)) ==>
            EffectiveThreshold(Front(h)) <= StableRun(Front(h)))
  }

  // ---------- The measures in terms of positions ----------

  lemma {:induction false} PrefixStartsWithin(h: seq<Mark>, r: int, i: nat)
    requires StartsStayWithin(h, r) && i <= |h|
    ensures StartsSinceDeletion(h[..i]) <= r
  {
    if i == |h| {
      assert h[..i] == h;
    } else {
      PrefixStartsWithin(Front(h), r, i);
      assert Front(h)[..i] == h[..i];
    }
  }

  /** The state is not reset after position `i` and before `k`. */
  predicate NoResetBetween(h: seq<Mark>, i: nat, k: nat)
    requires k <= |h|
  {
    forall x :: i < x < k ==> !h[x].StateReset?
  }

  function StartsIn(h: seq<Mark>): nat {
    if h == [] then 0 else StartsIn(Front(h)) + if Last(h).ActionStarted? then 1 else 0
  }

  /** The entry is not deleted from position `from` up to `k`. */
  predicate NoDeletion(h: seq<Mark>, from: nat, k: nat)
    requires k <= |h|
  {
    forall x :: from <= x < k ==> !h[x].ContainerRecovered? && !h[x].StateReset?
  }

  /** The starts since the last deletion include those of every stretch without one. */
  lemma {:induction false} StretchCounted(h: seq<Mark>, from: nat)
    requires from <= |h| && NoDeletion(h, from, |h|)
    ensures StartsIn(h[from..]) <= StartsSinceDeletion(h)
  {
    if from < |h| {
      StretchCounted(Front(h), from);
      assert h[from..] == Front(h)[from..] + [Last(h)];
      SplitLast(Front(h)[from..], Last(h));
    }
  }

  lemma {:induction false} WaitBounds(h: seq<Mark>, i: nat)
    requires i < |h| && h[i].WaitSet? && NoResetBetween(h, i, |h|)
    ensures h[i].until <= LatestWait(h)
  {
    if i < |h| - 1 {
      WaitBounds(Front(h), i);
    }
  }

  /** No action starts before the end of a wait that was set earlier, unless the state was reset
      in between. */
  lemma {:induction false} NoStartInsideWait(h: seq<Mark>, i: nat, k: nat)
    requires WaitsRespected(h) && i < k < |h| && h[i].WaitSet? && h[k].ActionStarted? && NoResetBetween(h, i, k)
    ensures h[i].until <= h[k].at
  {
    if k < |h| - 1 {
      NoStartInsideWait(Front(h), i, k);
    } else {
      WaitBounds(Front(h), i);
    }
  }

  /** Until the state is reset, nothing starts and nothing is logged again after exhaustion. */
  lemma {:induction false} NothingPastExhaustion(h: seq<Mark>, i: nat, k: nat)
    requires NoStartAfterExhaustion(h) && LoggedOnce(h)
    requires i < k < |h| && h[i].ExhaustionLogged? && NoResetBetween(h, i, k)
    ensures !h[k].ActionStarted? && !h[k].ExhaustionLogged?
  {
    if k < |h| - 1 {
      NothingPastExhaustion(Front(h), i, k);
    } else {
      ExhaustionCounted(Front(h), i);
    }
  }

  lemma {:induction false} ExhaustionCounted(h: seq<Mark>, i: nat)
    requires i < |h| && h[i].ExhaustionLogged? && NoResetBetween(h, i, |h|)
    ensures ExhaustionsLogged(h) >= 1
  {
    if i < |h| - 1 {
      ExhaustionCounted(Front(h), i);
    }
  }

  function StableScansIn(h: seq<Mark>): nat {
    if h == [] then 0 else StableScansIn(Front(h)) + if Last(h).StableScan? then 1 else 0
  }

  lemma StableScansNext(h: seq<Mark>, from: nat)
    requires h != [] && from < |h|
    ensures StableScansIn(h[from..]) == StableScansIn(Front(h)[from..]) + if Last(h).StableScan? then 1 else 0
  {
    assert h[from..] == Front(h)[from..] + [Last(h)];
    SplitLast(Front(h)[from..], Last(h));
  }

  /** The stable run counts the stable scans of a final stretch of the history in which the
      container neither failed nor was seen problematic nor lost its entry. */
  lemma {:induction false} StableRunIsAStretch(h: seq<Mark>) returns (from: nat)
    ensures from <= |h| && StableScansIn(h[from..]) == StableRun(h)
    ensures forall k :: from <= k < |h| ==> !Breaks(h[k])
    ensures from > 0 ==> Breaks(h[from - 1])
  {
    if h == [] || Breaks(Last(h)) {
      from := |h|;
    } else {
      from := StableRunIsAStretch(Front(h));
      StableScansNext(h, from);
    }
  }

  /** From position `from` up to the recovery at `k` the container was counted stable at least
      as often as required, and nothing else was seen of it. */
  predicate EarnedBy(h: seq<Mark>, from: nat, k: nat)
    requires from <= k <= |h|
  {
    && (if Threshold(h[..k]) > 0 then Threshold(h[..k]) else 3) <= StableScansIn(h[from..k])
    && forall i :: from <= i < k ==>
         !h[i].ActionFailed? && !h[i].ProblemScan? && !h[i].ContainerRecovered? && !h[i].StateReset?
  }

  /** Every recovery after a failed action comes at the end of a stretch with at least the
      required number of stable scans, in which nothing else was seen. */
  lemma RecoveryNeedsStableScans(h: seq<Mark>, k: nat) returns (from: nat)
    requires RecoveriesEarned(h) && k < |h| && h[k].ContainerRecovered? && LastActionFailed(h[..k])
    ensures from <= k && EarnedBy(h, from, k)
  {
    RecoveryEarnedAt(h, k);
    from := StableRunIsAStretch(h[..k]);
    assert h[..k][from..] == h[from..k];
    assert forall i :: from <= i < k ==> h[..k][i] == h[i];
  }

  lemma {:induction false} RecoveryEarnedAt(h: seq<Mark>, k: nat)
    requires RecoveriesEarned(h) && k < |h| && h[k].ContainerRecovered? && LastActionFailed(h[..k])
    ensures EffectiveThreshold(h[..k]) <= StableRun(h[..k])
  {
    if k < |h| - 1 {
      assert Front(h)[..k] == h[..k];
      RecoveryEarnedAt(Front(h), k);
    }
  }

  // ---------- The last of its kind ----------

  /** The threshold in force is the one set last, if the entry has not been deleted since. */
  lemma {:induction false} ThresholdMeans(h: seq<Mark>, i: nat)
    requires i < |h| && NoDeletion(h, i, |h|) && h[i].ThresholdSet?
    requires forall k :: i < k < |h| ==> !h[k].ThresholdSet?
    ensures Threshold(h) == h[i].required
  {
    if i < |h| - 1 { ThresholdMeans(Front(h), i); }
  }

  /** And there is none if none was set since the entry was deleted. */
  lemma {:induction false} NoThreshold(h: seq<Mark>, from: nat)
    requires from <= |h| && forall k :: from <= k < |h| ==> !h[k].ThresholdSet?
    requires from == 0 || h[from - 1].ContainerRecovered? || h[from - 1].StateReset?
    ensures Threshold(h) == 0
  {
    if from < |h| { NoThreshold(Front(h), from); }
  }

  predicate LastFailureAt(h: seq<Mark>, i: nat) {
    && i < |h| && h[i].ActionFailed? && NoDeletion(h, i, |h|)
    && forall k :: i < k < |h| ==> !h[k].ActionSucceeded?
  }

  /** The last action failed exactly if some action failed, none has succeeded after it, and the
      entry has not been deleted since. */
  lemma {:induction false} LastActionFailedMeans(h: seq<Mark>)
    ensures LastActionFailed(h) <==> exists i: nat :: LastFailureAt(h, i)
  {
    if h != [] {
      LastActionFailedMeans(Front(h));
      if Last(h).ActionFailed? {
        assert LastFailureAt(h, |h| - 1);
      } else {
        forall i: nat | i < |h| - 1 && !Deletes(Last(h)) && !Last(h).ActionSucceeded?
          ensures LastFailureAt(h, i) <==> LastFailureAt(Front(h), i)
        {
          assert forall k :: 0 <= k < |h| - 1 ==> Front(h)[k] == h[k];
        }
        if LastActionFailed(h) {
          var i: nat :| LastFailureAt(Front(h), i);
          assert LastFailureAt(h, i);
        }
        if i: nat :| LastFailureAt(h, i) {
          assert h[|h| - 1] == Last(h) && i < |h| - 1;
          assert LastFailureAt(Front(h), i);
        }
      }
    }
  }
}
