/**
 * The masternode data sync state machine (CMasternodeSync): which asset is being
 * requested, how many attempts were made, and when each stage started or failed.
 * The clock is the parameter `now`; the peer loop and its network messages are not modelled.
 */
module MasternodeSync {
  import opened Common

  // Asset identifiers, as declared in masternode-sync.h (not part of this model).
  const MASTERNODE_SYNC_FAILED: int := -1
  const MASTERNODE_SYNC_INITIAL: int := 0
  const MASTERNODE_SYNC_SPORKS: int := 1
  const MASTERNODE_SYNC_LIST: int := 2
  const MASTERNODE_SYNC_MNW: int := 3
  const MASTERNODE_SYNC_GOVERNANCE: int := 4
  const MASTERNODE_SYNC_FINISHED: int := 999

  const MASTERNODE_SYNC_TIMEOUT_SECONDS: int := 30

  /** Cooldown after a failed sync before ProcessTick resets it. */
  const FAILURE_COOLDOWN_SECONDS: int := 60

  /** The asset identifiers GetAssetName and GetSyncStatus know. */
  predicate IsKnownAsset(a: int)
  {
    a == MASTERNODE_SYNC_FAILED || a == MASTERNODE_SYNC_INITIAL || a == MASTERNODE_SYNC_SPORKS ||
    a == MASTERNODE_SYNC_LIST || a == MASTERNODE_SYNC_MNW || a == MASTERNODE_SYNC_GOVERNANCE ||
    a == MASTERNODE_SYNC_FINISHED
  }

  /** GetAssetName. */
  function AssetName(a: int): (name: string)
    ensures name == "UNKNOWN" <==> !IsKnownAsset(a)
  {
    if a == MASTERNODE_SYNC_INITIAL then "MASTERNODE_SYNC_INITIAL"
    else if a == MASTERNODE_SYNC_SPORKS then "MASTERNODE_SYNC_SPORKS"
    else if a == MASTERNODE_SYNC_LIST then "MASTERNODE_SYNC_LIST"
    else if a == MASTERNODE_SYNC_MNW then "MASTERNODE_SYNC_MNW"
    else if a == MASTERNODE_SYNC_GOVERNANCE then "MASTERNODE_SYNC_GOVERNANCE"
    else if a == MASTERNODE_SYNC_FAILED then "MASTERNODE_SYNC_FAILED"
    else if a == MASTERNODE_SYNC_FINISHED then "MASTERNODE_SYNC_FINISHED"
    else "UNKNOWN"
  }

  /** The asset a name stands for: the inverse of AssetName on known assets. */
  function AssetOfName(name: string): Option<int>
  {
    if name == "MASTERNODE_SYNC_INITIAL" then Some(MASTERNODE_SYNC_INITIAL)
    else if name == "MASTERNODE_SYNC_SPORKS" then Some(MASTERNODE_SYNC_SPORKS)
    else if name == "MASTERNODE_SYNC_LIST" then Some(MASTERNODE_SYNC_LIST)
    else if name == "MASTERNODE_SYNC_MNW" then Some(MASTERNODE_SYNC_MNW)
    else if name == "MASTERNODE_SYNC_GOVERNANCE" then Some(MASTERNODE_SYNC_GOVERNANCE)
    else if name == "MASTERNODE_SYNC_FAILED" then Some(MASTERNODE_SYNC_FAILED)
    else if name == "MASTERNODE_SYNC_FINISHED" then Some(MASTERNODE_SYNC_FINISHED)
    else None
  }

  /** Every known asset has its own name, so the name identifies the asset. */
  lemma AssetNameRoundTrip(a: int)
    ensures IsKnownAsset(a) ==> AssetOfName(AssetName(a)) == Some(a)
    ensures !IsKnownAsset(a) ==> AssetOfName(AssetName(a)) == None
  {
  }

  /** GetSyncStatus, before translation. */
  function SyncStatus(a: int): (status: string)
    ensures status == [] <==> !IsKnownAsset(a)
  {
    if a == MASTERNODE_SYNC_INITIAL then "Synchronization pending..."
    else if a == MASTERNODE_SYNC_SPORKS then "Synchronizing sporks..."
    else if a == MASTERNODE_SYNC_LIST then "Synchronizing masternodes..."
    else if a == MASTERNODE_SYNC_MNW then "Synchronizing masternode payments..."
    else if a == MASTERNODE_SYNC_GOVERNANCE then "Synchronizing governance objects..."
    else if a == MASTERNODE_SYNC_FAILED then "Synchronization failed"
    else if a == MASTERNODE_SYNC_FINISHED then "Synchronization finished"
    else ""
  }

  /**
   * The asset SwitchToNextAsset moves to: one step along
   * INITIAL, SPORKS, LIST, MNW, GOVERNANCE, FINISHED; any other value stays.
   * (From FAILED the switch throws instead.)
   */
  function NextAsset(a: int): int
  {
    if a == MASTERNODE_SYNC_INITIAL then MASTERNODE_SYNC_SPORKS
    else if a == MASTERNODE_SYNC_SPORKS then MASTERNODE_SYNC_LIST
    else if a == MASTERNODE_SYNC_LIST then MASTERNODE_SYNC_MNW
    else if a == MASTERNODE_SYNC_MNW then MASTERNODE_SYNC_GOVERNANCE
    else if a == MASTERNODE_SYNC_GOVERNANCE then MASTERNODE_SYNC_FINISHED
    else a
  }

  /** The asset after n switches. */
  function AfterSwitches(a: int, n: nat): int
    decreases n
  {
    if n == 0 then a else AfterSwitches(NextAsset(a), n - 1)
  }

  /** Each switch from a stage before FINISHED moves strictly forward and never reaches FAILED. */
  lemma NextAssetAdvances(a: int)
    requires MASTERNODE_SYNC_INITIAL <= a <= MASTERNODE_SYNC_GOVERNANCE
    ensures a < NextAsset(a) && NextAsset(a) != MASTERNODE_SYNC_FAILED && IsKnownAsset(NextAsset(a))
  {
  }

  /** Switches still needed from a stage to FINISHED. */
  function StepsToFinish(a: int): int
  {
    if a == MASTERNODE_SYNC_FINISHED then 0 else MASTERNODE_SYNC_GOVERNANCE - a + 1
  }

  /** Every stage reaches FINISHED after its remaining steps (at most five) and then stays there. */
  lemma {:induction false} SwitchesReachFinished(a: int, n: nat)
    requires MASTERNODE_SYNC_INITIAL <= a <= MASTERNODE_SYNC_GOVERNANCE || a == MASTERNODE_SYNC_FINISHED
    requires n >= StepsToFinish(a)
    ensures AfterSwitches(a, n) == MASTERNODE_SYNC_FINISHED
    decreases StepsToFinish(a)
  {
    if a == MASTERNODE_SYNC_FINISHED {
      FinishedIsFinal(n);
    } else {
      var b := NextAsset(a);
      assert b == MASTERNODE_SYNC_FINISHED || b == a + 1;
      if b == MASTERNODE_SYNC_FINISHED {
        FinishedIsFinal(n - 1);
      } else {
        SwitchesReachFinished(b, n - 1);
      }
    }
  }

  lemma {:induction false} FinishedIsFinal(n: nat)
    ensures AfterSwitches(MASTERNODE_SYNC_FINISHED, n) == MASTERNODE_SYNC_FINISHED
  {
    if n > 0 {
      FinishedIsFinal(n - 1);
    }
  }

  /** From INITIAL the sync takes exactly five switches: after four it is still in GOVERNANCE. */
  lemma FullSyncTakesFiveSwitches()
    ensures AfterSwitches(MASTERNODE_SYNC_INITIAL, 4) == MASTERNODE_SYNC_GOVERNANCE
    ensures AfterSwitches(MASTERNODE_SYNC_INITIAL, 5) == MASTERNODE_SYNC_FINISHED
  {
    assert AfterSwitches(MASTERNODE_SYNC_GOVERNANCE, 0) == MASTERNODE_SYNC_GOVERNANCE;
    assert AfterSwitches(MASTERNODE_SYNC_GOVERNANCE, 1) == MASTERNODE_SYNC_FINISHED;
  }

  class MasternodeSyncState {
    var nRequestedMasternodeAssets: int
    var nRequestedMasternodeAttempt: int
    var nTimeAssetSyncStarted: int
    var nTimeLastMasternodeList: int
    var nTimeLastPaymentVote: int
    var nTimeLastBudgetItem: int
    var nTimeLastFailure: int
    var nCountFailures: int

    /** The state Reset(now) leaves behind. */
    ghost predicate IsResetAt(now: int)
      reads this
    {
      nRequestedMasternodeAssets == MASTERNODE_SYNC_INITIAL && nRequestedMasternodeAttempt == 0 &&
      nTimeAssetSyncStarted == now && nTimeLastMasternodeList == now && nTimeLastPaymentVote == now &&
      nTimeLastBudgetItem == now && nTimeLastFailure == 0 && nCountFailures == 0
    }

    predicate IsFailed()
      reads this
    {
      nRequestedMasternodeAssets == MASTERNODE_SYNC_FAILED
    }

    predicate IsSynced()
      reads this
    {
      nRequestedMasternodeAssets == MASTERNODE_SYNC_FINISHED
    }

    function GetAssetName(): (name: string)
      reads this
      ensures name == "UNKNOWN" <==> !IsKnownAsset(nRequestedMasternodeAssets)
    {
      AssetName(nRequestedMasternodeAssets)
    }

    function GetSyncStatus(): (status: string)
      reads this
      ensures status == [] <==> !IsKnownAsset(nRequestedMasternodeAssets)
    {
      SyncStatus(nRequestedMasternodeAssets)
    }

    method Fail(now: int)
      modifies this
      ensures nTimeLastFailure == now && nRequestedMasternodeAssets == MASTERNODE_SYNC_FAILED
      ensures nRequestedMasternodeAttempt == old(nRequestedMasternodeAttempt)
      ensures nTimeAssetSyncStarted == old(nTimeAssetSyncStarted)
      ensures nTimeLastMasternodeList == old(nTimeLastMasternodeList)
      ensures nTimeLastPaymentVote == old(nTimeLastPaymentVote)
      ensures nTimeLastBudgetItem == old(nTimeLastBudgetItem)
      ensures nCountFailures == old(nCountFailures)
    {
      nTimeLastFailure := now;
      nRequestedMasternodeAssets := MASTERNODE_SYNC_FAILED;
    }

    method Reset(now: int)
      modifies this
      ensures IsResetAt(now)
    {
      nRequestedMasternodeAssets := MASTERNODE_SYNC_INITIAL;
      nRequestedMasternodeAttempt := 0;
      nTimeAssetSyncStarted := now;
      nTimeLastMasternodeList := now;
      nTimeLastPaymentVote := now;
      nTimeLastBudgetItem := now;
      nTimeLastFailure := 0;
      nCountFailures := 0;
    }

    /**
     * SwitchToNextAsset. From FAILED it throws (`threw`) and changes nothing.
     * Otherwise the asset moves one step, the timer of the new stage starts, and the
     * attempt counter and the stage timer are reset, except that on entering FINISHED
     * a failed try-lock (`gotLock` false) returns before that reset.
     */
    method SwitchToNextAsset(now: int, gotLock: bool) returns (threw: bool)
      modifies this
      ensures threw <==> old(nRequestedMasternodeAssets) == MASTERNODE_SYNC_FAILED
      ensures threw ==> unchanged(this)
      ensures !threw ==> nRequestedMasternodeAssets == NextAsset(old(nRequestedMasternodeAssets))
      ensures !threw ==> nTimeLastFailure == old(nTimeLastFailure) && nCountFailures == old(nCountFailures)
      ensures !threw ==>
        nTimeLastMasternodeList == (if old(nRequestedMasternodeAssets) == MASTERNODE_SYNC_SPORKS then now else old(nTimeLastMasternodeList))
      ensures !threw ==>
        nTimeLastPaymentVote == (if old(nRequestedMasternodeAssets) == MASTERNODE_SYNC_LIST then now else old(nTimeLastPaymentVote))
      ensures !threw ==>
        nTimeLastBudgetItem == (if old(nRequestedMasternodeAssets) == MASTERNODE_SYNC_MNW then now else old(nTimeLastBudgetItem))
      ensures !threw && (old(nRequestedMasternodeAssets) != MASTERNODE_SYNC_GOVERNANCE || gotLock) ==>
        nRequestedMasternodeAttempt == 0 && nTimeAssetSyncStarted == now
      ensures !threw && old(nRequestedMasternodeAssets) == MASTERNODE_SYNC_GOVERNANCE && !gotLock ==>
        nRequestedMasternodeAttempt == old(nRequestedMasternodeAttempt) && nTimeAssetSyncStarted == old(nTimeAssetSyncStarted)
    {
      var a := nRequestedMasternodeAssets;
      if a == MASTERNODE_SYNC_FAILED {
        return true;
      } else if a == MASTERNODE_SYNC_INITIAL {
        nRequestedMasternodeAssets := MASTERNODE_SYNC_SPORKS;
      } else if a == MASTERNODE_SYNC_SPORKS {
        nTimeLastMasternodeList := now;
        nRequestedMasternodeAssets := MASTERNODE_SYNC_LIST;
      } else if a == MASTERNODE_SYNC_LIST {
        nTimeLastPaymentVote := now;
        nRequestedMasternodeAssets := MASTERNODE_SYNC_MNW;
      } else if a == MASTERNODE_SYNC_MNW {
        nTimeLastBudgetItem := now;
        nRequestedMasternodeAssets := MASTERNODE_SYNC_GOVERNANCE;
      } else if a == MASTERNODE_SYNC_GOVERNANCE {
        nRequestedMasternodeAssets := MASTERNODE_SYNC_FINISHED;
        if !gotLock {
          return false;
        }
      }
      nRequestedMasternodeAttempt := 0;
      nTimeAssetSyncStarted := now;
      return false;
    }

    /**
     * The reset block at the start of ProcessTick. A finished sync that has lost all
     * masternodes is reset and the tick goes on; a finished sync with masternodes ends
     * the tick. A failed sync is reset once more than a minute has passed since the
     * failure, and the tick ends either way. `goOn` is false when the tick returns.
     */
    method ProcessTickReset(now: int, nMnCount: int) returns (goOn: bool)
      modifies this
      ensures old(nRequestedMasternodeAssets) == MASTERNODE_SYNC_FINISHED && nMnCount != 0 ==> !goOn && unchanged(this)
      ensures old(nRequestedMasternodeAssets) == MASTERNODE_SYNC_FINISHED && nMnCount == 0 ==> goOn && IsResetAt(now)
      ensures old(nRequestedMasternodeAssets) == MASTERNODE_SYNC_FAILED ==> !goOn
      ensures old(nRequestedMasternodeAssets) == MASTERNODE_SYNC_FAILED && old(nTimeLastFailure) + FAILURE_COOLDOWN_SECONDS < now ==>
        IsResetAt(now)
      ensures old(nRequestedMasternodeAssets) == MASTERNODE_SYNC_FAILED && !(old(nTimeLastFailure) + FAILURE_COOLDOWN_SECONDS < now) ==>
        unchanged(this)
      ensures old(nRequestedMasternodeAssets) != MASTERNODE_SYNC_FINISHED && old(nRequestedMasternodeAssets) != MASTERNODE_SYNC_FAILED ==>
        goOn && unchanged(this)
    {
      if IsSynced() {
        if nMnCount == 0 {
          Reset(now);
        } else {
          return false;
        }
      }
      if IsFailed() {
        if nTimeLastFailure + FAILURE_COOLDOWN_SECONDS < now {
          Reset(now);
        }
        return false;
      }
      return true;
    }

    /**
     * The timeout check a peer reaches while the LIST or MNW asset is requested: once
     * the stage's last item is older than the timeout, a stage with no attempts fails
     * and one with attempts moves on. `timedOut` is false when no timeout has occurred,
     * and then nothing changes.
     */
    method CheckListOrPaymentTimeout(now: int, gotLock: bool) returns (timedOut: bool)
      requires nRequestedMasternodeAssets == MASTERNODE_SYNC_LIST || nRequestedMasternodeAssets == MASTERNODE_SYNC_MNW
      modifies this
      ensures timedOut <==>
        (if old(nRequestedMasternodeAssets) == MASTERNODE_SYNC_LIST then old(nTimeLastMasternodeList) else old(nTimeLastPaymentVote))
          < now - MASTERNODE_SYNC_TIMEOUT_SECONDS
      ensures !timedOut ==> unchanged(this)
      ensures timedOut && old(nRequestedMasternodeAttempt) == 0 ==>
        nRequestedMasternodeAssets == MASTERNODE_SYNC_FAILED && nTimeLastFailure == now
      ensures timedOut && old(nRequestedMasternodeAttempt) != 0 ==>
        nRequestedMasternodeAssets == NextAsset(old(nRequestedMasternodeAssets)) &&
        nRequestedMasternodeAttempt == 0 && nTimeAssetSyncStarted == now
    {
      var nTimeLast := if nRequestedMasternodeAssets == MASTERNODE_SYNC_LIST then nTimeLastMasternodeList else nTimeLastPaymentVote;
      if nTimeLast < now - MASTERNODE_SYNC_TIMEOUT_SECONDS {
        if nRequestedMasternodeAttempt == 0 {
          Fail(now);
          return true;
        }
        var threw := SwitchToNextAsset(now, gotLock);
        return true;
      }
      return false;
    }

    /** The GOVERNANCE timeout moves on whatever the attempt count. */
    method CheckGovernanceTimeout(now: int, gotLock: bool) returns (timedOut: bool)
      requires nRequestedMasternodeAssets == MASTERNODE_SYNC_GOVERNANCE
      modifies this
      ensures timedOut <==> old(nTimeLastBudgetItem) < now - MASTERNODE_SYNC_TIMEOUT_SECONDS
      ensures !timedOut ==> unchanged(this)
      ensures timedOut ==> nRequestedMasternodeAssets == MASTERNODE_SYNC_FINISHED
    {
      if nTimeLastBudgetItem < now - MASTERNODE_SYNC_TIMEOUT_SECONDS {
        var threw := SwitchToNextAsset(now, gotLock);
        return true;
      }
      return false;
    }
  }
}
