/**
 * Masternode payment votes and their use in block validation
 * (masternode-payments.cpp): the per-height tally of payee votes, the quorum
 * rule for the coinbase, pruning, look-ahead scheduling and the construction
 * of the coinbase split.
 *
 * The tally type's own members (`AddPayee`, `GetPayee`) and the constants
 * `MNPAYMENTS_SIGNATURES_REQUIRED` (6), `MNPAYMENTS_SIGNATURES_TOTAL` (10)
 * and `nStorageCoeff` (1.25) come from masternode-payments.h, which is not
 * part of this model; they are written here as that header defines them.
 * Chain access, sporks, the subsidy and `GetMasternodePayment` are parameters.
 */
module Payments {
  import opened Common

  const MNPAYMENTS_SIGNATURES_REQUIRED: int := 6
  const MNPAYMENTS_SIGNATURES_TOTAL: int := 10

  /** nStorageCoeff = 1.25, kept as the exact fraction 5/4. */
  const STORAGE_COEFF_NUM: int := 5
  const STORAGE_COEFF_DEN: int := 4

  /** std::numeric_limits<int>::max() */
  const INT_MAX: int := 0x7fff_ffff

  /** One payee of a height and the votes it has (CMasternodePayee). */
  datatype Payee = Payee(scriptPubKey: Script, nVotes: int)

  /** A payment vote: the voting masternode's outpoint, the height and the payee (CMasternodePaymentWinner). */
  datatype PaymentWinner = PaymentWinner(vinMasternode: int, nBlockHeight: int, payee: Script)

  // ----- The tally of one height -----

  /** The votes the tally holds for `script`. */
  function VotesFor(vec: seq<Payee>, script: Script): int
  {
    if vec == [] then 0
    else (if vec[0].scriptPubKey == script then vec[0].nVotes else 0) + VotesFor(vec[1..], script)
  }

  predicate UniqueScripts(vec: seq<Payee>)
  {
    forall i, j :: 0 <= i < j < |vec| ==> vec[i].scriptPubKey != vec[j].scriptPubKey
  }

  /** AddPayee: add `inc` votes to the entry for `script`, or append a new entry. */
  function AddPayee(vec: seq<Payee>, script: Script, inc: int): seq<Payee>
  {
    if vec == [] then [Payee(script, inc)]
    else if vec[0].scriptPubKey == script then [vec[0].(nVotes := vec[0].nVotes + inc)] + vec[1..]
    else [vec[0]] + AddPayee(vec[1..], script, inc)
  }

  /** Adding votes for a script raises its count by exactly that much and leaves every other count alone. */
  lemma {:induction false} AddPayeeCounts(vec: seq<Payee>, script: Script, inc: int, other: Script)
    ensures VotesFor(AddPayee(vec, script, inc), other) == VotesFor(vec, other) + (if other == script then inc else 0)
  {
    if vec != [] && vec[0].scriptPubKey != script {
      AddPayeeCounts(vec[1..], script, inc, other);
      assert AddPayee(vec, script, inc)[1..] == AddPayee(vec[1..], script, inc);
    } else if vec != [] {
      assert AddPayee(vec, script, inc)[1..] == vec[1..];
    }
  }

  /** AddPayee keeps one entry per script and adds an entry only for a new script. */
  lemma {:induction false} AddPayeeUnique(vec: seq<Payee>, script: Script, inc: int)
    requires UniqueScripts(vec)
    ensures UniqueScripts(AddPayee(vec, script, inc))
    ensures forall p :: p in AddPayee(vec, script, inc) ==> p.scriptPubKey == script || p in vec
    ensures |AddPayee(vec, script, inc)| == |vec| + (if exists i :: 0 <= i < |vec| && vec[i].scriptPubKey == script then 0 else 1)
  {
    if vec != [] {
      var r := AddPayee(vec, script, inc);
      if vec[0].scriptPubKey == script {
        assert r[1..] == vec[1..];
        forall i, j | 0 <= i < j < |r| ensures r[i].scriptPubKey != r[j].scriptPubKey {
          assert r[j] == vec[j];
          if i > 0 { assert r[i] == vec[i]; }
        }
      } else {
        AddPayeeUnique(vec[1..], script, inc);
        var t := AddPayee(vec[1..], script, inc);
        assert r == [vec[0]] + t;
        forall j | 0 <= j < |t| ensures t[j].scriptPubKey != vec[0].scriptPubKey {
          assert t[j] in t;
          if t[j].scriptPubKey != script {
            var k :| 0 <= k < |vec[1..]| && vec[1..][k] == t[j];
            assert vec[k + 1] == t[j];
          }
        }
        if exists i :: 0 <= i < |vec| && vec[i].scriptPubKey == script {
          var i :| 0 <= i < |vec| && vec[i].scriptPubKey == script;
          assert vec[1..][i - 1].scriptPubKey == script;
        }
      }
    }
  }

  /**
   * The index GetPayee picks: scanning in order from a best count of -1, each
   * entry with strictly more votes than the best so far becomes the best.
   */
  function BestPayeeIndex(vec: seq<Payee>): (r: int)
    ensures -1 <= r < |vec|
    ensures r == -1 <==> forall i :: 0 <= i < |vec| ==> vec[i].nVotes <= -1
    ensures r >= 0 ==> vec[r].nVotes > -1
    ensures r >= 0 ==> forall i :: 0 <= i < |vec| ==> vec[i].nVotes <= vec[r].nVotes
    ensures r >= 0 ==> forall i :: 0 <= i < r ==> vec[i].nVotes < vec[r].nVotes
  {
    if vec == [] then -1
    else
      var j := BestPayeeIndex(vec[..|vec| - 1]);
      var last := vec[|vec| - 1];
      if (if j == -1 then last.nVotes > -1 else last.nVotes > vec[j].nVotes) then |vec| - 1 else j
  }

  /** GetPayee: the script with the most votes, the first of equals; nothing for an empty tally. */
  function GetPayee(vec: seq<Payee>): Option<Script>
  {
    var i := BestPayeeIndex(vec);
    if i == -1 then None else Some(vec[i].scriptPubKey)
  }

  /** Some output pays exactly `amount` to exactly `script`. */
  predicate Pays(vout: seq<TxOut>, script: Script, amount: Amount)
  {
    exists k :: 0 <= k < |vout| && vout[k].scriptPubKey == script && vout[k].nValue == amount
  }

  predicate HasQuorum(vec: seq<Payee>)
  {
    exists i :: 0 <= i < |vec| && vec[i].nVotes >= MNPAYMENTS_SIGNATURES_REQUIRED
  }

  /**
   * The quorum rule as written: without a payee at the threshold anything
   * goes; otherwise SOME payee at or above the threshold must be paid.
   */
  predicate PaymentAccepted(vec: seq<Payee>, vout: seq<TxOut>, payment: Amount)
  {
    || !HasQuorum(vec)
    || exists i :: 0 <= i < |vec| && vec[i].nVotes >= MNPAYMENTS_SIGNATURES_REQUIRED
                   && Pays(vout, vec[i].scriptPubKey, payment)
  }

  /** The rule the comments describe: the TOP-voted payee must be paid. */
  predicate TopPayeePaid(vec: seq<Payee>, vout: seq<TxOut>, payment: Amount)
  {
    || !HasQuorum(vec)
    || exists i :: 0 <= i < |vec| && (forall j :: 0 <= j < |vec| ==> vec[j].nVotes <= vec[i].nVotes)
                   && Pays(vout, vec[i].scriptPubKey, payment)
  }

  /** Whatever the top-voted rule accepts, the rule as written accepts too. */
  lemma TopPayeeRuleIsStricter(vec: seq<Payee>, vout: seq<TxOut>, payment: Amount)
    requires TopPayeePaid(vec, vout, payment)
    ensures PaymentAccepted(vec, vout, payment)
  {
    if HasQuorum(vec) {
      var q :| 0 <= q < |vec| && vec[q].nVotes >= MNPAYMENTS_SIGNATURES_REQUIRED;
      var i :| 0 <= i < |vec| && (forall j :: 0 <= j < |vec| ==> vec[j].nVotes <= vec[i].nVotes)
               && Pays(vout, vec[i].scriptPubKey, payment);
      assert vec[q].nVotes <= vec[i].nVotes;
    }
  }

  /**
   * The converse fails: with 7 votes for A and 6 for B, a coinbase paying only
   * B is accepted as written although B is not the top-voted payee.
   */
  lemma RunnerUpAccepted()
    ensures var vec := [Payee([1], 7), Payee([2], 6)];
      var vout := [TxOut([9], 100), TxOut([2], 50)];
      PaymentAccepted(vec, vout, 50) && !TopPayeePaid(vec, vout, 50)
  {
    var vec := [Payee([1], 7), Payee([2], 6)];
    var vout := [TxOut([9], 100), TxOut([2], 50)];
    assert vout[1].scriptPubKey == vec[1].scriptPubKey && vout[1].nValue == 50;
    assert !Pays(vout, vec[0].scriptPubKey, 50) by {
      assert vout[0].scriptPubKey[0] != vec[0].scriptPubKey[0];
      assert vout[1].scriptPubKey[0] != vec[0].scriptPubKey[0];
    }
    forall i | 0 <= i < |vec| && (forall j :: 0 <= j < |vec| ==> vec[j].nVotes <= vec[i].nVotes)
      ensures !Pays(vout, vec[i].scriptPubKey, 50)
    {
      assert vec[0].nVotes <= vec[i].nVotes;
    }
  }

  /** Below the threshold every coinbase is accepted, whatever it pays. */
  lemma BelowQuorumAcceptsAll(vec: seq<Payee>, vout: seq<TxOut>, payment: Amount)
    requires forall i :: 0 <= i < |vec| ==> vec[i].nVotes < MNPAYMENTS_SIGNATURES_REQUIRED
    ensures PaymentAccepted(vec, vout, payment)
  {
  }

  /** Applying `n` single votes for `script` to a tally. */
  function Votes(vec: seq<Payee>, script: Script, n: nat): seq<Payee>
  {
    if n == 0 then vec else AddPayee(Votes(vec, script, n - 1), script, 1)
  }

  lemma {:induction false} VotesShape(script: Script, n: nat)
    requires n >= 1
    ensures Votes([], script, n) == [Payee(script, n)]
  {
    if n > 1 {
      VotesShape(script, n - 1);
    }
  }

  /**
   * Six votes for P: a coinbase paying P the masternode payment is valid, one
   * paying Q instead is not; with five votes both are valid.
   */
  lemma QuorumScenario(p: Script, q: Script, miner: Script, payment: Amount, other: Amount)
    requires p != q && miner != p
    ensures PaymentAccepted(Votes([], p, 6), [TxOut(miner, other), TxOut(p, payment)], payment)
    ensures !PaymentAccepted(Votes([], p, 6), [TxOut(miner, other), TxOut(q, payment)], payment)
    ensures PaymentAccepted(Votes([], p, 5), [TxOut(miner, other), TxOut(q, payment)], payment)
  {
    VotesShape(p, 6);
    VotesShape(p, 5);
    var vout := [TxOut(miner, other), TxOut(p, payment)];
    assert vout[1].scriptPubKey == p && vout[1].nValue == payment;
    var vq := [TxOut(miner, other), TxOut(q, payment)];
    var vec := Votes([], p, 6);
    assert vec[0].nVotes >= MNPAYMENTS_SIGNATURES_REQUIRED;
    forall i | 0 <= i < |vec| ensures !Pays(vq, vec[i].scriptPubKey, payment) {
      assert vec[i].scriptPubKey == p;
      forall k | 0 <= k < |vq| ensures vq[k].scriptPubKey != p {
        assert k == 0 || k == 1;
      }
    }
  }

  /** The votes of one height (CMasternodeBlockPayees). */
  datatype BlockPayees = BlockPayees(nBlockHeight: int, vecPayments: seq<Payee>)
  {
    /**
     * masternode-payments.cpp:421-466. The expected masternode payment is
     * computed from the height and the transaction's total output value.
     */
    method IsTransactionValid(vout: seq<TxOut>, getMasternodePayment: (int, Amount) -> Amount) returns (r: bool)
      ensures r <==> PaymentAccepted(vecPayments, vout, getMasternodePayment(nBlockHeight, SumValues(vout)))
    {
      var nMaxSignatures := 0;
      var masternodePayment := getMasternodePayment(nBlockHeight, SumValues(vout));
      var i := 0;
      while i < |vecPayments|
        invariant 0 <= i <= |vecPayments|
        invariant nMaxSignatures < MNPAYMENTS_SIGNATURES_REQUIRED <==>
                  forall j :: 0 <= j < i ==> vecPayments[j].nVotes < MNPAYMENTS_SIGNATURES_REQUIRED
      {
        var payee := vecPayments[i];
        if payee.nVotes >= nMaxSignatures && payee.nVotes >= MNPAYMENTS_SIGNATURES_REQUIRED {
          nMaxSignatures := payee.nVotes;
        }
        i := i + 1;
      }
      if nMaxSignatures < MNPAYMENTS_SIGNATURES_REQUIRED {
        return true;
      }
      i := 0;
      while i < |vecPayments|
        invariant 0 <= i <= |vecPayments|
        invariant forall j :: 0 <= j < i && vecPayments[j].nVotes >= MNPAYMENTS_SIGNATURES_REQUIRED
                    ==> !Pays(vout, vecPayments[j].scriptPubKey, masternodePayment)
      {
        var payee := vecPayments[i];
        var found := false;
        var k := 0;
        while k < |vout|
          invariant 0 <= k <= |vout|
          invariant found <==> exists m :: 0 <= m < k && vout[m].scriptPubKey == payee.scriptPubKey
                                           && vout[m].nValue == masternodePayment
        {
          if payee.scriptPubKey == vout[k].scriptPubKey && masternodePayment == vout[k].nValue {
            found := true;
          }
          k := k + 1;
        }
        if payee.nVotes >= MNPAYMENTS_SIGNATURES_REQUIRED {
          if found {
            return true;
          }
        }
        i := i + 1;
      }
      return false;
    }
  }

  /** int(nMnCount * nStorageCoeff), the truncating cast of a non-negative product. */
  function StorageLimit(nMnCount: nat, nMinBlocksToStore: int): int
  {
    var scaled := nMnCount * STORAGE_COEFF_NUM / STORAGE_COEFF_DEN;
    if scaled > nMinBlocksToStore then scaled else nMinBlocksToStore
  }

  /** The votes CheckAndRemove keeps: those at most `nLimit` blocks below the tip. */
  function KeptVotes(votes: map<int, PaymentWinner>, tip: int, nLimit: int): map<int, PaymentWinner>
  {
    map k | k in votes && tip - votes[k].nBlockHeight <= nLimit :: votes[k]
  }

  /** The heights of the votes CheckAndRemove drops. */
  function DroppedHeights(votes: map<int, PaymentWinner>, tip: int, nLimit: int): set<int>
  {
    set k | k in votes && tip - votes[k].nBlockHeight > nLimit :: votes[k].nBlockHeight
  }

  /**
   * The erase loop of CheckAndRemove (masternode-payments.cpp:521-533): each
   * vote too far below the tip goes, with the tally of the height it was for.
   */
  method PruneVotes<B>(votes0: map<int, PaymentWinner>, blocks0: map<int, B>, tipHeight: int, nLimit: int)
    returns (votes: map<int, PaymentWinner>, blocks: map<int, B>)
    ensures votes == KeptVotes(votes0, tipHeight, nLimit)
    ensures blocks == blocks0 - DroppedHeights(votes0, tipHeight, nLimit)
  {
    votes := votes0;
    blocks := blocks0;
    var todo := votes.Keys;
    PruneStart(votes0, tipHeight, nLimit);
    while todo != {}
      invariant todo <= votes0.Keys
      invariant votes == KeptBut(votes0, todo, tipHeight, nLimit)
      invariant blocks == blocks0 - DroppedBut(votes0, todo, tipHeight, nLimit)
      decreases |todo|
    {
      var k := Pick(todo);
      var winner := votes[k];
      PruneStep(votes0, todo, k, tipHeight, nLimit);
      if tipHeight - winner.nBlockHeight > nLimit {
        votes := votes - {k};
        blocks := blocks - {winner.nBlockHeight};
      }
      todo := todo - {k};
    }
    PruneEnd(votes0, tipHeight, nLimit);
  }

  /** The votes left while the keys in `todo` are still to be visited. */
  function KeptBut(votes: map<int, PaymentWinner>, todo: set<int>, tip: int, nLimit: int): map<int, PaymentWinner>
  {
    map k | k in votes && (k in todo || tip - votes[k].nBlockHeight <= nLimit) :: votes[k]
  }

  /** The heights dropped while the keys in `todo` are still to be visited. */
  function DroppedBut(votes: map<int, PaymentWinner>, todo: set<int>, tip: int, nLimit: int): set<int>
  {
    set k | k in votes && k !in todo && tip - votes[k].nBlockHeight > nLimit :: votes[k].nBlockHeight
  }

  lemma PruneStart(votes: map<int, PaymentWinner>, tip: int, nLimit: int)
    ensures KeptBut(votes, votes.Keys, tip, nLimit) == votes
    ensures DroppedBut(votes, votes.Keys, tip, nLimit) == {}
  {
  }

  lemma PruneEnd(votes: map<int, PaymentWinner>, tip: int, nLimit: int)
    ensures KeptBut(votes, {}, tip, nLimit) == KeptVotes(votes, tip, nLimit)
    ensures DroppedBut(votes, {}, tip, nLimit) == DroppedHeights(votes, tip, nLimit)
  {
  }

  /** Visiting key k erases it, and its height from the tallies, exactly when its vote is too old. */
  lemma PruneStep(votes: map<int, PaymentWinner>, todo: set<int>, k: int, tip: int, nLimit: int)
    requires k in todo && todo <= votes.Keys
    ensures k in KeptBut(votes, todo, tip, nLimit) && KeptBut(votes, todo, tip, nLimit)[k] == votes[k]
    ensures tip - votes[k].nBlockHeight > nLimit ==>
      && KeptBut(votes, todo - {k}, tip, nLimit) == KeptBut(votes, todo, tip, nLimit) - {k}
      && DroppedBut(votes, todo - {k}, tip, nLimit) == DroppedBut(votes, todo, tip, nLimit) + {votes[k].nBlockHeight}
    ensures tip - votes[k].nBlockHeight <= nLimit ==>
      && KeptBut(votes, todo - {k}, tip, nLimit) == KeptBut(votes, todo, tip, nLimit)
      && DroppedBut(votes, todo - {k}, tip, nLimit) == DroppedBut(votes, todo, tip, nLimit)
  {
  }

  /** Pruning twice with the same tip and limit prunes nothing more. */
  lemma PruneIdempotent(votes: map<int, PaymentWinner>, blocks: map<int, BlockPayees>, tip: int, nLimit: int)
    ensures KeptVotes(KeptVotes(votes, tip, nLimit), tip, nLimit) == KeptVotes(votes, tip, nLimit)
    ensures DroppedHeights(KeptVotes(votes, tip, nLimit), tip, nLimit) == {}
  {
    var kept := KeptVotes(votes, tip, nLimit);
    assert forall k :: k in kept ==> tip - kept[k].nBlockHeight <= nLimit;
  }

  /** Which votes the inventory sent by Sync covers (masternode-payments.cpp:679-699). */
  predicate InSyncRange(h: int, tip: int, nCountNeeded: int)
  {
    h >= tip - nCountNeeded && h <= tip + 20
  }

  /** The three outcomes of CMasternodePaymentWinner::IsValid. */
  datatype WinnerVerdict = WinnerVerdict(valid: bool, errorSet: bool, misbehaving: int)

  /**
   * masternode-payments.cpp:537-572. `found` and `protocolVersion` describe the
   * voter's record, `nRank` is its rank 100 blocks back; a voter outside the top
   * ten is rejected, but an error and a penalty of 20 come only beyond the top
   * twenty (the penalty only once synced).
   */
  function WinnerIsValid(found: bool, protocolVersion: int, minMnwPeerProto: int, nRank: int, fSynced: bool): (r: WinnerVerdict)
    ensures r.valid <==> found && protocolVersion >= minMnwPeerProto && nRank <= MNPAYMENTS_SIGNATURES_TOTAL
    ensures r.misbehaving == (if r.errorSet && found && protocolVersion >= minMnwPeerProto && fSynced then 20 else 0)
    ensures r.errorSet <==> !found || protocolVersion < minMnwPeerProto || nRank > 2 * MNPAYMENTS_SIGNATURES_TOTAL
  {
    if !found then WinnerVerdict(false, true, 0)
    else if protocolVersion < minMnwPeerProto then WinnerVerdict(false, true, 0)
    else if nRank > MNPAYMENTS_SIGNATURES_TOTAL then
      if nRank > MNPAYMENTS_SIGNATURES_TOTAL * 2 then WinnerVerdict(false, true, if fSynced then 20 else 0)
      else WinnerVerdict(false, false, 0)
    else WinnerVerdict(true, false, 0)
  }

  /** A voter with no rank (-1) passes the rank test. */
  lemma UnrankedVoterPasses(protocolVersion: int, minMnwPeerProto: int, fSynced: bool)
    requires protocolVersion >= minMnwPeerProto
    ensures WinnerIsValid(true, protocolVersion, minMnwPeerProto, -1, fSynced).valid
  {
  }

  /**
   * GetMinMasternodePaymentsProto (masternode-payments.cpp:253-257): the
   * newer minimum while spork 10 is active, the older one otherwise. The two
   * versions are parameters (their header is not part of this model).
   */
  function GetMinMasternodePaymentsProto(fSpork10Active: bool, protoVersion1: int, protoVersion2: int): (r: int)
    ensures protoVersion1 <= protoVersion2 ==> protoVersion1 <= r <= protoVersion2
    ensures r == protoVersion2 || r == protoVersion1
  {
    if fSpork10Active then protoVersion2 else protoVersion1
  }

  /**
   * CMasternodePayments: the votes by vote hash and the tallies by height.
   * Each tally is filed under its own height and has one entry per script.
   */
  class MasternodePayments {
    var mapMasternodePayeeVotes: map<int, PaymentWinner>
    var mapMasternodeBlocks: map<int, BlockPayees>
    var nMinBlocksToStore: int

    predicate Valid()
      reads this
    {
      forall h :: h in mapMasternodeBlocks ==>
        mapMasternodeBlocks[h].nBlockHeight == h && UniqueScripts(mapMasternodeBlocks[h].vecPayments)
    }

    constructor(nMinBlocksToStoreIn: int)
      ensures Valid() && mapMasternodePayeeVotes == map[] && mapMasternodeBlocks == map[]
      ensures nMinBlocksToStore == nMinBlocksToStoreIn
    {
      mapMasternodePayeeVotes := map[];
      mapMasternodeBlocks := map[];
      nMinBlocksToStore := nMinBlocksToStoreIn;
    }

    /** The tally of a height, empty when there is none. */
    function PayeesAt(h: int): seq<Payee>
      reads this
    {
      if h in mapMasternodeBlocks then mapMasternodeBlocks[h].vecPayments else []
    }

    /**
     * masternode-payments.cpp:394-419. `voteHash` is the vote's hash and
     * `blockHashKnown` says whether the block 100 below the vote's height is known.
     */
    method AddWinningMasternode(winnerIn: PaymentWinner, voteHash: int, blockHashKnown: bool) returns (r: bool)
      requires Valid()
      modifies this
      ensures Valid() && nMinBlocksToStore == old(nMinBlocksToStore)
      ensures r <==> blockHashKnown && voteHash !in old(mapMasternodePayeeVotes)
      ensures !r ==> (mapMasternodePayeeVotes == old(mapMasternodePayeeVotes)
                      && mapMasternodeBlocks == old(mapMasternodeBlocks))
      ensures r ==> mapMasternodePayeeVotes == old(mapMasternodePayeeVotes)[voteHash := winnerIn]
      ensures r ==> mapMasternodeBlocks == old(mapMasternodeBlocks)[winnerIn.nBlockHeight :=
                      BlockPayees(winnerIn.nBlockHeight, AddPayee(old(PayeesAt(winnerIn.nBlockHeight)), winnerIn.payee, 1))]
    {
      if !blockHashKnown {
        return false;
      }
      if voteHash in mapMasternodePayeeVotes {
        return false;
      }
      mapMasternodePayeeVotes := mapMasternodePayeeVotes[voteHash := winnerIn];
      var h := winnerIn.nBlockHeight;
      if h !in mapMasternodeBlocks {
        mapMasternodeBlocks := mapMasternodeBlocks[h := BlockPayees(h, [])];
      }
      var bp := mapMasternodeBlocks[h];
      AddPayeeUnique(bp.vecPayments, winnerIn.payee, 1);
      mapMasternodeBlocks := mapMasternodeBlocks[h := bp.(vecPayments := AddPayee(bp.vecPayments, winnerIn.payee, 1))];
      return true;
    }

    /** masternode-payments.cpp:359-366: the leading payee of a height, if it has a tally. */
    method GetBlockPayee(nBlockHeight: int) returns (payee: Option<Script>)
      ensures nBlockHeight !in mapMasternodeBlocks ==> payee == None
      ensures payee.Some? ==>
        exists i :: (0 <= i < |PayeesAt(nBlockHeight)| && PayeesAt(nBlockHeight)[i].scriptPubKey == payee.value
          && forall j :: 0 <= j < |PayeesAt(nBlockHeight)| ==> PayeesAt(nBlockHeight)[j].nVotes <= PayeesAt(nBlockHeight)[i].nVotes)
      ensures payee == GetPayee(PayeesAt(nBlockHeight))
    {
      if nBlockHeight in mapMasternodeBlocks {
        payee := GetPayee(mapMasternodeBlocks[nBlockHeight].vecPayments);
        if payee.Some? {
          var i := BestPayeeIndex(PayeesAt(nBlockHeight));
          assert PayeesAt(nBlockHeight)[i].scriptPubKey == payee.value;
        }
        return;
      }
      return None;
    }

    /**
     * masternode-payments.cpp:370-392: whether `mnPayee` leads the tally of some
     * height from the tip to eight above it, other than `nNotBlockHeight`.
     */
    method IsScheduled(mnPayee: Script, nNotBlockHeight: int, hasTip: bool, tipHeight: int) returns (r: bool)
      ensures r <==> hasTip && exists h :: tipHeight <= h <= tipHeight + 8 && h != nNotBlockHeight
                                         && h in mapMasternodeBlocks && GetPayee(PayeesAt(h)) == Some(mnPayee)
    {
      if !hasTip {
        return false;
      }
      var h := tipHeight;
      while h <= tipHeight + 8
        invariant tipHeight <= h <= tipHeight + 9
        invariant forall g :: tipHeight <= g < h && g != nNotBlockHeight && g in mapMasternodeBlocks
                    ==> GetPayee(PayeesAt(g)) != Some(mnPayee)
      {
        if h != nNotBlockHeight {
          if h in mapMasternodeBlocks {
            var payee := GetPayee(mapMasternodeBlocks[h].vecPayments);
            if payee.Some? && payee.value == mnPayee {
              return true;
            }
          }
        }
        h := h + 1;
      }
      return false;
    }

    /** masternode-payments.cpp:501-510: a height without a tally accepts every coinbase. */
    method IsTransactionValid(vout: seq<TxOut>, nBlockHeight: int, getMasternodePayment: (int, Amount) -> Amount)
      returns (r: bool)
      requires Valid()
      ensures r <==> nBlockHeight !in mapMasternodeBlocks
                     || PaymentAccepted(PayeesAt(nBlockHeight), vout, getMasternodePayment(nBlockHeight, SumValues(vout)))
    {
      if nBlockHeight in mapMasternodeBlocks {
        r := mapMasternodeBlocks[nBlockHeight].IsTransactionValid(vout, getMasternodePayment);
        return;
      }
      return true;
    }

    /**
     * IsBlockPayeeValid (masternode-payments.cpp:95-153). The superblock facts
     * for the height (a superblock height, a trigger, a valid superblock) and
     * the sporks are parameters. Through the callees as written they are not
     * free: `GovernanceClasses.IsValidSuperblockHeight` is false at every
     * multiple of the cycle, and `GovernanceClasses.IsValid` either returns
     * false or dereferences NULL, so `fSuperblockValid` is never true there and
     * the superblock branch accepts only when spork 9 is off.
     */
    method IsBlockPayeeValid(vout: seq<TxOut>, nBlockHeight: int, fSynced: bool,
                             fSuperblockHeight: bool, fSuperblockTriggered: bool, fSuperblockValid: bool,
                             fSpork8Enforced: bool, fSpork9Enforced: bool,
                             getMasternodePayment: (int, Amount) -> Amount) returns (r: bool)
      requires Valid()
      ensures !fSynced ==> r
      ensures fSynced && fSuperblockHeight && fSuperblockTriggered ==> (r <==> fSuperblockValid || !fSpork9Enforced)
      ensures fSynced && !(fSuperblockHeight && fSuperblockTriggered) ==>
        (r <==> !fSpork8Enforced || nBlockHeight !in mapMasternodeBlocks
                || PaymentAccepted(PayeesAt(nBlockHeight), vout, getMasternodePayment(nBlockHeight, SumValues(vout))))
    {
      if !fSynced {
        return true;
      }
      if fSuperblockHeight {
        if fSuperblockTriggered {
          if fSuperblockValid {
            return true;
          } else {
            return !fSpork9Enforced;
          }
        }
      }
      var valid := IsTransactionValid(vout, nBlockHeight, getMasternodePayment);
      if valid {
        return true;
      }
      return !fSpork8Enforced;
    }

    /**
     * masternode-payments.cpp:512-535. `nMasternodes` is the registry size;
     * votes more than the storage limit below the tip go, and so does the tally
     * of each height such a vote was for.
     */
    method CheckAndRemove(hasTip: bool, tipHeight: int, nMasternodes: nat)
      requires Valid()
      modifies this
      ensures Valid() && nMinBlocksToStore == old(nMinBlocksToStore)
      ensures !hasTip ==> (mapMasternodePayeeVotes == old(mapMasternodePayeeVotes)
                           && mapMasternodeBlocks == old(mapMasternodeBlocks))
      ensures hasTip ==>
        var nLimit := StorageLimit(nMasternodes, old(nMinBlocksToStore));
        && mapMasternodePayeeVotes == KeptVotes(old(mapMasternodePayeeVotes), tipHeight, nLimit)
        && mapMasternodeBlocks == old(mapMasternodeBlocks) - DroppedHeights(old(mapMasternodePayeeVotes), tipHeight, nLimit)
    {
      if !hasTip {
        return;
      }
      var nLimit := StorageLimit(nMasternodes, nMinBlocksToStore);
      var votes, blocks := PruneVotes(mapMasternodePayeeVotes, mapMasternodeBlocks, tipHeight, nLimit);
      mapMasternodePayeeVotes := votes;
      mapMasternodeBlocks := blocks;
    }

    /**
     * The range filter of Sync (masternode-payments.cpp:679-699): the hashes of
     * the votes offered to a peer, with the requested count capped at
     * int(enabled count * 1.25). Nothing is offered without a tip.
     */
    method SyncInventory(hasTip: bool, tipHeight: int, nCountEnabled: nat, nCountNeededIn: int)
      returns (inventory: set<int>, nInvCount: int)
      ensures !hasTip ==> inventory == {} && nInvCount == 0
      ensures hasTip ==>
        var nCountNeeded := if nCountNeededIn > nCountEnabled * 5 / 4 then nCountEnabled * 5 / 4 else nCountNeededIn;
        inventory == set k | k in mapMasternodePayeeVotes
                             && InSyncRange(mapMasternodePayeeVotes[k].nBlockHeight, tipHeight, nCountNeeded)
      ensures nInvCount == |inventory|
    {
      inventory := {};
      nInvCount := 0;
      if !hasTip {
        return;
      }
      var nCount := nCountEnabled * STORAGE_COEFF_NUM / STORAGE_COEFF_DEN;
      var nCountNeeded := nCountNeededIn;
      if nCountNeeded > nCount {
        nCountNeeded := nCount;
      }
      var todo := mapMasternodePayeeVotes.Keys;
      while todo != {}
        invariant todo <= mapMasternodePayeeVotes.Keys
        invariant inventory == set k | k in mapMasternodePayeeVotes && k !in todo
                                      && InSyncRange(mapMasternodePayeeVotes[k].nBlockHeight, tipHeight, nCountNeeded)
        invariant nInvCount == |inventory|
        decreases |todo|
      {
        var k := Pick(todo);
        var winner := mapMasternodePayeeVotes[k];
        if InSyncRange(winner.nBlockHeight, tipHeight, nCountNeeded) {
          assert k !in inventory;
          inventory := inventory + {k};
          nInvCount := nInvCount + 1;
        }
        todo := todo - {k};
      }
    }

    /** masternode-payments.cpp:713-728: the lowest tallied height, or INT_MAX. */
    method GetOldestBlock() returns (r: int)
      ensures r <= INT_MAX
      ensures forall h :: h in mapMasternodeBlocks ==> r <= h
      ensures r == INT_MAX || r in mapMasternodeBlocks
    {
      r := INT_MAX;
      var todo := mapMasternodeBlocks.Keys;
      while todo != {}
        invariant todo <= mapMasternodeBlocks.Keys
        invariant r <= INT_MAX && (r == INT_MAX || r in mapMasternodeBlocks)
        invariant forall h :: h in mapMasternodeBlocks && h !in todo ==> r <= h
        decreases |todo|
      {
        var h := Pick(todo);
        if h < r {
          r := h;
        }
        todo := todo - {h};
      }
    }

    /** masternode-payments.cpp:732-747: the highest tallied height, or 0. */
    method GetNewestBlock() returns (r: int)
      ensures r >= 0
      ensures forall h :: h in mapMasternodeBlocks ==> h <= r
      ensures r == 0 || r in mapMasternodeBlocks
    {
      r := 0;
      var todo := mapMasternodeBlocks.Keys;
      while todo != {}
        invariant todo <= mapMasternodeBlocks.Keys
        invariant r >= 0 && (r == 0 || r in mapMasternodeBlocks)
        invariant forall h :: h in mapMasternodeBlocks && h !in todo ==> h <= r
        decreases |todo|
      {
        var h := Pick(todo);
        if h > r {
          r := h;
        }
        todo := todo - {h};
      }
    }

    /**
     * masternode-payments.cpp:749-759: more tallied heights than 1.25 per
     * masternode and than the storage minimum, and more votes than eight times
     * either (the average of 10 and 6 votes per height, in integer division).
     */
    function IsEnoughData(nMnCount: int): (r: bool)
      reads this
      ensures r ==> |mapMasternodeBlocks| > nMinBlocksToStore && |mapMasternodePayeeVotes| > 8 * nMinBlocksToStore
      ensures r <==> 4 * |mapMasternodeBlocks| > 5 * nMnCount && |mapMasternodeBlocks| > nMinBlocksToStore
                     && |mapMasternodePayeeVotes| > 10 * nMnCount && |mapMasternodePayeeVotes| > 8 * nMinBlocksToStore
    {
      var nAverageVotes := (MNPAYMENTS_SIGNATURES_TOTAL + MNPAYMENTS_SIGNATURES_REQUIRED) / 2;
      && |mapMasternodeBlocks| * STORAGE_COEFF_DEN > nMnCount * STORAGE_COEFF_NUM
      && |mapMasternodeBlocks| > nMinBlocksToStore
      && |mapMasternodePayeeVotes| * STORAGE_COEFF_DEN > nMnCount * STORAGE_COEFF_NUM * nAverageVotes
      && |mapMasternodePayeeVotes| > nMinBlocksToStore * nAverageVotes
    }
  }

  /**
   * CMasternodePayments::FillBlockPayee (masternode-payments.cpp:211-251) on the
   * coinbase outputs. `payeeAtNext` is the tally's leading payee for the next
   * height and `fallbackPayee` the current masternode's script; the block value
   * is the fees plus the subsidy. With a payee the outputs are cut to two, the
   * second paying the payee and the first keeping the rest of the block value.
   */
  method FillBlockPayee(vout: seq<TxOut>, hasTip: bool, tipHeight: int, nFees: Amount, nSubsidy: Amount,
                        payeeAtNext: Option<Script>, fallbackPayee: Option<Script>,
                        getMasternodePayment: (int, Amount) -> Amount) returns (r: seq<TxOut>)
    requires hasTip ==> |vout| >= 1
    ensures !hasTip ==> r == vout
    ensures hasTip ==>
      var blockValue := nFees + nSubsidy;
      var payment := getMasternodePayment(tipHeight + 1, blockValue);
      var payee := if payeeAtNext.Some? then payeeAtNext else fallbackPayee;
      && (payee.Some? ==> r == [TxOut(vout[0].scriptPubKey, blockValue - payment), TxOut(payee.value, payment)])
      && (payee.None? ==> r == vout[0 := TxOut(vout[0].scriptPubKey, blockValue)])
      && (payee.Some? ==> SumValues(r) == blockValue)
  {
    r := vout;
    if !hasTip {
      return;
    }
    var hasPayment := true;
    var payee: Script := [];
    if payeeAtNext.None? {
      if fallbackPayee.Some? {
        payee := fallbackPayee.value;
      } else {
        hasPayment := false;
      }
    } else {
      payee := payeeAtNext.value;
    }
    var blockValue := nFees + nSubsidy;
    var masternodePayment := getMasternodePayment(tipHeight + 1, blockValue);
    r := r[0 := r[0].(nValue := blockValue)];
    if hasPayment {
      // vout.resize(2): a new output is a null one (empty script, value -1)
      r := if |r| >= 2 then r[..2] else r + [TxOut([], -1)];
      r := r[1 := TxOut(payee, masternodePayment)];
      r := r[0 := r[0].(nValue := r[0].nValue - masternodePayment)];
      assert r[..1][..0] == [];
      assert SumValues(r[..1]) == r[0].nValue;
      assert SumValues(r) == SumValues(r[..1]) + r[1].nValue;
    }
  }
}
