/**
 * Superblock triggers and payment schedules (governance-classes.h/.cpp):
 * splitting the payment lists, parsing a schedule, the trigger status table,
 * choosing the best superblock for a height and checking or building the
 * coinbase it prescribes.
 *
 * The governance objects behind the triggers are represented by `Superblock`
 * objects carrying the values the source reads from them (hash, funding flag,
 * absolute yes count). Address decoding, amount parsing and the chain tip are
 * parameters.
 */
module GovernanceClasses {
  import opened Common

  // governance.h
  const GOVERNANCE_OBJECT_PROPOSAL: int := 1
  const GOVERNANCE_OBJECT_TRIGGER: int := 2
  const SEEN_OBJECT_IS_VALID: int := 0
  const SEEN_OBJECT_ERROR_INVALID: int := 1
  const SEEN_OBJECT_ERROR_IMMATURE: int := 2
  const SEEN_OBJECT_EXECUTED: int := 3

  /** The block spacing the block-start estimate divides by: 2.6 * 60 seconds, exactly 156 as a double. */
  const BLOCK_SPACING_ESTIMATE: int := 156

  // ----- SplitBy -----

  /** How many characters of `s` are delimiters. */
  function DelimiterCount(s: string, delims: string): nat
  {
    if s == [] then 0 else (if s[0] in delims then 1 else 0) + DelimiterCount(s[1..], delims)
  }

  /**
   * boost::split with is_any_of(delims): cut at every delimiter character,
   * keeping empty pieces (an empty input gives one empty piece).
   */
  function BoostSplit(s: string, delims: string): (r: seq<string>)
    ensures |r| == 1 + DelimiterCount(s, delims)
    ensures forall i, j :: 0 <= i < |r| && 0 <= j < |r[i]| ==> r[i][j] !in delims
  {
    if s == [] then [[]]
    else
      var rest := BoostSplit(s[1..], delims);
      if s[0] in delims then [[]] + rest
      else [[s[0]] + rest[0]] + rest[1..]
  }

  /** std::string::find(piece) != npos; the empty string is found in any string. */
  predicate IsSubstring(piece: string, s: string)
  {
    exists i :: 0 <= i <= |s| && OccursAt(piece, s, i)
  }

  predicate OccursAt(piece: string, s: string, i: int)
  {
    0 <= i && i + |piece| <= |s| && s[i..i + |piece|] == piece
  }

  /** The pieces that are not substrings of `delims`, in order. */
  function DropSubstringsOf(parts: seq<string>, delims: string): seq<string>
  {
    if parts == [] then []
    else (if IsSubstring(parts[0], delims) then [] else [parts[0]]) + DropSubstringsOf(parts[1..], delims)
  }

  /** One step of the erase loop: dropping or keeping piece q leaves the pieces still to come unchanged. */
  lemma DropStep(v: seq<string>, q: int, delims: string)
    requires 0 <= q < |v|
    ensures IsSubstring(v[q], delims) ==>
      v[..q] + DropSubstringsOf(v[q..], delims)
        == (v[..q] + v[q + 1..])[..q] + DropSubstringsOf((v[..q] + v[q + 1..])[q..], delims)
    ensures !IsSubstring(v[q], delims) ==>
      v[..q] + DropSubstringsOf(v[q..], delims) == v[..q + 1] + DropSubstringsOf(v[q + 1..], delims)
  {
    assert v[q..][1..] == v[q + 1..];
    var w := v[..q] + v[q + 1..];
    assert w[..q] == v[..q] && w[q..] == v[q + 1..];
    assert v[..q + 1] == v[..q] + [v[q]];
  }

  /** governance-classes.cpp:40-55: split, then erase every piece found inside the delimiter string. */
  method SplitBy(strCommand: string, strDelimit: string) returns (vParts: seq<string>)
    ensures vParts == DropSubstringsOf(BoostSplit(strCommand, strDelimit), strDelimit)
  {
    vParts := BoostSplit(strCommand, strDelimit);
    ghost var target := DropSubstringsOf(vParts, strDelimit);
    var q := 0;
    while q < |vParts|
      invariant 0 <= q <= |vParts|
      invariant vParts[..q] + DropSubstringsOf(vParts[q..], strDelimit) == target
      decreases |vParts| - q
    {
      DropStep(vParts, q, strDelimit);
      if IsSubstring(vParts[q], strDelimit) {
        vParts := vParts[..q] + vParts[q + 1..];
      } else {
        q := q + 1;
      }
    }
    assert vParts[q..] == [];
  }

  /** The non-empty pieces, in order. */
  function NonEmpty(parts: seq<string>): seq<string>
  {
    if parts == [] then [] else (if parts[0] == [] then [] else [parts[0]]) + NonEmpty(parts[1..])
  }

  /** The characters of `s` that are not delimiters, in order. */
  function RemoveChars(s: string, delims: string): string
  {
    if s == [] then [] else (if s[0] in delims then [] else [s[0]]) + RemoveChars(s[1..], delims)
  }

  function Concat(parts: seq<string>): string
  {
    if parts == [] then [] else parts[0] + Concat(parts[1..])
  }

  /** A piece free of delimiter characters is found in the delimiter string only when it is empty. */
  lemma {:induction false} DropSubstringsIsNonEmpty(parts: seq<string>, delims: string)
    requires forall i, j :: 0 <= i < |parts| && 0 <= j < |parts[i]| ==> parts[i][j] !in delims
    ensures DropSubstringsOf(parts, delims) == NonEmpty(parts)
  {
    if parts != [] {
      var p := parts[0];
      if p == [] {
        assert OccursAt(p, delims, 0);
      } else {
        forall i | 0 <= i && i + |p| <= |delims| ensures !OccursAt(p, delims, i) {
          assert delims[i..i + |p|][0] == delims[i];
          assert p[0] !in delims;
        }
      }
      DropSubstringsIsNonEmpty(parts[1..], delims);
    }
  }

  lemma {:induction false} ConcatSplit(s: string, delims: string)
    ensures Concat(BoostSplit(s, delims)) == RemoveChars(s, delims)
  {
    if s != [] {
      ConcatSplit(s[1..], delims);
      var rest := BoostSplit(s[1..], delims);
      if s[0] !in delims {
        assert rest == [rest[0]] + rest[1..];
        assert Concat(rest) == rest[0] + Concat(rest[1..]);
      }
    }
  }

  lemma {:induction false} ConcatNonEmpty(parts: seq<string>)
    ensures Concat(NonEmpty(parts)) == Concat(parts)
  {
    if parts != [] {
      ConcatNonEmpty(parts[1..]);
      var rest := NonEmpty(parts[1..]);
      if parts[0] == [] {
        assert NonEmpty(parts) == rest;
      } else {
        assert NonEmpty(parts) == [parts[0]] + rest;
        assert ([parts[0]] + rest)[1..] == rest;
      }
    }
  }

  /**
   * What SplitBy returns: non-empty pieces free of delimiter characters which,
   * put back together, are the input with its delimiters removed.
   */
  lemma SplitByPieces(s: string, delims: string)
    ensures var parts := DropSubstringsOf(BoostSplit(s, delims), delims);
      && (forall i :: 0 <= i < |parts| ==> parts[i] != [] && forall j :: 0 <= j < |parts[i]| ==> parts[i][j] !in delims)
      && Concat(parts) == RemoveChars(s, delims)
  {
    var pieces := BoostSplit(s, delims);
    DropSubstringsIsNonEmpty(pieces, delims);
    NonEmptyMembers(pieces);
    ConcatNonEmpty(pieces);
    ConcatSplit(s, delims);
    var parts := NonEmpty(pieces);
    forall i | 0 <= i < |parts| ensures parts[i] != [] && forall j :: 0 <= j < |parts[i]| ==> parts[i][j] !in delims {
      assert parts[i] in parts;
      var k :| 0 <= k < |pieces| && pieces[k] == parts[i];
    }
  }

  lemma {:induction false} NonEmptyMembers(parts: seq<string>)
    ensures forall p :: p in NonEmpty(parts) ==> p != [] && p in parts
  {
    if parts != [] {
      NonEmptyMembers(parts[1..]);
    }
  }

  /** "a||b" split by "|" gives ["a", "b"]. */
  lemma SplitByExample()
    ensures DropSubstringsOf(BoostSplit("a||b", "|"), "|") == ["a", "b"]
  {
    SplitExamplePieces();
    DropSubstringsIsNonEmpty(["a", "", "b"], "|");
    NonEmptyExample();
  }

  /** boost::split keeps the empty piece between the two bars. */
  lemma SplitExamplePieces()
    ensures BoostSplit("a||b", "|") == ["a", "", "b"]
  {
    assert "a||b"[1..] == "||b" && "||b"[1..] == "|b" && "|b"[1..] == "b" && "b"[1..] == [];
    assert BoostSplit([], "|") == [[]];
    assert 'b' !in "|" && 'a' !in "|" && '|' in "|";
    assert BoostSplit("b", "|") == [['b'] + []] + [];
    assert ['b'] + [] == "b";
    assert BoostSplit("|b", "|") == ["", "b"];
    assert BoostSplit("||b", "|") == ["", "", "b"];
    assert ['a'] + [] == "a";
  }

  lemma NonEmptyExample()
    ensures NonEmpty(["a", "", "b"]) == ["a", "b"]
  {
    assert ["a", "", "b"][1..] == ["", "b"] && ["", "b"][1..] == ["b"] && ["b"][1..] == [];
  }

  // ----- Payments -----

  /** CGovernancePayment: a payee script and an amount, with a validity flag. */
  datatype GovernancePayment = GovernancePayment(script: Script, nAmount: Amount, fValid: bool)
  {
    /** governance-classes.h:106-111 */
    function SetNull(): (r: GovernancePayment)
      ensures !r.IsValid() && r.script == [] && r.nAmount == 0
    {
      GovernancePayment([], 0, false)
    }

    /** governance-classes.h:113-116 */
    predicate IsValid()
    {
      fValid
    }
  }

  /** Output i pays exactly payment i, for every scheduled payment; later outputs are free. */
  predicate PaysSchedule(vout: seq<TxOut>, payments: seq<GovernancePayment>)
  {
    forall i :: 0 <= i < |payments| ==> i < |vout| && vout[i] == PaymentOutput(payments[i])
  }

  /** The output a payment prescribes. */
  function PaymentOutput(p: GovernancePayment): TxOut
  {
    TxOut(p.script, p.nAmount)
  }

  /**
   * The index of the first schedule entry that stops the parse: an address
   * that is not valid or an amount that does not parse; |addrs| if none does.
   */
  function FirstFailure(addrs: seq<string>, amounts: seq<string>, i: nat,
                        isValidAddress: string -> bool, parseAmount: string -> Option<int>): (k: nat)
    requires |addrs| == |amounts| && i <= |addrs|
    ensures i <= k <= |addrs|
    ensures forall j :: i <= j < k ==> isValidAddress(addrs[j]) && parseAmount(amounts[j]).Some?
    ensures k < |addrs| ==> !isValidAddress(addrs[k]) || parseAmount(amounts[k]).None?
    decreases |addrs| - i
  {
    if i == |addrs| then i
    else if !isValidAddress(addrs[i]) || parseAmount(amounts[i]).None? then i
    else FirstFailure(addrs, amounts, i + 1, isValidAddress, parseAmount)
  }

  /** The payments built from the first `k` entries, keeping those whose flag is set, in list order. */
  function ParsedPayments(addrs: seq<string>, amounts: seq<string>, k: nat,
                          scriptFor: string -> Script, parseAmount: string -> Option<int>,
                          fValidOf: nat -> bool): seq<GovernancePayment>
    requires k <= |addrs| == |amounts|
    requires forall j :: 0 <= j < k ==> parseAmount(amounts[j]).Some?
  {
    if k == 0 then []
    else
      ParsedPayments(addrs, amounts, k - 1, scriptFor, parseAmount, fValidOf)
      + (if fValidOf(k - 1) then [GovernancePayment(scriptFor(addrs[k - 1]), parseAmount(amounts[k - 1]).value, true)] else [])
  }

  /**
   * Every payment a parse keeps reads as valid: the schedule holds only
   * payments whose IsValid() (governance-classes.h:113-116) was true.
   */
  lemma {:induction false} ParsedPaymentsValid(addrs: seq<string>, amounts: seq<string>, k: nat,
                                               scriptFor: string -> Script, parseAmount: string -> Option<int>,
                                               fValidOf: nat -> bool)
    requires k <= |addrs| == |amounts|
    requires forall j :: 0 <= j < k ==> parseAmount(amounts[j]).Some?
    ensures forall p :: p in ParsedPayments(addrs, amounts, k, scriptFor, parseAmount, fValidOf) ==> p.IsValid()
  {
    if k > 0 {
      ParsedPaymentsValid(addrs, amounts, k - 1, scriptFor, parseAmount, fValidOf);
    }
  }

  /**
   * The loop of ParsePaymentSchedule (governance-classes.h:243-258): the
   * payments built before the first entry that stops it, whether that entry's
   * address was invalid, and whether its amount failed to parse (which throws).
   */
  method BuildPayments(addrs: seq<string>, amounts: seq<string>,
                       isValidAddress: string -> bool, scriptFor: string -> Script,
                       parseAmount: string -> Option<int>, fValidOf: nat -> bool)
    returns (added: seq<GovernancePayment>, badAddress: bool, threw: bool)
    requires |addrs| == |amounts|
    ensures var k := FirstFailure(addrs, amounts, 0, isValidAddress, parseAmount);
      && added == ParsedPayments(addrs, amounts, k, scriptFor, parseAmount, fValidOf)
      && (badAddress <==> k < |addrs| && !isValidAddress(addrs[k]))
      && (threw <==> k < |addrs| && isValidAddress(addrs[k]))
  {
    ghost var k := FirstFailure(addrs, amounts, 0, isValidAddress, parseAmount);
    added := [];
    var i := 0;
    while i < |addrs|
      invariant 0 <= i <= k
      invariant added == ParsedPayments(addrs, amounts, i, scriptFor, parseAmount, fValidOf)
    {
      if !isValidAddress(addrs[i]) {
        return added, true, false;
      }
      var nAmount := parseAmount(amounts[i]);
      if nAmount.None? {
        return added, false, true;
      }
      var payment := GovernancePayment(scriptFor(addrs[i]), nAmount.value, fValidOf(i));
      if payment.IsValid() {
        added := added + [payment];
      }
      i := i + 1;
    }
    return added, false, false;
  }

  /**
   * A superblock trigger (CSuperblock): its start epoch, its payment schedule,
   * its error text, and what it reads from the governance object behind it.
   */
  class Superblock {
    var nEpochStart: int
    var vecPayments: seq<GovernancePayment>
    var strError: string
    var govHash: int
    var fCachedFunding: bool
    var nAbsoluteYesCount: int

    constructor(nEpochStartIn: int, govHashIn: int, fCachedFundingIn: bool, nAbsoluteYesCountIn: int)
      ensures nEpochStart == nEpochStartIn && govHash == govHashIn
      ensures fCachedFunding == fCachedFundingIn && nAbsoluteYesCount == nAbsoluteYesCountIn
      ensures vecPayments == [] && strError == []
    {
      nEpochStart := nEpochStartIn;
      govHash := govHashIn;
      fCachedFunding := fCachedFundingIn;
      nAbsoluteYesCount := nAbsoluteYesCountIn;
      vecPayments := [];
      strError := [];
    }

    /**
     * governance-classes.h:199-218: the predicted height, tip + 1 plus the
     * epoch over 156 seconds (the tip epoch is 0), rounded toward zero to a
     * multiple of the superblock cycle.
     */
    function GetBlockStart(tipHeight: int, nSuperblockCycle: int): (r: int)
      reads this
      requires nSuperblockCycle != 0
      ensures var x := tipHeight + 1 + CDiv(nEpochStart, BLOCK_SPACING_ESTIMATE);
        var cycle := if nSuperblockCycle > 0 then nSuperblockCycle else -nSuperblockCycle;
        && r % nSuperblockCycle == 0
        && (x >= 0 ==> 0 <= x - r < cycle)
        && (x < 0 ==> -cycle < x - r <= 0)
    {
      var nTipBlock := tipHeight + 1;
      var nBlockDiff := CDiv(nEpochStart - 0, BLOCK_SPACING_ESTIMATE);
      var nMod := CRem(nTipBlock + nBlockDiff, nSuperblockCycle);
      var r := (nTipBlock + nBlockDiff) - nMod;
      MultipleHasNoRemainder(CDiv(nTipBlock + nBlockDiff, nSuperblockCycle), nSuperblockCycle);
      r
    }

    /**
     * governance-classes.h:220-261. The address and amount lists are split at
     * '|'; lists of different lengths fail before any payment is added; the
     * first invalid address stops the parse with an error naming it; an amount
     * that does not parse throws (`threw`); payments whose flag is set are
     * appended in order. As written the result is false on every path.
     * `fValidOf(i)` is the flag of the i-th constructed payment, which the
     * payment's constructor never sets.
     */
    method ParsePaymentSchedule(strPaymentAddresses: string, strPaymentAmounts: string,
                                isValidAddress: string -> bool, scriptFor: string -> Script,
                                parseAmount: string -> Option<int>, fValidOf: nat -> bool)
      returns (r: bool, threw: bool)
      modifies this
      ensures !r
      ensures nEpochStart == old(nEpochStart) && govHash == old(govHash)
      ensures fCachedFunding == old(fCachedFunding) && nAbsoluteYesCount == old(nAbsoluteYesCount)
      ensures var addrs := DropSubstringsOf(BoostSplit(strPaymentAddresses, "|"), "|");
        var amounts := DropSubstringsOf(BoostSplit(strPaymentAmounts, "|"), "|");
        && (|addrs| != |amounts| ==>
              !threw && vecPayments == old(vecPayments) && strError == "Mismatched payments and amounts")
        && (|addrs| == |amounts| ==>
              var k := FirstFailure(addrs, amounts, 0, isValidAddress, parseAmount);
              && vecPayments == old(vecPayments) + ParsedPayments(addrs, amounts, k, scriptFor, parseAmount, fValidOf)
              && (threw <==> k < |addrs| && isValidAddress(addrs[k]))
              && strError == (if k < |addrs| && !isValidAddress(addrs[k])
                              then "Invalid Dash Address : " + addrs[k] else old(strError)))
    {
      var vecParsed1 := SplitBy(strPaymentAddresses, "|");
      var vecParsed2 := SplitBy(strPaymentAmounts, "|");
      if |vecParsed1| != |vecParsed2| {
        strError := "Mismatched payments and amounts";
        return false, false;
      }
      var added, badAddress;
      added, badAddress, threw := BuildPayments(vecParsed1, vecParsed2, isValidAddress, scriptFor, parseAmount, fValidOf);
      vecPayments := vecPayments + added;
      if badAddress {
        var k := FirstFailure(vecParsed1, vecParsed2, 0, isValidAddress, parseAmount);
        strError := "Invalid Dash Address : " + vecParsed1[k];
      }
      r := false;
    }

    /** governance-classes.h:275-278 */
    function CountPayments(): (n: int)
      reads this
      ensures n == |vecPayments| && n >= 0
    {
      |vecPayments|
    }

    /** governance-classes.h:280-289: payment `i` when it exists; `paymentOut` is left as given otherwise. */
    method GetPayment(nPaymentIndex: nat, paymentOut: GovernancePayment) returns (ok: bool, payment: GovernancePayment)
      ensures ok <==> nPaymentIndex < CountPayments()
      ensures ok ==> payment == vecPayments[nPaymentIndex]
      ensures !ok ==> payment == paymentOut
    {
      if nPaymentIndex >= |vecPayments| {
        return false, paymentOut;
      }
      return true, vecPayments[nPaymentIndex];
    }

    /**
     * governance-classes.h:264-268: the manager tracks this trigger's hash with
     * status SEEN_OBJECT_EXECUTED (an untracked hash reads as status 0).
     */
    function IsExecuted(triggerman: TriggerManager): (r: bool)
      reads this, triggerman
      ensures r <==> govHash in triggerman.mapTrigger && triggerman.mapTrigger[govHash] == SEEN_OBJECT_EXECUTED
    {
      triggerman.GetStatus(govHash) == SEEN_OBJECT_EXECUTED
    }

    /** governance-classes.h:270-273: mark this trigger executed, if the manager tracks it. */
    method SetExecuted(triggerman: TriggerManager)
      modifies triggerman
      ensures triggerman.mapTrigger == if govHash in old(triggerman.mapTrigger)
                                       then old(triggerman.mapTrigger)[govHash := SEEN_OBJECT_EXECUTED]
                                       else old(triggerman.mapTrigger)
      ensures govHash in old(triggerman.mapTrigger) ==> IsExecuted(triggerman)
    {
      var _ := triggerman.UpdateStatus(govHash, SEEN_OBJECT_EXECUTED);
    }

    /**
     * governance-classes.cpp:338-382: every scheduled payment i is matched by
     * output i exactly; outputs past the schedule are not looked at. A coinbase
     * shorter than the schedule is a mismatch here.
     */
    method IsValid(vout: seq<TxOut>) returns (r: bool)
      ensures r <==> PaysSchedule(vout, vecPayments)
    {
      var nPayments := CountPayments();
      var i := 0;
      while i <= nPayments
        invariant 0 <= i <= nPayments + 1 && nPayments == |vecPayments|
        invariant PaysSchedule(vout, vecPayments[..if i < nPayments then i else nPayments])
      {
        var ok, payment := GetPayment(i, GovernancePayment([], 0, false));
        if ok {
          if i < |vout| && payment.script == vout[i].scriptPubKey && payment.nAmount == vout[i].nValue {
            assert vecPayments[..i + 1][i] == vecPayments[i];
          } else {
            assert vecPayments[i] == vecPayments[..i + 1][i];
            return false;
          }
        }
        i := i + 1;
      }
      assert vecPayments[..nPayments] == vecPayments;
      return true;
    }
  }

  /** CGovernanceTriggerManager: the status of each tracked governance object, by hash. */
  class TriggerManager {
    var mapTrigger: map<int, int>

    constructor()
      ensures mapTrigger == map[]
    {
      mapTrigger := map[];
    }

    /**
     * governance-classes.cpp:62-85. `objectType` is the type of the object the
     * hash names. As written an untracked hash is added with status
     * SEEN_OBJECT_IS_VALID when the object is NOT a trigger.
     */
    method AddNewTrigger(nHash: int, objectType: int) returns (r: bool)
      modifies this
      ensures r <==> nHash !in old(mapTrigger) && objectType != GOVERNANCE_OBJECT_TRIGGER
      ensures mapTrigger == if r then old(mapTrigger)[nHash := SEEN_OBJECT_IS_VALID] else old(mapTrigger)
    {
      if nHash !in mapTrigger {
        if objectType != GOVERNANCE_OBJECT_TRIGGER {
          mapTrigger := mapTrigger[nHash := SEEN_OBJECT_IS_VALID];
          return true;
        }
      }
      return false;
    }

    /** governance-classes.cpp:93-110: every tracked object that is not a trigger gets SEEN_OBJECT_ERROR_INVALID. */
    method CleanAndRemove(objectTypeOf: int -> int)
      modifies this
      ensures mapTrigger.Keys == old(mapTrigger).Keys
      ensures forall h :: h in mapTrigger ==>
        mapTrigger[h] == if objectTypeOf(h) != GOVERNANCE_OBJECT_TRIGGER then SEEN_OBJECT_ERROR_INVALID else old(mapTrigger)[h]
    {
      var todo := mapTrigger.Keys;
      ghost var m0 := mapTrigger;
      while todo != {}
        invariant todo <= m0.Keys && mapTrigger.Keys == m0.Keys
        invariant forall h :: h in mapTrigger ==>
          mapTrigger[h] == if h !in todo && objectTypeOf(h) != GOVERNANCE_OBJECT_TRIGGER then SEEN_OBJECT_ERROR_INVALID else m0[h]
        decreases |todo|
      {
        var h := Pick(todo);
        if objectTypeOf(h) != GOVERNANCE_OBJECT_TRIGGER {
          var _ := UpdateStatus(h, SEEN_OBJECT_ERROR_INVALID);
        }
        todo := todo - {h};
      }
    }

    /** governance-classes.cpp:118-128: only a tracked hash changes. */
    method UpdateStatus(nHash: int, nNewStatus: int) returns (r: bool)
      modifies this
      ensures r <==> nHash in old(mapTrigger)
      ensures mapTrigger == if r then old(mapTrigger)[nHash := nNewStatus] else old(mapTrigger)
    {
      if nHash in mapTrigger {
        mapTrigger := mapTrigger[nHash := nNewStatus];
        return true;
      }
      return false;
    }

    /** governance-classes.cpp:137-147: the stored status, or 0 (`false`) for an untracked hash. */
    function GetStatus(nHash: int): (r: int)
      reads this
      ensures nHash in mapTrigger ==> r == mapTrigger[nHash]
      ensures nHash !in mapTrigger ==> r == SEEN_OBJECT_IS_VALID
    {
      if nHash in mapTrigger then mapTrigger[nHash] else 0
    }
  }

  /** A trigger whose hash the manager does not track can never read as executed, even after SetExecuted. */
  lemma UntrackedNeverExecuted(triggerman: TriggerManager, sb: Superblock)
    requires sb.govHash !in triggerman.mapTrigger
    ensures !sb.IsExecuted(triggerman)
  {
  }

  // ----- CSuperblockManager -----

  /**
   * governance-classes.cpp:185-189: the remainder used as a bool, so true
   * exactly when the height is NOT a multiple of the cycle.
   */
  function IsValidSuperblockHeight(nBlockHeight: int, nSuperblockCycle: int): (r: bool)
    requires nSuperblockCycle != 0
    ensures r <==> nBlockHeight % nSuperblockCycle != 0
  {
    RemaindersVanishTogether(nBlockHeight, nSuperblockCycle);
    CRem(nBlockHeight, nSuperblockCycle) != 0
  }

  /**
   * A multiple of the cycle, where the protocol's one-superblock-per-cycle rule
   * places superblocks, is never accepted as one.
   */
  lemma CycleMultipleRejected(k: int, nSuperblockCycle: int)
    requires nSuperblockCycle != 0
    ensures !IsValidSuperblockHeight(k * nSuperblockCycle, nSuperblockCycle)
  {
    MultipleHasNoRemainder(k, nSuperblockCycle);
  }

  /** The trigger starts at height `h` with the given tip and cycle. */
  predicate StartsAt(t: Superblock, h: int, tipHeight: int, nSuperblockCycle: int)
    requires nSuperblockCycle != 0
    reads t
  {
    t.GetBlockStart(tipHeight, nSuperblockCycle) == h
  }

  /**
   * governance-classes.cpp:197-229 over the active triggers: some trigger
   * starting at the height has reached funding.
   */
  method IsSuperblockTriggered(triggers: seq<Superblock>, nBlockHeight: int, tipHeight: int, nSuperblockCycle: int)
    returns (r: bool)
    requires nSuperblockCycle != 0
    ensures r <==> exists i :: 0 <= i < |triggers| && StartsAt(triggers[i], nBlockHeight, tipHeight, nSuperblockCycle)
                              && triggers[i].fCachedFunding
  {
    var i := 0;
    while i < |triggers|
      invariant 0 <= i <= |triggers|
      invariant forall j :: 0 <= j < i && StartsAt(triggers[j], nBlockHeight, tipHeight, nSuperblockCycle)
                  ==> !triggers[j].fCachedFunding
    {
      var t := triggers[i];
      if nBlockHeight == t.GetBlockStart(tipHeight, nSuperblockCycle) {
        if t.fCachedFunding {
          return true;
        }
      }
      i := i + 1;
    }
    return false;
  }

  /**
   * The trigger GetBestSuperblock settles on after looking at the first `n`
   * triggers: a trigger starting at the height replaces the current choice
   * when its yes count is strictly greater (than 0 while there is none).
   */
  function BestAmong(triggers: seq<Superblock>, n: nat, nBlockHeight: int, tipHeight: int, nSuperblockCycle: int): (r: Option<nat>)
    requires nSuperblockCycle != 0 && n <= |triggers|
    reads triggers
    ensures r.Some? ==> r.value < n
  {
    if n == 0 then None
    else
      var b := BestAmong(triggers, n - 1, nBlockHeight, tipHeight, nSuperblockCycle);
      var t := triggers[n - 1];
      if StartsAt(t, nBlockHeight, tipHeight, nSuperblockCycle)
         && t.nAbsoluteYesCount > (if b.None? then 0 else triggers[b.value].nAbsoluteYesCount)
      then Some(n - 1) else b
  }

  /** The best superblock for a height among all the active triggers. */
  function BestSuperblock(triggers: seq<Superblock>, nBlockHeight: int, tipHeight: int, nSuperblockCycle: int): Option<nat>
    requires nSuperblockCycle != 0
    reads triggers
  {
    BestAmong(triggers, |triggers|, nBlockHeight, tipHeight, nSuperblockCycle)
  }

  /**
   * What the choice is: some trigger is chosen iff one starting at the height
   * has a positive yes count, and the chosen one is the first with the
   * greatest count among those starting at the height.
   */
  lemma {:induction false} BestAmongSpec(triggers: seq<Superblock>, n: nat, nBlockHeight: int, tipHeight: int, nSuperblockCycle: int)
    requires nSuperblockCycle != 0 && n <= |triggers|
    ensures var b := BestAmong(triggers, n, nBlockHeight, tipHeight, nSuperblockCycle);
      && (b.Some? <==> exists i :: 0 <= i < n && StartsAt(triggers[i], nBlockHeight, tipHeight, nSuperblockCycle)
                                    && triggers[i].nAbsoluteYesCount > 0)
      && (b.Some? ==>
            && StartsAt(triggers[b.value], nBlockHeight, tipHeight, nSuperblockCycle)
            && triggers[b.value].nAbsoluteYesCount > 0
            && (forall j :: 0 <= j < n && StartsAt(triggers[j], nBlockHeight, tipHeight, nSuperblockCycle)
                  ==> triggers[j].nAbsoluteYesCount <= triggers[b.value].nAbsoluteYesCount)
            && (forall j :: 0 <= j < b.value && StartsAt(triggers[j], nBlockHeight, tipHeight, nSuperblockCycle)
                  ==> triggers[j].nAbsoluteYesCount < triggers[b.value].nAbsoluteYesCount))
  {
    if n > 0 {
      BestAmongSpec(triggers, n - 1, nBlockHeight, tipHeight, nSuperblockCycle);
    }
  }

  /**
   * governance-classes.cpp:232-264 over the active triggers: true iff some
   * trigger starting at the height has a positive yes count. `pBlock` is
   * passed by value, so the choice lands only in the function's own copy:
   * `localChoice` is the trigger that copy last pointed at (`pBlock = &t`,
   * a loop local). The caller's pointer is not changed; only the `...Intended`
   * callers below read `localChoice`, as if it were an out-parameter.
   */
  method GetBestSuperblock(triggers: seq<Superblock>, nBlockHeight: int, tipHeight: int, nSuperblockCycle: int)
    returns (r: bool, localChoice: Option<nat>)
    requires nSuperblockCycle != 0
    ensures localChoice == BestSuperblock(triggers, nBlockHeight, tipHeight, nSuperblockCycle)
    ensures r <==> exists i :: 0 <= i < |triggers| && StartsAt(triggers[i], nBlockHeight, tipHeight, nSuperblockCycle)
                              && triggers[i].nAbsoluteYesCount > 0
    ensures r <==> localChoice.Some?
  {
    var nYesCount := 0;
    localChoice := None;
    var i := 0;
    while i < |triggers|
      invariant 0 <= i <= |triggers|
      invariant localChoice == BestAmong(triggers, i, nBlockHeight, tipHeight, nSuperblockCycle)
      invariant nYesCount == if localChoice.None? then 0 else triggers[localChoice.value].nAbsoluteYesCount
    {
      var t := triggers[i];
      if nBlockHeight == t.GetBlockStart(tipHeight, nSuperblockCycle) {
        var nTempYesCount := t.nAbsoluteYesCount;
        if nTempYesCount > nYesCount {
          nYesCount := nTempYesCount;
          localChoice := Some(i);
        }
      }
      i := i + 1;
    }
    BestAmongSpec(triggers, |triggers|, nBlockHeight, tipHeight, nSuperblockCycle);
    r := nYesCount > 0;
  }

  /**
   * How a caller of GetBestSuperblock ends: it returns a value, or it
   * dereferences its own `pBlock`, which is still NULL.
   */
  datatype CallOutcome<T> = Returns(value: T) | DereferencesNull

  /**
   * The coinbase CreateSuperblock evidently means to build: unchanged without
   * a tip or a best superblock, otherwise one output per scheduled payment.
   */
  function IntendedCoinbase(vout: seq<TxOut>, hasTip: bool, triggers: seq<Superblock>,
                            nBlockHeight: int, tipHeight: int, nSuperblockCycle: int): seq<TxOut>
    requires nSuperblockCycle != 0
    reads triggers
  {
    var best := BestSuperblock(triggers, nBlockHeight, tipHeight, nSuperblockCycle);
    if !hasTip || best.None? then vout
    else
      var p := triggers[best.value].vecPayments;
      seq(|p|, j requires 0 <= j < |p| reads triggers => PaymentOutput(p[j]))
  }

  /** The verdict IsValid evidently means to give: the best superblock's check, false without one. */
  function IntendedValidity(vout: seq<TxOut>, triggers: seq<Superblock>,
                            nBlockHeight: int, tipHeight: int, nSuperblockCycle: int): bool
    requires nSuperblockCycle != 0
    reads triggers
  {
    var best := BestSuperblock(triggers, nBlockHeight, tipHeight, nSuperblockCycle);
    best.Some? && PaysSchedule(vout, triggers[best.value].vecPayments)
  }

  /** The text GetRequiredPaymentsString evidently means to give: "error" without a best superblock. */
  function IntendedPaymentsText(triggers: seq<Superblock>, nBlockHeight: int, tipHeight: int,
                                nSuperblockCycle: int, addressOf: Script -> string): string
    requires nSuperblockCycle != 0
    reads triggers
  {
    var best := BestSuperblock(triggers, nBlockHeight, tipHeight, nSuperblockCycle);
    if best.None? then "error" else RequiredPaymentsText(Addresses(triggers[best.value].vecPayments, addressOf))
  }

  /**
   * governance-classes.cpp:272-317 as written. The caller's `pBlock` starts
   * NULL and GetBestSuperblock cannot change it, so with a tip and a best
   * superblock `pBlock->CountPayments()` dereferences NULL before the
   * coinbase is touched. On every other path the coinbase is returned
   * unchanged, which is what the intended version returns there too.
   */
  method CreateSuperblock(vout: seq<TxOut>, hasTip: bool, triggers: seq<Superblock>,
                          nBlockHeight: int, tipHeight: int, nSuperblockCycle: int)
    returns (r: CallOutcome<seq<TxOut>>)
    requires nSuperblockCycle != 0
    ensures r.DereferencesNull? <==> hasTip && BestSuperblock(triggers, nBlockHeight, tipHeight, nSuperblockCycle).Some?
    ensures r.Returns? ==> r.value == vout == IntendedCoinbase(vout, hasTip, triggers, nBlockHeight, tipHeight, nSuperblockCycle)
  {
    if !hasTip {
      return Returns(vout);
    }
    var found, _ := GetBestSuperblock(triggers, nBlockHeight, tipHeight, nSuperblockCycle);
    if !found {
      return Returns(vout);
    }
    // pBlock is still NULL: pBlock->CountPayments()
    return DereferencesNull;
  }

  /**
   * governance-classes.cpp:272-317 as evidently intended, with the chosen
   * trigger handed back to the caller: its outputs become exactly the best
   * superblock's payments, in schedule order.
   */
  method CreateSuperblockIntended(vout: seq<TxOut>, hasTip: bool, triggers: seq<Superblock>,
                                  nBlockHeight: int, tipHeight: int, nSuperblockCycle: int)
    returns (r: seq<TxOut>)
    requires nSuperblockCycle != 0
    ensures var best := BestSuperblock(triggers, nBlockHeight, tipHeight, nSuperblockCycle);
      && (!hasTip || best.None? ==> r == vout)
      && (hasTip && best.Some? ==>
            && |r| == |triggers[best.value].vecPayments|
            && forall j :: 0 <= j < |r| ==> r[j] == PaymentOutput(triggers[best.value].vecPayments[j]))
    ensures r == IntendedCoinbase(vout, hasTip, triggers, nBlockHeight, tipHeight, nSuperblockCycle)
  {
    r := vout;
    if !hasTip {
      return;
    }
    var found, best := GetBestSuperblock(triggers, nBlockHeight, tipHeight, nSuperblockCycle);
    if !found {
      return;
    }
    var pBlock := triggers[best.value];
    var n := pBlock.CountPayments();
    // vout.resize(n): new outputs are null ones (empty script, value -1)
    r := if |r| >= n then r[..n] else r + seq(n - |r|, _ => TxOut([], -1));
    var i := 0;
    while i <= n
      invariant 0 <= i <= n + 1 && |r| == n
      invariant forall j :: 0 <= j < i && j < n ==> r[j] == PaymentOutput(pBlock.vecPayments[j])
    {
      var ok, payment := pBlock.GetPayment(i, GovernancePayment([], 0, false));
      if ok {
        r := r[i := TxOut(payment.script, payment.nAmount)];
      }
      i := i + 1;
    }
  }

  /**
   * governance-classes.cpp:319-330 as written: with a best superblock the
   * NULL `pBlock` is dereferenced (`pBlock->IsValid(txNew)`); without one the
   * answer is false, as intended.
   */
  method IsValid(vout: seq<TxOut>, triggers: seq<Superblock>, nBlockHeight: int, tipHeight: int, nSuperblockCycle: int)
    returns (r: CallOutcome<bool>)
    requires nSuperblockCycle != 0
    ensures r.DereferencesNull? <==> BestSuperblock(triggers, nBlockHeight, tipHeight, nSuperblockCycle).Some?
    ensures r.Returns? ==> !r.value && r.value == IntendedValidity(vout, triggers, nBlockHeight, tipHeight, nSuperblockCycle)
  {
    var found, _ := GetBestSuperblock(triggers, nBlockHeight, tipHeight, nSuperblockCycle);
    if found {
      // pBlock is still NULL: pBlock->IsValid(txNew)
      return DereferencesNull;
    }
    return Returns(false);
  }

  /** governance-classes.cpp:319-330 as evidently intended: the best superblock's check, and false when there is none. */
  method IsValidIntended(vout: seq<TxOut>, triggers: seq<Superblock>, nBlockHeight: int, tipHeight: int, nSuperblockCycle: int)
    returns (r: bool)
    requires nSuperblockCycle != 0
    ensures var best := BestSuperblock(triggers, nBlockHeight, tipHeight, nSuperblockCycle);
      r <==> best.Some? && PaysSchedule(vout, triggers[best.value].vecPayments)
    ensures r == IntendedValidity(vout, triggers, nBlockHeight, tipHeight, nSuperblockCycle)
  {
    var found, best := GetBestSuperblock(triggers, nBlockHeight, tipHeight, nSuperblockCycle);
    if found {
      var pBlock := triggers[best.value];
      r := pBlock.IsValid(vout);
      return;
    }
    return false;
  }

  /**
   * The text GetRequiredPaymentsString builds from the payee addresses:
   * starting from "Unknown", each address replaces the text while it still
   * reads "Unknown", and is appended after ", " once it does not.
   */
  function RequiredPaymentsText(addrs: seq<string>): string
  {
    if addrs == [] then "Unknown"
    else
      var prev := RequiredPaymentsText(addrs[..|addrs| - 1]);
      var a := addrs[|addrs| - 1];
      if prev != "Unknown" then prev + ", " + a else a
  }

  /** The address of each payment's script, in schedule order. */
  function Addresses(payments: seq<GovernancePayment>, addressOf: Script -> string): (r: seq<string>)
    ensures |r| == |payments| && forall j :: 0 <= j < |r| ==> r[j] == addressOf(payments[j].script)
  {
    seq(|payments|, j requires 0 <= j < |payments| => addressOf(payments[j].script))
  }

  /** The addresses joined by ", ". */
  function Join(addrs: seq<string>): string
    requires addrs != []
  {
    if |addrs| == 1 then addrs[0] else Join(addrs[..|addrs| - 1]) + ", " + addrs[|addrs| - 1]
  }

  /** When no address reads "Unknown", the text is "Unknown" for an empty schedule and the ", "-joined addresses otherwise. */
  lemma {:induction false} RequiredPaymentsTextJoins(addrs: seq<string>)
    requires forall i :: 0 <= i < |addrs| ==> addrs[i] != "Unknown"
    ensures addrs == [] ==> RequiredPaymentsText(addrs) == "Unknown"
    ensures addrs != [] ==> RequiredPaymentsText(addrs) == Join(addrs)
  {
    if |addrs| > 1 {
      var init := addrs[..|addrs| - 1];
      RequiredPaymentsTextJoins(init);
      assert RequiredPaymentsText(init) != "Unknown" by {
        if |init| == 1 {
          assert RequiredPaymentsText(init) == init[0];
        } else {
          var p := RequiredPaymentsText(init[..|init| - 1]);
          if p != "Unknown" {
            var x := p + ", " + init[|init| - 1];
            assert x[|p|] == ',';
            assert forall c :: c in "Unknown" ==> c != ',';
          } else {
            assert RequiredPaymentsText(init) == init[|init| - 1];
          }
        }
      }
    }
  }

  /**
   * governance-classes.cpp:390-429 as written: "error" without a best
   * superblock, as intended; with one, the loop's `pBlock->CountPayments()`
   * dereferences the caller's NULL `pBlock`.
   */
  method GetRequiredPaymentsString(triggers: seq<Superblock>, nBlockHeight: int, tipHeight: int,
                                   nSuperblockCycle: int, addressOf: Script -> string)
    returns (ret: CallOutcome<string>)
    requires nSuperblockCycle != 0
    ensures ret.DereferencesNull? <==> BestSuperblock(triggers, nBlockHeight, tipHeight, nSuperblockCycle).Some?
    ensures ret.Returns? ==> ret.value == "error" == IntendedPaymentsText(triggers, nBlockHeight, tipHeight, nSuperblockCycle, addressOf)
  {
    var found, _ := GetBestSuperblock(triggers, nBlockHeight, tipHeight, nSuperblockCycle);
    if !found {
      return Returns("error");
    }
    // pBlock is still NULL: pBlock->CountPayments()
    return DereferencesNull;
  }

  /**
   * governance-classes.cpp:390-429 as evidently intended: "error" without a
   * best superblock, otherwise the text built from the addresses of its payees.
   */
  method GetRequiredPaymentsStringIntended(triggers: seq<Superblock>, nBlockHeight: int, tipHeight: int,
                                           nSuperblockCycle: int, addressOf: Script -> string)
    returns (ret: string)
    requires nSuperblockCycle != 0
    ensures var best := BestSuperblock(triggers, nBlockHeight, tipHeight, nSuperblockCycle);
      && (best.None? ==> ret == "error")
      && (best.Some? ==> ret == RequiredPaymentsText(Addresses(triggers[best.value].vecPayments, addressOf)))
    ensures ret == IntendedPaymentsText(triggers, nBlockHeight, tipHeight, nSuperblockCycle, addressOf)
  {
    ret := "Unknown";
    var found, best := GetBestSuperblock(triggers, nBlockHeight, tipHeight, nSuperblockCycle);
    if !found {
      return "error";
    }
    var pBlock := triggers[best.value];
    ghost var addrs := Addresses(pBlock.vecPayments, addressOf);
    var n := pBlock.CountPayments();
    var i := 0;
    while i <= n
      invariant 0 <= i <= n + 1
      invariant ret == RequiredPaymentsText(addrs[..if i < n then i else n])
    {
      var ok, payment := pBlock.GetPayment(i, GovernancePayment([], 0, false));
      if ok {
        var address := addressOf(payment.script);
        assert addrs[..i + 1][..i] == addrs[..i];
        if ret != "Unknown" {
          ret := ret + ", " + address;
        } else {
          ret := address;
        }
      }
      i := i + 1;
    }
    assert addrs[..n] == addrs;
  }
}
