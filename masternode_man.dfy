/**
 * The masternode registry of masternodeman.cpp: a vector of masternode
 * records with an index from collateral outpoint to position, the
 * deterministic ranking of masternodes for a block, the selection of the next
 * masternode to pay, and the network-size estimate.
 *
 * Hashing, chain access and time are parameters: the compact score of a
 * masternode for a block (`compactScore`), its 256-bit payment score
 * (`score`), whether the block hash is known (`blockKnown`), the adjusted
 * time, the minimum payment protocol and the payment schedule
 * (`isScheduled`). Each record's state is taken as `mn.Check()` leaves it.
 */
module Masternodes {
  import opened Common
  import Payments

  /** The activity states a masternode record can be in (their numeric values play no role). */
  datatype ActiveState =
    | PreEnabled | Enabled | Expired | OutpointSpent | Remove
    | WatchdogExpired | NewStartRequired | PoseBan

  /**
   * A transaction input. The collateral outpoint is an `int` in the protocol's
   * order; inputs are ordered by their outpoint.
   */
  datatype TxIn = TxIn(prevout: int, scriptSig: Script, nSequence: int)

  /** The fields of a masternode record that the registry reads. */
  datatype Masternode = Masternode(
    vin: TxIn,
    collateralScript: Script,  // the script paying the collateral key
    pubKeyMasternode: seq<int>,
    nActiveState: ActiveState,
    nProtocolVersion: int,
    sigTime: int,
    nLastPaidBlock: int,
    nCollateralAge: int)

  predicate IsEnabled(mn: Masternode) { mn.nActiveState == Enabled }

  predicate IsPreEnabled(mn: Masternode) { mn.nActiveState == PreEnabled }

  /** No two records share a collateral outpoint (what `Add` maintains). */
  predicate DistinctOutpoints(v: seq<Masternode>)
  {
    forall i, j :: 0 <= i < j < |v| ==> v[i].vin.prevout != v[j].vin.prevout
  }

  /**
   * `m` is the index `UpdateMNIndex` builds for `v`: every outpoint of `v` is a
   * key, and each key maps to the last position holding that outpoint.
   */
  predicate IndexOf(m: map<int, int>, v: seq<Masternode>)
  {
    && (forall i :: 0 <= i < |v| ==> v[i].vin.prevout in m)
    && (forall k :: k in m ==>
          && 0 <= m[k] < |v|
          && v[m[k]].vin.prevout == k
          && (forall j :: m[k] < j < |v| ==> v[j].vin.prevout != k))
  }

  /** The index of a list is unique. */
  lemma IndexUnique(m1: map<int, int>, m2: map<int, int>, v: seq<Masternode>)
    requires IndexOf(m1, v) && IndexOf(m2, v)
    ensures m1 == m2
  {
    forall k | k in m1 ensures k in m2 && m1[k] == m2[k] {
      assert v[m1[k]].vin.prevout in m2;
    }
    forall k | k in m2 ensures k in m1 {
      assert v[m2[k]].vin.prevout in m1;
    }
  }

  /** With distinct outpoints, the index maps each record's outpoint to its position. */
  lemma IndexPositions(m: map<int, int>, v: seq<Masternode>)
    requires DistinctOutpoints(v) && IndexOf(m, v)
    ensures forall i :: 0 <= i < |v| ==> m[v[i].vin.prevout] == i
  {
    forall i | 0 <= i < |v| ensures m[v[i].vin.prevout] == i {
      var k := v[i].vin.prevout;
      assert v[m[k]].vin.prevout == k;
    }
  }

  // ----- Ordering scored records (CompareScoreMN, CompareLastPaidBlock) -----

  /** A record paired with the value it is sorted on (a score or a last-paid height). */
  datatype Entry = Entry(key: int, mn: Masternode)

  /** The comparators at masternodeman.cpp:20-36: by key, then by outpoint. */
  predicate Lt(a: Entry, b: Entry)
  {
    a.key < b.key || (a.key == b.key && a.mn.vin.prevout < b.mn.vin.prevout)
  }

  predicate Ascending(s: seq<Entry>)
  {
    forall i, j :: 0 <= i < j < |s| ==> !Lt(s[j], s[i])
  }

  predicate Descending(s: seq<Entry>)
  {
    forall i, j :: 0 <= i < j < |s| ==> !Lt(s[i], s[j])
  }

  predicate DistinctEntries(s: seq<Entry>)
  {
    forall i, j :: 0 <= i < j < |s| ==> s[i].mn.vin.prevout != s[j].mn.vin.prevout
  }

  /** An entry no later than every entry of an ascending list can go in front of it. */
  lemma ConsAscending(e: Entry, t: seq<Entry>)
    requires Ascending(t)
    requires forall y :: y in t ==> !Lt(y, e)
    ensures Ascending([e] + t)
  {
    forall i, j | 0 <= i < j < |[e] + t|
      ensures !Lt(([e] + t)[j], ([e] + t)[i])
    {
      assert ([e] + t)[j] == t[j - 1];
      if i > 0 {
        assert ([e] + t)[i] == t[i - 1];
      }
    }
  }

  function InsertAsc(x: Entry, s: seq<Entry>): (r: seq<Entry>)
    requires Ascending(s)
    ensures Ascending(r) && multiset(r) == multiset(s) + multiset{x}
  {
    if s == [] then [x]
    else if Lt(s[0], x) then
      var t := InsertAsc(x, s[1..]);
      assert s == [s[0]] + s[1..];
      forall y | y in t
        ensures !Lt(y, s[0])
      {
        assert y in multiset(s[1..]) + multiset{x};
        if y != x {
          var j :| 0 <= j < |s[1..]| && s[1..][j] == y;
          assert s[j + 1] == y;
        }
      }
      ConsAscending(s[0], t);
      [s[0]] + t
    else
      assert s == [s[0]] + s[1..];
      [x] + s
  }

  /** Sorting into ascending (key, outpoint) order. */
  function SortAsc(s: seq<Entry>): (r: seq<Entry>)
    ensures Ascending(r) && multiset(r) == multiset(s)
  {
    if s == [] then []
    else
      assert s == [s[0]] + s[1..];
      InsertAsc(s[0], SortAsc(s[1..]))
  }

  /**
   * `sort(v.rbegin(), v.rend(), cmp)`: the reversed view is sorted ascending,
   * so the vector itself ends up in descending (key, outpoint) order.
   */
  function SortDescViaReverse(s: seq<Entry>): seq<Entry>
  {
    Reverse(SortAsc(Reverse(s)))
  }

  lemma SortDescViaReverseSpec(s: seq<Entry>)
    ensures Descending(SortDescViaReverse(s))
    ensures multiset(SortDescViaReverse(s)) == multiset(s)
  {
    var t := SortAsc(Reverse(s));
    ReverseIndex(t);
    ReverseMultiset(t);
    ReverseMultiset(s);
  }

  // ----- Positions in a ranked list -----

  /** 1-based position of the first entry whose outpoint is `p`, or -1 (the scan of masternodeman.cpp:482-488). */
  function PositionIn(s: seq<Entry>, p: int): (r: int)
    ensures r == -1 <==> forall i :: 0 <= i < |s| ==> s[i].mn.vin.prevout != p
    ensures r != -1 ==>
      && 1 <= r <= |s|
      && s[r - 1].mn.vin.prevout == p
      && forall i :: 0 <= i < r - 1 ==> s[i].mn.vin.prevout != p
  {
    if s == [] then -1
    else if s[0].mn.vin.prevout == p then 1
    else
      var r := PositionIn(s[1..], p);
      if r == -1 then -1 else r + 1
  }

  /** The entries that come strictly after `e` in (key, outpoint) order. */
  function Above(s: seq<Entry>, e: Entry): set<Entry>
  {
    set x | x in s && Lt(e, x)
  }

  lemma {:induction false} DistinctCount(s: seq<Entry>)
    requires DistinctEntries(s)
    ensures forall x :: multiset(s)[x] <= 1
  {
    if s != [] {
      var rest := s[1..];
      assert s == [s[0]] + rest;
      DistinctCount(rest);
      assert s[0] !in rest by {
        forall i | 0 <= i < |rest| ensures rest[i] != s[0] {
          assert rest[i] == s[i + 1];
        }
      }
    }
  }

  lemma RepeatedCount(t: seq<Entry>, i: int, j: int)
    requires 0 <= i < j < |t|
    ensures multiset(t)[t[i]] >= 1 + (if t[j] == t[i] then 1 else 0)
  {
    assert t == t[..j] + [t[j]] + t[j + 1..];
    assert t[i] in t[..j];
  }

  /** A permutation of a list with distinct outpoints has distinct outpoints. */
  lemma PermutationDistinct(s: seq<Entry>, t: seq<Entry>)
    requires DistinctEntries(s) && multiset(s) == multiset(t)
    ensures DistinctEntries(t)
  {
    DistinctCount(s);
    forall i, j | 0 <= i < j < |t| ensures t[i].mn.vin.prevout != t[j].mn.vin.prevout {
      RepeatedCount(t, i, j);
      assert t[i] != t[j];
      assert t[i] in multiset(s) && t[j] in multiset(s);
      var a :| 0 <= a < |s| && s[a] == t[i];
      var b :| 0 <= b < |s| && s[b] == t[j];
    }
  }

  lemma {:induction false} DistinctCardinality(u: seq<Entry>)
    requires DistinctEntries(u)
    ensures |set x | x in u| == |u|
  {
    if u != [] {
      var init := u[..|u| - 1];
      var last := u[|u| - 1];
      DistinctCardinality(init);
      assert (set x | x in u) == (set x | x in init) + {last} by {
        assert u == init + [last];
      }
      assert last !in init by {
        forall i | 0 <= i < |init| ensures init[i] != last {
          assert init[i] == u[i];
        }
      }
    }
  }

  /** In a descending list with distinct outpoints, the entries above position q are those before it. */
  lemma AboveInDescending(t: seq<Entry>, q: int)
    requires Descending(t) && DistinctEntries(t) && 0 <= q < |t|
    ensures Above(t, t[q]) == (set x | x in t[..q])
  {
    forall x ensures x in Above(t, t[q]) <==> x in t[..q] {
      if x in t {
        var i :| 0 <= i < |t| && t[i] == x;
        if i < q {
          assert x == t[..q][i];
        }
      }
      if x in t[..q] {
        var i :| 0 <= i < q && t[..q][i] == x;
        assert t[i] == x;
      }
    }
  }

  /** With distinct outpoints, the entry at index q is found at 1-based position q + 1. */
  lemma PositionOfIndex(t: seq<Entry>, q: int)
    requires DistinctEntries(t) && 0 <= q < |t|
    ensures PositionIn(t, t[q].mn.vin.prevout) == q + 1
  {
  }

  /**
   * In the descending order of masternodeman.cpp:478, the 1-based position of a
   * record is one more than the number of records ranked above it: those with
   * a greater score, or an equal score and a greater outpoint.
   */
  lemma RankCountsHigher(s: seq<Entry>, e: Entry)
    requires DistinctEntries(s) && e in s
    ensures PositionIn(SortDescViaReverse(s), e.mn.vin.prevout) == 1 + |Above(s, e)|
  {
    var t := SortDescViaReverse(s);
    SortDescViaReverseSpec(s);
    PermutationDistinct(s, t);
    assert e in multiset(t);
    var q :| 0 <= q < |t| && t[q] == e;
    PositionOfIndex(t, q);
    assert Above(s, e) == Above(t, e) by {
      forall x ensures x in s <==> x in t {
        assert x in s <==> x in multiset(t);
      }
    }
    AboveInDescending(t, q);
    assert DistinctEntries(t[..q]);
    DistinctCardinality(t[..q]);
  }

  /** Conversely, the record at 1-based position r of the ranked list has rank r. */
  lemma RankOfPosition(s: seq<Entry>, r: int)
    requires DistinctEntries(s) && 1 <= r <= |s|
    ensures |SortDescViaReverse(s)| == |s|
    ensures PositionIn(SortDescViaReverse(s), SortDescViaReverse(s)[r - 1].mn.vin.prevout) == r
  {
    var t := SortDescViaReverse(s);
    SortDescViaReverseSpec(s);
    assert |t| == |multiset(t)| == |multiset(s)| == |s|;
    PermutationDistinct(s, t);
  }

  /**
   * The tie-break of masternodeman.cpp:478 as written: of two records with the
   * same score, the one with the GREATER outpoint is ranked first.
   */
  lemma TieGoesToGreaterOutpoint(s: seq<Entry>, a: Entry, b: Entry)
    requires DistinctEntries(s) && a in s && b in s
    requires a.key == b.key && a.mn.vin.prevout < b.mn.vin.prevout
    ensures 1 <= PositionIn(SortDescViaReverse(s), b.mn.vin.prevout) < PositionIn(SortDescViaReverse(s), a.mn.vin.prevout)
  {
    RankCountsHigher(s, a);
    RankCountsHigher(s, b);
    assert Above(s, b) < Above(s, a) by {
      assert Above(s, b) <= Above(s, a);
      assert b in Above(s, a) && b !in Above(s, b);
    }
    assert |Above(s, b)| < |Above(s, a)| by {
      var d := Above(s, a) - Above(s, b);
      assert b in d;
      assert Above(s, a) == Above(s, b) + d;
    }
  }

  // ----- Which records take part in an operation -----

  /**
   * The records of `v` that pass `keep`, in their order, each paired with its
   * key: the vectors of (score, record) and (last paid, record) pairs that the
   * loops of masternodeman.cpp build before sorting.
   */
  function Keyed(v: seq<Masternode>, keep: Masternode -> bool, key: Masternode -> int): seq<Entry>
  {
    if v == [] then []
    else
      var last := v[|v| - 1];
      Keyed(v[..|v| - 1], keep, key) + (if keep(last) then [Entry(key(last), last)] else [])
  }

  /** Keyed holds exactly the kept records with their keys, and keeps outpoints distinct. */
  lemma {:induction false} KeyedSpec(v: seq<Masternode>, keep: Masternode -> bool, key: Masternode -> int)
    ensures forall e :: e in Keyed(v, keep, key) <==> e.mn in v && keep(e.mn) && e.key == key(e.mn)
    ensures DistinctOutpoints(v) ==> DistinctEntries(Keyed(v, keep, key))
  {
    if v != [] {
      var init := v[..|v| - 1];
      var last := v[|v| - 1];
      assert v == init + [last];
      KeyedSpec(init, keep, key);
      var k := Keyed(init, keep, key);
      if DistinctOutpoints(v) {
        assert DistinctOutpoints(init);
        forall i | 0 <= i < |k| ensures k[i].mn.vin.prevout != last.vin.prevout {
          assert k[i] in k;
          var j :| 0 <= j < |init| && init[j] == k[i].mn;
          assert v[j] == k[i].mn;
        }
      }
    }
  }

  /** The positions of records counted by CountEnabled(p) (masternodeman.cpp:203-215). */
  function EnabledBelow(v: seq<Masternode>, p: int, k: int): set<int>
    requires 0 <= k <= |v|
  {
    set i | 0 <= i < k && v[i].nProtocolVersion >= p && IsEnabled(v[i])
  }

  function EnabledAt(v: seq<Masternode>, p: int): set<int>
  {
    EnabledBelow(v, p, |v|)
  }

  /**
   * Raising the payment minimum with spork 10 (masternode-payments.cpp:253-257)
   * can only shrink what CountEnabled(-1) counts (masternodeman.cpp:203-215).
   */
  lemma Spork10ShrinksEnabledCount(v: seq<Masternode>, protoVersion1: int, protoVersion2: int)
    requires protoVersion1 <= protoVersion2
    ensures var pOn := Payments.GetMinMasternodePaymentsProto(true, protoVersion1, protoVersion2);
      var pOff := Payments.GetMinMasternodePaymentsProto(false, protoVersion1, protoVersion2);
      && EnabledAt(v, pOn) <= EnabledAt(v, pOff)
      && |EnabledAt(v, pOn)| <= |EnabledAt(v, pOff)|
  {
    var on := EnabledAt(v, protoVersion2);
    var off := EnabledAt(v, protoVersion1);
    assert off == on + (off - on);
  }

  /** What CheckAndRemove takes out of the list (masternodeman.cpp:108-114). */
  predicate Removable(mn: Masternode, fForceExpiredRemoval: bool)
  {
    || mn.nActiveState == Remove
    || mn.nActiveState == OutpointSpent
    || (fForceExpiredRemoval && mn.nActiveState == Expired)
  }

  /** The records CheckAndRemove keeps, in their original order. */
  function Survivors(v: seq<Masternode>, f: bool): seq<Masternode>
  {
    if v == [] then []
    else
      var last := v[|v| - 1];
      Survivors(v[..|v| - 1], f) + (if Removable(last, f) then [] else [last])
  }

  /** CheckAndRemove keeps exactly the records that are not removable. */
  lemma {:induction false} SurvivorsMembers(v: seq<Masternode>, f: bool)
    ensures forall x :: x in Survivors(v, f) <==> x in v && !Removable(x, f)
  {
    if v != [] {
      assert v == v[..|v| - 1] + [v[|v| - 1]];
      SurvivorsMembers(v[..|v| - 1], f);
    }
  }

  lemma SurvivorsStep(v: seq<Masternode>, k: int, f: bool)
    requires 0 <= k < |v|
    ensures Survivors(v[..k + 1], f) == Survivors(v[..k], f) + (if Removable(v[k], f) then [] else [v[k]])
  {
    assert v[..k + 1][..k] == v[..k];
  }

  /** The list shrinks iff one of its records is removable. */
  lemma {:induction false} SurvivorsLength(v: seq<Masternode>, f: bool)
    ensures |Survivors(v, f)| <= |v|
    ensures |Survivors(v, f)| == |v| <==> forall i :: 0 <= i < |v| ==> !Removable(v[i], f)
  {
    if v != [] {
      var init := v[..|v| - 1];
      SurvivorsLength(init, f);
      if forall i :: 0 <= i < |v| ==> !Removable(v[i], f) {
        forall i | 0 <= i < |init| ensures !Removable(init[i], f) {
          assert init[i] == v[i];
        }
      }
    }
  }

  /** Removing records keeps the outpoints distinct. */
  lemma {:induction false} SurvivorsDistinct(v: seq<Masternode>, f: bool)
    requires DistinctOutpoints(v)
    ensures DistinctOutpoints(Survivors(v, f))
  {
    if v != [] {
      var init := v[..|v| - 1];
      var last := v[|v| - 1];
      assert DistinctOutpoints(init);
      SurvivorsDistinct(init, f);
      SurvivorsMembers(init, f);
      var k := Survivors(init, f);
      forall i | 0 <= i < |k| ensures k[i].vin.prevout != last.vin.prevout {
        assert k[i] in k;
        var j :| 0 <= j < |init| && init[j] == k[i];
        assert v[j] == k[i];
      }
    }
  }

  /** What `erase` of position i leaves before and after that position. */
  lemma EraseAt<T>(v: seq<T>, i: int)
    requires 0 <= i < |v|
    ensures (v[..i] + v[i + 1..])[..i] == v[..i]
    ensures (v[..i] + v[i + 1..])[i..] == v[i + 1..]
  {
  }

  /**
   * The erase loop of masternodeman.cpp:106-131 on the list: each removable
   * record is erased where it stands, the others are stepped over.
   */
  method EraseRemovable(v0: seq<Masternode>, f: bool) returns (v: seq<Masternode>, fRemoved: bool)
    ensures v == Survivors(v0, f)
    ensures fRemoved <==> |v| < |v0|
  {
    v := v0;
    fRemoved := false;
    var i := 0;
    ghost var k := 0;
    while i < |v|
      invariant 0 <= i <= k <= |v0|
      invariant |v| == i + |v0| - k
      invariant v[..i] == Survivors(v0[..k], f)
      invariant v[i..] == v0[k..]
      invariant fRemoved <==> i < k
      decreases |v| - i
    {
      SurvivorsStep(v0, k, f);
      assert v[i] == v0[k];
      if Removable(v[i], f) {
        assert v[i + 1..] == v0[k + 1..];
        EraseAt(v, i);
        v := v[..i] + v[i + 1..];
        fRemoved := true;
      } else {
        assert v[..i + 1] == v[..i] + [v0[k]];
        i := i + 1;
      }
      k := k + 1;
    }
    assert v0[..k] == v0;
  }

  /** The loop of masternodeman.cpp:519-523: each ranked record with its 1-based rank. */
  method NumberRanks(ranked: seq<Entry>) returns (ranks: seq<(int, Masternode)>)
    ensures |ranks| == |ranked|
    ensures forall i :: 0 <= i < |ranks| ==> ranks[i] == (i + 1, ranked[i].mn)
  {
    ranks := [];
    var nRank := 0;
    while nRank < |ranked|
      invariant 0 <= nRank <= |ranked| && |ranks| == nRank
      invariant forall i :: 0 <= i < nRank ==> ranks[i] == (i + 1, ranked[i].mn)
    {
      ranks := ranks + [(nRank + 1, ranked[nRank].mn)];
      nRank := nRank + 1;
    }
  }

  /** The records GetMasternodeRank, GetMasternodeRanks and GetMasternodeByRank score. */
  predicate RankEligible(mn: Masternode, minProtocol: int, fOnlyActive: bool)
  {
    mn.nProtocolVersion >= minProtocol && (fOnlyActive ==> IsEnabled(mn))
  }

  /** The ranked list for a block: eligible records by descending (compact score, outpoint). */
  function Ranking(v: seq<Masternode>, compactScore: Masternode -> int, minProtocol: int, fOnlyActive: bool): seq<Entry>
  {
    SortDescViaReverse(Keyed(v, mn => RankEligible(mn, minProtocol, fOnlyActive), compactScore))
  }

  /**
   * The rank of an eligible record of a registry with distinct outpoints is one
   * more than the number of eligible records that outrank it.
   */
  lemma RankIsOnePlusHigher(v: seq<Masternode>, compactScore: Masternode -> int, minProtocol: int, fOnlyActive: bool, mn: Masternode)
    requires DistinctOutpoints(v) && mn in v && RankEligible(mn, minProtocol, fOnlyActive)
    ensures var entries := Keyed(v, x => RankEligible(x, minProtocol, fOnlyActive), compactScore);
      PositionIn(Ranking(v, compactScore, minProtocol, fOnlyActive), mn.vin.prevout)
        == 1 + |Above(entries, Entry(compactScore(mn), mn))|
  {
    var keep := x => RankEligible(x, minProtocol, fOnlyActive);
    KeyedSpec(v, keep, compactScore);
    RankCountsHigher(Keyed(v, keep, compactScore), Entry(compactScore(mn), mn));
  }

  /** A record that is absent or not eligible has no rank. */
  lemma UnrankedIsMinusOne(v: seq<Masternode>, compactScore: Masternode -> int, minProtocol: int, fOnlyActive: bool, vin: TxIn)
    requires forall x :: x in v && x.vin.prevout == vin.prevout ==> !RankEligible(x, minProtocol, fOnlyActive)
    ensures PositionIn(Ranking(v, compactScore, minProtocol, fOnlyActive), vin.prevout) == -1
  {
    var keep := x => RankEligible(x, minProtocol, fOnlyActive);
    var entries := Keyed(v, keep, compactScore);
    KeyedSpec(v, keep, compactScore);
    SortDescViaReverseSpec(entries);
    var t := Ranking(v, compactScore, minProtocol, fOnlyActive);
    forall i | 0 <= i < |t| ensures t[i].mn.vin.prevout != vin.prevout {
      assert t[i] in multiset(entries);
    }
  }

  /** The records GetNextMasternodeInQueueForPayment considers (masternodeman.cpp:370-388). */
  predicate PaymentCandidate(mn: Masternode, fFilterSigTime: bool, nMnCount: int, adjustedTime: int,
                             minPaymentsProto: int, scheduled: bool)
  {
    && IsEnabled(mn)
    && mn.nProtocolVersion >= minPaymentsProto
    && !scheduled
    // 2.6 * 60 seconds per masternode is exactly 156 seconds
    && !(fFilterSigTime && mn.sigTime + nMnCount * 156 > adjustedTime)
    && mn.nCollateralAge >= nMnCount
  }

  function LastPaid(mn: Masternode): int { mn.nLastPaidBlock }

  function Candidates(v: seq<Masternode>, fFilterSigTime: bool, nMnCount: int, adjustedTime: int,
                      minPaymentsProto: int, isScheduled: Masternode -> bool): seq<Entry>
  {
    Keyed(v, mn => PaymentCandidate(mn, fFilterSigTime, nMnCount, adjustedTime, minPaymentsProto, isScheduled(mn)),
          LastPaid)
  }

  /** How many of the sorted candidates are scored: at least one, else a tenth of the enabled count. */
  function ScanLimit(nCandidates: nat, nTenth: int): (r: nat)
    ensures r <= nCandidates
    ensures nCandidates > 0 ==> r >= 1
  {
    if nCandidates == 0 then 0
    else if nTenth <= 1 then 1
    else if nTenth < nCandidates then nTenth
    else nCandidates
  }

  /**
   * `best` is the record of the first of s[..lim] with the strictly greatest
   * score, or nothing when every score there is 0.
   */
  predicate IsFirstMaximum(s: seq<Entry>, lim: nat, score: Masternode -> nat, best: Option<Masternode>)
    requires lim <= |s|
  {
    if forall j :: 0 <= j < lim ==> score(s[j].mn) == 0 then best == None
    else exists i :: 0 <= i < lim && IsFirstMaximumAt(s, lim, score, i) && best == Some(s[i].mn)
  }

  predicate IsFirstMaximumAt(s: seq<Entry>, lim: nat, score: Masternode -> nat, i: int)
    requires 0 <= i < lim <= |s|
  {
    && score(s[i].mn) > 0
    && (forall j :: 0 <= j < lim ==> score(s[j].mn) <= score(s[i].mn))
    && (forall j :: 0 <= j < i ==> score(s[j].mn) < score(s[i].mn))
  }

  /** At most one position is the first maximum, so the selection is deterministic. */
  lemma FirstMaximumUnique(s: seq<Entry>, lim: nat, score: Masternode -> nat, b1: Option<Masternode>, b2: Option<Masternode>)
    requires lim <= |s|
    requires IsFirstMaximum(s, lim, score, b1) && IsFirstMaximum(s, lim, score, b2)
    ensures b1 == b2
  {
    if !forall j :: 0 <= j < lim ==> score(s[j].mn) == 0 {
      var i1 :| 0 <= i1 < lim && IsFirstMaximumAt(s, lim, score, i1) && b1 == Some(s[i1].mn);
      var i2 :| 0 <= i2 < lim && IsFirstMaximumAt(s, lim, score, i2) && b2 == Some(s[i2].mn);
      assert score(s[i1].mn) == score(s[i2].mn);
      assert i1 == i2;
    }
  }

  /** The selected record passes every filter of the candidate loop. */
  lemma SelectedIsCandidate(v: seq<Masternode>, fFilterSigTime: bool, nMnCount: int, adjustedTime: int,
                            minPaymentsProto: int, isScheduled: Masternode -> bool, lim: nat,
                            score: Masternode -> nat, mn: Masternode)
    requires var c := SortAsc(Candidates(v, fFilterSigTime, nMnCount, adjustedTime, minPaymentsProto, isScheduled));
      lim <= |c| && IsFirstMaximum(c, lim, score, Some(mn))
    ensures mn in v && score(mn) > 0
    ensures PaymentCandidate(mn, fFilterSigTime, nMnCount, adjustedTime, minPaymentsProto, isScheduled(mn))
  {
    var c0 := Candidates(v, fFilterSigTime, nMnCount, adjustedTime, minPaymentsProto, isScheduled);
    var c := SortAsc(c0);
    KeyedSpec(v, mn => PaymentCandidate(mn, fFilterSigTime, nMnCount, adjustedTime, minPaymentsProto, isScheduled(mn)),
              LastPaid);
    var i :| 0 <= i < lim && IsFirstMaximumAt(c, lim, score, i) && Some(mn) == Some(c[i].mn);
    assert c[i] in multiset(c0);
  }

  /**
   * The scoring loop of masternodeman.cpp:400-412: score the sorted candidates
   * until `nTenthNetwork` have been seen (at least one), keeping the first one
   * whose score is strictly above every earlier score and above 0.
   */
  method ScanFirstTenth(sorted: seq<Entry>, nTenthNetwork: int, score: Masternode -> nat) returns (best: Option<Masternode>)
    ensures IsFirstMaximum(sorted, ScanLimit(|sorted|, nTenthNetwork), score, best)
  {
    ghost var lim := ScanLimit(|sorted|, nTenthNetwork);
    var nCountTenth := 0;
    var nHigh := 0;
    best := None;
    ghost var bi := -1;
    var t := 0;
    while t < |sorted|
      invariant 0 <= t <= lim && nCountTenth == t
      invariant t == 0 || t < nTenthNetwork
      invariant best.None? ==> bi == -1 && nHigh == 0 && forall j :: 0 <= j < t ==> score(sorted[j].mn) == 0
      invariant best.Some? ==> 0 <= bi < t && best == Some(sorted[bi].mn) && nHigh == score(sorted[bi].mn) > 0
      invariant best.Some? ==> forall j :: 0 <= j < t ==> score(sorted[j].mn) <= nHigh
      invariant best.Some? ==> forall j :: 0 <= j < bi ==> score(sorted[j].mn) < nHigh
    {
      var n := score(sorted[t].mn);
      if n > nHigh {
        nHigh := n;
        best := Some(sorted[t].mn);
        bi := t;
      }
      nCountTenth := nCountTenth + 1;
      t := t + 1;
      if nCountTenth >= nTenthNetwork {
        break;
      }
    }
    assert t == lim;
    if best.Some? {
      assert IsFirstMaximumAt(sorted, lim, score, bi);
    }
  }

  /** Powers of two, for the doubling period of GetEstimatedMasternodes. */
  function Pow2(n: nat): (r: nat)
    ensures r >= 1
  {
    if n == 0 then 1 else 2 * Pow2(n - 1)
  }

  /** Whether a collateral outpoint is in the exclude list of FindRandomNotInVec. */
  predicate Excluded(mn: Masternode, vecToExclude: seq<TxIn>)
  {
    exists k :: 0 <= k < |vecToExclude| && vecToExclude[k].prevout == mn.vin.prevout
  }

  /** The first position of `v` whose record satisfies `matches`, if any. */
  method FirstIndex(v: seq<Masternode>, matches: Masternode -> bool) returns (r: Option<nat>)
    ensures r.Some? ==> r.value < |v| && matches(v[r.value])
    ensures r.Some? ==> forall j :: 0 <= j < r.value ==> !matches(v[j])
    ensures r.None? <==> forall j :: 0 <= j < |v| ==> !matches(v[j])
  {
    var i := 0;
    while i < |v|
      invariant 0 <= i <= |v|
      invariant forall j :: 0 <= j < i ==> !matches(v[j])
    {
      if matches(v[i]) {
        return Some(i);
      }
      i := i + 1;
    }
    return None;
  }

  /**
   * An index left behind by Remove: once a record is erased without
   * UpdateMNIndex, the index still lists the removed outpoint, so it no longer
   * describes the list.
   */
  lemma RemoveLeavesStaleIndex(m: map<int, int>, v: seq<Masternode>, i: int)
    requires DistinctOutpoints(v) && IndexOf(m, v) && 0 <= i < |v|
    ensures !IndexOf(m, v[..i] + v[i + 1..])
  {
    var w := v[..i] + v[i + 1..];
    var p := v[i].vin.prevout;
    assert p in m;
    forall j | 0 <= j < |w| ensures w[j].vin.prevout != p {
      if j < i {
        assert w[j] == v[j];
      } else {
        assert w[j] == v[j + 1];
      }
    }
  }

  /**
   * CMasternodeMan (masternodeman.h:133 and masternodeman.cpp): the list of
   * records and the index from collateral outpoint to position. The list keeps
   * distinct outpoints; the index describes the list after Add, CheckAndRemove
   * and UpdateMNIndex, but not after Remove.
   */
  class MasternodeMan {
    var vMasternodes: seq<Masternode>
    var mapMNIndex: map<int, int>

    predicate Valid()
      reads this
    {
      DistinctOutpoints(vMasternodes)
    }

    constructor()
      ensures Valid() && vMasternodes == [] && mapMNIndex == map[]
      ensures IndexOf(mapMNIndex, vMasternodes)
    {
      vMasternodes := [];
      mapMNIndex := map[];
    }

    /** masternodeman.cpp:53-70 */
    method Add(mn: Masternode) returns (added: bool)
      requires Valid()
      modifies this
      ensures Valid()
      ensures added <==>
        && (IsEnabled(mn) || IsPreEnabled(mn))
        && forall x :: x in old(vMasternodes) ==> x.vin.prevout != mn.vin.prevout
      ensures added ==> vMasternodes == old(vMasternodes) + [mn]
      ensures added ==> mapMNIndex == old(mapMNIndex)[mn.vin.prevout := |old(vMasternodes)|]
      ensures !added ==> vMasternodes == old(vMasternodes) && mapMNIndex == old(mapMNIndex)
      ensures IndexOf(old(mapMNIndex), old(vMasternodes)) ==> IndexOf(mapMNIndex, vMasternodes)
    {
      if !IsEnabled(mn) && !IsPreEnabled(mn) {
        return false;
      }
      var found := FindByVin(mn.vin);
      if found.None? {
        vMasternodes := vMasternodes + [mn];
        mapMNIndex := mapMNIndex[mn.vin.prevout := |vMasternodes| - 1];
        return true;
      }
      assert vMasternodes[found.value] in vMasternodes;
      return false;
    }

    /** The list part of masternodeman.cpp:98-135. */
    method CheckAndRemove(fForceExpiredRemoval: bool)
      requires Valid()
      modifies this
      ensures Valid()
      ensures vMasternodes == Survivors(old(vMasternodes), fForceExpiredRemoval)
      ensures |vMasternodes| < |old(vMasternodes)| ==> IndexOf(mapMNIndex, vMasternodes)
      ensures |vMasternodes| == |old(vMasternodes)| ==> mapMNIndex == old(mapMNIndex)
    {
      var v, fRemoved := EraseRemovable(vMasternodes, fForceExpiredRemoval);
      SurvivorsDistinct(vMasternodes, fForceExpiredRemoval);
      vMasternodes := v;
      if fRemoved {
        UpdateMNIndex();
      }
    }

    /** masternodeman.cpp:826-844 (without the index-update notifications). */
    method UpdateMNIndex()
      modifies this
      ensures vMasternodes == old(vMasternodes)
      ensures IndexOf(mapMNIndex, vMasternodes)
    {
      var m: map<int, int> := map[];
      var i := 0;
      while i < |vMasternodes|
        invariant 0 <= i <= |vMasternodes|
        invariant forall j :: 0 <= j < i ==> vMasternodes[j].vin.prevout in m
        invariant forall k :: k in m ==>
          && 0 <= m[k] < i
          && vMasternodes[m[k]].vin.prevout == k
          && (forall j :: m[k] < j < i ==> vMasternodes[j].vin.prevout != k)
      {
        m := m[vMasternodes[i].vin.prevout := i];
        i := i + 1;
      }
      mapMNIndex := m;
    }

    /** masternodeman.cpp:710-723: erases the first record with an equal input; the index is not rebuilt. */
    method Remove(vin: TxIn)
      requires Valid()
      modifies this
      ensures Valid() && mapMNIndex == old(mapMNIndex)
      ensures (forall x :: x in old(vMasternodes) ==> x.vin != vin) ==> vMasternodes == old(vMasternodes)
      ensures forall i :: 0 <= i < |old(vMasternodes)| && old(vMasternodes)[i].vin == vin
                && (forall j :: 0 <= j < i ==> old(vMasternodes)[j].vin != vin)
                ==> vMasternodes == old(vMasternodes)[..i] + old(vMasternodes)[i + 1..]
    {
      var at := FirstIndex(vMasternodes, (x: Masternode) => x.vin == vin);
      if at.Some? {
        ghost var v0 := vMasternodes;
        vMasternodes := vMasternodes[..at.value] + vMasternodes[at.value + 1..];
        assert DistinctOutpoints(vMasternodes) by {
          forall a, b | 0 <= a < b < |vMasternodes|
            ensures vMasternodes[a].vin.prevout != vMasternodes[b].vin.prevout
          {
            var a0 := if a < at.value then a else a + 1;
            var b0 := if b < at.value then b else b + 1;
            assert vMasternodes[a] == v0[a0] && vMasternodes[b] == v0[b0];
          }
        }
      } else {
        assert forall x :: x in vMasternodes ==> x.vin != vin;
      }
    }

    /** masternodeman.cpp:325-336: the stored position, or -1. */
    method GetMasternodeIndex(vin: TxIn) returns (nIndex: int)
      requires Valid()
      ensures IndexOf(mapMNIndex, vMasternodes) ==>
        && (nIndex == -1 <==> forall x :: x in vMasternodes ==> x.vin.prevout != vin.prevout)
        && (nIndex != -1 ==> 0 <= nIndex < |vMasternodes| && vMasternodes[nIndex].vin.prevout == vin.prevout)
    {
      nIndex := -1;
      if vin.prevout in mapMNIndex {
        nIndex := mapMNIndex[vin.prevout];
      }
      if IndexOf(mapMNIndex, vMasternodes) && nIndex == -1 {
        forall x | x in vMasternodes ensures x.vin.prevout != vin.prevout {
          var j :| 0 <= j < |vMasternodes| && vMasternodes[j] == x;
        }
      }
    }

    /** masternodeman.cpp:253-263: the first record whose collateral script is `payee`. */
    method FindByPayee(payee: Script) returns (r: Option<nat>)
      ensures r.Some? ==> r.value < |vMasternodes| && vMasternodes[r.value].collateralScript == payee
      ensures r.Some? ==> forall j :: 0 <= j < r.value ==> vMasternodes[j].collateralScript != payee
      ensures r.None? <==> forall x :: x in vMasternodes ==> x.collateralScript != payee
    {
      r := FirstIndex(vMasternodes, (x: Masternode) => x.collateralScript == payee);
    }

    /** masternodeman.cpp:265-275: the first record with the same collateral outpoint. */
    method FindByVin(vin: TxIn) returns (r: Option<nat>)
      ensures r.Some? ==> r.value < |vMasternodes| && vMasternodes[r.value].vin.prevout == vin.prevout
      ensures r.Some? ==> forall j :: 0 <= j < r.value ==> vMasternodes[j].vin.prevout != vin.prevout
      ensures r.None? <==> forall x :: x in vMasternodes ==> x.vin.prevout != vin.prevout
    {
      r := FirstIndex(vMasternodes, (x: Masternode) => x.vin.prevout == vin.prevout);
    }

    /** masternodeman.cpp:277-287: the first record with the given masternode key. */
    method FindByPubKey(pubKeyMasternode: seq<int>) returns (r: Option<nat>)
      ensures r.Some? ==> r.value < |vMasternodes| && vMasternodes[r.value].pubKeyMasternode == pubKeyMasternode
      ensures r.Some? ==> forall j :: 0 <= j < r.value ==> vMasternodes[j].pubKeyMasternode != pubKeyMasternode
      ensures r.None? <==> forall x :: x in vMasternodes ==> x.pubKeyMasternode != pubKeyMasternode
    {
      r := FirstIndex(vMasternodes, (x: Masternode) => x.pubKeyMasternode == pubKeyMasternode);
    }

    /**
     * masternodeman.cpp:203-215: the number of enabled records at protocol
     * `protocolVersion` or later; -1 stands for the minimum payment protocol.
     */
    method CountEnabled(protocolVersion: int, minPaymentsProto: int) returns (n: nat)
      ensures n == |EnabledAt(vMasternodes, if protocolVersion == -1 then minPaymentsProto else protocolVersion)|
    {
      var p := if protocolVersion == -1 then minPaymentsProto else protocolVersion;
      n := 0;
      var i := 0;
      while i < |vMasternodes|
        invariant 0 <= i <= |vMasternodes|
        invariant n == |EnabledBelow(vMasternodes, p, i)|
      {
        assert i !in EnabledBelow(vMasternodes, p, i);
        if vMasternodes[i].nProtocolVersion < p || !IsEnabled(vMasternodes[i]) {
          assert EnabledBelow(vMasternodes, p, i + 1) == EnabledBelow(vMasternodes, p, i);
        } else {
          assert EnabledBelow(vMasternodes, p, i + 1) == EnabledBelow(vMasternodes, p, i) + {i};
          n := n + 1;
        }
        i := i + 1;
      }
    }

    /** The loop that pairs each kept record with its key (used by the ranking and payment loops). */
    method Collect(keep: Masternode -> bool, key: Masternode -> int) returns (entries: seq<Entry>)
      ensures entries == Keyed(vMasternodes, keep, key)
    {
      entries := [];
      var i := 0;
      while i < |vMasternodes|
        invariant 0 <= i <= |vMasternodes|
        invariant entries == Keyed(vMasternodes[..i], keep, key)
      {
        assert vMasternodes[..i + 1][..i] == vMasternodes[..i];
        if keep(vMasternodes[i]) {
          entries := entries + [Entry(key(vMasternodes[i]), vMasternodes[i])];
        }
        i := i + 1;
      }
      assert vMasternodes[..i] == vMasternodes;
    }

    /**
     * masternodeman.cpp:459-491: the 1-based position of `vin` in the ranking
     * for the block, or -1 when the block hash is unknown or `vin` is not ranked.
     */
    method GetMasternodeRank(vin: TxIn, blockKnown: bool, compactScore: Masternode -> int,
                             minProtocol: int, fOnlyActive: bool) returns (nRank: int)
      ensures !blockKnown ==> nRank == -1
      ensures blockKnown ==>
        nRank == PositionIn(Ranking(vMasternodes, compactScore, minProtocol, fOnlyActive), vin.prevout)
    {
      if !blockKnown {
        return -1;
      }
      var scores := Collect(mn => RankEligible(mn, minProtocol, fOnlyActive), compactScore);
      var ranked := SortDescViaReverse(scores);
      nRank := 0;
      var t := 0;
      while t < |ranked|
        invariant 0 <= t <= |ranked| && nRank == t
        invariant forall i :: 0 <= i < t ==> ranked[i].mn.vin.prevout != vin.prevout
      {
        nRank := nRank + 1;
        if ranked[t].mn.vin.prevout == vin.prevout {
          return;
        }
        t := t + 1;
      }
      return -1;
    }

    /**
     * masternodeman.cpp:493-526: every enabled record at `minProtocol` or later
     * with its 1-based rank, in rank order; empty when the block hash is unknown.
     */
    method GetMasternodeRanks(blockKnown: bool, compactScore: Masternode -> int, minProtocol: int)
      returns (ranks: seq<(int, Masternode)>)
      ensures !blockKnown ==> ranks == []
      ensures blockKnown ==>
        var ranked := Ranking(vMasternodes, compactScore, minProtocol, true);
        && |ranks| == |ranked|
        && forall i :: 0 <= i < |ranks| ==> ranks[i] == (i + 1, ranked[i].mn)
    {
      ranks := [];
      if !blockKnown {
        return;
      }
      var scores := Collect(mn => RankEligible(mn, minProtocol, true), compactScore);
      var ranked := SortDescViaReverse(scores);
      assert ranked == Ranking(vMasternodes, compactScore, minProtocol, true);
      ranks := NumberRanks(ranked);
    }

    /**
     * masternodeman.cpp:528-560: the record at 1-based position `nRank`, or
     * nothing. This one does not check that the block hash is known.
     */
    method GetMasternodeByRank(nRank: int, compactScore: Masternode -> int, minProtocol: int, fOnlyActive: bool)
      returns (r: Option<Masternode>)
      ensures var ranked := Ranking(vMasternodes, compactScore, minProtocol, fOnlyActive);
        && (r.Some? <==> 1 <= nRank <= |ranked|)
        && (r.Some? ==> r.value == ranked[nRank - 1].mn)
    {
      var scores := Collect(mn => RankEligible(mn, minProtocol, fOnlyActive), compactScore);
      var ranked := SortDescViaReverse(scores);
      var rank := 0;
      while rank < |ranked|
        invariant 0 <= rank <= |ranked|
        invariant rank < nRank || nRank < 1
      {
        rank := rank + 1;
        if rank == nRank {
          return Some(ranked[rank - 1].mn);
        }
      }
      return None;
    }

    /**
     * masternodeman.cpp:358-415. The candidates pass the enabled, protocol,
     * schedule, signature-time and collateral-age filters; when the signature-time
     * filter leaves fewer than a third of the enabled count, the selection is redone
     * once without it. The candidates are sorted by ascending (last paid, outpoint)
     * and the first of the scanned ones with the strictly greatest score wins.
     * `nCount` is the number of candidates of the run that made the choice.
     */
    method GetNextMasternodeInQueueForPayment(fFilterSigTime: bool, adjustedTime: int, minPaymentsProto: int,
                                             isScheduled: Masternode -> bool, score: Masternode -> nat)
      returns (best: Option<Masternode>, nCount: int)
      ensures var nMnCount := |EnabledAt(vMasternodes, minPaymentsProto)|;
        var fFiltered := fFilterSigTime
          && |Candidates(vMasternodes, true, nMnCount, adjustedTime, minPaymentsProto, isScheduled)| >= nMnCount / 3;
        var c := Candidates(vMasternodes, fFiltered, nMnCount, adjustedTime, minPaymentsProto, isScheduled);
        && nCount == |c|
        && |SortAsc(c)| == |c|
        && IsFirstMaximum(SortAsc(c), ScanLimit(|c|, nMnCount / 10), score, best)
      decreases if fFilterSigTime then 1 else 0
    {
      var nMnCount := CountEnabled(-1, minPaymentsProto);
      var candidates := Collect(
        mn => PaymentCandidate(mn, fFilterSigTime, nMnCount, adjustedTime, minPaymentsProto, isScheduled(mn)),
        LastPaid);
      nCount := |candidates|;
      if fFilterSigTime && nCount < nMnCount / 3 {
        best, nCount := GetNextMasternodeInQueueForPayment(false, adjustedTime, minPaymentsProto, isScheduled, score);
        return;
      }
      var sorted := SortAsc(candidates);
      assert |sorted| == |multiset(sorted)| == |multiset(candidates)| == |candidates|;
      var nTenthNetwork := CountEnabled(-1, minPaymentsProto);
      best := ScanFirstTenth(sorted, nTenthNetwork / 10, score);
    }

    /**
     * masternodeman.cpp:417-457. `shuffled` is the list in the order the random
     * shuffle produced. Nothing is returned when the enabled count minus the
     * number of excluded inputs is below one; otherwise the result is the first
     * record of the shuffled order that is enabled, at the protocol, and not excluded.
     */
    method FindRandomNotInVec(vecToExclude: seq<TxIn>, nProtocolVersion: int, minPaymentsProto: int,
                              shuffled: seq<Masternode>) returns (r: Option<Masternode>)
      requires multiset(shuffled) == multiset(vMasternodes)
      ensures var p := if nProtocolVersion == -1 then minPaymentsProto else nProtocolVersion;
        && (|EnabledAt(vMasternodes, p)| - |vecToExclude| < 1 ==> r == None)
        && (r.Some? ==> r.value in vMasternodes && r.value.nProtocolVersion >= p && IsEnabled(r.value)
                        && !Excluded(r.value, vecToExclude))
        && (r.None? && |EnabledAt(vMasternodes, p)| - |vecToExclude| >= 1 ==>
              forall x :: x in vMasternodes && x.nProtocolVersion >= p && IsEnabled(x) ==> Excluded(x, vecToExclude))
    {
      var p := if nProtocolVersion == -1 then minPaymentsProto else nProtocolVersion;
      var nCountEnabled := CountEnabled(p, minPaymentsProto);
      assert p != -1 ==> (if p == -1 then minPaymentsProto else p) == p;
      var nCountNotExcluded := nCountEnabled - |vecToExclude|;
      if nCountNotExcluded < 1 {
        return None;
      }
      var i := 0;
      while i < |shuffled|
        invariant 0 <= i <= |shuffled|
        invariant forall j :: 0 <= j < i && shuffled[j].nProtocolVersion >= p && IsEnabled(shuffled[j])
                    ==> Excluded(shuffled[j], vecToExclude)
      {
        var pmn := shuffled[i];
        assert pmn in multiset(vMasternodes);
        if pmn.nProtocolVersion < p || !IsEnabled(pmn) {
          i := i + 1;
          continue;
        }
        var fExclude := false;
        var k := 0;
        while k < |vecToExclude|
          invariant 0 <= k <= |vecToExclude|
          invariant fExclude ==> Excluded(pmn, vecToExclude)
          invariant !fExclude ==> forall j :: 0 <= j < k ==> vecToExclude[j].prevout != pmn.vin.prevout
        {
          if pmn.vin.prevout == vecToExclude[k].prevout {
            fExclude := true;
            break;
          }
          k := k + 1;
        }
        if fExclude {
          i := i + 1;
          continue;
        }
        return Some(pmn);
      }
      forall x | x in vMasternodes && x.nProtocolVersion >= p && IsEnabled(x) ensures Excluded(x, vecToExclude) {
        assert x in multiset(shuffled);
      }
      return None;
    }

    /**
     * masternodeman.cpp:738-759. The percentage starts at 52 and grows by one
     * for each period passed, the periods doubling from 35040 blocks; the
     * estimate is (total coins / 100 * percentage) / 1000 in truncating division.
     */
    method GetEstimatedMasternodes(nBlock: int, nTotalCoinEstimate: int) returns (r: int)
      ensures exists m: nat ::
        && r == CDiv(CDiv(nTotalCoinEstimate, 100) * (52 + m), 1000)
        && 35040 * (Pow2(m) - 1) <= (if nBlock < 0 then 0 else nBlock)
        && nBlock < 35040 * (Pow2(m + 1) - 1)
    {
      var nPercentage := 52;
      var nPeriod := 35040;
      var nCollateral := 1000;
      ghost var m: nat := 0;
      var i := nPeriod;
      while i <= nBlock
        invariant nPercentage == 52 + m && nPeriod == 35040 * Pow2(m) && i == 35040 * (Pow2(m + 1) - 1)
        invariant 35040 * (Pow2(m) - 1) <= (if nBlock < 0 then 0 else nBlock)
        decreases nBlock - i
      {
        nPercentage := nPercentage + 1;
        nPeriod := nPeriod * 2;
        i := i + nPeriod;
        m := m + 1;
      }
      r := CDiv(CDiv(nTotalCoinEstimate, 100) * nPercentage, nCollateral);
    }
  }
}
