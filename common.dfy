/** Shared vocabulary: optional values, C++ integer division, coinbase outputs. */
module Common {

  datatype Option<T> = None | Some(value: T)

  /** C++ `/` on signed integers truncates toward zero (Dafny's `/` is Euclidean). */
  function CDiv(a: int, b: int): int
    requires b != 0
  {
    if a >= 0 then a / b
    else if b > 0 then -((-a) / b)
    else (-a) / (-b)
  }

  /** C++ `%` on signed integers: the remainder takes the sign of the dividend. */
  function CRem(a: int, b: int): (r: int)
    requires b != 0
    ensures a == CDiv(a, b) * b + r
    ensures a >= 0 ==> 0 <= r < (if b > 0 then b else -b)
    ensures a < 0 ==> -(if b > 0 then b else -b) < r <= 0
  {
    a - CDiv(a, b) * b
  }

  /** A non-zero multiple of c is at least as large as c in absolute value. */
  lemma MulAtLeast(k: int, c: int)
    ensures k * c == 0 || (if k * c >= 0 then k * c else -(k * c)) >= (if c >= 0 then c else -c)
  {
    var ak := if k >= 0 then k else -k;
    var ac := if c >= 0 then c else -c;
    assert (if k * c >= 0 then k * c else -(k * c)) == ak * ac;
    if ak != 0 {
      assert ak * ac >= 1 * ac;
    }
  }

  /** A multiple of c leaves no Euclidean remainder. */
  lemma MultipleHasNoRemainder(q: int, c: int)
    requires c != 0
    ensures (q * c) % c == 0
  {
    var a := q * c;
    var k := q - a / c;
    assert k * c == a % c;
    MulAtLeast(k, c);
  }

  /** The truncating and the Euclidean remainder vanish together. */
  lemma RemaindersVanishTogether(a: int, c: int)
    requires c != 0
    ensures CRem(a, c) == 0 <==> a % c == 0
  {
    var d := a / c;
    var e := a % c;
    assert a == d * c + e;
    var k := CDiv(a, c) - d;
    assert k * c == e - CRem(a, c);
    MulAtLeast(k, c);
  }

  /** A locking script, an opaque byte string. */
  type Script = seq<int>

  /** An amount in the currency's smallest unit (CAmount). */
  type Amount = int

  /** One output of a transaction: the script paid and the value. */
  datatype TxOut = TxOut(scriptPubKey: Script, nValue: Amount)

  /** Sum of the values of a list of outputs. */
  function SumValues(vout: seq<TxOut>): Amount
  {
    if vout == [] then 0 else SumValues(vout[..|vout| - 1]) + vout[|vout| - 1].nValue
  }

  /** Some element of a non-empty set (the iteration order of a std::map or std::set does not matter where this is used). */
  method Pick<K>(s: set<K>) returns (k: K)
    requires s != {}
    ensures k in s
  {
    k :| k in s;
  }

  /** The elements of a list in the opposite order. */
  function Reverse<T>(s: seq<T>): seq<T>
  {
    if s == [] then [] else Reverse(s[1..]) + [s[0]]
  }

  lemma {:induction false} ReverseAppend<T>(s: seq<T>, x: T)
    ensures Reverse(s + [x]) == [x] + Reverse(s)
  {
    if s != [] {
      assert (s + [x])[1..] == s[1..] + [x];
      ReverseAppend(s[1..], x);
    }
  }

  lemma {:induction false} ReverseMultiset<T>(s: seq<T>)
    ensures multiset(Reverse(s)) == multiset(s)
  {
    if s != [] {
      ReverseMultiset(s[1..]);
      assert s == [s[0]] + s[1..];
    }
  }

  /** Position i of the reversed list holds the element i places from the end. */
  lemma {:induction false} ReverseIndex<T>(s: seq<T>)
    ensures |Reverse(s)| == |s|
    ensures forall i :: 0 <= i < |s| ==> Reverse(s)[i] == s[|s| - 1 - i]
  {
    if s != [] {
      ReverseIndex(s[1..]);
    }
  }
}
