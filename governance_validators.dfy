/**
 * Syntactic checks on a governance proposal (CProposalValidator): the proposal's
 * JSON fields are read one by one, each failed read appending the exception text to
 * an error log, and each failed stage appending that stage's own message.
 */
module GovernanceValidators {
  import opened Common

  // ---------------------------------------------------------------------------
  // StripWhitespace
  // ---------------------------------------------------------------------------

  /** The characters std::string's find_*_not_of skips: space, \f, \n, \r, \t, \v. */
  const WHITESPACE: string := " \U{000C}\n\r\t\U{000B}"

  predicate IsWhitespace(c: char)
  {
    c in WHITESPACE
  }

  predicate AllWhitespace(s: string)
  {
    forall i :: 0 <= i < |s| ==> IsWhitespace(s[i])
  }

  /** Index of the first non-whitespace character (find_first_not_of), |s| when there is none. */
  function LeadingWhitespace(s: string): (n: nat)
    ensures n <= |s|
    ensures AllWhitespace(s[..n])
    ensures n < |s| ==> !IsWhitespace(s[n])
  {
    if s == [] || !IsWhitespace(s[0]) then 0
    else
      var m := LeadingWhitespace(s[1..]);
      assert s[..1 + m] == [s[0]] + s[1..][..m];
      1 + m
  }

  /** Number of whitespace characters at the end of s; |s| minus it is one past find_last_not_of. */
  function TrailingWhitespace(s: string): (n: nat)
    ensures n <= |s|
    ensures forall k :: |s| - n <= k < |s| ==> IsWhitespace(s[k])
    ensures n < |s| ==> !IsWhitespace(s[|s| - 1 - n])
  {
    if s == [] || !IsWhitespace(s[|s| - 1]) then 0
    else
      var t := s[..|s| - 1];
      var m := TrailingWhitespace(t);
      assert forall k :: 0 <= k < |t| ==> t[k] == s[k];
      1 + m
  }

  /**
   * StripWhitespace: the part of s from its first to its last non-whitespace
   * character, or "" when s has none.
   */
  function StripWhitespace(s: string): (r: string)
    ensures |r| <= |s|
    ensures r == [] <==> AllWhitespace(s)
    ensures r != [] ==> !IsWhitespace(r[0]) && !IsWhitespace(r[|r| - 1])
    ensures r != [] ==>
      (var a := LeadingWhitespace(s);
       a + |r| <= |s| && s[a..a + |r|] == r && AllWhitespace(s[..a]) && AllWhitespace(s[a + |r|..]))
  {
    var a := LeadingWhitespace(s);
    if a == |s| then
      assert s[..a] == s;
      []
    else
      var b := TrailingWhitespace(s);
      assert !IsWhitespace(s[a]);
      s[a..|s| - b]
  }

  /** The first non-whitespace character of t is at k. */
  lemma {:induction false} LeadingWhitespaceIs(t: string, k: nat)
    requires k < |t| && AllWhitespace(t[..k]) && !IsWhitespace(t[k])
    ensures LeadingWhitespace(t) == k
  {
    if k > 0 {
      assert t[..k][0] == t[0];
      assert t[1..][..k - 1] == t[..k][1..];
      LeadingWhitespaceIs(t[1..], k - 1);
    }
  }

  /** The last non-whitespace character of t is k places before its end. */
  lemma {:induction false} TrailingWhitespaceIs(t: string, k: nat)
    requires k < |t| && AllWhitespace(t[|t| - k..]) && !IsWhitespace(t[|t| - 1 - k])
    ensures TrailingWhitespace(t) == k
  {
    if k > 0 {
      var u := t[..|t| - 1];
      assert t[|t| - k..][k - 1] == t[|t| - 1];
      assert u[|u| - (k - 1)..] == t[|t| - k..][..k - 1];
      TrailingWhitespaceIs(u, k - 1);
    }
  }

  /** Stripping twice is stripping once: a stripped string has no whitespace at either end. */
  lemma StripWhitespaceIdempotent(s: string)
    ensures StripWhitespace(StripWhitespace(s)) == StripWhitespace(s)
  {
    var r := StripWhitespace(s);
    if r != [] {
      assert LeadingWhitespace(r) == 0;
      assert TrailingWhitespace(r) == 0;
      assert r[0..|r|] == r;
    }
  }

  /** Surrounding whitespace does not change what is stripped. */
  lemma StripWhitespaceIgnoresPadding(pad1: string, s: string, pad2: string)
    requires AllWhitespace(pad1) && AllWhitespace(pad2)
    requires s != [] && !IsWhitespace(s[0]) && !IsWhitespace(s[|s| - 1])
    ensures StripWhitespace(pad1 + s + pad2) == s
  {
    var t := pad1 + s + pad2;
    assert t[..|pad1|] == pad1;
    assert t[|pad1|] == s[0];
    LeadingWhitespaceIs(t, |pad1|);
    assert t[|t| - |pad2|..] == pad2;
    assert t[|t| - 1 - |pad2|] == s[|s| - 1];
    TrailingWhitespaceIs(t, |pad2|);
    assert t[|pad1|..|t| - |pad2|] == s;
  }

  // ---------------------------------------------------------------------------
  // CheckURL
  // ---------------------------------------------------------------------------

  /** Index of the first character of s at or after i that is in chars (find_first_of / find). */
  function FindFirstOfFrom(s: string, chars: string, i: nat): (r: Option<nat>)
    requires i <= |s|
    decreases |s| - i
    ensures r.Some? ==> i <= r.value < |s| && s[r.value] in chars
    ensures r.Some? ==> forall k :: i <= k < r.value ==> s[k] !in chars
    ensures r.None? ==> forall k :: i <= k < |s| ==> s[k] !in chars
  {
    if i == |s| then None
    else if s[i] in chars then Some(i)
    else FindFirstOfFrom(s, chars, i + 1)
  }

  function FindFirstOf(s: string, chars: string): (r: Option<nat>)
    ensures r.Some? ==> r.value < |s| && s[r.value] in chars
    ensures r.Some? ==> forall k :: 0 <= k < r.value ==> s[k] !in chars
    ensures r.None? <==> forall k :: 0 <= k < |s| ==> s[k] !in chars
  {
    FindFirstOfFrom(s, chars, 0)
  }

  /** The text after the first ':' (the whole string when it has none). */
  function AfterScheme(s: string): (rest: string)
    ensures |rest| <= |s| && rest == s[|s| - |rest|..]
  {
    match FindFirstOf(s, ":")
    case Some(p) => if p < |s| then s[p + 1..] else ""
    case None => s
  }

  /**
   * The segment CheckURL inspects for brackets, when it inspects one: after a
   * leading "//" it skips three characters and runs through the first of "/?#".
   */
  function NetlocChecked(s: string): (r: Option<string>)
    ensures r.Some? ==> exists a :: SliceAt(s, a, r.value)
  {
    var rest := AfterScheme(s);
    if |rest| > 2 && rest[..2] == "//" then
      var tail := rest[3..];
      match FindFirstOf(tail, "/?#")
      case Some(p2) =>
        SuffixPrefixIsSlice(s, tail, p2 + 1);
        Some(tail[..p2 + 1])
      case None => None
    else None
  }

  /** A prefix of a suffix of s occurs in s. */
  lemma SuffixPrefixIsSlice(s: string, tail: string, n: nat)
    requires |tail| <= |s| && tail == s[|s| - |tail|..] && n <= |tail|
    ensures SliceAt(s, |s| - |tail|, tail[..n])
  {
  }

  /** t occurs in s starting at index a. */
  predicate SliceAt(s: string, a: int, t: string)
  {
    0 <= a <= |s| - |t| && s[a..a + |t|] == t
  }

  predicate UnbalancedBrackets(t: string)
  {
    ('[' in t && ']' !in t) || (']' in t && '[' !in t)
  }

  /**
   * CheckURL: a stand-in for a URL parser's failure cases; false only when the
   * checked netloc segment holds one square bracket without the other.
   */
  function CheckURL(strURLIn: string): (r: bool)
    ensures !r <==> NetlocChecked(strURLIn).Some? && UnbalancedBrackets(NetlocChecked(strURLIn).value)
  {
    var strRest := AfterScheme(strURLIn);
    if |strRest| > 2 && strRest[..2] == "//" then
      var tail := strRest[3..];
      match FindFirstOf(tail, "/?#")
      case Some(nPos2) =>
        var strNetloc := tail[..nPos2 + 1];
        if '[' in strNetloc && ']' !in strNetloc then false
        else if ']' in strNetloc && '[' !in strNetloc then false
        else true
      case None => true
    else true
  }

  /** A URL without square brackets always passes. */
  lemma CheckURLWithoutBrackets(s: string)
    requires '[' !in s && ']' !in s
    ensures CheckURL(s)
  {
    var n := NetlocChecked(s);
    if n.Some? {
      var a :| SliceAt(s, a, n.value);
      forall k | 0 <= k < |n.value|
        ensures n.value[k] != '[' && n.value[k] != ']'
      {
        assert n.value[k] == s[a + k];
      }
    }
  }

  /** Without "//" after the scheme there is no netloc to check. */
  lemma CheckURLWithoutAuthority(s: string)
    requires !(|AfterScheme(s)| > 2 && AfterScheme(s)[..2] == "//")
    ensures CheckURL(s)
  {
  }

  /** With "//" but no later '/', '?' or '#', the netloc is not checked either. */
  lemma CheckURLWithoutPathDelimiter(s: string)
    requires |AfterScheme(s)| > 2
    requires FindFirstOf(AfterScheme(s)[3..], "/?#").None?
    ensures CheckURL(s)
  {
  }

  /** The first character of s in chars is at k. */
  lemma FindFirstOfIs(s: string, chars: string, k: nat)
    requires k < |s| && s[k] in chars
    requires forall j :: 0 <= j < k ==> s[j] !in chars
    ensures FindFirstOf(s, chars) == Some(k)
  {
  }

  /** An opening bracket in the checked segment without a closing one is refused. */
  lemma CheckURLRefusesUnclosedBracket()
    ensures !CheckURL("http://a[b/")
  {
    var u := "http://a[b/";
    FindFirstOfIs(u, ":", 4);
    var rest := AfterScheme(u);
    assert rest == "//a[b/";
    assert rest[..2] == "//";
    var tail := rest[3..];
    assert tail == "[b/";
    FindFirstOfIs(tail, "/?#", 2);
    var netloc := tail[..3];
    assert netloc == "[b/";
    assert netloc[0] == '[';
    assert forall k :: 0 <= k < |netloc| ==> netloc[k] != ']';
    assert NetlocChecked(u) == Some(netloc);
  }

  /**
   * Because three characters are skipped after "//", a bracket right after the
   * "//" is never looked at: an unclosed IPv6 literal passes.
   */
  lemma CheckURLSkipsFirstNetlocCharacter()
    ensures CheckURL("http://[::1/")
  {
    var u := "http://[::1/";
    FindFirstOfIs(u, ":", 4);
    var rest := AfterScheme(u);
    assert rest == "//[::1/";
    assert rest[..2] == "//";
    var tail := rest[3..];
    assert tail == "::1/";
    FindFirstOfIs(tail, "/?#", 3);
    var netloc := tail[..4];
    assert netloc == "::1/";
    assert forall k :: 0 <= k < |netloc| ==> netloc[k] != '[' && netloc[k] != ']';
    assert NetlocChecked(u) == Some(netloc);
  }

  // ---------------------------------------------------------------------------
  // The proposal's JSON fields
  // ---------------------------------------------------------------------------

  /** A JSON value as far as the validator reads it; a number keeps its value but not its text. */
  datatype JsonValue = JNull | JBool(b: bool) | JStr(str: string) | JNum(num: real) | JComposite

  /** The outcome of one typed read: the value, or the text of the exception thrown. */
  datatype Fetched<T> = Got(value: T) | Threw(what: string)

  const NOT_STRING: string := "JSON value is not a string as expected"
  const NOT_INTEGER: string := "JSON value is not an integer as expected"
  const INTEGER_OUT_OF_RANGE: string := "JSON integer out of range"
  const NOT_NUMBER: string := "JSON value is not a number as expected"
  const DOUBLE_OUT_OF_RANGE: string := "JSON double out of range"

  /**
   * The smallest magnitude that a decimal number's text rounds to infinity as
   * an IEEE 754 double: 2^1024 - 2^970, halfway between the largest finite
   * double and 2^1024 (the tie rounds away from the odd largest double).
   */
  const DOUBLE_OVERFLOW: real := 179769313486231580793728971405303415079934132710037826936173778980444968292764750946649017977587207096330286416692887910946555547851940402630657488671505820681908902000708383676273854845817711531764475730270069855571366959622842914819860834936475292719074168444365510704342711559699508093042880177904174497792.0

  const INT64_MIN: int := -0x8000_0000_0000_0000
  const INT64_MAX: int := 0x7fff_ffff_ffff_ffff

  /** objJSON[key]: a missing key reads as null. */
  function Field(obj: map<string, JsonValue>, key: string): JsonValue
  {
    if key in obj then obj[key] else JNull
  }

  function FetchString(obj: map<string, JsonValue>, key: string): (f: Fetched<string>)
    ensures f.Got? <==> Field(obj, key).JStr?
  {
    match Field(obj, key)
    case JStr(s) => Got(s)
    case _ => Threw(NOT_STRING)
  }

  function FetchInt64(obj: map<string, JsonValue>, key: string): (f: Fetched<int>)
    ensures f.Got? ==> INT64_MIN <= f.value <= INT64_MAX && Field(obj, key) == JNum(f.value as real)
    ensures (Field(obj, key).JNum? && Field(obj, key).num.Floor as real == Field(obj, key).num &&
             INT64_MIN <= Field(obj, key).num.Floor <= INT64_MAX) ==> f.Got?
  {
    match Field(obj, key)
    case JNum(v) =>
      if v.Floor as real == v && INT64_MIN <= v.Floor <= INT64_MAX then Got(v.Floor)
      else Threw(INTEGER_OUT_OF_RANGE)
    case _ => Threw(NOT_INTEGER)
  }

  /**
   * get_real: a number whose magnitude overflows a double throws "JSON double
   * out of range"; anything else that is not a number throws the type error.
   */
  function FetchReal(obj: map<string, JsonValue>, key: string): (f: Fetched<real>)
    ensures f.Got? <==> Field(obj, key).JNum? && -DOUBLE_OVERFLOW < Field(obj, key).num < DOUBLE_OVERFLOW
    ensures f.Got? ==> f.value == Field(obj, key).num
  {
    match Field(obj, key)
    case JNum(v) =>
      if v <= -DOUBLE_OVERFLOW || DOUBLE_OVERFLOW <= v then Threw(DOUBLE_OUT_OF_RANGE)
      else Got(v)
    case _ => Threw(NOT_NUMBER)
  }

  /** What a failed read appends to the error log. */
  function ErrorEntry<T>(f: Fetched<T>): string
  {
    if f.Threw? then f.what + ";" else ""
  }

  /** The outcome of one validation stage: pass or fail, and what it appended. */
  datatype Stage = Stage(ok: bool, log: string)

  /** The regular expression ^[-_a-zA-Z0-9]+ matched against the whole name. */
  predicate NameChar(c: char)
  {
    c == '-' || c == '_' || ('a' <= c <= 'z') || ('A' <= c <= 'Z') || ('0' <= c <= '9')
  }

  predicate MatchesNamePattern(s: string)
  {
    |s| > 0 && forall i :: 0 <= i < |s| ==> NameChar(s[i])
  }

  function NameStage(obj: map<string, JsonValue>): Stage
  {
    var f := FetchString(obj, "name");
    if f.Threw? then Stage(false, ErrorEntry(f))
    else Stage(StripWhitespace(f.value) != [] && MatchesNamePattern(f.value), "")
  }

  /** As written, the end epoch is read into the start-epoch variable and the end epoch stays 0. */
  function EpochStage(obj: map<string, JsonValue>): Stage
  {
    var f1 := FetchInt64(obj, "start-epoch");
    if f1.Threw? then Stage(false, ErrorEntry(f1))
    else
      var f2 := FetchInt64(obj, "end-epoch");
      if f2.Threw? then Stage(false, ErrorEntry(f2))
      else
        var nStartEpoch := f2.value;
        var nEndEpoch := 0;
        Stage(!(nEndEpoch <= nStartEpoch), "")
  }

  function AmountStage(obj: map<string, JsonValue>): Stage
  {
    var f := FetchReal(obj, "payment_amount");
    if f.Threw? then Stage(false, ErrorEntry(f)) else Stage(f.value > 0.0, "")
  }

  /** isValidAddress stands for CBitcoinAddress::IsValid. */
  function AddressStage(obj: map<string, JsonValue>, isValidAddress: string -> bool): Stage
  {
    var f := FetchString(obj, "payment-address");
    if f.Threw? then Stage(false, ErrorEntry(f)) else Stage(isValidAddress(f.value), "")
  }

  /** As written, every path of ValidateURL returns false. */
  function UrlStage(obj: map<string, JsonValue>): Stage
  {
    var f := FetchString(obj, "url");
    if f.Threw? then Stage(false, ErrorEntry(f))
    else if |StripWhitespace(f.value)| < 4 then Stage(false, "")
    else if !CheckURL(f.value) then Stage(false, "")
    else Stage(false, "")
  }

  const INVALID_NAME: string := "Invalid name;"
  const INVALID_RANGE: string := "Invalid start:end range;"
  const INVALID_AMOUNT: string := "Invalid payment amount;"
  const INVALID_ADDRESS: string := "Invalid payment address;"
  const INVALID_URL: string := "Invalid URL;"

  /** Everything Validate appends to the error log. */
  function ValidationLog(obj: map<string, JsonValue>, fJSONValid: bool, isValidAddress: string -> bool): string
  {
    if !fJSONValid then ""
    else
      var name := NameStage(obj);
      if !name.ok then name.log + INVALID_NAME
      else
        var epoch := EpochStage(obj);
        if !epoch.ok then epoch.log + INVALID_RANGE
        else
          var amount := AmountStage(obj);
          if !amount.ok then amount.log + INVALID_AMOUNT
          else
            var address := AddressStage(obj, isValidAddress);
            if !address.ok then address.log + INVALID_ADDRESS
            else UrlStage(obj).log + INVALID_URL
  }

  predicate EndsWith(s: string, suffix: string)
  {
    |suffix| <= |s| && s[|s| - |suffix|..] == suffix
  }

  /**
   * The name check: a string field that, in full and unstripped, matches
   * [-_a-zA-Z0-9]+ (the stripped-empty test can never fire on such a name).
   */
  lemma NameStageSpec(obj: map<string, JsonValue>)
    ensures NameStage(obj).ok <==> Field(obj, "name").JStr? && MatchesNamePattern(Field(obj, "name").str)
    ensures !NameStage(obj).ok && !Field(obj, "name").JStr? ==> NameStage(obj).log == NOT_STRING + ";"
  {
    var v := Field(obj, "name");
    if v.JStr? && MatchesNamePattern(v.str) {
      assert !IsWhitespace(v.str[0]) by {
        assert NameChar(v.str[0]);
      }
    }
  }

  /**
   * As written, the range check passes exactly when both epochs are readable 64-bit
   * integers and the end epoch is negative; the start epoch does not matter.
   */
  lemma EpochStageAsWritten(obj: map<string, JsonValue>)
    ensures EpochStage(obj).ok <==>
      FetchInt64(obj, "start-epoch").Got? && FetchInt64(obj, "end-epoch").Got? && FetchInt64(obj, "end-epoch").value < 0
  {
  }

  /** A proposal running from epoch 1000 to epoch 2000 is refused by the range check. */
  lemma EpochStageRefusesOrderedRange()
    ensures !EpochStage(map["start-epoch" := JNum(1000.0), "end-epoch" := JNum(2000.0)]).ok
  {
    var obj := map["start-epoch" := JNum(1000.0), "end-epoch" := JNum(2000.0)];
    assert Field(obj, "end-epoch") == JNum(2000 as real);
    assert FetchInt64(obj, "end-epoch").value == 2000;
  }

  /** The amount check: a JSON number strictly above zero that does not overflow a double. */
  lemma AmountStageSpec(obj: map<string, JsonValue>)
    ensures AmountStage(obj).ok <==>
      Field(obj, "payment_amount").JNum? && 0.0 < Field(obj, "payment_amount").num < DOUBLE_OVERFLOW
  {
  }

  /** An amount too large for a double is refused, with get_real's error logged before the stage message. */
  lemma AmountStageRefusesOverflow()
    ensures var obj := map["payment_amount" := JNum(DOUBLE_OVERFLOW)];
      !AmountStage(obj).ok && AmountStage(obj).log == DOUBLE_OUT_OF_RANGE + ";"
  {
  }

  /** Parsed data always ends the log with exactly one stage message, the first failing one's. */
  lemma {:induction false} ValidationLogEndsWithStageMessage(obj: map<string, JsonValue>, isValidAddress: string -> bool)
    ensures ValidationLog(obj, true, isValidAddress) != []
    ensures exists m :: (m in {INVALID_NAME, INVALID_RANGE, INVALID_AMOUNT, INVALID_ADDRESS, INVALID_URL} &&
      EndsWith(ValidationLog(obj, true, isValidAddress), m))
  {
    var log := ValidationLog(obj, true, isValidAddress);
    var m :=
      if !NameStage(obj).ok then INVALID_NAME
      else if !EpochStage(obj).ok then INVALID_RANGE
      else if !AmountStage(obj).ok then INVALID_AMOUNT
      else if !AddressStage(obj, isValidAddress).ok then INVALID_ADDRESS
      else INVALID_URL;
    var pre :=
      if !NameStage(obj).ok then NameStage(obj).log
      else if !EpochStage(obj).ok then EpochStage(obj).log
      else if !AmountStage(obj).ok then AmountStage(obj).log
      else if !AddressStage(obj, isValidAddress).ok then AddressStage(obj, isValidAddress).log
      else UrlStage(obj).log;
    assert log == pre + m;
    assert log[|log| - |m|..] == m;
    assert m in {INVALID_NAME, INVALID_RANGE, INVALID_AMOUNT, INVALID_ADDRESS, INVALID_URL};
    assert EndsWith(log, m);
  }

  lemma AppendAssociates(a: string, b: string, c: string)
    ensures a + b + c == a + (b + c)
  {
  }

  /** A stage that passes appends nothing to the log. */
  lemma PassingStagesAreSilent(obj: map<string, JsonValue>, isValidAddress: string -> bool)
    ensures NameStage(obj).ok ==> NameStage(obj).log == []
    ensures EpochStage(obj).ok ==> EpochStage(obj).log == []
    ensures AmountStage(obj).ok ==> AmountStage(obj).log == []
    ensures AddressStage(obj, isValidAddress).ok ==> AddressStage(obj, isValidAddress).log == []
  {
  }

  /** A name that passes leaves the name stage silent, and the range stage reports the epochs next. */
  lemma ValidationLogAfterGoodName(obj: map<string, JsonValue>, isValidAddress: string -> bool)
    requires Field(obj, "name").JStr? && MatchesNamePattern(Field(obj, "name").str)
    requires !FetchInt64(obj, "start-epoch").Got?
    ensures ValidationLog(obj, true, isValidAddress) == FetchInt64(obj, "start-epoch").what + ";" + INVALID_RANGE
  {
    NameStageSpec(obj);
  }

  // ---------------------------------------------------------------------------
  // CProposalValidator
  // ---------------------------------------------------------------------------

  /** What parsing a proposal's text yields: the JSON object, or the text of the exception thrown. */
  datatype ParseOutcome = Parsed(obj: map<string, JsonValue>) | ParseThrew(what: string)

  class ProposalValidator {
    var strData: string
    var objJSON: map<string, JsonValue>
    var fJSONValid: bool
    var strErrorMessages: string

    /**
     * The hex-data constructor. SetHexData decodes into a local that shadows the
     * strData field, so the field stays empty and parsing never starts.
     */
    constructor(strDataHexIn: string, parse: string -> ParseOutcome)
      ensures strData == [] && objJSON == map[] && !fJSONValid && strErrorMessages == []
    {
      strData := [];
      objJSON := map[];
      fJSONValid := false;
      strErrorMessages := [];
      new;
      if strDataHexIn != [] {
        SetHexData(strDataHexIn, parse);
      }
    }

    method Clear()
      modifies this
      ensures strData == [] && objJSON == map[] && !fJSONValid && strErrorMessages == []
    {
      strData := [];
      objJSON := map[];
      fJSONValid := false;
      strErrorMessages := [];
    }

    /** The decoded text goes into a local; only the (unchanged) field is parsed. */
    method SetHexData(strDataHexIn: string, parse: string -> ParseOutcome)
      modifies this
      ensures strData == old(strData)
      ensures old(strData) == [] ==>
        !fJSONValid && objJSON == old(objJSON) && strErrorMessages == old(strErrorMessages)
      ensures old(strData) != [] ==> ParsedFrom(parse(old(strData)), old(objJSON), old(strErrorMessages))
    {
      var strDataLocal := strDataHexIn;
      ParseJSONData(parse);
    }

    /** The fields after parsing ended with outcome o. */
    ghost predicate ParsedFrom(o: ParseOutcome, objJSON0: map<string, JsonValue>, strErrorMessages0: string)
      reads this
    {
      match o
      case Parsed(obj) => fJSONValid && objJSON == obj && strErrorMessages == strErrorMessages0
      case ParseThrew(w) => !fJSONValid && objJSON == objJSON0 && strErrorMessages == strErrorMessages0 + w + ";"
    }

    method ParseJSONData(parse: string -> ParseOutcome)
      modifies this
      ensures strData == old(strData)
      ensures old(strData) == [] ==>
        !fJSONValid && objJSON == old(objJSON) && strErrorMessages == old(strErrorMessages)
      ensures old(strData) != [] ==> ParsedFrom(parse(old(strData)), old(objJSON), old(strErrorMessages))
    {
      fJSONValid := false;
      if strData == [] {
        return;
      }
      match parse(strData)
      case Parsed(obj) =>
        objJSON := obj;
        fJSONValid := true;
      case ParseThrew(w) =>
        strErrorMessages := strErrorMessages + w + ";";
    }

    /** GetDataValue for a string: on failure the exception text is logged. */
    method GetDataString(strKey: string) returns (fOK: bool, strValue: string)
      modifies this
      ensures strData == old(strData) && objJSON == old(objJSON) && fJSONValid == old(fJSONValid)
      ensures fOK <==> FetchString(objJSON, strKey).Got?
      ensures fOK ==> strValue == FetchString(objJSON, strKey).value
      ensures strErrorMessages == old(strErrorMessages) + ErrorEntry(FetchString(objJSON, strKey))
    {
      strValue := [];
      var f := FetchString(objJSON, strKey);
      if f.Got? {
        strValue := f.value;
        fOK := true;
      } else {
        strErrorMessages := strErrorMessages + f.what + ";";
        fOK := false;
      }
    }

    /** GetDataValue for an int64. */
    method GetDataInt64(strKey: string) returns (fOK: bool, nValue: int)
      modifies this
      ensures strData == old(strData) && objJSON == old(objJSON) && fJSONValid == old(fJSONValid)
      ensures fOK <==> FetchInt64(objJSON, strKey).Got?
      ensures fOK ==> nValue == FetchInt64(objJSON, strKey).value
      ensures strErrorMessages == old(strErrorMessages) + ErrorEntry(FetchInt64(objJSON, strKey))
    {
      nValue := 0;
      var f := FetchInt64(objJSON, strKey);
      if f.Got? {
        nValue := f.value;
        fOK := true;
      } else {
        strErrorMessages := strErrorMessages + f.what + ";";
        fOK := false;
      }
    }

    /** GetDataValue for a double. */
    method GetDataReal(strKey: string) returns (fOK: bool, dValue: real)
      modifies this
      ensures strData == old(strData) && objJSON == old(objJSON) && fJSONValid == old(fJSONValid)
      ensures fOK <==> FetchReal(objJSON, strKey).Got?
      ensures fOK ==> dValue == FetchReal(objJSON, strKey).value
      ensures strErrorMessages == old(strErrorMessages) + ErrorEntry(FetchReal(objJSON, strKey))
    {
      dValue := 0.0;
      var f := FetchReal(objJSON, strKey);
      if f.Got? {
        dValue := f.value;
        fOK := true;
      } else {
        strErrorMessages := strErrorMessages + f.what + ";";
        fOK := false;
      }
    }

    method ValidateName() returns (r: bool)
      modifies this
      ensures strData == old(strData) && objJSON == old(objJSON) && fJSONValid == old(fJSONValid)
      ensures r == NameStage(objJSON).ok
      ensures strErrorMessages == old(strErrorMessages) + NameStage(objJSON).log
    {
      var ok, strName := GetDataString("name");
      if !ok {
        return false;
      }
      var strNameStripped := StripWhitespace(strName);
      if strNameStripped == [] {
        return false;
      }
      r := MatchesNamePattern(strName);
    }

    method ValidateStartEndEpoch() returns (r: bool)
      modifies this
      ensures strData == old(strData) && objJSON == old(objJSON) && fJSONValid == old(fJSONValid)
      ensures r == EpochStage(objJSON).ok
      ensures strErrorMessages == old(strErrorMessages) + EpochStage(objJSON).log
    {
      var nStartEpoch := 0;
      var nEndEpoch := 0;
      ghost var obj, log0 := objJSON, strErrorMessages;
      ghost var f1, f2 := FetchInt64(obj, "start-epoch"), FetchInt64(obj, "end-epoch");
      var ok;
      ok, nStartEpoch := GetDataInt64("start-epoch");
      if !ok {
        assert EpochStage(obj) == Stage(false, ErrorEntry(f1));
        return false;
      }
      assert strErrorMessages == log0;
      ok, nStartEpoch := GetDataInt64("end-epoch");
      if !ok {
        assert EpochStage(obj) == Stage(false, ErrorEntry(f2));
        return false;
      }
      assert EpochStage(obj) == Stage(!(0 <= f2.value), "");
      r := !(nEndEpoch <= nStartEpoch);
    }

    method ValidatePaymentAmount() returns (r: bool)
      modifies this
      ensures strData == old(strData) && objJSON == old(objJSON) && fJSONValid == old(fJSONValid)
      ensures r == AmountStage(objJSON).ok
      ensures strErrorMessages == old(strErrorMessages) + AmountStage(objJSON).log
    {
      var ok, dValue := GetDataReal("payment_amount");
      if !ok {
        return false;
      }
      r := dValue > 0.0;
    }

    method ValidatePaymentAddress(isValidAddress: string -> bool) returns (r: bool)
      modifies this
      ensures strData == old(strData) && objJSON == old(objJSON) && fJSONValid == old(fJSONValid)
      ensures r == AddressStage(objJSON, isValidAddress).ok
      ensures strErrorMessages == old(strErrorMessages) + AddressStage(objJSON, isValidAddress).log
    {
      var ok, strPaymentAddress := GetDataString("payment-address");
      if !ok {
        return false;
      }
      r := isValidAddress(strPaymentAddress);
    }

    method ValidateURL() returns (r: bool)
      modifies this
      ensures strData == old(strData) && objJSON == old(objJSON) && fJSONValid == old(fJSONValid)
      ensures !r
      ensures strErrorMessages == old(strErrorMessages) + UrlStage(objJSON).log
    {
      var ok, strURL := GetDataString("url");
      if !ok {
        return false;
      }
      var strURLStripped := StripWhitespace(strURL);
      if |strURLStripped| < 4 {
        return false;
      }
      if !CheckURL(strURL) {
        return false;
      }
      return false;
    }

    /**
     * Validate runs the stages in order and stops at the first failure, logging its
     * message; unparsed data fails silently. As written it never succeeds.
     */
    method Validate(isValidAddress: string -> bool) returns (r: bool)
      modifies this
      ensures strData == old(strData) && objJSON == old(objJSON) && fJSONValid == old(fJSONValid)
      ensures !r
      ensures strErrorMessages == old(strErrorMessages) + ValidationLog(objJSON, fJSONValid, isValidAddress)
    {
      if !fJSONValid {
        return false;
      }
      ghost var obj, log0 := objJSON, strErrorMessages;
      PassingStagesAreSilent(obj, isValidAddress);
      var ok := ValidateName();
      if !ok {
        AppendAssociates(log0, NameStage(obj).log, INVALID_NAME);
        strErrorMessages := strErrorMessages + INVALID_NAME;
        assert ValidationLog(obj, true, isValidAddress) == NameStage(obj).log + INVALID_NAME;
        return false;
      }
      assert strErrorMessages == log0;
      ok := ValidateStartEndEpoch();
      if !ok {
        AppendAssociates(log0, EpochStage(obj).log, INVALID_RANGE);
        strErrorMessages := strErrorMessages + INVALID_RANGE;
        assert ValidationLog(obj, true, isValidAddress) == EpochStage(obj).log + INVALID_RANGE;
        return false;
      }
      assert strErrorMessages == log0;
      ok := ValidatePaymentAmount();
      if !ok {
        AppendAssociates(log0, AmountStage(obj).log, INVALID_AMOUNT);
        strErrorMessages := strErrorMessages + INVALID_AMOUNT;
        assert ValidationLog(obj, true, isValidAddress) == AmountStage(obj).log + INVALID_AMOUNT;
        return false;
      }
      assert strErrorMessages == log0;
      ok := ValidatePaymentAddress(isValidAddress);
      if !ok {
        AppendAssociates(log0, AddressStage(obj, isValidAddress).log, INVALID_ADDRESS);
        strErrorMessages := strErrorMessages + INVALID_ADDRESS;
        assert ValidationLog(obj, true, isValidAddress) == AddressStage(obj, isValidAddress).log + INVALID_ADDRESS;
        return false;
      }
      assert strErrorMessages == log0;
      ok := ValidateURL();
      AppendAssociates(log0, UrlStage(obj).log, INVALID_URL);
      strErrorMessages := strErrorMessages + INVALID_URL;
      assert ValidationLog(obj, true, isValidAddress) == UrlStage(obj).log + INVALID_URL;
      return false;
    }
  }

  /** A validator built from hex data never has parsed JSON, so validating it fails and logs nothing. */
  method ValidateFreshProposal(strDataHexIn: string, parse: string -> ParseOutcome, isValidAddress: string -> bool)
    returns (r: bool, log: string)
    ensures !r && log == []
  {
    var v := new ProposalValidator(strDataHexIn, parse);
    r := v.Validate(isValidAddress);
    log := v.strErrorMessages;
  }
}
