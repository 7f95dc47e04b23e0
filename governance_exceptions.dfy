/**
 * Governance exceptions (CGovernanceException): a severity and a message whose
 * text starts with the severity's identifier, then ':', then the caller's message.
 */
module GovernanceExceptions {
  import opened Common

  datatype ExceptionType =
    | GOVERNANCE_EXCEPTION_NONE
    | GOVERNANCE_EXCEPTION_WARNING
    | GOVERNANCE_EXCEPTION_PERMANENT_ERROR
    | GOVERNANCE_EXCEPTION_TEMPORARY_ERROR
    | GOVERNANCE_EXCEPTION_INTERNAL_ERROR

  /** The enumerator's numeric value. */
  function TypeValue(t: ExceptionType): (v: int)
    ensures 0 <= v <= 4
  {
    match t
    case GOVERNANCE_EXCEPTION_NONE => 0
    case GOVERNANCE_EXCEPTION_WARNING => 1
    case GOVERNANCE_EXCEPTION_PERMANENT_ERROR => 2
    case GOVERNANCE_EXCEPTION_TEMPORARY_ERROR => 3
    case GOVERNANCE_EXCEPTION_INTERNAL_ERROR => 4
  }

  /** The enumerator with a given numeric value. */
  function TypeOfValue(v: int): Option<ExceptionType>
  {
    if v == 0 then Some(GOVERNANCE_EXCEPTION_NONE)
    else if v == 1 then Some(GOVERNANCE_EXCEPTION_WARNING)
    else if v == 2 then Some(GOVERNANCE_EXCEPTION_PERMANENT_ERROR)
    else if v == 3 then Some(GOVERNANCE_EXCEPTION_TEMPORARY_ERROR)
    else if v == 4 then Some(GOVERNANCE_EXCEPTION_INTERNAL_ERROR)
    else None
  }

  /** The values 0 to 4 name the five enumerators one to one. */
  lemma TypeValueRoundTrip(t: ExceptionType, v: int)
    ensures TypeOfValue(TypeValue(t)) == Some(t)
    ensures TypeOfValue(v).Some? <==> 0 <= v <= 4
    ensures TypeOfValue(v).Some? ==> TypeValue(TypeOfValue(v).value) == v
  {
  }

  /** operator<<: each enumerator is written as its identifier. */
  function TypeName(t: ExceptionType): (name: string)
    ensures ':' !in name
  {
    match t
    case GOVERNANCE_EXCEPTION_NONE => "GOVERNANCE_EXCEPTION_NONE"
    case GOVERNANCE_EXCEPTION_WARNING => "GOVERNANCE_EXCEPTION_WARNING"
    case GOVERNANCE_EXCEPTION_PERMANENT_ERROR => "GOVERNANCE_EXCEPTION_PERMANENT_ERROR"
    case GOVERNANCE_EXCEPTION_TEMPORARY_ERROR => "GOVERNANCE_EXCEPTION_TEMPORARY_ERROR"
    case GOVERNANCE_EXCEPTION_INTERNAL_ERROR => "GOVERNANCE_EXCEPTION_INTERNAL_ERROR"
  }

  /** The enumerator an identifier names. */
  function TypeOfName(name: string): Option<ExceptionType>
  {
    if name == "GOVERNANCE_EXCEPTION_NONE" then Some(GOVERNANCE_EXCEPTION_NONE)
    else if name == "GOVERNANCE_EXCEPTION_WARNING" then Some(GOVERNANCE_EXCEPTION_WARNING)
    else if name == "GOVERNANCE_EXCEPTION_PERMANENT_ERROR" then Some(GOVERNANCE_EXCEPTION_PERMANENT_ERROR)
    else if name == "GOVERNANCE_EXCEPTION_TEMPORARY_ERROR" then Some(GOVERNANCE_EXCEPTION_TEMPORARY_ERROR)
    else if name == "GOVERNANCE_EXCEPTION_INTERNAL_ERROR" then Some(GOVERNANCE_EXCEPTION_INTERNAL_ERROR)
    else None
  }

  /** Distinct enumerators are written differently. */
  lemma TypeNameRoundTrip(t: ExceptionType)
    ensures TypeOfName(TypeName(t)) == Some(t)
  {
  }

  datatype GovernanceException = GovernanceException(strMessage: string, eType: ExceptionType)
  {
    /** what(): the composed message. */
    function What(): string
    {
      strMessage
    }

    function GetMessage(): string
    {
      strMessage
    }

    function GetType(): ExceptionType
    {
      eType
    }
  }

  /** The constructor, with its default arguments: the identifier of the type, ':', then the message. */
  function MakeException(strMessageIn: string := "", eTypeIn: ExceptionType := GOVERNANCE_EXCEPTION_NONE): (e: GovernanceException)
    ensures e.GetType() == eTypeIn
    ensures e.What() == e.GetMessage()
    ensures |e.GetMessage()| == |TypeName(eTypeIn)| + 1 + |strMessageIn|
    ensures e.GetMessage()[..|TypeName(eTypeIn)|] == TypeName(eTypeIn)
    ensures e.GetMessage()[|TypeName(eTypeIn)|] == ':'
    ensures e.GetMessage()[|TypeName(eTypeIn)| + 1..] == strMessageIn
  {
    GovernanceException(TypeName(eTypeIn) + ":" + strMessageIn, eTypeIn)
  }

  /** A default-constructed exception has type NONE and the message "GOVERNANCE_EXCEPTION_NONE:". */
  lemma DefaultException()
    ensures MakeException().GetType() == GOVERNANCE_EXCEPTION_NONE
    ensures MakeException().GetMessage() == "GOVERNANCE_EXCEPTION_NONE:"
  {
    assert MakeException().GetMessage() == "GOVERNANCE_EXCEPTION_NONE" + ":" + "";
  }

  /** Index of the first ':' in s, if any. */
  function FirstColon(s: string): (r: Option<nat>)
    ensures r.Some? ==> r.value < |s| && s[r.value] == ':' && ':' !in s[..r.value]
    ensures r.None? ==> ':' !in s
  {
    if s == [] then None
    else if s[0] == ':' then Some(0)
    else match FirstColon(s[1..])
      case Some(i) =>
        assert s[..i + 1] == [s[0]] + s[1..][..i];
        Some(i + 1)
      case None =>
        assert s == [s[0]] + s[1..];
        None
  }

  /** Splits a composed message back into the type and the caller's message. */
  function ParseMessage(msg: string): Option<(ExceptionType, string)>
  {
    match FirstColon(msg)
    case Some(i) =>
      (match TypeOfName(msg[..i])
       case Some(t) => Some((t, msg[i + 1..]))
       case None => None)
    case None => None
  }

  /** The first ':' of s is at k. */
  lemma {:induction false} FirstColonIs(s: string, k: nat)
    requires k < |s| && s[k] == ':'
    requires forall j :: 0 <= j < k ==> s[j] != ':'
    ensures FirstColon(s) == Some(k)
  {
    if k > 0 {
      FirstColonIs(s[1..], k - 1);
    }
  }

  /** The first ':' after a colon-free prefix is the one right after it. */
  lemma FirstColonAfterPrefix(prefix: string, rest: string)
    requires ':' !in prefix
    ensures FirstColon(prefix + ":" + rest) == Some(|prefix|)
  {
    var s := prefix + ":" + rest;
    forall j | 0 <= j < |prefix|
      ensures s[j] != ':'
    {
      assert s[j] == prefix[j];
    }
    FirstColonIs(s, |prefix|);
  }

  /** The composed message determines both the type and the caller's message, whatever that message holds. */
  lemma MessageRoundTrip(strMessageIn: string, eTypeIn: ExceptionType)
    ensures ParseMessage(MakeException(strMessageIn, eTypeIn).GetMessage()) == Some((eTypeIn, strMessageIn))
  {
    var name := TypeName(eTypeIn);
    var msg := MakeException(strMessageIn, eTypeIn).GetMessage();
    FirstColonAfterPrefix(name, strMessageIn);
    assert msg[..|name|] == name;
    TypeNameRoundTrip(eTypeIn);
  }
}
