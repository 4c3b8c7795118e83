/**
 Session ids, universe ids, and the workflow id `{universeId}/{sessionId}` made of the two, which is
 split again at its one separator. The same session ids are checked by Rust over characters and by
 TypeScript over UTF-16 code units.
 */
module WorkflowIds {
  import opened Wrappers
  import opened Utf8
  import opened JsText

  datatype InputError =
    | InvalidSessionId | InvalidUniverseId | InvalidInvocationId | NotSafeInteger | EmptyInput(name: string)

  const SESSION_ID_MAX_LEN := 128
  const SEPARATOR: Unit := 0x2F

  // ---------- session ids ----------

  predicate AlphaNumeric(c: nat) {
    0x30 <= c <= 0x39 || 0x41 <= c <= 0x5A || 0x61 <= c <= 0x7A
  }

  /** ASCII letters and digits, `_`, `-`, `.` and `:`. */
  predicate IdCharacter(c: nat) {
    AlphaNumeric(c) || c == 0x5F || c == 0x2D || c == 0x2E || c == 0x3A
  }

  /** The TypeScript pattern and byte length. */
  predicate IsSessionId(value: JsString) {
    && value != [] && AlphaNumeric(value[0])
    && (forall i :: 0 <= i < |value| ==> IdCharacter(value[i]))
    && |Utf8Of(value)| <= SESSION_ID_MAX_LEN
  }

  function RequireSessionId(value: JsString): Result<(), InputError> {
    if IsSessionId(value) then Ok(()) else Err(InvalidSessionId)
  }

  /** The errors of the Rust check. */
  datatype SessionIdError = Empty | TooLong(actual: nat) | InvalidStart | InvalidCharacter(index: nat, ch: Scalar)

  /** The first character not allowed, and its byte offset when the characters passed took `offset` bytes. */
  function FirstInvalid(value: Text, offset: nat): Option<(nat, Scalar)> {
    if value == [] then None
    else if !IdCharacter(value[0]) then Some((offset, value[0]))
    else FirstInvalid(value[1..], offset + |EncodeScalar(value[0])|)
  }

  function ValidateSessionId(value: Text): Result<(), SessionIdError> {
    if value == [] then Err(Empty)
    else if |Encode(value)| > SESSION_ID_MAX_LEN then Err(TooLong(|Encode(value)|))
    else if !AlphaNumeric(value[0]) then Err(InvalidStart)
    else
      match FirstInvalid(value, 0)
      case Some((index, ch)) => Err(InvalidCharacter(index, ch))
      case None => Ok(())
  }

  /** The character at `index` is not allowed, and those before it are. */
  predicate InvalidAt(value: Text, index: nat, ch: Scalar) {
    && index < |value| && value[index] == ch && !IdCharacter(ch)
    && forall i :: 0 <= i < index ==> IdCharacter(value[i])
  }

  lemma {:induction false} FirstInvalidIsFirst(value: Text, offset: nat)
    ensures FirstInvalid(value, offset).None? <==> forall i :: 0 <= i < |value| ==> IdCharacter(value[i])
    ensures FirstInvalid(value, offset).Some? ==>
              FirstInvalid(value, offset).value.0 >= offset
              && InvalidAt(value, FirstInvalid(value, offset).value.0 - offset, FirstInvalid(value, offset).value.1)
  {
    if value != [] && IdCharacter(value[0]) {
      FirstInvalidIsFirst(value[1..], offset + 1);
      assert forall i :: 0 < i < |value| ==> value[i] == value[1..][i - 1];
    }
  }

  lemma NotAsciiIsRefused(value: JsString)
    requires !IsAscii(value)
    ensures ValidateSessionId(ToScalars(value)).Err? && !IsSessionId(value)
  {
    var text := ToScalars(value);
    FirstInvalidIsFirst(text, 0);
    ScalarsNotAscii(value);
    var i :| 0 <= i < |text| && text[i] >= 0x80;
    assert !IdCharacter(text[i]);
  }

  /** Rust's check of a client's text and TypeScript's check of the string it came from accept the same ids. */
  lemma ValidatorsAgree(value: JsString)
    ensures ValidateSessionId(ToScalars(value)).Ok? <==> IsSessionId(value)
    ensures IsSessionId(value) ==> ToScalars(value) == value && SEPARATOR !in value && |value| <= SESSION_ID_MAX_LEN
  {
    if IsAscii(value) {
      FirstInvalidIsFirst(value, 0);
      AsciiIsUnchanged(value);
    } else {
      NotAsciiIsRefused(value);
    }
  }

  /** Each error names what is wrong: a character error its byte offset, with only good characters before it. */
  lemma SessionIdErrors(value: Text)
    ensures ValidateSessionId(value).Err? ==>
              var error := ValidateSessionId(value).error;
              && (error.Empty? <==> value == [])
              && (error.TooLong? <==> |Encode(value)| > SESSION_ID_MAX_LEN)
              && (error.TooLong? ==> error.actual == |Encode(value)|)
              && (error.InvalidStart? ==> value != [] && !AlphaNumeric(value[0]))
              && (error.InvalidCharacter? ==>
                    && 0 < error.index && InvalidAt(value, error.index, error.ch)
                    && error.index == |Encode(value[..error.index])|)
  {
    FirstInvalidIsFirst(value, 0);
    if FirstInvalid(value, 0).Some? {
      var index := FirstInvalid(value, 0).value.0;
      AsciiIsUnchanged(value[..index]);
    }
  }

  // ---------- universe ids ----------

  predicate HexDigit(c: Unit) {
    0x30 <= c <= 0x39 || 0x41 <= c <= 0x46 || 0x61 <= c <= 0x66
  }

  /** Eight, four, four, four and twelve hexadecimal digits of either case between dashes. */
  predicate IsUuid(value: JsString) {
    && |value| == 36
    && forall i :: 0 <= i < 36 ==> if i in [8, 13, 18, 23] then value[i] == 0x2D else HexDigit(value[i])
  }

  /** `toLowerCase` on ASCII. */
  function LowerUnit(c: Unit): Unit {
    if 0x41 <= c <= 0x5A then c + 0x20 else c
  }

  function Lower(value: JsString): (r: JsString)
    ensures |r| == |value|
  {
    seq(|value|, i requires 0 <= i < |value| => LowerUnit(value[i]))
  }

  function NormalizeUniverseId(value: JsString): Result<JsString, InputError> {
    if !IsUuid(value) then Err(InvalidUniverseId) else Ok(Lower(value))
  }

  lemma LowerIsUuid(value: JsString)
    ensures IsUuid(value) <==> IsUuid(Lower(value))
    ensures IsUuid(value) ==> SEPARATOR !in Lower(value) && IsAscii(Lower(value)) && Lower(Lower(value)) == Lower(value)
  {
    var l := Lower(value);
    assert forall i :: 0 <= i < |value| ==> l[i] == LowerUnit(value[i]);
    if IsUuid(value) {
      assert Lower(l) == l;
    }
  }

  // ---------- workflow ids ----------

  function SessionWorkflowId(universeId: JsString, sessionId: JsString): Result<JsString, InputError> {
    if RequireSessionId(sessionId).Err? then Err(InvalidSessionId)
    else
      match NormalizeUniverseId(universeId)
      case Err(error) => Err(error)
      case Ok(universe) => Ok(universe + [SEPARATOR] + sessionId)
  }

  /** `indexOf("/", from)`, or the length for -1. */
  function SeparatorFrom(value: JsString, from: nat): (k: nat)
    requires from <= |value|
    ensures from <= k <= |value|
    ensures k < |value| ==> value[k] == SEPARATOR
    ensures forall i :: from <= i < k ==> value[i] != SEPARATOR
    decreases |value| - from
  {
    if from == |value| || value[from] == SEPARATOR then from else SeparatorFrom(value, from + 1)
  }

  function SplitWorkflowId(workflowId: JsString): Option<(JsString, JsString)> {
    var separator := SeparatorFrom(workflowId, 0);
    if separator == |workflowId| || SeparatorFrom(workflowId, separator + 1) < |workflowId| then None
    else
      var universeId, sessionId := workflowId[..separator], workflowId[separator + 1..];
      match NormalizeUniverseId(universeId)
      case Err(_) => None
      case Ok(universe) => if RequireSessionId(sessionId).Err? then None else Some((universe, sessionId))
  }

  lemma JoinedHasOneSeparator(universe: JsString, sessionId: JsString)
    requires SEPARATOR !in universe && SEPARATOR !in sessionId
    ensures var id := universe + [SEPARATOR] + sessionId;
            SeparatorFrom(id, 0) == |universe| && SeparatorFrom(id, |universe| + 1) == |id|
            && id[..|universe|] == universe && id[|universe| + 1..] == sessionId
  {
    var id := universe + [SEPARATOR] + sessionId;
    assert id[|universe|] == SEPARATOR;
    assert forall i :: 0 <= i < |universe| ==> id[i] == universe[i];
    assert forall i :: |universe| < i < |id| ==> id[i] == sessionId[i - |universe| - 1];
  }

  /** A composed workflow id splits into the lower-case universe id and the session id. */
  lemma ComposedSplits(universeId: JsString, sessionId: JsString)
    requires SessionWorkflowId(universeId, sessionId).Ok?
    ensures SplitWorkflowId(SessionWorkflowId(universeId, sessionId).value) == Some((Lower(universeId), sessionId))
  {
    LowerIsUuid(universeId);
    ValidatorsAgree(sessionId);
    JoinedHasOneSeparator(Lower(universeId), sessionId);
  }

  lemma SeparatorRejoins(head: JsString, workflowId: JsString)
    requires |workflowId| > 36 && workflowId[36] == SEPARATOR
    ensures head + [SEPARATOR] + workflowId[37..] == head + workflowId[36..]
  {
    assert workflowId[36..] == [SEPARATOR] + workflowId[37..];
  }

  /** An id that splits composes back to itself, up to the case of its universe id. */
  lemma SplitComposes(workflowId: JsString)
    requires SplitWorkflowId(workflowId).Some?
    ensures |workflowId| > 36
    ensures var (universeId, sessionId) := SplitWorkflowId(workflowId).value;
            && universeId == Lower(workflowId[..36]) && sessionId == workflowId[37..]
            && SessionWorkflowId(universeId, sessionId) == Ok(Lower(workflowId[..36]) + workflowId[36..])
  {
    var universe := workflowId[..36];
    LowerIsUuid(universe);
    hide IsUuid, IsSessionId, Lower;
    SeparatorRejoins(Lower(universe), workflowId);
  }

  /** No two sessions share a workflow id: it is equal exactly for equal normalised parts. */
  lemma WorkflowIdInjective(u1: JsString, s1: JsString, u2: JsString, s2: JsString)
    requires SessionWorkflowId(u1, s1).Ok? && SessionWorkflowId(u2, s2).Ok?
    ensures SessionWorkflowId(u1, s1) == SessionWorkflowId(u2, s2) <==> Lower(u1) == Lower(u2) && s1 == s2
  {
    ComposedSplits(u1, s1);
    ComposedSplits(u2, s2);
  }
}
