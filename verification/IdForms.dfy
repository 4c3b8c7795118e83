/**
 The ids in full: which inputs are taken, how they are refused, and what is printed or hashed for those
 that are taken, written out down to characters and bytes.
 */
module IdForms {
  import opened Wrappers
  import opened ApiIds
  import opened Utf8
  import opened JsText
  import opened Framing
  import opened WorkflowIds
  import opened Identity

  // ---------- characters ----------

  predicate Between(c: nat, first: char, last: char) {
    first as int <= c <= last as int
  }

  /** One to 128 ASCII letters, digits, `_`, `-`, `.` and `:`, a letter or digit first. */
  lemma SessionIdForm(value: JsString)
    ensures IsSessionId(value) <==>
            && 1 <= |value| <= 128
            && (forall i :: 0 <= i < |value| ==>
                  var c := value[i];
                  || Between(c, 'A', 'Z') || Between(c, 'a', 'z') || Between(c, '0', '9')
                  || (i > 0 && (c == '_' as int || c == '-' as int || c == '.' as int || c == ':' as int)))
  {
    if forall i :: 0 <= i < |value| ==> IdCharacter(value[i]) {
      AsciiIsUnchanged(value);
    }
  }

  /** The UUID form, in either case. */
  lemma UniverseIdForm(value: JsString)
    ensures IsUuid(value) <==>
            && |value| == 36
            && forall i :: 0 <= i < 36 ==>
                 var c := value[i];
                 if i == 8 || i == 13 || i == 18 || i == 23 then c == '-' as int
                 else Between(c, '0', '9') || Between(c, 'a', 'f') || Between(c, 'A', 'F')
  {
  }

  lemma InvocationIdForm(value: JsString)
    ensures IsInvocationId(value) <==>
            && |value| == 75 && value[..11] == Ascii("wti:sha256:")
            && forall i :: 11 <= i < 75 ==> Between(value[i], '0', '9') || Between(value[i], 'a', 'f')
  {
  }

  /** Lower case changes the capitals `A` to `Z` and nothing else. */
  lemma LowerForm(value: JsString)
    ensures |Lower(value)| == |value|
    ensures forall i :: 0 <= i < |value| ==> Lower(value)[i] == if Between(value[i], 'A', 'Z') then value[i] + 32 else value[i]
  {
  }

  // ---------- workflow ids ----------

  /** A session id that is not one is refused first, then a universe id that is not one; a slash joins the two. */
  lemma WorkflowIdForm(universeId: JsString, sessionId: JsString)
    ensures SessionWorkflowId(universeId, sessionId) ==
            if !IsSessionId(sessionId) then Err(InvalidSessionId)
            else if !IsUuid(universeId) then Err(InvalidUniverseId)
            else Ok(Lower(universeId) + ['/' as int] + sessionId)
  {
  }

  /** The error of an id that Rust refuses: its first fault, in this order. */
  lemma RefusedSessionId(value: Text)
    ensures ValidateSessionId(value).Ok? <==>
            && value != [] && |Encode(value)| <= 128
            && forall i :: 0 <= i < |value| ==>
                 var c := value[i];
                 || Between(c, 'A', 'Z') || Between(c, 'a', 'z') || Between(c, '0', '9')
                 || (i > 0 && (c == '_' as int || c == '-' as int || c == '.' as int || c == ':' as int))
    ensures ValidateSessionId(value) == Err(Empty) <==> value == []
    ensures ValidateSessionId(value).Err? && ValidateSessionId(value).error.TooLong? <==> |Encode(value)| > 128
    ensures ValidateSessionId(value) == Err(InvalidStart) <==>
            && 0 < |Encode(value)| <= 128
            && !(Between(value[0], 'A', 'Z') || Between(value[0], 'a', 'z') || Between(value[0], '0', '9'))
  {
    FirstInvalidIsFirst(value, 0);
  }

  // ---------- emission ids ----------

  /** Which inputs are taken, and otherwise the first of these faults. */
  lemma EmissionTaken(e: Emission)
    ensures match e
            case RunTerminal(universeId, sessionId, runId, token) =>
              IdOf(e).Err? <==> !IsSessionId(sessionId) || runId < 0 || runId > 9007199254740991 || token == [] || !IsUuid(universeId)
            case SourceResolution(universeId, producer, holder, promiseId) =>
              IdOf(e).Err? <==> producer == [] || holder == [] || promiseId == [] || !IsUuid(universeId)
            case InvocationCancellation(invocationId, completionKey) =>
              IdOf(e).Err? <==> !IsInvocationId(invocationId) || completionKey == []
            case ToolInvocation(invocationId) =>
              IdOf(e) == if IsInvocationId(invocationId) then Ok(Verbatim(invocationId)) else Err(InvalidInvocationId)
    ensures IdOf(e).Err? ==>
              match e
              case RunTerminal(universeId, sessionId, runId, token) =>
                IdOf(e).error == (if !IsSessionId(sessionId) then InvalidSessionId
                                  else if runId < 0 || runId > 9007199254740991 then NotSafeInteger
                                  else if token == [] then EmptyInput("token") else InvalidUniverseId)
              case SourceResolution(universeId, producer, holder, promiseId) =>
                IdOf(e).error == (if producer == [] then EmptyInput("producerWorkflowId")
                                  else if holder == [] then EmptyInput("holderWorkflowId")
                                  else if promiseId == [] then EmptyInput("promiseId") else InvalidUniverseId)
              case InvocationCancellation(invocationId, completionKey) =>
                IdOf(e).error == (if !IsInvocationId(invocationId) then InvalidInvocationId else EmptyInput("completionKey"))
              case _ => true
  {
    hide IsSessionId, IsUuid, IsInvocationId, Frame;
  }

  /** Everything hashed for an emission. */
  ghost function Written(e: Emission): seq<seq<nat>>
    requires !e.ToolInvocation? && (e.RunTerminal? ==> e.runId >= 0)
  {
    match e
    case RunTerminal(universeId, sessionId, runId, token) =>
      [Ascii("lightspeed.emission.v1"), Ascii("run_terminal"), Lower(universeId), sessionId, U64Be(runId), Utf8Of(token)]
    case SourceResolution(universeId, producer, holder, promiseId) =>
      [Ascii("lightspeed.emission.v1"), Ascii("source_resolution"), Lower(universeId),
       Utf8Of(producer), Utf8Of(holder), Utf8Of(promiseId)]
    case InvocationCancellation(invocationId, completionKey) =>
      [Ascii("lightspeed.emission.v1"), Ascii("invocation_cancellation"), invocationId, Utf8Of(completionKey)]
  }

  lemma RunTerminalWritten(e: Emission)
    requires e.RunTerminal? && Check(e).Ok?
    ensures HashedParts(e) == Written(e)
  {
    hide Ascii, Lower, Utf8Of, ToWellFormed, ToScalars, U64Be, IsSessionId, IsUuid, IsInvocationId;
    LowerIsAscii(e.universeId);
    SessionIdIsBytes(e.sessionId);
    AsciiIsUnchanged(EMISSION_HASH_DOMAIN);
    AsciiIsUnchanged(RUN_TERMINAL);
  }

  lemma SourceResolutionWritten(e: Emission)
    requires e.SourceResolution? && Check(e).Ok?
    ensures HashedParts(e) == Written(e)
  {
    hide Ascii, Lower, Utf8Of, ToWellFormed, ToScalars, U64Be, IsSessionId, IsUuid, IsInvocationId;
    LowerIsAscii(e.universeId);
    AsciiIsUnchanged(EMISSION_HASH_DOMAIN);
    AsciiIsUnchanged(SOURCE_RESOLUTION);
  }

  lemma InvocationCancellationWritten(e: Emission)
    requires e.InvocationCancellation? && Check(e).Ok?
    ensures HashedParts(e) == Written(e)
  {
    hide Ascii, Lower, Utf8Of, ToWellFormed, ToScalars, U64Be, IsSessionId, IsUuid, IsInvocationId;
    InvocationIdIsBytes(e.invocationId);
    AsciiIsUnchanged(EMISSION_HASH_DOMAIN);
    AsciiIsUnchanged(INVOCATION_CANCELLATION);
  }

  lemma AllWritten(e: Emission)
    requires Check(e).Ok? && !e.ToolInvocation?
    ensures (e.RunTerminal? ==> e.runId >= 0) && HashedParts(e) == Written(e)
  {
    match e
    case RunTerminal(_, _, _, _) => RunTerminalWritten(e);
    case SourceResolution(_, _, _, _) => SourceResolutionWritten(e);
    case InvocationCancellation(_, _) => InvocationCancellationWritten(e);
  }

  /**
   What is hashed reads back as the domain, the kind, and then the inputs in this order: the universe id in
   lower case, the run number in eight bytes, strings in UTF-8.
   */
  lemma HashedReadsBack(e: Emission)
    requires IdOf(e).Ok? && !e.ToolInvocation? && Short(HashedParts(e))
    ensures e.RunTerminal? ==> e.runId >= 0
    ensures IdOf(e).value.Hashed? && Unframe(IdOf(e).value.preimage) == Some(Written(e))
  {
    hide Written, HashedParts, Check, Unframe, Frame;
    AllWritten(e);
    FrameReadsBack(HashedParts(e));
  }

  lemma LowerIsAscii(universeId: JsString)
    requires IsUuid(universeId)
    ensures Utf8Of(Lower(universeId)) == Lower(universeId)
  {
    LowerIsUuid(universeId);
    AsciiIsUnchanged(Lower(universeId));
  }

  lemma SessionIdIsBytes(value: JsString)
    requires IsSessionId(value)
    ensures Utf8Of(value) == value
  {
    AsciiIsUnchanged(value);
  }

  lemma InvocationIdIsBytes(value: JsString)
    requires IsInvocationId(value)
    ensures Utf8Of(value) == value
  {
    assert forall i :: 0 <= i < 11 ==> value[i] == value[..11][i];
    AsciiIsUnchanged(value);
  }

  /** A queue is refused for its first fault, and is otherwise for the provider as it stands and these parts hashed. */
  lemma QueueReadsBack(universeId: JsString, provider: JsString, accountId: JsString)
    ensures QueueOf(universeId, provider, accountId).Err? <==> provider == [] || accountId == [] || !IsUuid(universeId)
    ensures QueueOf(universeId, provider, accountId).Err? ==>
              QueueOf(universeId, provider, accountId).error ==
              if provider == [] then EmptyInput("provider")
              else if accountId == [] then EmptyInput("accountId") else InvalidUniverseId
    ensures QueueOf(universeId, provider, accountId).Ok? && Short(QueueParts(universeId, provider, accountId)) ==>
              var queue := QueueOf(universeId, provider, accountId).value;
              && queue.provider == provider
              && Unframe(queue.preimage) == Some([Ascii("lightspeed.channels.delivery-queue.v1"), Lower(universeId),
                                                  Utf8Of(provider), Utf8Of(accountId)])
  {
    hide IsUuid, Frame, Unframe;
    if QueueOf(universeId, provider, accountId).Ok? && Short(QueueParts(universeId, provider, accountId)) {
      FrameReadsBack(QueueParts(universeId, provider, accountId));
      AsciiIsUnchanged(Ascii("lightspeed.channels.delivery-queue.v1"));
      LowerIsAscii(universeId);
    }
  }

  // ---------- bytes ----------

  /** The first of the eight bytes counts most. */
  lemma EightBytes(n: nat)
    requires n < U64_LIMIT
    ensures var b: seq<nat> := U64Be(n);
            n == ((((((b[0] * 256 + b[1]) * 256 + b[2]) * 256 + b[3]) * 256 + b[4]) * 256 + b[5]) * 256 + b[6]) * 256 + b[7]
  {
    var b := U64Be(n);
    U64RoundTrip(n, b);
    hide U64Be, BigEndianValue;
    NoBytesNoValue(b);
    ValueOfLast(b, 0);
    ValueOfLast(b, 1);
    ValueOfLast(b, 2);
    ValueOfLast(b, 3);
    ValueOfLast(b, 4);
    ValueOfLast(b, 5);
    ValueOfLast(b, 6);
    ValueOfLast(b, 7);
    assert b[..8] == b;
  }

  lemma NoBytesNoValue(bytes: seq<Byte>)
    ensures BigEndianValue(bytes[..0]) == 0
  {
  }

  lemma ValueOfLast(bytes: seq<Byte>, k: nat)
    requires k < |bytes|
    ensures var b: seq<nat> := bytes; BigEndianValue(bytes[..k + 1]) == BigEndianValue(bytes[..k]) * 256 + b[k]
  {
    assert bytes[..k + 1][..k] == bytes[..k];
  }

  /** The examples of section 7 of RFC 3629. */
  lemma EncodedExamples()
    ensures Encode([0x41, 0x2262, 0x391, 0x2E]) == [0x41, 0xE2, 0x89, 0xA2, 0xCE, 0x91, 0x2E]
  {
    assert [0x41, 0x2262, 0x391, 0x2E][1..] == [0x2262, 0x391, 0x2E];
    assert [0x2262, 0x391, 0x2E][1..] == [0x391, 0x2E] && [0x391, 0x2E][1..] == [0x2E] && [0x2E][1..] == [];
  }

  lemma EncodedWithMark()
    ensures Encode([0xFEFF, 0x233B4]) == [0xEF, 0xBB, 0xBF, 0xF0, 0xA3, 0x8E, 0xB4]
  {
    assert [0xFEFF, 0x233B4][1..] == [0x233B4] && [0x233B4][1..] == [];
  }

  /** A pair of surrogates is one character, and each of two that are no pair becomes the replacement character. */
  lemma SurrogateExamples()
    ensures Utf8Of([0xD84C, 0xDFB4]) == [0xF0, 0xA3, 0x8E, 0xB4]
    ensures Utf8Of([0xDFB4, 0xD84C]) == [0xEF, 0xBF, 0xBD, 0xEF, 0xBF, 0xBD]
  {
    assert ToScalars([0xD84C, 0xDFB4]) == [0x233B4] + ToScalars([]);
    assert [0xDFB4, 0xD84C][1..] == [0xD84C];
  }
}
