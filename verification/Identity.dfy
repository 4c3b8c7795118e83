/**
 Emission ids and connector task queues: what is hashed for them, and that nothing else is hashed to
 the same bytes.
 */
module Identity {
  import opened Wrappers
  import opened Utf8
  import opened JsText
  import opened Framing
  import opened WorkflowIds

  const EMISSION_HASH_DOMAIN := Ascii("lightspeed.emission.v1")
  const CONNECTOR_QUEUE_DOMAIN := Ascii("lightspeed.channels.delivery-queue.v1")
  const RUN_TERMINAL := Ascii("run_terminal")
  const SOURCE_RESOLUTION := Ascii("source_resolution")
  const INVOCATION_CANCELLATION := Ascii("invocation_cancellation")
  const INVOCATION_ID_PREFIX := Ascii("wti:sha256:")

  const MAX_SAFE_INTEGER := 0x1F_FFFF_FFFF_FFFF

  /** What an emission id is made from. */
  datatype Emission =
    | RunTerminal(universeId: JsString, sessionId: JsString, runId: int, token: JsString)
    | SourceResolution(universeId: JsString, producer: JsString, holder: JsString, promiseId: JsString)
    | InvocationCancellation(invocationId: JsString, completionKey: JsString)
    | ToolInvocation(invocationId: JsString)

  /** An id: the bytes whose digest it prints, or another id as it stands. */
  datatype EmissionId = Hashed(preimage: seq<Byte>) | Verbatim(id: JsString)

  predicate IsInvocationId(value: JsString) {
    && |value| == 75 && value[..11] == INVOCATION_ID_PREFIX
    && forall i :: 11 <= i < 75 ==> 0x30 <= value[i] <= 0x39 || 0x61 <= value[i] <= 0x66
  }

  /** The checks, in the order they are made. */
  function Check(e: Emission): Result<(), InputError> {
    match e
    case RunTerminal(universeId, sessionId, runId, token) =>
      if !IsSessionId(sessionId) then Err(InvalidSessionId)
      else if !(0 <= runId <= MAX_SAFE_INTEGER) then Err(NotSafeInteger)
      else if token == [] then Err(EmptyInput("token"))
      else if !IsUuid(universeId) then Err(InvalidUniverseId) else Ok(())
    case SourceResolution(universeId, producer, holder, promiseId) =>
      if producer == [] then Err(EmptyInput("producerWorkflowId"))
      else if holder == [] then Err(EmptyInput("holderWorkflowId"))
      else if promiseId == [] then Err(EmptyInput("promiseId"))
      else if !IsUuid(universeId) then Err(InvalidUniverseId) else Ok(())
    case InvocationCancellation(invocationId, completionKey) =>
      if !IsInvocationId(invocationId) then Err(InvalidInvocationId)
      else if completionKey == [] then Err(EmptyInput("completionKey")) else Ok(())
    case ToolInvocation(invocationId) =>
      if !IsInvocationId(invocationId) then Err(InvalidInvocationId) else Ok(())
  }

  function Kind(e: Emission): JsString
    requires !e.ToolInvocation?
  {
    match e
    case RunTerminal(_, _, _, _) => RUN_TERMINAL
    case SourceResolution(_, _, _, _) => SOURCE_RESOLUTION
    case InvocationCancellation(_, _) => INVOCATION_CANCELLATION
  }

  function Parts(e: Emission): seq<seq<Byte>>
    requires Check(e).Ok? && !e.ToolInvocation?
  {
    match e
    case RunTerminal(universeId, sessionId, runId, token) =>
      [Utf8Of(Lower(universeId)), Utf8Of(sessionId), U64Be(runId), Utf8Of(token)]
    case SourceResolution(universeId, producer, holder, promiseId) =>
      [Utf8Of(Lower(universeId)), Utf8Of(producer), Utf8Of(holder), Utf8Of(promiseId)]
    case InvocationCancellation(invocationId, completionKey) =>
      [Utf8Of(invocationId), Utf8Of(completionKey)]
  }

  /** Everything that is hashed for an emission id, part by part. */
  function HashedParts(e: Emission): seq<seq<Byte>>
    requires Check(e).Ok? && !e.ToolInvocation?
  {
    [Utf8Of(EMISSION_HASH_DOMAIN), Utf8Of(Kind(e))] + Parts(e)
  }

  function IdOf(e: Emission): Result<EmissionId, InputError> {
    if Check(e).Err? then Err(Check(e).error)
    else if e.ToolInvocation? then Ok(Verbatim(e.invocationId))
    else Ok(Hashed(Frame(HashedParts(e))))
  }

  method DerivedEmissionId(kind: JsString, parts: seq<seq<Byte>>) returns (id: EmissionId)
    ensures id == Hashed(Frame([Utf8Of(EMISSION_HASH_DOMAIN), Utf8Of(kind)] + parts))
  {
    var digest := new Sha256();
    Absorb(digest, [Utf8Of(EMISSION_HASH_DOMAIN), Utf8Of(kind)] + parts);
    id := Hashed(digest.absorbed);
  }

  method MakeEmissionId(e: Emission) returns (id: Result<EmissionId, InputError>)
    ensures id == IdOf(e)
  {
    var checked := Check(e);
    if checked.Err? {
      return Err(checked.error);
    }
    if e.ToolInvocation? {
      return Ok(Verbatim(e.invocationId));
    }
    var hashed := DerivedEmissionId(Kind(e), Parts(e));
    id := Ok(hashed);
  }

  /** The same emission with its universe id in lower case and no lone surrogate in any string. */
  function Normal(e: Emission): Emission {
    match e
    case RunTerminal(universeId, sessionId, runId, token) =>
      RunTerminal(Lower(universeId), sessionId, runId, ToWellFormed(token))
    case SourceResolution(universeId, producer, holder, promiseId) =>
      SourceResolution(Lower(universeId), ToWellFormed(producer), ToWellFormed(holder), ToWellFormed(promiseId))
    case InvocationCancellation(invocationId, completionKey) =>
      InvocationCancellation(invocationId, ToWellFormed(completionKey))
    case ToolInvocation(invocationId) => e
  }

  lemma UuidIsAscii(u: JsString)
    requires IsUuid(u)
    ensures IsAscii(Lower(u)) && ToWellFormed(Lower(u)) == Lower(u)
  {
    LowerIsUuid(u);
    AsciiIsUnchanged(Lower(u));
  }

  lemma InvocationIdIsAscii(value: JsString)
    requires IsInvocationId(value)
    ensures ToWellFormed(value) == value
  {
    assert forall i :: 0 <= i < 11 ==> value[i] == value[..11][i];
    AsciiIsUnchanged(value);
  }

  lemma SessionIdIsAscii(value: JsString)
    requires IsSessionId(value)
    ensures ToWellFormed(value) == value
  {
    AsciiIsUnchanged(value);
  }

  predicate SameKind(a: Emission, b: Emission) {
    && (a.RunTerminal? <==> b.RunTerminal?) && (a.SourceResolution? <==> b.SourceResolution?)
    && (a.InvocationCancellation? <==> b.InvocationCancellation?)
  }

  lemma KindLength(e: Emission)
    requires !e.ToolInvocation?
    ensures |Utf8Of(Kind(e))| == if e.RunTerminal? then 12 else if e.SourceResolution? then 17 else 23
  {
    AsciiIsUnchanged(Kind(e));
  }

  lemma KindsDiffer(a: Emission, b: Emission)
    requires !a.ToolInvocation? && !b.ToolInvocation?
    ensures Utf8Of(Kind(a)) == Utf8Of(Kind(b)) <==> SameKind(a, b)
  {
    KindLength(a);
    KindLength(b);
  }

  lemma RunNumbersAgree(a: nat, b: nat)
    requires a <= MAX_SAFE_INTEGER && b <= MAX_SAFE_INTEGER
    ensures U64Be(a) == U64Be(b) <==> a == b
  {
    U64RoundTrip(a, U64Be(a));
    U64RoundTrip(b, U64Be(b));
  }

  lemma PartsAgree(a: Emission, b: Emission)
    requires Check(a).Ok? && Check(b).Ok? && !a.ToolInvocation? && !b.ToolInvocation?
    requires SameKind(a, b)
    ensures Parts(a) == Parts(b) <==> Normal(a) == Normal(b)
  {
    match a
    case RunTerminal(universeId, sessionId, runId, token) =>
      UuidIsAscii(universeId);
      UuidIsAscii(b.universeId);
      SessionIdIsAscii(sessionId);
      SessionIdIsAscii(b.sessionId);
      Utf8Agrees(Lower(universeId), Lower(b.universeId));
      Utf8Agrees(sessionId, b.sessionId);
      RunNumbersAgree(runId, b.runId);
      Utf8Agrees(token, b.token);
      FourAgree(Parts(a), Parts(b));
    case SourceResolution(universeId, producer, holder, promiseId) =>
      UuidIsAscii(universeId);
      UuidIsAscii(b.universeId);
      Utf8Agrees(Lower(universeId), Lower(b.universeId));
      Utf8Agrees(producer, b.producer);
      Utf8Agrees(holder, b.holder);
      Utf8Agrees(promiseId, b.promiseId);
      FourAgree(Parts(a), Parts(b));
    case InvocationCancellation(invocationId, completionKey) =>
      InvocationIdIsAscii(invocationId);
      InvocationIdIsAscii(b.invocationId);
      Utf8Agrees(invocationId, b.invocationId);
      Utf8Agrees(completionKey, b.completionKey);
      assert Parts(a) == Parts(b) <==> Parts(a)[0] == Parts(b)[0] && Parts(a)[1] == Parts(b)[1];
  }

  lemma FourAgree(a: seq<seq<Byte>>, b: seq<seq<Byte>>)
    requires |a| == 4 && |b| == 4
    ensures a == b <==> a[0] == b[0] && a[1] == b[1] && a[2] == b[2] && a[3] == b[3]
  {
  }

  lemma HashedPartsAgree(a: Emission, b: Emission)
    requires Check(a).Ok? && Check(b).Ok? && !a.ToolInvocation? && !b.ToolInvocation?
    ensures HashedParts(a) == HashedParts(b) <==> SameKind(a, b) && Parts(a) == Parts(b)
  {
    KindsDiffer(a, b);
    var x, y := HashedParts(a), HashedParts(b);
    assert x[1] == Utf8Of(Kind(a)) && y[1] == Utf8Of(Kind(b));
    assert x[2..] == Parts(a) && y[2..] == Parts(b);
  }

  lemma NormalKeepsKind(e: Emission)
    ensures SameKind(e, Normal(e))
  {
  }

  /**
   Two hashed emission ids, of any kinds, have the same bytes under the digest exactly when they are of
   the same kind with the same inputs, up to the case of the universe id and to lone surrogates.
   */
  lemma EmissionIdsAgreeExactlyWhen(a: Emission, b: Emission)
    requires Check(a).Ok? && Check(b).Ok? && !a.ToolInvocation? && !b.ToolInvocation?
    requires Short(HashedParts(a)) && Short(HashedParts(b))
    ensures IdOf(a) == IdOf(b) <==> Normal(a) == Normal(b)
  {
    FrameInjective(HashedParts(a), HashedParts(b));
    HashedPartsAgree(a, b);
    NormalKeepsKind(a);
    NormalKeepsKind(b);
    hide Check, Parts, HashedParts, Normal, Frame;
    if SameKind(a, b) {
      PartsAgree(a, b);
    }
  }

  /** Strings in good form are only changed in the case of the universe id. */
  lemma NormalOfWellFormed(e: Emission)
    requires e.RunTerminal? ==> WellFormed(e.token)
    requires e.SourceResolution? ==> WellFormed(e.producer) && WellFormed(e.holder) && WellFormed(e.promiseId)
    requires e.InvocationCancellation? ==> WellFormed(e.completionKey)
    ensures Normal(e) == match e
                         case RunTerminal(universeId, _, _, _) => e.(universeId := Lower(universeId))
                         case SourceResolution(universeId, _, _, _) => e.(universeId := Lower(universeId))
                         case _ => e
  {
    match e
    case RunTerminal(_, _, _, token) => WellFormedIsUnchanged(token);
    case SourceResolution(_, producer, holder, promiseId) =>
      WellFormedIsUnchanged(producer);
      WellFormedIsUnchanged(holder);
      WellFormedIsUnchanged(promiseId);
    case InvocationCancellation(_, completionKey) => WellFormedIsUnchanged(completionKey);
    case ToolInvocation(_) =>
  }

  /** Two completion keys, each one lone surrogate, that give one cancellation id. */
  lemma LoneSurrogatesCollide(invocationId: JsString)
    requires IsInvocationId(invocationId)
    ensures IdOf(InvocationCancellation(invocationId, [0xD800])) == IdOf(InvocationCancellation(invocationId, [0xDFFF]))
  {
    assert ToScalars([0xD800]) == [REPLACEMENT] + ToScalars([]) == ToScalars([0xDFFF]);
  }

  // ---------- connector task queues ----------

  datatype TaskQueue = TaskQueue(provider: JsString, preimage: seq<Byte>)

  function QueueParts(universeId: JsString, provider: JsString, accountId: JsString): seq<seq<Byte>> {
    [Utf8Of(CONNECTOR_QUEUE_DOMAIN), Utf8Of(Lower(universeId)), Utf8Of(provider), Utf8Of(accountId)]
  }

  function QueueOf(universeId: JsString, provider: JsString, accountId: JsString): Result<TaskQueue, InputError> {
    if provider == [] then Err(EmptyInput("provider"))
    else if accountId == [] then Err(EmptyInput("accountId"))
    else if !IsUuid(universeId) then Err(InvalidUniverseId)
    else Ok(TaskQueue(provider, Frame(QueueParts(universeId, provider, accountId))))
  }

  method ConnectorTaskQueue(universeId: JsString, provider: JsString, accountId: JsString)
    returns (queue: Result<TaskQueue, InputError>)
    ensures queue == QueueOf(universeId, provider, accountId)
  {
    if provider == [] {
      return Err(EmptyInput("provider"));
    }
    if accountId == [] {
      return Err(EmptyInput("accountId"));
    }
    var digest := new Sha256();
    var universe := NormalizeUniverseId(universeId);
    if universe.Err? {
      return Err(universe.error);
    }
    Absorb(digest, [Utf8Of(CONNECTOR_QUEUE_DOMAIN), Utf8Of(universe.value), Utf8Of(provider), Utf8Of(accountId)]);
    queue := Ok(TaskQueue(provider, digest.absorbed));
  }

  /** Two accounts share the digest of their queue exactly when universe, provider and account are the same. */
  lemma QueuesAgreeExactlyWhen(u1: JsString, p1: JsString, a1: JsString, u2: JsString, p2: JsString, a2: JsString)
    requires QueueOf(u1, p1, a1).Ok? && QueueOf(u2, p2, a2).Ok?
    requires Short(QueueParts(u1, p1, a1)) && Short(QueueParts(u2, p2, a2))
    ensures QueueOf(u1, p1, a1).value.preimage == QueueOf(u2, p2, a2).value.preimage <==>
            && Lower(u1) == Lower(u2) && ToWellFormed(p1) == ToWellFormed(p2) && ToWellFormed(a1) == ToWellFormed(a2)
  {
    FrameInjective(QueueParts(u1, p1, a1), QueueParts(u2, p2, a2));
    FourAgree(QueueParts(u1, p1, a1), QueueParts(u2, p2, a2));
    UuidIsAscii(u1);
    UuidIsAscii(u2);
    Utf8Agrees(Lower(u1), Lower(u2));
    Utf8Agrees(p1, p2);
    Utf8Agrees(a1, a2);
  }

  lemma DomainsDiffer()
    ensures Utf8Of(EMISSION_HASH_DOMAIN) != Utf8Of(CONNECTOR_QUEUE_DOMAIN)
  {
    AsciiIsUnchanged(EMISSION_HASH_DOMAIN);
    AsciiIsUnchanged(CONNECTOR_QUEUE_DOMAIN);
    assert |EMISSION_HASH_DOMAIN| == 22 && |CONNECTOR_QUEUE_DOMAIN| == 37;
  }

  /** The domains keep the two families apart. */
  lemma DomainsSeparate(e: Emission, universeId: JsString, provider: JsString, accountId: JsString)
    requires Check(e).Ok? && !e.ToolInvocation? && QueueOf(universeId, provider, accountId).Ok?
    requires Short(HashedParts(e)) && Short(QueueParts(universeId, provider, accountId))
    ensures IdOf(e).value.preimage != QueueOf(universeId, provider, accountId).value.preimage
  {
    FrameInjective(HashedParts(e), QueueParts(universeId, provider, accountId));
    DomainsDiffer();
    assert HashedParts(e)[0] == Utf8Of(EMISSION_HASH_DOMAIN);
  }
}
