/** `parse_request`: the credential walk among the other checks, and what the checks together
    guarantee about the deliveries that can reach the submitter. */
module RequestParser {
  import opened Wrappers
  import opened Domain
  import opened World
  import opened Watcher
  import opened Admission
  import opened Runs
  import opened Json
  import opened Credentials

  datatype Schema = Schema(request: Request, operationType: OperationType)

  /** `loads` decodes JSON text, `schema` is the closed request schema; None stands for their errors. */
  datatype Parser = Parser(loads: string -> Option<Json>, schema: Json -> Option<Schema>, checker: Checker)

  const PROTOCOL_PROFILE := Str("tributo-generic-v1")
  const PROTOCOL_VERSION := Str("1.0")

  function CheckSchema(p: Parser, value: Json, outerId: string, expected: OperationType): Parsed {
    match p.schema(value)
    case None => ProtocolFailure("INVALID_REQUEST")
    case Some(Schema(request, operationType)) =>
      if request.operationId != outerId then ProtocolFailure("IDENTITY_MISMATCH")
      else if operationType != expected then ProtocolFailure("OPERATION_CHANNEL_MISMATCH")
      else ParsedRequest(request)
  }

  function Parse(p: Parser, raw: string, outerId: string, expected: OperationType): Parsed {
    match p.loads(raw)
    case None => ProtocolFailure("INVALID_JSON")
    case Some(value) =>
      if !value.Object? then ProtocolFailure("INVALID_REQUEST")
      else if Get(value.fields, "protocol_profile") != PROTOCOL_PROFILE
          then ProtocolFailure("UNSUPPORTED_PROTOCOL_PROFILE")
      else if Get(value.fields, "protocol_version") != PROTOCOL_VERSION
          then ProtocolFailure("UNSUPPORTED_PROTOCOL_VERSION")
      else if FirstPath(p.checker, Get(value.fields, "spec"), "spec").Some? then ProtocolFailure("PLAINTEXT_CREDENTIAL")
      else CheckSchema(p, value, outerId, expected)
  }

  /** The text is an object of the supported profile and version. */
  predicate Recognised(p: Parser, raw: string) {
    && p.loads(raw).Some? && p.loads(raw).value.Object?
    && Get(p.loads(raw).value.fields, "protocol_profile") == PROTOCOL_PROFILE
    && Get(p.loads(raw).value.fields, "protocol_version") == PROTOCOL_VERSION
  }

  /** Some position of the spec offends. */
  ghost predicate Leaks(p: Parser, raw: string)
    requires Recognised(p, raw)
  {
    exists pos :: Offends(p.checker, Get(p.loads(raw).value.fields, "spec"), pos)
  }

  /** A text is refused as leaking if and only if it is recognised and leaks, whatever the schema would
      say of it. */
  lemma RefusedExactlyWhenLeaking(p: Parser, raw: string, outerId: string, expected: OperationType)
    ensures Parse(p, raw, outerId, expected) == ProtocolFailure("PLAINTEXT_CREDENTIAL") <==>
            Recognised(p, raw) && Leaks(p, raw)
  {
    if Recognised(p, raw) {
      FirstPathIsFirstOffence(p.checker, Get(p.loads(raw).value.fields, "spec"));
    }
  }

  /** The fields of the text, if it is a JSON object. */
  function FieldsOf(p: Parser, raw: string): Option<seq<Field>> {
    if p.loads(raw).Some? && p.loads(raw).value.Object? then Some(p.loads(raw).value.fields) else None
  }

  /** The text is recognised, spelled out, and no position of its spec offends. */
  ghost predicate IsClean(p: Parser, raw: string) {
    && FieldsOf(p, raw).Some?
    && Get(FieldsOf(p, raw).value, "protocol_profile") == Str("tributo-generic-v1")
    && Get(FieldsOf(p, raw).value, "protocol_version") == Str("1.0")
    && forall pos :: !Offends(p.checker, Get(FieldsOf(p, raw).value, "spec"), pos)
  }

  /** Every refusal but the leaking one, exactly: the first check that fails decides the code. */
  lemma RefusalsAreExact(p: Parser, raw: string, outerId: string, expected: OperationType)
    ensures var out := Parse(p, raw, outerId, expected);
            var fields := FieldsOf(p, raw);
            && (out == ProtocolFailure("INVALID_JSON") <==> p.loads(raw).None?)
            && (out == ProtocolFailure("UNSUPPORTED_PROTOCOL_PROFILE") <==>
                  fields.Some? && Get(fields.value, "protocol_profile") != Str("tributo-generic-v1"))
            && (out == ProtocolFailure("UNSUPPORTED_PROTOCOL_VERSION") <==>
                  && fields.Some? && Get(fields.value, "protocol_profile") == Str("tributo-generic-v1")
                  && Get(fields.value, "protocol_version") != Str("1.0"))
    ensures var out := Parse(p, raw, outerId, expected);
            && (out == ProtocolFailure("INVALID_REQUEST") <==>
                  && p.loads(raw).Some?
                  && (FieldsOf(p, raw).None? || (IsClean(p, raw) && p.schema(p.loads(raw).value).None?)))
            && (IsClean(p, raw) && p.schema(p.loads(raw).value).Some? ==>
                  var Schema(request, operationType) := p.schema(p.loads(raw).value).value;
                  out == if request.operationId != outerId then ProtocolFailure("IDENTITY_MISMATCH")
                         else if operationType != expected then ProtocolFailure("OPERATION_CHANNEL_MISMATCH")
                         else ParsedRequest(request))
    ensures Parse(p, raw, outerId, expected) in
              {ProtocolFailure("IDENTITY_MISMATCH"), ProtocolFailure("OPERATION_CHANNEL_MISMATCH")} ==>
              IsClean(p, raw) && p.schema(p.loads(raw).value).Some?
  {
    assert "UNSUPPORTED_PROTOCOL_PROFILE"[21] == 'P' && "UNSUPPORTED_PROTOCOL_VERSION"[21] == 'V';
    if Recognised(p, raw) {
      FirstPathIsFirstOffence(p.checker, Get(p.loads(raw).value.fields, "spec"));
    }
  }

  /** A request is accepted if and only if it is recognised, no position of its spec offends, and the
      schema yields the identity and type of the envelope. */
  lemma AcceptedExactlyWhenCleanAndAligned(p: Parser, raw: string, outerId: string, expected: OperationType, r: Request)
    ensures Parse(p, raw, outerId, expected) == ParsedRequest(r) <==>
            && Recognised(p, raw) && !Leaks(p, raw)
            && p.schema(p.loads(raw).value) == Some(Schema(r, expected)) && r.operationId == outerId
  {
    if Recognised(p, raw) {
      FirstPathIsFirstOffence(p.checker, Get(p.loads(raw).value.fields, "spec"));
    }
  }

  /** The provider's parser is this one. */
  ghost predicate ParsesWith(cfg: Config, p: Parser) {
    forall raw, id, t :: cfg.parser(raw, id, t) == Parse(p, raw, id, t)
  }

  /** The parser keeps the promise that admission relies on. */
  lemma ParserIsAligned(cfg: Config, p: Parser)
    requires ParsesWith(cfg, p)
    ensures Aligned(cfg)
  {
    forall raw, id, t | cfg.parser(raw, id, t).ParsedRequest? ensures cfg.parser(raw, id, t).request.operationId == id {
      AcceptedExactlyWhenCleanAndAligned(p, raw, id, t, cfg.parser(raw, id, t).request);
    }
  }

  /** A delivery whose text leaks a credential never reaches the submitter, whatever else is wrong with
      it, whatever raises and whatever the other threads do; it is acknowledged or stays pending. */
  lemma LeakedCredentialNeverReachesSubmitter(cfg: Config, p: Parser, s: Sys, m: Message, t: HandleScript)
    requires ParsesWith(cfg, p)
    requires m.raw.Some? ==> Recognised(p, m.raw.value) && Leaks(p, m.raw.value)
    ensures NoSubmitSince(s, Handle(cfg, s, m, t).0) && !Handle(cfg, s, m, t).1.Escaped?
  {
    if m.raw.Some? {
      RefusedExactlyWhenLeaking(p, m.raw.value, m.outerId, m.delivery.operationType);
    }
    assert Validate(cfg, m).Bad?;
    if m.outerId == "" {
      InvalidAnswersNothing(cfg, s, m, "INVALID_OPERATION_ID", t);
    } else {
      var (s1, stopped) := Gate(cfg, s, m, t);
      GateAnswersNothing(cfg, s, m, t);
      InvalidAnswersNothing(cfg, s1, m, Validate(cfg, m).code, t);
      UnansweredIsTransitive(s, s1, Invalid(cfg, s1, m, Validate(cfg, m).code, t).0);
    }
  }
}
