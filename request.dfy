/** The `Request` constructor and `clone()`: how the input and the init
    dictionary become the request's URL, method, headers, mode, referrer and
    defaults, in the order the constructor evaluates them (and so with the
    error it throws first), and how the body value is set up. URL parsing
    against the document's base URL is a parameter. */
module FetchRequest {
  import opened JsCommon
  import opened FetchBody

  /** The first constructor argument: a string, a `URL` object (by its
      `href`), an object with a `url` property (a request), or anything
      else. */
  datatype RequestInput =
    | UrlString(s: string)
    | UrlObject(href: string)
    | RequestLike(url: string, httpMethod: string, headers: map<string, string>)
    | OtherInput

  /** `init.referrer`: absent (`undefined` or another falsy non-string), a
      string, or a truthy non-string. */
  datatype ReferrerInit = ReferrerAbsent | ReferrerString(s: string) | ReferrerObject

  /** The init dictionary; `None` is an absent member. */
  datatype RequestInit = RequestInit(
    httpMethod: Option<string>,
    headers: Option<map<string, string>>,
    mode: Option<string>,
    referrer: ReferrerInit,
    credentials: Option<string>,
    cache: Option<string>,
    redirect: Option<string>,
    integrity: Option<string>,
    keepalive: bool,
    signal: Option<nat>,
    referrerPolicy: Option<string>,
    body: BodyInit)

  /** `{}`. */
  const EmptyInit := RequestInit(None, None, None, ReferrerAbsent, None, None, None, None, false, None, None, Absent)

  datatype ParsedUrl = ParsedUrl(href: string, protocol: string, pathname: string)

  /** The document's serialized base URL and `new URL(input, base)`. */
  datatype RequestEnv = RequestEnv(baseUrl: string, parseUrl: (string, string) -> Result<ParsedUrl, JsError>)

  /** The request's own fields; the body fields and the headers are kept by
      the body state. */
  datatype RequestFields = RequestFields(
    url: string,
    httpMethod: string,
    mode: string,
    referrer: string,
    credentials: string,
    cache: string,
    redirect: string,
    integrity: string,
    keepalive: bool,
    signal: Option<nat>,
    destination: string,
    referrerPolicy: string,
    origin: string)

  datatype RequestRecord = RequestRecord(fields: RequestFields, body: BodyFields)

  const InvalidInput := TypeError("Invalid input for Request")
  const NavigateUnsupported := TypeError("Navigate mode is not supported in fetch API")
  const ContentTypeOfUndefined := TypeError("Cannot read properties of undefined (reading 'contentType')")
  const BodyAlreadyUsed := TypeError("Body has already been used")

  /** The constructor as written, or with the two corrections listed under
      README "Findings". */
  datatype Variant = AsWritten | Corrected

  datatype Target = Target(url: string, httpMethod: string, headers: map<string, string>)

  /** The URL, method and headers taken from the input and `init`. */
  function InputStep(input: RequestInput, init: RequestInit, env: RequestEnv): Result<Target, JsError> {
    if input.UrlString? || input.UrlObject? then
      var parsed := env.parseUrl(if input.UrlString? then input.s else input.href, env.baseUrl);
      if parsed.Failure? then Failure(parsed.error)
      else Success(Target(parsed.value.href, ToUpper(OrElse(init.httpMethod, "GET")),
                          if init.headers.Some? then init.headers.value else map[]))
    else if input.RequestLike? && input.url != "" then
      Success(Target(input.url,
                     if init.httpMethod.Some? && init.httpMethod.value != "" then ToUpper(init.httpMethod.value) else input.httpMethod,
                     if init.headers.Some? then init.headers.value else input.headers))
    else Failure(InvalidInput)
  }

  /** Whether `if (init.referrer)` passes. */
  predicate ReferrerTruthy(r: ReferrerInit) {
    r.ReferrerObject? || (r.ReferrerString? && r.s != "")
  }

  /** The referrer: the given string, or `"client"`; a given value is then
      checked, an empty string becoming `"no-referrer"` and a URL whose
      protocol is `about:` and path `client` becoming `"client"`. As written
      the check runs only for a truthy value, so the empty string never
      reaches it; corrected, it runs whenever a value was given. */
  function ReferrerStep(init: RequestInit, env: RequestEnv, variant: Variant): Result<string, JsError> {
    var referrer := if init.referrer.ReferrerString? then init.referrer.s else "client";
    var checked := if variant == AsWritten then ReferrerTruthy(init.referrer) else !init.referrer.ReferrerAbsent?;
    if !checked then Success(referrer)
    else if |referrer| == 0 then Success("no-referrer")
    else
      var parsed := env.parseUrl(referrer, env.baseUrl);
      if parsed.Failure? then Failure(parsed.error)
      else if parsed.value.protocol == "about:" && parsed.value.pathname == "client" then Success("client")
      else Success(referrer)
  }

  /** The fields after the mode check, with the defaults filled in. */
  function FieldsOf(target: Target, mode: string, referrer: string, init: RequestInit): RequestFields {
    RequestFields(
      target.url, target.httpMethod, mode, referrer,
      OrElse(init.credentials, "same-origin"),
      OrElse(init.cache, "default"),
      OrElse(init.redirect, "follow"),
      OrElse(init.integrity, ""),
      init.keepalive,
      init.signal,
      "",
      OrElse(init.referrerPolicy, ""),
      "client")
  }

  /** `init.body || null`. */
  function NormalizeBody(b: BodyInit): BodyInit {
    if IsTruthy(b) then b else Absent
  }

  /** Without a `content-type` header, the stream record's content type, if
      truthy, becomes the header. As written a missing record throws when it
      is read; corrected, a missing record leaves the headers alone. */
  function ContentTypeStep(s: BodyFields, variant: Variant): Result<BodyFields, JsError> {
    if "content-type" in s.headers then Success(s)
    else if s.typedStream.None? then
      if variant == AsWritten then Failure(ContentTypeOfUndefined) else Success(s)
    else
      var contentType := s.typedStream.value.contentType;
      if contentType.Some? && contentType.value != "" then Success(s.(headers := s.headers["content-type" := contentType.value]))
      else Success(s)
  }

  /** The body fields: unused, the normalised body value, its stream record
      computed when the value is truthy, then the content-type step. */
  function BodySetup(b: BodyInit, headers: map<string, string>, variant: Variant): Result<BodyFields, JsError> {
    var initial := BodyFields(false, NormalizeBody(b), None, headers);
    if IsTruthy(b) then
      var computed := ComputeStep(initial);
      if computed.1.Failure? then Failure(computed.1.error) else ContentTypeStep(computed.0, variant)
    else ContentTypeStep(initial, variant)
  }

  /** `new Request(input, init)`: the record it constructs, or the first
      error it throws. */
  function Construct(input: RequestInput, init: RequestInit, env: RequestEnv, variant: Variant): Result<RequestRecord, JsError> {
    var target := InputStep(input, init, env);
    if target.Failure? then Failure(target.error)
    else
      var referrer := ReferrerStep(init, env, variant);
      if referrer.Failure? then Failure(referrer.error)
      else
        var mode := OrElse(init.mode, "no-cors");
        if mode == "navigate" then Failure(NavigateUnsupported)
        else
          var body := BodySetup(init.body, target.value.headers, variant);
          if body.Failure? then Failure(body.error)
          else Success(RequestRecord(FieldsOf(target.value, mode, referrer.value, init), body.value))
  }

  /** The constructor the rest of the model uses. */
  function RequestSpec(input: RequestInput, init: RequestInit, env: RequestEnv): Result<RequestRecord, JsError> {
    Construct(input, init, env, Corrected)
  }

  /** `clone()`: a used body throws; otherwise a new request from this one
      (its URL, method and headers) and an empty init. */
  function CloneSpec(r: RequestRecord, env: RequestEnv, variant: Variant): Result<RequestRecord, JsError> {
    if r.body.bodyUsed then Failure(BodyAlreadyUsed)
    else Construct(RequestLike(r.fields.url, r.fields.httpMethod, r.body.headers), EmptyInit, env, variant)
  }

  // ---------------------------------------------------------------------------
  // Properties

  /** Only strings, URLs and objects with a non-empty `url` are accepted. */
  lemma InvalidInputRejects(input: RequestInput, init: RequestInit, env: RequestEnv, variant: Variant)
    requires input.OtherInput? || (input.RequestLike? && input.url == "")
    ensures Construct(input, init, env, variant) == Failure(InvalidInput)
  {
  }

  /** For a string or URL input the method is `init.httpMethod` or `GET`,
      upper-cased; for a request input without `init.httpMethod` it is the
      input's method, unchanged. */
  lemma MethodNormalized(input: RequestInput, init: RequestInit, env: RequestEnv, variant: Variant)
    requires Construct(input, init, env, variant).Success?
    ensures var m := Construct(input, init, env, variant).value.fields.httpMethod;
      && (!input.RequestLike? ==> m == ToUpper(OrElse(init.httpMethod, "GET")) && NoLowerAscii(m))
      && (input.RequestLike? && (init.httpMethod.None? || init.httpMethod.value == "") ==> m == input.httpMethod)
      && (init.httpMethod.Some? && init.httpMethod.value != "" ==> m == ToUpper(init.httpMethod.value))
  {
    ToUpperNoLower(OrElse(init.httpMethod, "GET"));
  }

  /** `navigate` mode always throws, so no constructed request has it; the
      other fields carry the given values or their defaults. */
  lemma NavigateModeRejects(input: RequestInput, init: RequestInit, env: RequestEnv, variant: Variant)
    requires init.mode == Some("navigate")
    ensures Construct(input, init, env, variant).Failure?
  {
  }

  lemma ConstructedDefaults(input: RequestInput, init: RequestInit, env: RequestEnv, variant: Variant)
    requires Construct(input, init, env, variant).Success?
    ensures var f := Construct(input, init, env, variant).value.fields;
      && f.mode != "navigate"
      && (init.mode.None? ==> f.mode == "no-cors")
      && (init.credentials.None? ==> f.credentials == "same-origin")
      && (init.cache.None? ==> f.cache == "default")
      && (init.redirect.None? ==> f.redirect == "follow")
      && (init.integrity.None? ==> f.integrity == "")
      && (init.referrerPolicy.None? ==> f.referrerPolicy == "")
      && f.keepalive == init.keepalive && f.signal == init.signal
      && f.destination == "" && f.origin == "client"
  {
  }

  /** A referrer is `"client"`, `"no-referrer"` or the given string, and a
      given string that parses to `about:client` becomes `"client"`. */
  lemma ReferrerOutcome(init: RequestInit, env: RequestEnv, variant: Variant)
    requires ReferrerStep(init, env, variant).Success?
    ensures var r := ReferrerStep(init, env, variant).value;
      r == "client" || r == "no-referrer" || (init.referrer.ReferrerString? && r == init.referrer.s)
    ensures init.referrer.ReferrerAbsent? ==> ReferrerStep(init, env, variant) == Success("client")
  {
  }

  lemma AboutClientResets(init: RequestInit, env: RequestEnv, variant: Variant)
    requires init.referrer.ReferrerString? && init.referrer.s != ""
    requires env.parseUrl(init.referrer.s, env.baseUrl).Success?
    requires env.parseUrl(init.referrer.s, env.baseUrl).value.protocol == "about:"
    requires env.parseUrl(init.referrer.s, env.baseUrl).value.pathname == "client"
    ensures ReferrerStep(init, env, variant) == Success("client")
  {
  }

  /** As written, an empty referrer string is kept as is, and the
      `"no-referrer"` branch is dead: that value comes only from the string
      `"no-referrer"` itself. */
  lemma EmptyReferrerAsWritten(init: RequestInit, env: RequestEnv)
    requires init.referrer == ReferrerString("")
    ensures ReferrerStep(init, env, AsWritten) == Success("")
  {
  }

  lemma NoReferrerOnlyVerbatimAsWritten(init: RequestInit, env: RequestEnv)
    requires ReferrerStep(init, env, AsWritten) == Success("no-referrer")
    ensures init.referrer == ReferrerString("no-referrer")
  {
  }

  /** Corrected, an empty referrer string becomes `"no-referrer"`. */
  lemma EmptyReferrerIsNoReferrer(init: RequestInit, env: RequestEnv)
    requires init.referrer == ReferrerString("")
    ensures ReferrerStep(init, env, Corrected) == Success("no-referrer")
  {
  }

  /** As written, a request without a body and without a `content-type`
      header throws once every earlier step has passed. */
  lemma BodilessRequestThrowsAsWritten(input: RequestInput, init: RequestInit, env: RequestEnv)
    requires InputStep(input, init, env).Success? && "content-type" !in InputStep(input, init, env).value.headers
    requires ReferrerStep(init, env, AsWritten).Success?
    requires OrElse(init.mode, "no-cors") != "navigate"
    requires !IsTruthy(init.body)
    ensures Construct(input, init, env, AsWritten) == Failure(ContentTypeOfUndefined)
  {
  }

  /** Corrected, such a request is constructed, with an unused null body, no
      stream record and the headers it was given. */
  lemma BodilessRequestSucceeds(input: RequestInput, init: RequestInit, env: RequestEnv)
    requires InputStep(input, init, env).Success?
    requires ReferrerStep(init, env, Corrected).Success?
    requires OrElse(init.mode, "no-cors") != "navigate"
    requires !IsTruthy(init.body)
    ensures RequestSpec(input, init, env).Success?
    ensures RequestSpec(input, init, env).value.body == BodyFields(false, Absent, None, InputStep(input, init, env).value.headers)
  {
  }

  /** Outside the two corrected cases the corrected constructor is the
      constructor as written. */
  lemma CorrectionsAreConservative(input: RequestInput, init: RequestInit, env: RequestEnv)
    requires init.referrer != ReferrerString("")
    requires InputStep(input, init, env).Success? ==>
      IsTruthy(init.body) || "content-type" in InputStep(input, init, env).value.headers
    ensures Construct(input, init, env, AsWritten) == RequestSpec(input, init, env)
  {
    assert ReferrerStep(init, env, AsWritten) == ReferrerStep(init, env, Corrected);
    var target := InputStep(input, init, env);
    if target.Success? && IsTruthy(init.body) {
      var initial := BodyFields(false, NormalizeBody(init.body), None, target.value.headers);
      var computed := ComputeStep(initial);
      if computed.1.Success? {
        assert computed.0.typedStream.Some?;
        assert ContentTypeStep(computed.0, AsWritten) == ContentTypeStep(computed.0, Corrected);
      }
    }
  }

  /** A truthy body has its stream record computed at construction; the
      record's content type becomes the `content-type` header exactly when
      there was none and the type is not empty, and nothing else changes in
      the headers. */
  lemma BodyRecordAndContentType(input: RequestInput, init: RequestInit, env: RequestEnv)
    requires RequestSpec(input, init, env).Success?
    requires IsTruthy(init.body)
    ensures var b := RequestSpec(input, init, env).value.body;
      var h := InputStep(input, init, env).value.headers;
      var typed := CreateReadableStreamFromBody(init.body).value;
      && !b.bodyUsed && b.bodyBuffer == init.body
      && b.typedStream == Some(typed)
      && b.headers == (if "content-type" !in h && typed.contentType.Some?
                       then h["content-type" := typed.contentType.value] else h)
  {
    var typed := CreateReadableStreamFromBody(init.body);
    assert typed.Success?;
  }

  /** A clone keeps the URL, method and headers, and has an unused null body,
      mode `no-cors` and referrer `client`, whatever the original had. */
  lemma CloneCopiesTarget(r: RequestRecord, env: RequestEnv)
    requires !r.body.bodyUsed && r.fields.url != ""
    ensures CloneSpec(r, env, Corrected).Success?
    ensures var c := CloneSpec(r, env, Corrected).value;
      && c.fields.url == r.fields.url && c.fields.httpMethod == r.fields.httpMethod
      && c.body == BodyFields(false, Absent, None, r.body.headers)
      && c.fields.mode == "no-cors" && c.fields.referrer == "client"
  {
  }

  lemma UsedBodyCannotBeCloned(r: RequestRecord, env: RequestEnv, variant: Variant)
    requires r.body.bodyUsed
    ensures CloneSpec(r, env, variant) == Failure(BodyAlreadyUsed)
  {
  }

  /** As written, cloning a request without a `content-type` header throws,
      since the clone never has a body. */
  lemma CloneWithoutContentTypeThrowsAsWritten(r: RequestRecord, env: RequestEnv)
    requires !r.body.bodyUsed && r.fields.url != "" && "content-type" !in r.body.headers
    ensures CloneSpec(r, env, AsWritten) == Failure(ContentTypeOfUndefined)
  {
  }

  class Request {
    const fields: RequestFields
    /** The Body mixin's fields and the headers. */
    const body: BodyState

    constructor (fields: RequestFields, body: BodyState)
      ensures this.fields == fields && this.body == body
    {
      this.fields := fields;
      this.body := body;
    }

    function Record(): RequestRecord
      reads this, body
    {
      RequestRecord(fields, body.State())
    }

    /** `new Request(input, init)`. */
    static method New(input: RequestInput, init: RequestInit, env: RequestEnv) returns (r: Result<Request, JsError>)
      ensures r.Success? <==> RequestSpec(input, init, env).Success?
      ensures r.Failure? ==> r.error == RequestSpec(input, init, env).error
      ensures r.Success? ==> fresh(r.value) && fresh(r.value.body) && r.value.Record() == RequestSpec(input, init, env).value
    {
      var target := InputStep(input, init, env);
      if target.Failure? {
        return Failure(target.error);
      }
      var referrer := ReferrerStep(init, env, Corrected);
      if referrer.Failure? {
        return Failure(referrer.error);
      }
      var mode := OrElse(init.mode, "no-cors");
      if mode == "navigate" {
        return Failure(NavigateUnsupported);
      }
      var state := new BodyState(NormalizeBody(init.body), target.value.headers);
      if IsTruthy(init.body) {
        var computed := state.ComputeBodyStream();
        if computed.Failure? {
          return Failure(computed.error);
        }
      }
      if "content-type" !in state.headers && state.typedStream.Some? {
        var contentType := state.typedStream.value.contentType;
        if contentType.Some? && contentType.value != "" {
          state.SetHeader("content-type", contentType.value);
        }
      }
      var request := new Request(FieldsOf(target.value, mode, referrer.value, init), state);
      r := Success(request);
    }

    /** `clone()`. */
    method Clone(env: RequestEnv) returns (r: Result<Request, JsError>)
      ensures r.Success? <==> CloneSpec(Record(), env, Corrected).Success?
      ensures r.Failure? ==> r.error == CloneSpec(Record(), env, Corrected).error
      ensures r.Success? ==> fresh(r.value) && fresh(r.value.body) && r.value.Record() == CloneSpec(Record(), env, Corrected).value
    {
      if body.bodyUsed {
        return Failure(BodyAlreadyUsed);
      }
      r := New(RequestLike(fields.url, fields.httpMethod, body.headers), EmptyInit, env);
    }
  }
}
