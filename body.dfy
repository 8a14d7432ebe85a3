/** The Fetch `Body` mixin as jsdom implements it: how a body value becomes a
    stream, what each consume target settles with, and the per-object state
    behind `body`, `bodyUsed` and the five reader methods. A promise is
    modelled by the value or the error it settles with. */
module FetchBody {
  import opened JsCommon

  // ---------------------------------------------------------------------------
  // Body values

  /** A Node `Buffer` or typed-array view: a window onto a backing buffer. */
  datatype RawView = RawView(backing: seq<Byte>, byteOffset: nat, byteLength: nat)

  type ByteView = v: RawView | v.byteOffset + v.byteLength <= |v.backing| witness RawView([], 0, 0)

  /** The bytes a view covers. */
  function ViewBytes(v: ByteView): (r: seq<Byte>)
    ensures |r| == v.byteLength
    ensures forall i :: 0 <= i < v.byteLength ==> r[i] == v.backing[v.byteOffset + i]
  {
    v.backing[v.byteOffset..v.byteOffset + v.byteLength]
  }

  /** What the `XMLHttpRequest` body extraction makes of any other value: an
      optional buffer, an optional form-data object and an optional content
      type, or an exception. */
  datatype Extraction =
    | Extracted(buffer: Option<seq<Byte>>, formData: Option<nat>, contentType: Option<string>)
    | ExtractionThrows(error: JsError)

  /** A body value. `Absent` is `null` (what `init.body || null` gives for
      every falsy value); a string is falsy when it is empty. `Other` is any
      other object, with what the extraction makes of it and, for a typed
      array, its `buffer`/`byteOffset`/`byteLength` view. */
  datatype BodyInit =
    | Absent
    | Text(s: string)
    | Buffer(view: ByteView)
    | StreamLike(id: nat)
    | Other(extraction: Extraction, arrayView: Option<ByteView>)

  /** Whether the value passes `if (bodyBuffer)`. */
  predicate IsTruthy(b: BodyInit) {
    !b.Absent? && !(b.Text? && b.s == "")
  }

  datatype Chunk = TextChunk(s: string) | BufferChunk(view: ByteView) | BytesChunk(bytes: seq<Byte>) | FormDataChunk(id: nat)

  /** `Readable.from(chunks)`, or a stream-like value passed through. */
  datatype Stream = FromChunks(chunks: seq<Chunk>) | Existing(id: nat)

  /** The `{stream, contentType}` record kept in `_typedStream`. */
  datatype TypedStream = TypedStream(stream: Stream, contentType: Option<string>)

  const UnsupportedBody := TypeError("Unsupported body type for stream")

  /** `createReadableStreamFromBody(bodyBuffer)`: a falsy value gives an empty
      stream, a string or Buffer a one-chunk stream and a stream-like value
      itself, all without a content type; anything else goes through the
      extraction, which must yield a buffer or form data. */
  function CreateReadableStreamFromBody(b: BodyInit): (r: Result<TypedStream, JsError>)
    ensures !IsTruthy(b) ==> r == Success(TypedStream(FromChunks([]), None))
    ensures IsTruthy(b) && b.Text? ==> r == Success(TypedStream(FromChunks([TextChunk(b.s)]), None))
    ensures b.Buffer? ==> r == Success(TypedStream(FromChunks([BufferChunk(b.view)]), None))
    ensures b.StreamLike? ==> r == Success(TypedStream(Existing(b.id), None))
    ensures r.Failure? ==> b.Other?
    ensures r.Success? && r.value.contentType.Some? ==> b.Other? && r.value.contentType.value != ""
    ensures b.Other? && b.extraction.Extracted? ==>
      (r.Success? <==> b.extraction.buffer.Some? || b.extraction.formData.Some?)
    ensures b.Other? && b.extraction.Extracted? && r.Failure? ==> r.error == UnsupportedBody
    ensures b.Other? && b.extraction.ExtractionThrows? ==> r == Failure(b.extraction.error)
  {
    if !IsTruthy(b) then Success(TypedStream(FromChunks([]), None))
    else if b.Text? then Success(TypedStream(FromChunks([TextChunk(b.s)]), None))
    else if b.Buffer? then Success(TypedStream(FromChunks([BufferChunk(b.view)]), None))
    else if b.StreamLike? then Success(TypedStream(Existing(b.id), None))
    else if b.extraction.ExtractionThrows? then Failure(b.extraction.error)
    else
      var x := b.extraction;
      if x.buffer.Some? || x.formData.Some? then
        var chunk := if x.buffer.Some? then BytesChunk(x.buffer.value) else FormDataChunk(x.formData.value);
        Success(TypedStream(FromChunks([chunk]), if x.contentType.Some? && x.contentType.value != "" then x.contentType else None))
      else Failure(UnsupportedBody)
  }

  // ---------------------------------------------------------------------------
  // consumeBody

  datatype Json = JsonNull | JsonValue(id: nat)

  /** What a reader method's promise fulfils with. */
  datatype Consumed =
    | TextResult(text: string)
    | JsonResult(json: Json)
    | ArrayBufferResult(bytes: seq<Byte>)
    | BlobResult(parts: seq<BodyInit>)

  /** The host operations `consumeBody` relies on: `toString()` of a body
      value that is not a string, `JSON.parse`, and whether the value the
      generated `Blob` module exports can be called with `new`. The other
      generated modules are only ever used through `create`/`createImpl`;
      when this one is too, `new Blob(…)` throws. */
  datatype Host = Host(stringify: BodyInit -> string, parseJson: string -> Result<Json, JsError>,
                       blobIsConstructor: bool)

  const NotImplemented := PlainError("Not implemented")
  const FormUrlEncodedType := "application/x-www-form-urlencoded"
  const MultipartFormType := "multipart/form-data"

  /** Reading `.toString` of `null`, `.slice` of an undefined `.buffer`, and
      calling the `parse` functions the two serializer modules do not export. */
  const ToStringOfNull := TypeError("Cannot read properties of null (reading 'toString')")
  const SliceOfUndefined := TypeError("Cannot read properties of undefined (reading 'slice')")
  const UrlEncodedParseMissing := TypeError("xWWWFormUrlEncoded.parse is not a function")
  const MultipartParseMissing := TypeError("MultipartForm.parse is not a function")
  const BlobNotConstructor := TypeError("Blob is not a constructor")

  function ToText(b: BodyInit, host: Host): string {
    if b.Text? then b.s else host.stringify(b)
  }

  /** `headers.get(name)` on headers kept under lower-case names. */
  function HeaderGet(headers: map<string, string>, name: string): Option<string> {
    if name in headers then Some(headers[name]) else None
  }

  /** The content type `formData()` routes on: the header, or the urlencoded
      type when it is absent or empty. */
  function FormDataContentType(headers: map<string, string>): string {
    OrElse(HeaderGet(headers, "content-type"), FormUrlEncodedType)
  }

  /** `consumeBody(bodyBuffer, type, headers)`, as the value or error its
      promise settles with (a synchronous throw inside it rejects the
      reader's promise all the same). */
  function ConsumeBody(b: BodyInit, target: string, headers: map<string, string>, host: Host)
    : (r: Result<Consumed, JsError>)
    ensures target == "text" ==> r.Success? && r.value.TextResult?
    ensures target == "text" && !IsTruthy(b) ==> r == Success(TextResult(""))
    ensures target == "json" && !IsTruthy(b) ==> r == Success(JsonResult(JsonNull))
    ensures target == "arraybuffer" && !IsTruthy(b) ==> r == Success(ArrayBufferResult([]))
    ensures target == "arraybuffer" && b.Buffer? ==> r == Success(ArrayBufferResult(ViewBytes(b.view)))
    ensures target == "blob" && host.blobIsConstructor ==> r == Success(BlobResult([b]))
    ensures target == "blob" && !host.blobIsConstructor ==> r == Failure(BlobNotConstructor)
    ensures target == "formdata" ==> r.Failure?
    ensures (target == "formdata" && !StartsWith(FormDataContentType(headers), FormUrlEncodedType)
             && !StartsWith(FormDataContentType(headers), MultipartFormType)) ==> r == Failure(NotImplemented)
    ensures target !in {"text", "json", "arraybuffer", "blob", "formdata"} ==> r == Failure(NotImplemented)
  {
    if target == "text" then
      Success(TextResult(if IsTruthy(b) then ToText(b, host) else ""))
    else if target == "json" then
      if IsTruthy(b) then
        var parsed := host.parseJson(ToText(b, host));
        if parsed.Success? then Success(JsonResult(parsed.value)) else Failure(parsed.error)
      else Success(JsonResult(JsonNull))
    else if target == "arraybuffer" then
      if !IsTruthy(b) then Success(ArrayBufferResult([]))
      else if b.Buffer? then Success(ArrayBufferResult(ViewBytes(b.view)))
      else if b.Other? && b.arrayView.Some? then Success(ArrayBufferResult(ViewBytes(b.arrayView.value)))
      else Failure(SliceOfUndefined)
    else if target == "blob" then
      if host.blobIsConstructor then Success(BlobResult([b])) else Failure(BlobNotConstructor)
    else if target == "formdata" then
      var contentType := FormDataContentType(headers);
      if StartsWith(contentType, FormUrlEncodedType) then
        Failure(if b.Absent? then ToStringOfNull else UrlEncodedParseMissing)
      else if StartsWith(contentType, MultipartFormType) then
        Failure(MultipartParseMissing)
      else Failure(NotImplemented)
    else Failure(NotImplemented)
  }

  /** The array buffer of a Buffer body is exactly the bytes its view covers. */
  lemma ArrayBufferIsViewSlice(b: BodyInit, headers: map<string, string>, host: Host)
    requires b.Buffer?
    ensures var r := ConsumeBody(b, "arraybuffer", headers, host);
      && r.Success?
      && |r.value.bytes| == b.view.byteLength
      && forall i :: 0 <= i < b.view.byteLength ==> r.value.bytes[i] == b.view.backing[b.view.byteOffset + i]
  {
  }

  /** `formData()` never fulfils: it rejects with a TypeError exactly when
      the content type routes to one of the two parsers, and as not
      implemented otherwise. */
  lemma FormDataAlwaysRejects(b: BodyInit, headers: map<string, string>, host: Host)
    ensures var r := ConsumeBody(b, "formdata", headers, host);
      && r.Failure?
      && (r.error.TypeError? <==>
            (StartsWith(FormDataContentType(headers), FormUrlEncodedType) || StartsWith(FormDataContentType(headers), MultipartFormType)))
      && (r.error.TypeError? || r.error == NotImplemented)
  {
  }

  /** Without a `content-type` header, `formData()` routes as urlencoded. */
  lemma FormDataDefaultsToUrlEncoded(b: BodyInit, headers: map<string, string>, host: Host)
    requires "content-type" !in headers
    ensures ConsumeBody(b, "formdata", headers, host)
      == Failure(if b.Absent? then ToStringOfNull else UrlEncodedParseMissing)
  {

  }

  // ---------------------------------------------------------------------------
  // The mixin's state

  /** `_bodyUsed`, `_bodyBuffer`, `_typedStream` and the headers `formData()`
      reads. */
  datatype BodyFields = BodyFields(
    bodyUsed: bool,
    bodyBuffer: BodyInit,
    typedStream: Option<TypedStream>,
    headers: map<string, string>)

  /** What the `body` getter returns. */
  datatype BodyView = NullBody | WrapperView(typed: TypedStream) | StreamView(stream: Stream)

  const AlreadyConsumed := TypeError("Body has already been consumed.")

  /** `_computeBodyStream()`: `null` once used, the memoised record if there
      is one, and otherwise a new record, kept. */
  function ComputeStep(s: BodyFields): (BodyFields, Result<Option<TypedStream>, JsError>) {
    if s.bodyUsed then (s, Success(None))
    else if s.typedStream.Some? then (s, Success(s.typedStream))
    else
      var created := CreateReadableStreamFromBody(s.bodyBuffer);
      if created.Failure? then (s, Failure(created.error))
      else (s.(typedStream := Some(created.value)), Success(Some(created.value)))
  }

  /** The `body` getter: the kept record itself if there is one, `null` once
      used, and otherwise the stream of a newly computed record. */
  function BodyStep(s: BodyFields): (BodyFields, Result<BodyView, JsError>) {
    if s.typedStream.Some? then (s, Success(WrapperView(s.typedStream.value)))
    else if s.bodyUsed then (s, Success(NullBody))
    else
      var computed := ComputeStep(s);
      if computed.1.Failure? then (computed.0, Failure(computed.1.error))
      else (computed.0, Success(if computed.1.value.Some? then StreamView(computed.1.value.value.stream) else NullBody))
  }

  /** `_consumeBody(type)`: a used body rejects; otherwise the flag is raised
      before the conversion, whatever the conversion then does. */
  function ConsumeStep(s: BodyFields, target: string, host: Host): (BodyFields, Result<Consumed, JsError>) {
    if s.bodyUsed then (s, Failure(AlreadyConsumed))
    else (s.(bodyUsed := true), ConsumeBody(s.bodyBuffer, target, s.headers, host))
  }

  /** An operation on a body object. */
  datatype Op = ReadBody | ComputeStream | Consume(target: string)

  function Step(s: BodyFields, op: Op, host: Host): BodyFields {
    match op
    case ReadBody => BodyStep(s).0
    case ComputeStream => ComputeStep(s).0
    case Consume(target) => ConsumeStep(s, target, host).0
  }

  /** The state after the operations, in order. */
  function Run(s: BodyFields, ops: seq<Op>, host: Host): BodyFields
    decreases |ops|
  {
    if ops == [] then s else Run(Step(s, ops[0], host), ops[1..], host)
  }

  /** No operation changes the body value or the headers, clears the used
      flag, or replaces a kept stream record. */
  lemma StepMonotone(s: BodyFields, op: Op, host: Host)
    ensures var t := Step(s, op, host);
      && t.bodyBuffer == s.bodyBuffer && t.headers == s.headers
      && (s.bodyUsed ==> t.bodyUsed)
      && (s.typedStream.Some? ==> t.typedStream == s.typedStream)
      && (s.bodyUsed && s.typedStream.None? ==> t.typedStream.None?)
  {
  }

  lemma {:induction false} RunMonotone(s: BodyFields, ops: seq<Op>, host: Host)
    ensures var t := Run(s, ops, host);
      && t.bodyBuffer == s.bodyBuffer && t.headers == s.headers
      && (s.bodyUsed ==> t.bodyUsed)
      && (s.typedStream.Some? ==> t.typedStream == s.typedStream)
      && (s.bodyUsed && s.typedStream.None? ==> t.typedStream.None?)
    decreases |ops|
  {
    if ops != [] {
      StepMonotone(s, ops[0], host);
      RunMonotone(Step(s, ops[0], host), ops[1..], host);
    }
  }

  /** The first consumption marks the body used, even when its conversion
      fails, and every later one, whatever its target and whatever happened
      in between, rejects without changing anything. */
  lemma ConsumeOnlyOnce(s: BodyFields, first: string, between: seq<Op>, later: string, host: Host)
    requires !s.bodyUsed
    ensures ConsumeStep(s, first, host).0.bodyUsed
    ensures var t := Run(ConsumeStep(s, first, host).0, between, host);
      ConsumeStep(t, later, host) == (t, Failure(AlreadyConsumed))
  {
    RunMonotone(ConsumeStep(s, first, host).0, between, host);
  }

  /** Once a stream record is kept, `_computeBodyStream()` returns it while
      unused and `body` returns it (the wrapper, not its stream) forever,
      consumption included. */
  lemma StreamIsMemoised(s: BodyFields, ops: seq<Op>, host: Host)
    requires s.typedStream.Some?
    ensures var t := Run(s, ops, host);
      && BodyStep(t) == (t, Success(WrapperView(s.typedStream.value)))
      && (!t.bodyUsed ==> ComputeStep(t) == (t, Success(s.typedStream)))
  {
    RunMonotone(s, ops, host);
  }

  /** The first `body` read returns the new record's stream; later reads
      return the record itself. */
  lemma BodyGetterStreamThenWrapper(s: BodyFields)
    requires !s.bodyUsed && s.typedStream.None? && CreateReadableStreamFromBody(s.bodyBuffer).Success?
    ensures var t := CreateReadableStreamFromBody(s.bodyBuffer).value;
      && BodyStep(s).1 == Success(StreamView(t.stream))
      && BodyStep(BodyStep(s).0).1 == Success(WrapperView(t))
  {
  }

  /** When `new Blob` throws, `blob()` still uses the body up: it rejects,
      and so does every later read. */
  lemma BlobFailureUsesBody(s: BodyFields, later: string, host: Host)
    requires !s.bodyUsed && !host.blobIsConstructor
    ensures var t := ConsumeStep(s, "blob", host);
      && t == (s.(bodyUsed := true), Failure(BlobNotConstructor))
      && ConsumeStep(t.0, later, host) == (t.0, Failure(AlreadyConsumed))
  {
  }

  /** A body used before any stream was computed reads as `null` from then on. */
  lemma UsedBeforeComputeIsNull(s: BodyFields, ops: seq<Op>, host: Host)
    requires s.bodyUsed && s.typedStream.None?
    ensures var t := Run(s, ops, host);
      BodyStep(t) == (t, Success(NullBody)) && ComputeStep(t) == (t, Success(None))
  {
    RunMonotone(s, ops, host);
  }

  class BodyState {
    var bodyUsed: bool
    var bodyBuffer: BodyInit
    var typedStream: Option<TypedStream>
    var headers: map<string, string>

    constructor (bodyBuffer: BodyInit, headers: map<string, string>)
      ensures State() == BodyFields(false, bodyBuffer, None, headers)
    {
      bodyUsed := false;
      this.bodyBuffer := bodyBuffer;
      typedStream := None;
      this.headers := headers;
    }

    function State(): BodyFields
      reads this
    {
      BodyFields(bodyUsed, bodyBuffer, typedStream, headers)
    }

    /** The `bodyUsed` getter. */
    function BodyUsed(): bool
      reads this
    {
      bodyUsed
    }

    /** `headers.set(name, value)`. */
    method SetHeader(name: string, value: string)
      modifies this`headers
      ensures headers == old(headers)[name := value]
    {
      headers := headers[name := value];
    }

    method ComputeBodyStream() returns (r: Result<Option<TypedStream>, JsError>)
      modifies this`typedStream
      ensures (State(), r) == ComputeStep(old(State()))
    {
      if bodyUsed {
        return Success(None);
      }
      if typedStream.Some? {
        return Success(typedStream);
      }
      var created := CreateReadableStreamFromBody(bodyBuffer);
      if created.Failure? {
        return Failure(created.error);
      }
      typedStream := Some(created.value);
      r := Success(typedStream);
    }

    /** The `body` getter. */
    method Body() returns (r: Result<BodyView, JsError>)
      modifies this`typedStream
      ensures (State(), r) == BodyStep(old(State()))
    {
      if typedStream.Some? {
        return Success(WrapperView(typedStream.value));
      }
      if bodyUsed {
        return Success(NullBody);
      }
      var computed := ComputeBodyStream();
      if computed.Failure? {
        return Failure(computed.error);
      }
      typedStream := computed.value;
      r := Success(if typedStream.Some? then StreamView(typedStream.value.stream) else NullBody);
    }

    method Consume(target: string, host: Host) returns (r: Result<Consumed, JsError>)
      modifies this`bodyUsed
      ensures (State(), r) == ConsumeStep(old(State()), target, host)
    {
      if bodyUsed {
        return Failure(AlreadyConsumed);
      }
      bodyUsed := true;
      r := ConsumeBody(bodyBuffer, target, headers, host);
    }

    method ArrayBuffer(host: Host) returns (r: Result<Consumed, JsError>)
      modifies this`bodyUsed
      ensures (State(), r) == ConsumeStep(old(State()), "arraybuffer", host)
    {
      r := Consume("arraybuffer", host);
    }

    method Blob(host: Host) returns (r: Result<Consumed, JsError>)
      modifies this`bodyUsed
      ensures (State(), r) == ConsumeStep(old(State()), "blob", host)
    {
      r := Consume("blob", host);
    }

    method FormData(host: Host) returns (r: Result<Consumed, JsError>)
      modifies this`bodyUsed
      ensures (State(), r) == ConsumeStep(old(State()), "formdata", host)
    {
      r := Consume("formdata", host);
    }

    method Json(host: Host) returns (r: Result<Consumed, JsError>)
      modifies this`bodyUsed
      ensures (State(), r) == ConsumeStep(old(State()), "json", host)
    {
      r := Consume("json", host);
    }

    method Text(host: Host) returns (r: Result<Consumed, JsError>)
      modifies this`bodyUsed
      ensures (State(), r) == ConsumeStep(old(State()), "text", host)
    {
      r := Consume("text", host);
    }
  }
}
