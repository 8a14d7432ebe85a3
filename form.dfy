/** Form submission as `HTMLFormElement` implements it: the `method` and
    `enctype` attribute getters, static constraint validation, entry-list
    construction under its re-entrancy guard, and `requestSubmit` with its two
    per-form flags, the method and scheme filters, the GET URL rewrite and the
    POST dispatch on the encoding type (sections 4.10.21.3 to 4.10.21.5 and
    4.10.20.2 of the HTML Standard, in the subset the source implements).

    Events, the DOM, the document's activity and navigation are outside the
    model: what event listeners decide is an input, and every event fired,
    message posted and navigation requested is appended to one effect log in
    the order the source produces it. */
module FormSubmission {
  import opened JsCommon
  import opened Entries
  import UrlEncoded
  import PlainText
  import MultipartForm

  // ---------------------------------------------------------------------------
  // `method` and `enctype` getters

  const Methods: set<string> := {"get", "post", "dialog"}

  const UrlEncodedType := "application/x-www-form-urlencoded"
  const MultipartType := "multipart/form-data"
  const TextPlainType := "text/plain"
  const EncTypes: set<string> := {UrlEncodedType, MultipartType, TextPlainType}

  /** The `method` getter: the lower-cased attribute when it names a known
      method, and `get` otherwise (also when the attribute is absent). */
  function NormalizeMethod(attr: Option<string>): (r: string)
    ensures r in Methods
    ensures attr.Some? && ToLower(attr.value) in Methods ==> r == ToLower(attr.value)
    ensures attr.None? || ToLower(attr.value) !in Methods ==> r == "get"
  {
    if attr.Some? && attr.value != "" && ToLower(attr.value) in Methods then ToLower(attr.value) else "get"
  }

  /** The `enctype` getter, likewise defaulting to the urlencoded type. */
  function NormalizeEnctype(attr: Option<string>): (r: string)
    ensures r in EncTypes
    ensures attr.Some? && ToLower(attr.value) in EncTypes ==> r == ToLower(attr.value)
    ensures attr.None? || ToLower(attr.value) !in EncTypes ==> r == UrlEncodedType
  {
    if attr.Some? && attr.value != "" && ToLower(attr.value) in EncTypes then ToLower(attr.value) else UrlEncodedType
  }

  /** Writing back what the getter returned changes nothing. */
  lemma NormalizeMethodIdempotent(attr: Option<string>)
    ensures NormalizeMethod(Some(NormalizeMethod(attr))) == NormalizeMethod(attr)
  {
    var m := NormalizeMethod(attr);
    if attr.Some? && ToLower(attr.value) in Methods {
      ToLowerNoUpper(attr.value);
    } else {
      GetIsLower();
    }
    ToLowerFixed(m);
  }

  lemma NormalizeEnctypeIdempotent(attr: Option<string>)
    ensures NormalizeEnctype(Some(NormalizeEnctype(attr))) == NormalizeEnctype(attr)
  {
    var t := NormalizeEnctype(attr);
    if attr.Some? && ToLower(attr.value) in EncTypes {
      ToLowerNoUpper(attr.value);
    } else {
      UrlEncodedTypeIsLower();
    }
    ToLowerFixed(t);
  }

  lemma GetIsLower() ensures NoUpperAscii("get") {}

  lemma UrlEncodedTypeIsLower() ensures NoUpperAscii(UrlEncodedType) {}

  lemma NormalizeMethodExamples()
    ensures NormalizeMethod(Some("POST")) == "post"
    ensures NormalizeMethod(Some("put")) == "get"
  {
    assert ToLower("POST") == "post";
    assert ToLower("put") == "put";
  }

  lemma NormalizeEnctypeExamples()
    ensures NormalizeEnctype(Some("Text/Plain")) == TextPlainType
    ensures NormalizeEnctype(None) == UrlEncodedType
  {
    assert ToLower("Text/Plain") == "text/plain";
  }

  // ---------------------------------------------------------------------------
  // `new Entry(name, value)`

  /** An `Entry` holds a string value; for any other value the constructor
      calls `notImplemented(…, this._ownerDocument._defaultView)` on the new
      object, which has no owner document, and so throws. */
  function NewEntry(name: string, value: EntryValue): (r: Result<Entry, JsError>)
    ensures r.Success? <==> value.Str?
    ensures r.Success? ==> r.value.name == name && r.value.value == value
    ensures r.Failure? ==> r.error == DefaultViewOfUndefined
  {
    if value.Str? then Success(Entry(name, value)) else Failure(DefaultViewOfUndefined)
  }

  // ---------------------------------------------------------------------------
  // Static constraint validation

  /** An element of the form's `elements` collection, with what the DOM would
      answer about it, and whether an `invalid` event fired at it would be
      left uncancelled by its listeners. */
  datatype Control = Control(
    id: nat,
    formIsThis: bool,
    submittable: bool,
    candidate: bool,
    satisfiesConstraints: bool,
    invalidNotCancelled: bool)

  predicate OwnedSubmittable(c: Control) { c.formIsThis && c.submittable }

  predicate FailsConstraints(c: Control) { c.candidate && !c.satisfiesConstraints }

  predicate OwnedAndFailing(c: Control) { OwnedSubmittable(c) && FailsConstraints(c) }

  predicate InvalidUnhandled(c: Control) { c.invalidNotCancelled }

  /** The controls at which `invalid` is fired: the owned, submittable
      candidates that do not satisfy their constraints, in tree order. */
  function InvalidControls(elements: seq<Control>): seq<Control> {
    Filter(Filter(elements, OwnedSubmittable), FailsConstraints)
  }

  datatype Validation = Positive | Negative(unhandled: seq<Control>)

  lemma InvalidControlsEmpty(elements: seq<Control>)
    ensures InvalidControls(elements) == [] <==> forall i :: 0 <= i < |elements| ==> !OwnedAndFailing(elements[i])
  {
    FilterTwice(elements, OwnedSubmittable, FailsConstraints, OwnedAndFailing);
    FilterEmpty(elements, OwnedAndFailing);
  }

  /** `_staticallyValidateConstraints()`: `fired` lists, in order, the
      controls an `invalid` event is fired at. */
  method StaticallyValidateConstraints(elements: seq<Control>) returns (result: Validation, fired: seq<Control>)
    ensures result.Positive? <==> forall i :: 0 <= i < |elements| ==> !OwnedAndFailing(elements[i])
    ensures fired == InvalidControls(elements)
    ensures result.Negative? ==> result.unhandled == Filter(fired, InvalidUnhandled)
  {
    var controls: seq<Control> := [];
    for i := 0 to |elements|
      invariant controls == Filter(elements[..i], OwnedSubmittable)
    {
      FilterSnoc(elements[..i], elements[i], OwnedSubmittable);
      assert elements[..i + 1] == elements[..i] + [elements[i]];
      if OwnedSubmittable(elements[i]) {
        controls := controls + [elements[i]];
      }
    }
    assert elements[..|elements|] == elements;

    var invalidControls: seq<Control> := [];
    for i := 0 to |controls|
      invariant invalidControls == Filter(controls[..i], FailsConstraints)
    {
      FilterSnoc(controls[..i], controls[i], FailsConstraints);
      assert controls[..i + 1] == controls[..i] + [controls[i]];
      if FailsConstraints(controls[i]) {
        invalidControls := invalidControls + [controls[i]];
      }
    }
    assert controls[..|controls|] == controls;
    assert invalidControls == InvalidControls(elements);
    InvalidControlsEmpty(elements);

    if |invalidControls| == 0 {
      return Positive, [];
    }

    var unhandled: seq<Control> := [];
    fired := [];
    for i := 0 to |invalidControls|
      invariant fired == invalidControls[..i]
      invariant unhandled == Filter(fired, InvalidUnhandled)
    {
      FilterSnoc(fired, invalidControls[i], InvalidUnhandled);
      fired := fired + [invalidControls[i]];
      assert invalidControls[..i + 1] == invalidControls[..i] + [invalidControls[i]];
      if invalidControls[i].invalidNotCancelled {
        unhandled := unhandled + [invalidControls[i]];
      }
    }
    assert invalidControls[..|invalidControls|] == invalidControls;
    result := Negative(unhandled);
  }

  // ---------------------------------------------------------------------------
  // Effects, state and inputs of a submission

  /** The other element a submission was requested with. */
  datatype Submitter = Submitter(isSubmitButton: bool, formIsThis: bool, formMethod: string)

  datatype Body = NoBody | TextBody(text: string) | BytesBody(bytes: seq<Byte>)

  /** `_plannedNavigation`. */
  datatype PlannedNavigation = PlannedNavigation(url: string, target: string, httpMethod: string, encoding: string, body: Body)

  /** A recorded `navigate(window, url, {}, {target, method, encoding, body, headers})`
      call; `headers` is absent for GET. */
  datatype Navigation = Navigation(planned: PlannedNavigation, headers: Option<map<string, string>>)

  datatype Effect =
    | InvalidFired(control: nat)
    | SubmitFired
    | FormDataFired
    | Notice(message: string)
    | Navigated(navigation: Navigation)

  /** The part of the form that submission changes. */
  datatype FormState = FormState(
    constructing: bool,
    firing: bool,
    planned: Option<PlannedNavigation>,
    log: seq<Effect>)

  /** The part of the form that submission only reads. `action` is the value
      of the `action` getter (its URL parsing is not part of this model). */
  datatype FormAttrs = FormAttrs(
    methodAttr: Option<string>,
    enctypeAttr: Option<string>,
    noValidate: bool,
    action: string,
    elements: seq<Control>)

  /** What the world outside the form answers during one submission: whether
      the document is fully active at the two points the source asks, whether
      the `submit` event is left uncancelled, the character encoding, the
      entries `FormData` collects, and the external multipart encoder. */
  datatype Env = Env(
    activeAtStart: bool,
    activeAfterEntryList: bool,
    submitNotCancelled: bool,
    encoding: string,
    formData: seq<Entry>,
    encoder: seq<(string, EntryValue)> -> MultipartForm.Encoded)

  datatype Completion = Normal | Throw(error: JsError)

  const NotSubmitButton := TypeError("The specified element is not a submit button")
  const NotOwned := DomException("NotFoundError", "The specified element is not owned by this form element")
  const NotConstructed := DomException("InvalidStateError",
    "Failed to execute 'requestSubmit' on 'HTMLFormElement': The form data set could not be constructed.")
  const MethodNotice := "HTMLFormElement.prototype.requestSubmit: method must be GET or POST"
  const SchemeNotice := "HTMLFormElement.prototype.requestSubmit: only http and https schemes are supported"
  const SubmitNotice := "HTMLFormElement.prototype.requestSubmit"
  const NoDataNotice := "HTMLFormElement._submitAsEntityBody: no data to submit"
  const MultipartFailedNotice := "HTMLFormElement._submitAsEntityBody: multipart/form-data serialization failed: "

  function UnsupportedEnctypeNotice(enctype: string): string {
    "HTMLFormElement._submitAsEntityBody: enctype " + enctype + " is not supported"
  }

  function Log(s: FormState, e: Effect): FormState {
    s.(log := s.log + [e])
  }

  function InvalidEvents(controls: seq<Control>): (r: seq<Effect>)
    ensures |r| == |controls|
    ensures forall i :: 0 <= i < |controls| ==> r[i] == InvalidFired(controls[i].id)
  {
    if controls == [] then [] else [InvalidFired(controls[0].id)] + InvalidEvents(controls[1..])
  }

  // ---------------------------------------------------------------------------
  // Pure pieces of the decision

  /** `_constructEntryList`: `null` while already constructing, else a copy
      of the collected entries after firing `formdata`; the flag is raised
      only for the duration of the event. */
  function ConstructEntryListSpec(s: FormState, formData: seq<Entry>): (FormState, Option<seq<Entry>>) {
    if s.constructing then (s, None) else (Log(s, FormDataFired), Some(formData))
  }

  /** `submitter?.formMethod || this.method`, `GET` if empty, upper-cased. */
  function SubmissionMethod(submitter: Option<Submitter>, methodAttr: Option<string>): string {
    var m := OrElse(if submitter.Some? then Some(submitter.value.formMethod) else None, NormalizeMethod(methodAttr));
    ToUpper(if m == "" then "GET" else m)
  }

  /** `action.split(":")[0].toLowerCase()`. */
  function Scheme(action: string): string {
    ToLower(Before(action, ':'))
  }

  predicate SchemeSupported(action: string) {
    Scheme(action) == "http" || Scheme(action) == "https"
  }

  /** The GET URL: the action up to its first `?`, then `?` and the query
      when the query is not empty. */
  function GetUrl(action: string, query: string): string {
    (if '?' in action then Before(action, '?') else action) + (if query != "" then "?" + query else "")
  }

  /** `_navigate(headers)`: `Content-Type` becomes the encoding type unless
      either spelling of the key already holds a non-empty value. */
  function WithContentType(headers: map<string, string>, enctype: string): (r: map<string, string>)
    ensures r.Keys == headers.Keys + (if HasContentType(headers) then {} else {"Content-Type"})
    ensures HasContentType(headers) ==> r == headers
    ensures !HasContentType(headers) ==> r["Content-Type"] == enctype
    ensures forall k :: k in headers && k != "Content-Type" ==> r[k] == headers[k]
  {
    if HasContentType(headers) then headers else headers["Content-Type" := enctype]
  }

  predicate HasContentType(headers: map<string, string>) {
    ("content-type" in headers && headers["content-type"] != "")
    || ("Content-Type" in headers && headers["Content-Type"] != "")
  }

  /** After `_navigate`, the headers always carry a content type. */
  lemma ContentTypeAlwaysPresent(headers: map<string, string>, enctype: string)
    requires enctype != ""
    ensures HasContentType(WithContentType(headers, enctype))
  {
  }

  /** `_mutateActionURL`: serialize the entries as the query, rewrite the
      action and navigate without a body or headers. */
  function MutateActionURLSpec(s: FormState, action: string, entries: seq<Entry>, target: string,
                               httpMethod: string, encoding: string): (FormState, Completion)
  {
    var query := UrlEncoded.Serialize(entries, encoding);
    if query.Failure? then (s, Throw(query.error))
    else
      var p := PlannedNavigation(GetUrl(action, query.value), target, httpMethod, encoding, NoBody);
      (Log(s.(planned := Some(p)), Navigated(Navigation(p, None))), Normal)
  }

  /** Planning a navigation with a body and handing it to `_navigate`. */
  function NavigateWithBody(s: FormState, p: PlannedNavigation, headers: map<string, string>, enctype: string): FormState {
    Log(s.(planned := Some(p)), Navigated(Navigation(p, Some(WithContentType(headers, enctype)))))
  }

  /** The multipart result as the promise settles: `MultipartForm.Serialize`
      succeeds exactly on all-string lists, with the encoder's headers and
      the concatenation of its chunks. */
  function MultipartOutcome(entries: seq<Entry>, encoder: seq<(string, EntryValue)> -> MultipartForm.Encoded)
    : Result<MultipartForm.Serialized, JsError>
  {
    if AllStrings(entries) then
      var encoded := encoder(MultipartForm.EntryPairs(entries));
      Success(MultipartForm.Serialized(encoded.headers, Concat(encoded.chunks)))
    else Failure(DefaultViewOfUndefined)
  }

  /** `_submitAsEntityBody`, up to its return. For `multipart/form-data` the
      returned option holds the settled serialization, which the caller
      applies once the synchronous part of `requestSubmit` is over. */
  function SubmitAsEntityBodySpec(s: FormState, action: string, enctype: string, entries: seq<Entry>,
                                  target: string, httpMethod: string, encoding: string,
                                  encoder: seq<(string, EntryValue)> -> MultipartForm.Encoded)
    : (FormState, Completion, Option<Result<MultipartForm.Serialized, JsError>>)
  {
    if enctype == UrlEncodedType then
      var q := UrlEncoded.Serialize(entries, encoding);
      if q.Failure? then (s, Throw(q.error), None)
      else if q.value != "" then
        (NavigateWithBody(s, PlannedNavigation(action, target, httpMethod, encoding, TextBody(q.value)), map[], enctype), Normal, None)
      else (Log(s, Notice(NoDataNotice)), Normal, None)
    else if enctype == MultipartType then
      (s, Normal, Some(MultipartOutcome(entries, encoder)))
    else if enctype == TextPlainType then
      var t := PlainText.Serialize(entries, encoding);
      if t.Failure? then (s, Throw(t.error), None)
      else if t.value != "" then
        (NavigateWithBody(s, PlannedNavigation(action, target, httpMethod, encoding, TextBody(t.value)), map[], enctype), Normal, None)
      else (Log(s, Notice(NoDataNotice)), Normal, None)
    else (Log(s, Notice(UnsupportedEnctypeNotice(enctype))), Normal, None)
  }

  /** The `then` and `catch` callbacks of the multipart branch. */
  function SettleMultipartSpec(s: FormState, action: string, enctype: string, target: string, httpMethod: string,
                               encoding: string, settled: Result<MultipartForm.Serialized, JsError>): FormState
  {
    if settled.Success? then
      NavigateWithBody(s, PlannedNavigation(action, target, httpMethod, encoding, BytesBody(settled.value.buffer)),
                       settled.value.headers, enctype)
    else Log(s, Notice(MultipartFailedNotice + settled.error.message))
  }

  /** `requestSubmit(submitter, fromSubmit)` on a form whose changing part
      is `s`, with everything after the final `notImplemented` call (the
      settling of a multipart body) applied at the end. */
  function RequestSubmitSpec(s: FormState, a: FormAttrs, submitter: Option<Submitter>, fromSubmit: bool, env: Env)
    : (FormState, Completion)
  {
    if submitter.Some? && !submitter.value.isSubmitButton then (s, Throw(NotSubmitButton))
    else if submitter.Some? && !submitter.value.formIsThis then (s, Throw(NotOwned))
    else if !env.activeAtStart || s.constructing then (s, Normal)
    else if !fromSubmit && s.firing then (s, Normal)
    else ValidateAndSubmitSpec(if fromSubmit then s else s.(firing := true), a, submitter, env)
  }

  /** Once the guards let the call through: validation unless `novalidate`,
      the `submit` event, entry-list construction and the dispatch. */
  function ValidateAndSubmitSpec(s: FormState, a: FormAttrs, submitter: Option<Submitter>, env: Env)
    : (FormState, Completion)
  {
    var invalid := InvalidControls(a.elements);
    if !a.noValidate && invalid != [] then (s.(firing := false, log := s.log + InvalidEvents(invalid)), Normal)
    else SubmitSpec(s, a, submitter, env)
  }

  /** The `submit` event, then (unless it was cancelled) entry-list
      construction and the dispatch. */
  function SubmitSpec(s: FormState, a: FormAttrs, submitter: Option<Submitter>, env: Env): (FormState, Completion) {
    var s2 := Log(s, SubmitFired);
    if !env.submitNotCancelled then (s2, Normal)
    else
      var built := ConstructEntryListSpec(s2.(firing := false), env.formData);
      if built.1.None? then (built.0, Throw(NotConstructed))
      else DispatchSpec(built.0, a, submitter, env, built.1.value)
  }

  /** The rest of `requestSubmit` once the entry list is built: the second
      activity check, the method and scheme filters, and the dispatch. */
  function DispatchSpec(s: FormState, a: FormAttrs, submitter: Option<Submitter>, env: Env, entryList: seq<Entry>)
    : (FormState, Completion)
  {
    if !env.activeAfterEntryList then (s, Normal)
    else
      var httpMethod := SubmissionMethod(submitter, a.methodAttr);
      if httpMethod != "GET" && httpMethod != "POST" then (Log(s, Notice(MethodNotice)), Normal)
      else if !SchemeSupported(a.action) then (Log(s, Notice(SchemeNotice)), Normal)
      else if httpMethod == "GET" then GetSpec(s, a, env, entryList)
      else PostSpec(s, a, env, entryList)
  }

  /** The GET branch and the closing `notImplemented` notice. */
  function GetSpec(s: FormState, a: FormAttrs, env: Env, entryList: seq<Entry>): (FormState, Completion) {
    var got := MutateActionURLSpec(s, a.action, entryList, "_self", "GET", env.encoding);
    if got.1.Throw? then got else (Log(got.0, Notice(SubmitNotice)), Normal)
  }

  /** The POST branch, the closing `notImplemented` notice, and the settling
      of a multipart body after it. */
  function PostSpec(s: FormState, a: FormAttrs, env: Env, entryList: seq<Entry>): (FormState, Completion) {
    var enctype := NormalizeEnctype(a.enctypeAttr);
    var posted := SubmitAsEntityBodySpec(s, a.action, enctype, entryList, "_self", "POST", env.encoding, env.encoder);
    if posted.1.Throw? then (posted.0, posted.1)
    else
      var s4 := Log(posted.0, Notice(SubmitNotice));
      if posted.2.Some? then
        (SettleMultipartSpec(s4, a.action, enctype, "_self", "POST", env.encoding, posted.2.value), Normal)
      else (s4, Normal)
  }

  // ---------------------------------------------------------------------------
  // The form element

  class Form {
    var methodAttr: Option<string>
    var enctypeAttr: Option<string>
    var noValidate: bool
    var action: string
    var elements: seq<Control>

    var constructingEntryList: bool
    var firingSubmissionEvents: bool
    var plannedNavigation: Option<PlannedNavigation>
    var log: seq<Effect>

    constructor (methodAttr: Option<string>, enctypeAttr: Option<string>, noValidate: bool, action: string,
                 elements: seq<Control>)
      ensures Attrs() == FormAttrs(methodAttr, enctypeAttr, noValidate, action, elements)
      ensures State() == FormState(false, false, None, [])
    {
      this.methodAttr := methodAttr;
      this.enctypeAttr := enctypeAttr;
      this.noValidate := noValidate;
      this.action := action;
      this.elements := elements;
      constructingEntryList := false;
      firingSubmissionEvents := false;
      plannedNavigation := None;
      log := [];
    }

    function State(): FormState
      reads this
    {
      FormState(constructingEntryList, firingSubmissionEvents, plannedNavigation, log)
    }

    function Attrs(): FormAttrs
      reads this
    {
      FormAttrs(methodAttr, enctypeAttr, noValidate, action, elements)
    }

    /** The `method` getter. */
    function Method(): string
      reads this
    {
      NormalizeMethod(methodAttr)
    }

    /** The `enctype` getter. */
    function Enctype(): string
      reads this
    {
      NormalizeEnctype(enctypeAttr)
    }

    method ConstructEntryList(formData: seq<Entry>) returns (entryList: Option<seq<Entry>>)
      modifies this`constructingEntryList, this`log
      ensures (State(), entryList) == ConstructEntryListSpec(old(State()), formData)
    {
      if constructingEntryList {
        return None;
      }
      constructingEntryList := true;
      log := log + [FormDataFired];
      constructingEntryList := false;
      entryList := Some(formData);
    }

    method MutateActionURL(entryList: seq<Entry>, target: string, httpMethod: string, encoding: string)
      returns (c: Completion)
      modifies this`plannedNavigation, this`log
      ensures (State(), c) == MutateActionURLSpec(old(State()), action, entryList, target, httpMethod, encoding)
    {
      var queryString := UrlEncoded.Serialize(entryList, encoding);
      if queryString.Failure? {
        return Throw(queryString.error);
      }
      var actionURL := action;
      if '?' in actionURL {
        actionURL := Before(actionURL, '?');
      }
      if queryString.value != "" {
        actionURL := actionURL + "?" + queryString.value;
      }
      assert actionURL == GetUrl(action, queryString.value);
      plannedNavigation := Some(PlannedNavigation(actionURL, target, httpMethod, encoding, NoBody));
      log := log + [Navigated(Navigation(plannedNavigation.value, None))];
      c := Normal;
    }

    /** The inner `_navigate(headers)` function. */
    method NavigatePlanned(headers: map<string, string>)
      requires plannedNavigation.Some?
      modifies this`log
      ensures log == old(log) + [Navigated(Navigation(plannedNavigation.value, Some(WithContentType(headers, Enctype()))))]
    {
      var h := headers;
      if !HasContentType(h) {
        h := h["Content-Type" := Enctype()];
      }
      log := log + [Navigated(Navigation(plannedNavigation.value, Some(h)))];
    }

    method SubmitAsEntityBody(entryList: seq<Entry>, target: string, httpMethod: string, encoding: string,
                              encoder: seq<(string, EntryValue)> -> MultipartForm.Encoded)
      returns (c: Completion, pending: Option<Result<MultipartForm.Serialized, JsError>>)
      modifies this`plannedNavigation, this`log
      ensures (State(), c, pending)
        == SubmitAsEntityBodySpec(old(State()), action, Enctype(), entryList, target, httpMethod, encoding, encoder)
    {
      pending := None;
      c := Normal;
      var enctype := Enctype();
      if enctype == UrlEncodedType {
        var queryString := UrlEncoded.Serialize(entryList, encoding);
        if queryString.Failure? {
          return Throw(queryString.error), None;
        }
        if queryString.value != "" {
          plannedNavigation := Some(PlannedNavigation(action, target, httpMethod, encoding, TextBody(queryString.value)));
          NavigatePlanned(map[]);
        } else {
          log := log + [Notice(NoDataNotice)];
        }
      } else if enctype == MultipartType {
        var formBody := MultipartForm.Serialize(entryList, encoding, encoder);
        pending := Some(formBody);
      } else if enctype == TextPlainType {
        var textBody := PlainText.Serialize(entryList, encoding);
        if textBody.Failure? {
          return Throw(textBody.error), None;
        }
        if textBody.value != "" {
          plannedNavigation := Some(PlannedNavigation(action, target, httpMethod, encoding, TextBody(textBody.value)));
          NavigatePlanned(map[]);
        } else {
          log := log + [Notice(NoDataNotice)];
        }
      } else {
        log := log + [Notice(UnsupportedEnctypeNotice(enctype))];
      }
    }

    method SettleMultipart(settled: Result<MultipartForm.Serialized, JsError>, target: string, httpMethod: string,
                           encoding: string)
      modifies this`plannedNavigation, this`log
      ensures State() == SettleMultipartSpec(old(State()), action, Enctype(), target, httpMethod, encoding, settled)
    {
      if settled.Success? {
        plannedNavigation := Some(PlannedNavigation(action, target, httpMethod, encoding, BytesBody(settled.value.buffer)));
        NavigatePlanned(settled.value.headers);
      } else {
        log := log + [Notice(MultipartFailedNotice + settled.error.message)];
      }
    }

    method RequestSubmit(submitter: Option<Submitter>, fromSubmit: bool, env: Env) returns (c: Completion)
      modifies this`constructingEntryList, this`firingSubmissionEvents, this`plannedNavigation, this`log
      ensures (State(), c) == RequestSubmitSpec(old(State()), Attrs(), submitter, fromSubmit, env)
    {
      if submitter.Some? {
        if !submitter.value.isSubmitButton {
          return Throw(NotSubmitButton);
        }
        if !submitter.value.formIsThis {
          return Throw(NotOwned);
        }
      }
      if !env.activeAtStart {
        return Normal;
      }
      if constructingEntryList {
        return Normal;
      }
      if !fromSubmit {
        if firingSubmissionEvents {
          return Normal;
        }
        firingSubmissionEvents := true;
      }
      c := ValidateAndSubmit(submitter, env);
    }

    /** `requestSubmit` from validation on. */
    method ValidateAndSubmit(submitter: Option<Submitter>, env: Env) returns (c: Completion)
      modifies this`constructingEntryList, this`firingSubmissionEvents, this`plannedNavigation, this`log
      ensures (State(), c) == ValidateAndSubmitSpec(old(State()), Attrs(), submitter, env)
    {
      ghost var s1 := State();
      if !noValidate {
        var validity, fired := StaticallyValidateConstraints(elements);
        InvalidControlsEmpty(elements);
        if validity.Negative? {
          log := log + InvalidEvents(fired);
          firingSubmissionEvents := false;
          c := Normal;
          assert (State(), c) == (s1.(firing := false, log := s1.log + InvalidEvents(InvalidControls(elements))), Normal);
          return;
        }
      }
      assert !noValidate ==> InvalidControls(elements) == [];
      c := Submit(submitter, env);
    }

    /** `requestSubmit` from the `submit` event on. */
    method Submit(submitter: Option<Submitter>, env: Env) returns (c: Completion)
      modifies this`constructingEntryList, this`firingSubmissionEvents, this`plannedNavigation, this`log
      ensures (State(), c) == SubmitSpec(old(State()), Attrs(), submitter, env)
    {
      log := log + [SubmitFired];
      if !env.submitNotCancelled {
        return Normal;
      }
      firingSubmissionEvents := false;

      var entryList := ConstructEntryList(env.formData);
      if entryList.None? {
        return Throw(NotConstructed);
      }
      c := Dispatch(submitter, env, entryList.value);
    }

    /** The tail of `requestSubmit`, from the second activity check on. */
    method Dispatch(submitter: Option<Submitter>, env: Env, entryList: seq<Entry>) returns (c: Completion)
      modifies this`plannedNavigation, this`log
      ensures (State(), c) == DispatchSpec(old(State()), Attrs(), submitter, env, entryList)
    {
      if !env.activeAfterEntryList {
        return Normal;
      }
      var httpMethod := SubmissionMethod(submitter, methodAttr);
      if httpMethod != "GET" && httpMethod != "POST" {
        log := log + [Notice(MethodNotice)];
        return Normal;
      }
      if !SchemeSupported(action) {
        log := log + [Notice(SchemeNotice)];
        return Normal;
      }
      if httpMethod == "GET" {
        c := Get(env, entryList);
      } else {
        c := Post(env, entryList);
      }
      assert Attrs() == old(Attrs());
    }

    /** The GET branch of `requestSubmit`. */
    method Get(env: Env, entryList: seq<Entry>) returns (c: Completion)
      modifies this`plannedNavigation, this`log
      ensures (State(), c) == GetSpec(old(State()), Attrs(), env, entryList)
    {
      c := MutateActionURL(entryList, "_self", "GET", env.encoding);
      if c.Throw? {
        return c;
      }
      log := log + [Notice(SubmitNotice)];
      c := Normal;
    }

    /** The POST branch of `requestSubmit`. */
    method Post(env: Env, entryList: seq<Entry>) returns (c: Completion)
      modifies this`plannedNavigation, this`log
      ensures (State(), c) == PostSpec(old(State()), Attrs(), env, entryList)
    {
      ghost var posted := SubmitAsEntityBodySpec(State(), action, Enctype(), entryList, "_self", "POST", env.encoding, env.encoder);
      var pending;
      c, pending := SubmitAsEntityBody(entryList, "_self", "POST", env.encoding, env.encoder);
      assert State() == posted.0 && c == posted.1 && pending == posted.2;
      if c.Throw? {
        return c;
      }
      log := log + [Notice(SubmitNotice)];
      ghost var s4 := State();
      assert s4 == Log(posted.0, Notice(SubmitNotice));
      if pending.Some? {
        SettleMultipart(pending.value, "_self", "POST", env.encoding);
        assert State() == SettleMultipartSpec(s4, action, Enctype(), "_self", "POST", env.encoding, pending.value);
      }
      c := Normal;
    }
  }

  // ---------------------------------------------------------------------------
  // Properties of `requestSubmit`

  /** The checks at the top of `requestSubmit` let the call through. */
  predicate PassesGuards(s: FormState, submitter: Option<Submitter>, fromSubmit: bool, env: Env) {
    (submitter.Some? ==> submitter.value.isSubmitButton && submitter.value.formIsThis)
    && env.activeAtStart && !s.constructing && (fromSubmit || !s.firing)
  }

  /** Validation is skipped, or finds no control to fire `invalid` at. */
  predicate ValidationPasses(a: FormAttrs) {
    a.noValidate || InvalidControls(a.elements) == []
  }

  /** Some navigation was requested after the first `|before|` effects. */
  predicate Navigates(before: seq<Effect>, after: seq<Effect>) {
    exists i :: |before| <= i < |after| && after[i].Navigated?
  }

  /** A call stopped by a guard changes nothing, and only a wrong submitter
      makes it throw. */
  lemma GuardsChangeNothing(s: FormState, a: FormAttrs, submitter: Option<Submitter>, fromSubmit: bool, env: Env)
    requires !PassesGuards(s, submitter, fromSubmit, env)
    ensures var r := RequestSubmitSpec(s, a, submitter, fromSubmit, env);
      && r.0 == s
      && (r.1.Throw? <==> submitter.Some? && !(submitter.value.isSubmitButton && submitter.value.formIsThis))
      && (r.1.Throw? ==> r.1.error == if submitter.value.isSubmitButton then NotOwned else NotSubmitButton)
  {
  }

  /** `r` is `s` with effects appended and perhaps a navigation planned: the
      two flags are as they were. */
  predicate Extends(s: FormState, r: FormState) {
    r.constructing == s.constructing && r.firing == s.firing && s.log <= r.log
  }

  lemma ExtendsTrans(s: FormState, t: FormState, r: FormState)
    requires Extends(s, t) && Extends(t, r)
    ensures Extends(s, r)
  {
    assert r.log[..|t.log|][..|s.log|] == r.log[..|s.log|];
  }

  lemma LogExtends(s: FormState, e: Effect)
    ensures Extends(s, Log(s, e))
  {
    assert (s.log + [e])[..|s.log|] == s.log;
  }

  lemma NavigateWithBodyExtends(s: FormState, p: PlannedNavigation, headers: map<string, string>, enctype: string)
    ensures Extends(s, NavigateWithBody(s, p, headers, enctype))
  {
    LogExtends(s.(planned := Some(p)), Navigated(Navigation(p, Some(WithContentType(headers, enctype)))));
  }

  lemma GetExtends(s: FormState, a: FormAttrs, env: Env, entryList: seq<Entry>)
    ensures Extends(s, GetSpec(s, a, env, entryList).0)
  {
    var got := MutateActionURLSpec(s, a.action, entryList, "_self", "GET", env.encoding);
    if got.1.Normal? {
      var p := got.0.planned.value;
      LogExtends(s.(planned := Some(p)), Navigated(Navigation(p, None)));
      LogExtends(got.0, Notice(SubmitNotice));
      ExtendsTrans(s, got.0, Log(got.0, Notice(SubmitNotice)));
    }
  }

  lemma SubmitAsEntityBodyExtends(s: FormState, action: string, enctype: string, entries: seq<Entry>,
                                  target: string, httpMethod: string, encoding: string,
                                  encoder: seq<(string, EntryValue)> -> MultipartForm.Encoded)
    ensures Extends(s, SubmitAsEntityBodySpec(s, action, enctype, entries, target, httpMethod, encoding, encoder).0)
  {
    if enctype == UrlEncodedType || enctype == TextPlainType {
      var body := if enctype == UrlEncodedType then UrlEncoded.Serialize(entries, encoding)
                  else PlainText.Serialize(entries, encoding);
      if body.Success? {
        if body.value != "" {
          NavigateWithBodyExtends(s, PlannedNavigation(action, target, httpMethod, encoding, TextBody(body.value)),
                                  map[], enctype);
        } else {
          LogExtends(s, Notice(NoDataNotice));
        }
      }
    } else if enctype != MultipartType {
      LogExtends(s, Notice(UnsupportedEnctypeNotice(enctype)));
    }
  }

  lemma PostExtends(s: FormState, a: FormAttrs, env: Env, entryList: seq<Entry>)
    ensures Extends(s, PostSpec(s, a, env, entryList).0)
  {
    var enctype := NormalizeEnctype(a.enctypeAttr);
    var posted := SubmitAsEntityBodySpec(s, a.action, enctype, entryList, "_self", "POST", env.encoding, env.encoder);
    SubmitAsEntityBodyExtends(s, a.action, enctype, entryList, "_self", "POST", env.encoding, env.encoder);
    if posted.1.Normal? {
      var s4 := Log(posted.0, Notice(SubmitNotice));
      LogExtends(posted.0, Notice(SubmitNotice));
      ExtendsTrans(s, posted.0, s4);
      if posted.2.Some? {
        var settled := posted.2.value;
        var r := SettleMultipartSpec(s4, a.action, enctype, "_self", "POST", env.encoding, settled);
        if settled.Success? {
          NavigateWithBodyExtends(s4, r.planned.value, settled.value.headers, enctype);
        } else {
          LogExtends(s4, Notice(MultipartFailedNotice + settled.error.message));
        }
        ExtendsTrans(s, s4, r);
      }
    }
  }

  /** From the second activity check on, the form only appends effects and
      plans navigations: the two flags are left alone. */
  lemma DispatchKeepsFlags(s: FormState, a: FormAttrs, submitter: Option<Submitter>, env: Env, entryList: seq<Entry>)
    ensures Extends(s, DispatchSpec(s, a, submitter, env, entryList).0)
  {
    var m := SubmissionMethod(submitter, a.methodAttr);
    if !env.activeAfterEntryList {
    } else if m != "GET" && m != "POST" {
      LogExtends(s, Notice(MethodNotice));
    } else if !SchemeSupported(a.action) {
      LogExtends(s, Notice(SchemeNotice));
    } else if m == "GET" {
      GetExtends(s, a, env, entryList);
    } else {
      PostExtends(s, a, env, entryList);
    }
  }

  /** The state just before the dispatch, given the state the validation
      stage starts from. */
  function BeforeDispatch(s1: FormState, formData: seq<Entry>): FormState {
    Log(Log(s1, SubmitFired).(firing := false), FormDataFired)
  }

  lemma BeforeDispatchLog(s1: FormState, formData: seq<Entry>)
    ensures BeforeDispatch(s1, formData).log == s1.log + [SubmitFired, FormDataFired]
    ensures !BeforeDispatch(s1, formData).firing && BeforeDispatch(s1, formData).constructing == s1.constructing
    ensures BeforeDispatch(s1, formData).planned == s1.planned
  {
    assert s1.log + [SubmitFired] + [FormDataFired] == s1.log + [SubmitFired, FormDataFired];
  }

  /** Once past the guards, the call reaches the dispatch exactly when
      validation passes and `submit` is not cancelled. */
  lemma ReachesDispatch(s: FormState, a: FormAttrs, submitter: Option<Submitter>, fromSubmit: bool, env: Env)
    requires PassesGuards(s, submitter, fromSubmit, env) && ValidationPasses(a) && env.submitNotCancelled
    ensures var s1 := if fromSubmit then s else s.(firing := true);
      RequestSubmitSpec(s, a, submitter, fromSubmit, env)
        == DispatchSpec(BeforeDispatch(s1, env.formData), a, submitter, env, env.formData)
  {
  }

  /** `_firingSubmissionEvents` after a call the guards let through: raised
      exactly when validation passed and the `submit` event was cancelled,
      where a call from `submit()` leaves it as it was. `_constructingEntryList`
      is lowered again in every case. */
  lemma FiringAfterCall(s: FormState, a: FormAttrs, submitter: Option<Submitter>, fromSubmit: bool, env: Env)
    requires PassesGuards(s, submitter, fromSubmit, env)
    ensures var r := RequestSubmitSpec(s, a, submitter, fromSubmit, env).0;
      && r.firing == (ValidationPasses(a) && !env.submitNotCancelled && (!fromSubmit || s.firing))
      && !r.constructing
  {
    var s1 := if fromSubmit then s else s.(firing := true);
    if ValidationPasses(a) && env.submitNotCancelled {
      ReachesDispatch(s, a, submitter, fromSubmit, env);
      BeforeDispatchLog(s1, env.formData);
      DispatchKeepsFlags(BeforeDispatch(s1, env.formData), a, submitter, env, env.formData);
    }
  }

  /** `requestSubmit` never leaves `_constructingEntryList` raised. */
  lemma ConstructingStaysLowered(s: FormState, a: FormAttrs, submitter: Option<Submitter>, fromSubmit: bool, env: Env)
    requires !s.constructing
    ensures !RequestSubmitSpec(s, a, submitter, fromSubmit, env).0.constructing
  {
    if PassesGuards(s, submitter, fromSubmit, env) {
      FiringAfterCall(s, a, submitter, fromSubmit, env);
    }
  }

  /** Effects are only ever appended. */
  lemma LogOnlyGrows(s: FormState, a: FormAttrs, submitter: Option<Submitter>, fromSubmit: bool, env: Env)
    ensures s.log <= RequestSubmitSpec(s, a, submitter, fromSubmit, env).0.log
  {
    if PassesGuards(s, submitter, fromSubmit, env) {
      var s1 := if fromSubmit then s else s.(firing := true);
      if !ValidationPasses(a) {
        var events := InvalidEvents(InvalidControls(a.elements));
        assert (s.log + events)[..|s.log|] == s.log;
      } else if !env.submitNotCancelled {
        LogExtends(s1, SubmitFired);
      } else {
        var s3 := BeforeDispatch(s1, env.formData);
        ReachesDispatch(s, a, submitter, fromSubmit, env);
        BeforeDispatchLog(s1, env.formData);
        assert (s.log + [SubmitFired, FormDataFired])[..|s.log|] == s.log;
        DispatchKeepsFlags(s3, a, submitter, env, env.formData);
        assert s3.log <= RequestSubmitSpec(s, a, submitter, fromSubmit, env).0.log;
      }
    }
  }

  /** A cancelled `submit` event leaves the flag raised, so every later call
      that does not come from `submit()` returns at once and changes nothing. */
  lemma CancelledSubmitBlocksLaterCalls(s: FormState, a: FormAttrs, submitter: Option<Submitter>, env: Env,
                                        later: Option<Submitter>, laterEnv: Env)
    requires PassesGuards(s, submitter, false, env) && ValidationPasses(a) && !env.submitNotCancelled
    ensures var r := RequestSubmitSpec(s, a, submitter, false, env).0;
      r.firing && RequestSubmitSpec(r, a, later, false, laterEnv).0 == r
  {
    FiringAfterCall(s, a, submitter, false, env);
  }

  /** A failed validation fires `invalid` at each failing control in tree
      order, lowers the flag and stops before the `submit` event. */
  lemma ValidationFailureStops(s: FormState, a: FormAttrs, submitter: Option<Submitter>, fromSubmit: bool, env: Env)
    requires PassesGuards(s, submitter, fromSubmit, env) && !ValidationPasses(a)
    ensures var r := RequestSubmitSpec(s, a, submitter, fromSubmit, env);
      && r.1 == Normal
      && !r.0.firing && !r.0.constructing && r.0.planned == s.planned
      && r.0.log == s.log + InvalidEvents(InvalidControls(a.elements))
      && SubmitFired !in r.0.log[|s.log|..]
  {
    var r := RequestSubmitSpec(s, a, submitter, fromSubmit, env);
    var events := InvalidEvents(InvalidControls(a.elements));
    assert r.0.log[|s.log|..] == events;
  }

  /** Appending effects none of which is a navigation requests none. */
  lemma AppendedWithoutNavigation(before: seq<Effect>, added: seq<Effect>)
    requires forall i :: 0 <= i < |added| ==> !added[i].Navigated?
    ensures !Navigates(before, before + added)
  {
    forall i | |before| <= i < |before + added| ensures !(before + added)[i].Navigated? {
      assert (before + added)[i] == added[i - |before|];
    }
  }

  /** The dispatch navigates only for GET or POST and an http(s) action, and
      only when the document is still fully active. */
  lemma DispatchNavigation(s: FormState, a: FormAttrs, submitter: Option<Submitter>, env: Env, entryList: seq<Entry>)
    ensures var r := DispatchSpec(s, a, submitter, env, entryList).0;
      (r.planned != s.planned || Navigates(s.log, r.log)) ==>
        && env.activeAfterEntryList
        && (SubmissionMethod(submitter, a.methodAttr) == "GET" || SubmissionMethod(submitter, a.methodAttr) == "POST")
        && SchemeSupported(a.action)
  {
    var m := SubmissionMethod(submitter, a.methodAttr);
    if env.activeAfterEntryList && m != "GET" && m != "POST" {
      AppendedWithoutNavigation(s.log, [Notice(MethodNotice)]);
    } else if env.activeAfterEntryList && !SchemeSupported(a.action) {
      AppendedWithoutNavigation(s.log, [Notice(SchemeNotice)]);
    } else if !env.activeAfterEntryList {
      AppendedWithoutNavigation(s.log, []);
      assert s.log + [] == s.log;
    }
  }

  /** Navigation past `s3.log` where `s.log` to `s3.log` requests none is
      navigation past `s.log`, and conversely. */
  lemma NavigatesShift(before: seq<Effect>, added: seq<Effect>, after: seq<Effect>)
    requires forall i :: 0 <= i < |added| ==> !added[i].Navigated?
    requires before + added <= after
    ensures Navigates(before, after) <==> Navigates(before + added, after)
  {
    forall i | |before| <= i < |before + added| ensures !after[i].Navigated? {
      assert after[i] == (before + added)[i] == added[i - |before|];
    }
  }

  /** No navigation is planned or requested unless the call got past the
      guards, validation, the `submit` event and the second activity check
      with a GET or POST method and an `http` or `https` action. */
  lemma NavigationRequiresHttpGetOrPost(s: FormState, a: FormAttrs, submitter: Option<Submitter>, fromSubmit: bool,
                                        env: Env)
    ensures var r := RequestSubmitSpec(s, a, submitter, fromSubmit, env).0;
      (r.planned != s.planned || Navigates(s.log, r.log)) ==>
        && PassesGuards(s, submitter, fromSubmit, env) && ValidationPasses(a)
        && env.submitNotCancelled && env.activeAfterEntryList
        && (SubmissionMethod(submitter, a.methodAttr) == "GET" || SubmissionMethod(submitter, a.methodAttr) == "POST")
        && SchemeSupported(a.action)
  {
    var r := RequestSubmitSpec(s, a, submitter, fromSubmit, env).0;
    if !PassesGuards(s, submitter, fromSubmit, env) {
      AppendedWithoutNavigation(s.log, []);
      assert s.log + [] == s.log;
    } else {
      var s1 := if fromSubmit then s else s.(firing := true);
      if !ValidationPasses(a) {
        AppendedWithoutNavigation(s.log, InvalidEvents(InvalidControls(a.elements)));
      } else if !env.submitNotCancelled {
        AppendedWithoutNavigation(s.log, [SubmitFired]);
      } else {
        var s3 := BeforeDispatch(s1, env.formData);
        ReachesDispatch(s, a, submitter, fromSubmit, env);
        BeforeDispatchLog(s1, env.formData);
        DispatchKeepsFlags(s3, a, submitter, env, env.formData);
        DispatchNavigation(s3, a, submitter, env, env.formData);
        NavigatesShift(s.log, [SubmitFired, FormDataFired], r.log);
      }
    }
  }

  /** The submitter's non-empty `formmethod` wins; otherwise the method is
      the upper-cased `method` getter, one of `GET`, `POST` and `DIALOG`. */
  lemma SubmissionMethodChoice(submitter: Option<Submitter>, methodAttr: Option<string>)
    ensures submitter.Some? && submitter.value.formMethod != "" ==>
      SubmissionMethod(submitter, methodAttr) == ToUpper(submitter.value.formMethod)
    ensures submitter.None? || submitter.value.formMethod == "" ==>
      && SubmissionMethod(submitter, methodAttr) == ToUpper(NormalizeMethod(methodAttr))
      && SubmissionMethod(submitter, methodAttr) in {"GET", "POST", "DIALOG"}
  {
    var n := NormalizeMethod(methodAttr);
    assert n in Methods;
    if submitter.Some? && submitter.value.formMethod != "" {
      assert OrElse(Some(submitter.value.formMethod), n) == submitter.value.formMethod;
    } else {
      assert OrElse(if submitter.Some? then Some(submitter.value.formMethod) else None, n) == n;
      if n == "get" {
        UpperGet();
      } else if n == "post" {
        UpperPost();
      } else {
        UpperDialog();
      }
    }
  }

  lemma UpperGet() ensures ToUpper("get") == "GET" {}

  lemma UpperPost() ensures ToUpper("post") == "POST" {}

  lemma UpperDialog() ensures ToUpper("dialog") == "DIALOG" {}

  // ---------------------------------------------------------------------------
  // Properties of the GET and POST branches

  /** The GET URL keeps the action up to its first `?`, and holds a `?`
      followed by the query exactly when the query is not empty. */
  lemma GetUrlShape(action: string, query: string)
    requires '?' !in query
    ensures Before(GetUrl(action, query), '?') == Before(action, '?')
    ensures '?' in GetUrl(action, query) <==> query != ""
    ensures After(GetUrl(action, query), '?') == query
  {
    var base := Before(action, '?');
    assert GetUrl(action, query) == base + (if query != "" then "?" + query else "");
    if query != "" {
      assert base + ("?" + query) == base + ['?'] + query;
      BeforeAfterConcat(base, '?', query);
    }
  }

  /** The GET URL of a Latin-1 entry list carries that list, in order, as its
      query, and has no query at all when the list is empty. */
  lemma GetUrlCarriesEntries(action: string, entryList: seq<Entry>, encoding: string)
    requires AllStrings(entryList) && UrlEncoded.Latin1Entries(entryList)
    ensures var url := GetUrl(action, UrlEncoded.Serialize(entryList, encoding).value);
      && Before(url, '?') == Before(action, '?')
      && ('?' in url <==> entryList != [])
      && UrlEncoded.Parse(After(url, '?')) == StringPairs(entryList)
  {
    var query := UrlEncoded.Serialize(entryList, encoding).value;
    UrlEncoded.SerializeHasNoQuestionMark(entryList, encoding);
    UrlEncoded.SerializeEmptyIffNoEntries(entryList, encoding);
    UrlEncoded.SerializeParseRoundTrip(entryList, encoding);
    GetUrlShape(action, query);
  }

  /** An action with a query gets its query replaced by a non-empty one. */
  lemma GetUrlReplacesQuery(base: string, oldQuery: string, query: string)
    requires '?' !in base && query != ""
    ensures GetUrl(base + "?" + oldQuery, query) == base + "?" + query
  {
    assert base + "?" + oldQuery == base + ['?'] + oldQuery;
    BeforeAfterConcat(base, '?', oldQuery);
  }

  lemma GetUrlExample()
    ensures GetUrl("https://e.co/s?old=1", UrlEncoded.Serialize([Entry("q", Str("hi there"))], "UTF-8").value)
      == "https://e.co/s?q=hi+there"
  {
    UrlEncoded.SerializeHiThereExample();
    ExampleUrls();
    BaseHasNoQuery();
    GetUrlReplacesQuery("https://e.co/s", "old=1", "q=hi+there");
  }

  lemma ExampleUrls()
    ensures "https://e.co/s" + "?" + "old=1" == "https://e.co/s?old=1"
    ensures "https://e.co/s" + "?" + "q=hi+there" == "https://e.co/s?q=hi+there"
  {
  }

  lemma BaseHasNoQuery()
    ensures '?' !in "https://e.co/s"
  {
    var base := "https://e.co/s";
    forall i | 0 <= i < |base| ensures base[i] != '?' {
    }
  }

  /** A GET submission of string entries plans one navigation to the
      rewritten URL, with no body and no headers, requests it, and then posts
      the final notice; any other value throws with nothing changed. */
  lemma GetNavigates(s: FormState, a: FormAttrs, env: Env, entryList: seq<Entry>)
    ensures var r := GetSpec(s, a, env, entryList);
      if AllStrings(entryList) then
        var p := PlannedNavigation(GetUrl(a.action, UrlEncoded.Serialize(entryList, env.encoding).value),
                                   "_self", "GET", env.encoding, NoBody);
        r == (s.(planned := Some(p), log := s.log + [Navigated(Navigation(p, None)), Notice(SubmitNotice)]), Normal)
      else r == (s, Throw(UrlEncoded.NotImplementedUndefined))
  {
    if AllStrings(entryList) {
      var p := PlannedNavigation(GetUrl(a.action, UrlEncoded.Serialize(entryList, env.encoding).value),
                                 "_self", "GET", env.encoding, NoBody);
      assert s.log + [Navigated(Navigation(p, None))] + [Notice(SubmitNotice)]
          == s.log + [Navigated(Navigation(p, None)), Notice(SubmitNotice)];
    }
  }

  /** An empty urlencoded or text/plain body navigates nowhere: the form only
      posts the no-data notice and then the final one. */
  lemma EmptyPostDoesNotNavigate(s: FormState, a: FormAttrs, env: Env)
    requires NormalizeEnctype(a.enctypeAttr) == UrlEncodedType || NormalizeEnctype(a.enctypeAttr) == TextPlainType
    ensures PostSpec(s, a, env, []) == (s.(log := s.log + [Notice(NoDataNotice), Notice(SubmitNotice)]), Normal)
  {
    assert s.log + [Notice(NoDataNotice)] + [Notice(SubmitNotice)] == s.log + [Notice(NoDataNotice), Notice(SubmitNotice)];
  }

  /** A non-empty urlencoded or text/plain body is posted to the action as
      is, with the enctype as the content type, before the final notice. */
  lemma TextPostNavigates(s: FormState, a: FormAttrs, env: Env, entryList: seq<Entry>)
    requires NormalizeEnctype(a.enctypeAttr) == UrlEncodedType || NormalizeEnctype(a.enctypeAttr) == TextPlainType
    requires AllStrings(entryList) && entryList != []
    ensures var enctype := NormalizeEnctype(a.enctypeAttr);
      var body := if enctype == UrlEncodedType then UrlEncoded.Serialize(entryList, env.encoding).value
                  else PlainText.Serialize(entryList, env.encoding).value;
      var p := PlannedNavigation(a.action, "_self", "POST", env.encoding, TextBody(body));
      && body != ""
      && PostSpec(s, a, env, entryList)
         == (s.(planned := Some(p),
                log := s.log + [Navigated(Navigation(p, Some(map["Content-Type" := enctype]))), Notice(SubmitNotice)]),
             Normal)
  {
    var enctype := NormalizeEnctype(a.enctypeAttr);
    var body := if enctype == UrlEncodedType then UrlEncoded.Serialize(entryList, env.encoding).value
                else PlainText.Serialize(entryList, env.encoding).value;
    var p := PlannedNavigation(a.action, "_self", "POST", env.encoding, TextBody(body));
    UrlEncoded.SerializeEmptyIffNoEntries(entryList, env.encoding);
    PlainText.SerializeEmptyIffNoEntries(entryList, env.encoding);
    assert WithContentType(map[], enctype) == map["Content-Type" := enctype];
    var nav := Navigated(Navigation(p, Some(map["Content-Type" := enctype])));
    assert s.log + [nav] + [Notice(SubmitNotice)] == s.log + [nav, Notice(SubmitNotice)];
  }

  /** A multipart body is applied after the final notice: for string entries
      the navigation carries the concatenated chunks and the encoder's
      headers, given a content type if they lack one; otherwise only the
      failure notice follows. */
  lemma MultipartPostSettlesLast(s: FormState, a: FormAttrs, env: Env, entryList: seq<Entry>)
    requires NormalizeEnctype(a.enctypeAttr) == MultipartType
    ensures var r := PostSpec(s, a, env, entryList);
      && r.1 == Normal
      && (AllStrings(entryList) ==>
            var encoded := env.encoder(MultipartForm.EntryPairs(entryList));
            var p := PlannedNavigation(a.action, "_self", "POST", env.encoding, BytesBody(Concat(encoded.chunks)));
            r.0 == s.(planned := Some(p),
                      log := s.log + [Notice(SubmitNotice),
                                      Navigated(Navigation(p, Some(WithContentType(encoded.headers, MultipartType))))]))
      && (!AllStrings(entryList) ==>
            r.0 == s.(log := s.log + [Notice(SubmitNotice), Notice(MultipartFailedNotice + DefaultViewOfUndefined.message)]))
  {
  }
}
