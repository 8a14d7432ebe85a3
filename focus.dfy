/** Focus bookkeeping and the `tabIndex` reflection shared by HTML and SVG
    elements: `focus()` and `blur()` over the document's last focused element
    (and, for a document in a frame, the parent document's), and the default
    and attribute-driven `tabIndex`. Whether an element is a focusable area,
    whether a `summary` is its parent `details`' summary, and the conversion
    of a non-decimal attribute value to a number are parameters; fired events
    are recorded as effects. */
module HtmlOrSvgElement {
  import opened JsCommon

  // ---------------------------------------------------------------------------
  // tabIndex

  const HtmlNamespace := "http://www.w3.org/1999/xhtml"
  const SvgNamespace := "http://www.w3.org/2000/svg"

  /** The HTML elements whose `tabIndex` defaults to 0. */
  const TabIndexReflectAllowed: set<string> :=
    {"a", "area", "button", "frame", "iframe", "input", "object", "select", "textarea"}

  type Int32 = x: int | -0x8000_0000 <= x < 0x8000_0000

  /** A JavaScript number, by what the WebIDL `long` conversion looks at: not
      finite (NaN or an infinity), or finite with the given integer part. */
  datatype NumberValue = NotFinite | Finite(integerPart: int)

  /** The largest magnitude up to which every integer is exactly a double. */
  const MaxSafe := 0x20_0000_0000_0000

  /** `ToNumber` of a string: exact for a decimal integer a double holds
      exactly; any other string is left to `other`. */
  function StringToNumber(s: string, other: string -> NumberValue): NumberValue {
    var parsed := ParseDecimal(s);
    if parsed.Some? && -MaxSafe <= parsed.value <= MaxSafe then Finite(parsed.value) else other(s)
  }

  /** The WebIDL `long` conversion without `[EnforceRange]` or `[Clamp]`:
      a value that is not finite becomes 0, and the integer part is reduced
      modulo 2^32 into the signed range. */
  function ToLong(n: NumberValue): (r: Int32)
    ensures n.NotFinite? ==> r == 0
    ensures n.Finite? ==> (r - n.integerPart) % 0x1_0000_0000 == 0
    ensures n.Finite? && -0x8000_0000 <= n.integerPart < 0x8000_0000 ==> r == n.integerPart
  {
    if n.NotFinite? then 0
    else
      var m := n.integerPart % 0x1_0000_0000;
      if m >= 0x8000_0000 then m - 0x1_0000_0000 else m
  }

  /** The `tabIndex` of an element without a `tabindex` attribute. */
  function DefaultTabIndex(namespace: string, localName: string, summaryForParentDetails: bool): (r: int)
    ensures r == 0 || r == -1
    ensures namespace != HtmlNamespace && namespace != SvgNamespace ==> r == -1
    ensures namespace == SvgNamespace ==> (r == 0 <==> localName == "a")
    ensures namespace == HtmlNamespace && localName == "summary" ==> (r == 0 <==> summaryForParentDetails)
    ensures namespace == HtmlNamespace && localName != "summary" ==> (r == 0 <==> localName in TabIndexReflectAllowed)
  {
    if (namespace == HtmlNamespace && (localName in TabIndexReflectAllowed || (localName == "summary" && summaryForParentDetails)))
       || (namespace == SvgNamespace && localName == "a")
    then 0
    else -1
  }

  /** The `tabIndex` getter on an element's namespace, local name and
      null-namespace attributes. */
  function TabIndexOf(namespace: string, localName: string, attributes: map<string, string>,
                      summaryForParentDetails: bool, other: string -> NumberValue): (r: int)
    ensures -0x8000_0000 <= r < 0x8000_0000
    ensures "tabindex" !in attributes ==> r == DefaultTabIndex(namespace, localName, summaryForParentDetails)
  {
    if "tabindex" !in attributes then DefaultTabIndex(namespace, localName, summaryForParentDetails)
    else ToLong(StringToNumber(attributes["tabindex"], other))
  }

  /** A decimal integer attribute a double holds exactly reads as that
      integer reduced into the signed 32-bit range. */
  lemma TabIndexOfDecimal(namespace: string, localName: string, attributes: map<string, string>,
                          summaryForParentDetails: bool, other: string -> NumberValue, n: int)
    requires -MaxSafe <= n <= MaxSafe
    ensures TabIndexOf(namespace, localName, attributes["tabindex" := DecimalString(n)], summaryForParentDetails, other)
      == ToLong(Finite(n))
  {
    DecimalRoundTrip(n);
  }

  /** Reading `tabIndex` after setting it gives back the value set, on every
      element, whatever else the attributes hold. */
  lemma TabIndexRoundTrip(namespace: string, localName: string, attributes: map<string, string>,
                          summaryForParentDetails: bool, other: string -> NumberValue, value: Int32)
    ensures TabIndexOf(namespace, localName, attributes["tabindex" := DecimalString(value)], summaryForParentDetails, other) == value
  {
    TabIndexOfDecimal(namespace, localName, attributes, summaryForParentDetails, other, value);
  }

  // ---------------------------------------------------------------------------
  // focus and blur

  datatype FocusEventKind = BlurEvent | FocusOutEvent | FocusEvent | FocusInEvent

  /** What a call does besides updating the focus: an event fired (with its
      target, related target and whether it bubbles) or a change to the
      document's selection. */
  datatype Effect =
    | Fire(kind: FocusEventKind, target: Option<Element>, relatedTarget: Option<Element>, bubbles: bool)
    | CollapseSelection(node: Element)
    | EmptySelection

  /** The document's last focused element and, when the document is in a
      frame, the parent document's. */
  datatype FocusState = FocusState(focused: Option<Element>, parentFocused: Option<Element>)

  /** `_defaultView`: a document made by `createHTMLDocument` or `DOMParser`
      has none; a window knows the frame element it is shown in, if any. */
  datatype View = NoView | Window(frameElement: Option<Element>)

  /** Reading `_frameElement` of a null `_defaultView`. */
  const FrameElementOfNull := TypeError("Cannot read properties of null (reading '_frameElement')")

  /** `focus()` on `self`: nothing when it already has focus; otherwise focus
      leaves the document, the previous element (or, without one, the parent
      document's focused element, in favour of the frame) is blurred, and a
      focusable `self` then takes focus. Without a previous element the
      window's frame element is read first, which throws in a document
      without a window, focusable `self` or not. */
  function FocusStep(s: FocusState, self: Element, view: View, focusable: bool): (FocusState, Result<seq<Effect>, JsError>) {
    if s.focused == Some(self) then (s, Success([]))
    else if s.focused.None? && view.NoView? then (s, Failure(FrameElementOfNull))
    else
      var blurred :=
        if s.focused.Some? then
          (s.(focused := None), [Fire(BlurEvent, s.focused, Some(self), false), Fire(FocusOutEvent, s.focused, Some(self), true)])
        else if view.frameElement.Some? then
          (s.(parentFocused := view.frameElement), [Fire(BlurEvent, s.parentFocused, None, false), Fire(FocusOutEvent, s.parentFocused, None, true)])
        else (s, []);
      if !focusable then (blurred.0, Success(blurred.1))
      else
        (blurred.0.(focused := Some(self)),
         Success(blurred.1 + [Fire(FocusEvent, Some(self), s.focused, false), Fire(FocusInEvent, Some(self), s.focused, true), CollapseSelection(self)]))
  }

  /** `blur()` on `self`: only a focused, focusable element loses focus. */
  function BlurStep(s: FocusState, self: Element, focusable: bool): (FocusState, seq<Effect>) {
    if s.focused != Some(self) || !focusable then (s, [])
    else (s.(focused := None), [Fire(BlurEvent, Some(self), None, false), Fire(FocusOutEvent, Some(self), None, true), EmptySelection])
  }

  /** Focusing the focused element changes nothing and fires nothing. */
  lemma FocusFocusedIsNoOp(s: FocusState, self: Element, view: View, focusable: bool)
    requires s.focused == Some(self)
    ensures FocusStep(s, self, view, focusable) == (s, Success([]))
  {
  }

  /** The call throws exactly when nothing had focus and the document has no
      window, and then changes nothing. Otherwise, afterwards `self` has focus
      exactly when it had it or is focusable, and nothing else has; the
      parent document's focus moves to the frame when there was no previous
      element, and is untouched otherwise. */
  lemma FocusOutcome(s: FocusState, self: Element, view: View, focusable: bool)
    ensures var r := FocusStep(s, self, view, focusable);
      && (r.1.Failure? <==> s.focused.None? && view.NoView?)
      && (r.1.Failure? ==> r.0 == s && r.1.error == FrameElementOfNull)
      && (r.1.Success? ==>
            && r.0.focused == (if s.focused == Some(self) || focusable then Some(self) else None)
            && r.0.parentFocused == (if s.focused.None? && view.frameElement.Some? then view.frameElement else s.parentFocused))
  {
  }

  /** Focusing twice is focusing once: the second call is a no-op after a
      first that succeeded, and throws the same way again after one that
      threw. */
  lemma FocusIdempotent(s: FocusState, self: Element, view: View, focusable: bool)
    requires focusable
    ensures var r := FocusStep(s, self, view, focusable);
      && (r.1.Success? ==> FocusStep(r.0, self, view, focusable) == (r.0, Success([])))
      && (r.1.Failure? ==> FocusStep(r.0, self, view, focusable) == r)
  {
  }

  /** The previous element is blurred first, with `self` as related target,
      even when `self` is not focusable; the focus events follow only for a
      focusable `self`, with the previous element as related target. */
  lemma PreviousBlurredFirst(s: FocusState, self: Element, view: View, focusable: bool)
    requires s.focused.Some? && s.focused != Some(self)
    ensures var r := FocusStep(s, self, view, focusable).1;
      && r.Success?
      && |r.value| == (if focusable then 5 else 2)
      && r.value[0] == Fire(BlurEvent, s.focused, Some(self), false)
      && r.value[1] == Fire(FocusOutEvent, s.focused, Some(self), true)
      && (focusable ==> r.value[2] == Fire(FocusEvent, Some(self), s.focused, false)
                        && r.value[3] == Fire(FocusInEvent, Some(self), s.focused, true)
                        && r.value[4] == CollapseSelection(self))
  {
  }

  /** A `focus` event is fired at `self` exactly when the call gives it focus. */
  lemma {:induction false} FocusEventIffFocusGained(s: FocusState, self: Element, view: View, focusable: bool)
    ensures var r := FocusStep(s, self, view, focusable).1;
      (r.Success? && exists i :: 0 <= i < |r.value| && r.value[i] == Fire(FocusEvent, Some(self), s.focused, false))
        <==> (focusable && s.focused != Some(self) && (s.focused.Some? || view.Window?))
  {
    var r := FocusStep(s, self, view, focusable).1;
    if focusable && s.focused != Some(self) && (s.focused.Some? || view.Window?) {
      var e := r.value;
      var k := |e| - 3;
      assert e[k] == Fire(FocusEvent, Some(self), s.focused, false);
    } else if r.Success? {
      var e := r.value;
      forall i | 0 <= i < |e|
        ensures e[i] != Fire(FocusEvent, Some(self), s.focused, false)
      {
        assert e[i].Fire? ==> e[i].kind != FocusEvent;
      }
    }
  }

  /** `blur()` acts only on the focused, focusable element, and then leaves
      the document without focus. */
  lemma BlurOutcome(s: FocusState, self: Element, focusable: bool)
    ensures var r := BlurStep(s, self, focusable);
      && (s.focused == Some(self) && focusable ==> r.0 == s.(focused := None) && |r.1| == 3 && r.1[2] == EmptySelection)
      && (s.focused != Some(self) || !focusable ==> r == (s, []))
  {
  }

  /** Blurring a focusable element after focusing it leaves no focus, and a
      second blur changes nothing. */
  lemma FocusThenBlur(s: FocusState, self: Element, view: View, focusable: bool)
    requires focusable
    ensures var t := BlurStep(FocusStep(s, self, view, focusable).0, self, focusable).0;
      && t.focused == None
      && BlurStep(t, self, focusable) == (t, [])
  {
  }

  class Document {
    /** `_lastFocusedElement`. */
    var lastFocused: Option<Element>
    /** `_defaultView`, reduced to whether there is one and the element of
        the parent document it is shown in, if any. */
    const defaultView: View

    constructor (defaultView: View)
      ensures lastFocused == None && this.defaultView == defaultView
    {
      lastFocused := None;
      this.defaultView := defaultView;
    }
  }

  class Element {
    const ownerDocument: Document
    const namespace: string
    const localName: string
    /** The attributes in the null namespace. */
    var attributes: map<string, string>

    constructor (ownerDocument: Document, namespace: string, localName: string)
      ensures this.ownerDocument == ownerDocument && this.namespace == namespace && this.localName == localName
      ensures attributes == map[]
    {
      this.ownerDocument := ownerDocument;
      this.namespace := namespace;
      this.localName := localName;
      attributes := map[];
    }

    /** The frame element the owner document is shown in, if any. */
    function Frame(): Option<Element> {
      if ownerDocument.defaultView.Window? then ownerDocument.defaultView.frameElement else None
    }

    /** The parent document when the owner document is in a frame. */
    function ParentDocuments(): set<Document> {
      if Frame().Some? then {Frame().value.ownerDocument} else {}
    }

    /** A frame element belongs to the parent document, never to the document
        it frames. */
    predicate FrameInParent() {
      ownerDocument !in ParentDocuments()
    }

    function FocusView(): FocusState
      reads ownerDocument, ParentDocuments()
    {
      FocusState(ownerDocument.lastFocused, if Frame().Some? then Frame().value.ownerDocument.lastFocused else None)
    }

    /** The `tabIndex` getter. */
    function TabIndex(summaryForParentDetails: bool, other: string -> NumberValue): int
      reads this
    {
      TabIndexOf(namespace, localName, attributes, summaryForParentDetails, other)
    }

    /** The `tabIndex` setter, given the value already converted to `long`. */
    method SetTabIndex(value: Int32)
      modifies this`attributes
      ensures attributes == old(attributes)["tabindex" := DecimalString(value)]
      ensures forall summary, other :: TabIndex(summary, other) == value
    {
      attributes := attributes["tabindex" := DecimalString(value)];
      forall summary, other ensures TabIndex(summary, other) == value {
        TabIndexRoundTrip(namespace, localName, old(attributes), summary, other, value);
      }
    }

    /** `focus()`; `focusable` is whether this element is a focusable area. */
    method Focus(focusable: bool) returns (r: Result<seq<Effect>, JsError>)
      requires FrameInParent()
      modifies ownerDocument, ParentDocuments()
      ensures (FocusView(), r) == FocusStep(old(FocusView()), this, ownerDocument.defaultView, focusable)
    {
      var document := ownerDocument;
      var previous := document.lastFocused;
      if previous == Some(this) {
        return Success([]);
      }
      document.lastFocused := None;
      var effects := [];
      if previous.Some? {
        effects := [Fire(BlurEvent, previous, Some(this), false), Fire(FocusOutEvent, previous, Some(this), true)];
      } else {
        if document.defaultView.NoView? {
          return Failure(FrameElementOfNull);
        }
        var frameElement := document.defaultView.frameElement;
        if frameElement.Some? {
          var frame := frameElement.value;
          var frameLastFocused := frame.ownerDocument.lastFocused;
          frame.ownerDocument.lastFocused := None;
          effects := [Fire(BlurEvent, frameLastFocused, None, false), Fire(FocusOutEvent, frameLastFocused, None, true)];
          frame.ownerDocument.lastFocused := Some(frame);
        }
      }
      if !focusable {
        return Success(effects);
      }
      document.lastFocused := Some(this);
      effects := effects + [Fire(FocusEvent, Some(this), previous, false), Fire(FocusInEvent, Some(this), previous, true), CollapseSelection(this)];
      return Success(effects);
    }

    /** `blur()`; `focusable` is whether this element is a focusable area. */
    method Blur(focusable: bool) returns (effects: seq<Effect>)
      modifies ownerDocument
      ensures ownerDocument.lastFocused == BlurStep(old(FocusView()), this, focusable).0.focused
      ensures effects == BlurStep(old(FocusView()), this, focusable).1
    {
      if ownerDocument.lastFocused != Some(this) || !focusable {
        return [];
      }
      ownerDocument.lastFocused := None;
      effects := [Fire(BlurEvent, Some(this), None, false), Fire(FocusOutEvent, Some(this), None, true), EmptySelection];
    }
  }
}
