/** The `text/plain` form encoder (section 4.10.21.9 of the HTML Standard,
    "Plain text form data"): every entry becomes `name=value` with no escaping,
    and each such line is followed by CR LF. */
module PlainText {
  import opened JsCommon
  import opened Entries

  const CRLF := "\r\n"

  const NotAString := PlainError("HTMLFormElement._mutateActionURL: entry value must be a string")

  /** `${entry.name}=${entry.value}` for a string entry. */
  function Line(e: Entry): string
    requires e.value.Str?
  {
    e.name + "=" + e.value.s
  }

  function Lines(entries: seq<Entry>): (r: seq<string>)
    requires AllStrings(entries)
    ensures |r| == |entries|
    ensures forall i :: 0 <= i < |entries| ==> r[i] == Line(entries[i])
  {
    if entries == [] then [] else [Line(entries[0])] + Lines(entries[1..])
  }

  /** `serialize(entryList, encoding)`: any non-string value aborts the whole
      call; otherwise the lines joined by CR LF, plus one final CR LF. */
  function Serialize(entryList: seq<Entry>, encoding: string): (r: Result<string, JsError>)
    ensures r.Success? <==> AllStrings(entryList)
    ensures r.Failure? ==> r.error == NotAString
    ensures entryList == [] ==> r == Success("")
  {
    if AllStrings(entryList) then
      var parts := Lines(entryList);
      Success(if |parts| > 0 then Join(parts, CRLF) + CRLF else "")
    else Failure(NotAString)
  }

  /** The reference reading of the format: every line terminated by CR LF. */
  function TerminatedLines(entries: seq<Entry>): string
    requires AllStrings(entries)
  {
    if entries == [] then "" else Line(entries[0]) + CRLF + TerminatedLines(entries[1..])
  }

  lemma {:induction false} JoinTerminated(entries: seq<Entry>)
    requires AllStrings(entries) && entries != []
    ensures Join(Lines(entries), CRLF) + CRLF == TerminatedLines(entries)
    decreases |entries|
  {
    var parts := Lines(entries);
    if |entries| > 1 {
      var rest := entries[1..];
      assert parts[1..] == Lines(rest);
      JoinTerminated(rest);
      AppendAssoc(parts[0] + CRLF, Join(Lines(rest), CRLF), CRLF);
    }
  }

  /** A successful serialization is the entries' lines, each ended by CR LF. */
  lemma SerializeIsTerminatedLines(entryList: seq<Entry>, encoding: string)
    requires AllStrings(entryList)
    ensures Serialize(entryList, encoding) == Success(TerminatedLines(entryList))
  {
    if entryList != [] {
      JoinTerminated(entryList);
    }
  }

  /** The size of the output is the sum of |name| + |value| + 3 over entries. */
  function TextSize(entries: seq<Entry>): nat
    requires AllStrings(entries)
  {
    if entries == [] then 0 else |entries[0].name| + |entries[0].value.s| + 3 + TextSize(entries[1..])
  }

  lemma {:induction false} TerminatedLinesLength(entries: seq<Entry>)
    requires AllStrings(entries)
    ensures |TerminatedLines(entries)| == TextSize(entries)
  {
    if entries != [] {
      TerminatedLinesLength(entries[1..]);
    }
  }

  lemma SerializeLength(entryList: seq<Entry>, encoding: string)
    requires AllStrings(entryList)
    ensures |Serialize(entryList, encoding).value| == TextSize(entryList)
  {
    SerializeIsTerminatedLines(entryList, encoding);
    TerminatedLinesLength(entryList);
  }

  /** Every line is at least `=` and CR LF, so only the empty list gives `""`. */
  lemma SerializeEmptyIffNoEntries(entryList: seq<Entry>, encoding: string)
    requires AllStrings(entryList)
    ensures Serialize(entryList, encoding).value == "" <==> entryList == []
  {
    SerializeLength(entryList, encoding);
  }

  lemma {:induction false} TerminatedLinesEnd(entries: seq<Entry>)
    requires AllStrings(entries) && entries != []
    ensures var t := TerminatedLines(entries); |t| >= 2 && t[|t| - 2..] == CRLF
  {
    var t := TerminatedLines(entries);
    if |entries| == 1 {
      assert TerminatedLines(entries[1..]) == "";
      assert t == Line(entries[0]) + CRLF;
    } else {
      TerminatedLinesEnd(entries[1..]);
      var u := TerminatedLines(entries[1..]);
      assert t == (Line(entries[0]) + CRLF) + u;
      assert t[|t| - 2..] == u[|u| - 2..];
    }
  }

  /** A non-empty list always serializes to text ending in CR LF. */
  lemma SerializeEndsWithCrlf(entryList: seq<Entry>, encoding: string)
    requires AllStrings(entryList) && entryList != []
    ensures var t := Serialize(entryList, encoding).value; |t| >= 2 && t[|t| - 2..] == CRLF
  {
    SerializeIsTerminatedLines(entryList, encoding);
    TerminatedLinesEnd(entryList);
  }

  /** The `encoding` argument plays no part in the result. */
  lemma EncodingIrrelevant(entryList: seq<Entry>, e1: string, e2: string)
    ensures Serialize(entryList, e1) == Serialize(entryList, e2)
  {
  }

  lemma SerializeExample()
    ensures Serialize([Entry("a", Str("1")), Entry("b", Str("x y"))], "UTF-8") == Success("a=1\r\nb=x y\r\n")
  {
    var l := [Entry("a", Str("1")), Entry("b", Str("x y"))];
    SerializeIsTerminatedLines(l, "UTF-8");
    assert l[1..][1..] == [];
    assert TerminatedLines(l[1..]) == "b=x y" + CRLF + "";
    assert TerminatedLines(l) == "a=1" + CRLF + ("b=x y" + CRLF + "");
    assert "a=1" + CRLF + ("b=x y" + CRLF + "") == "a=1\r\nb=x y\r\n";
  }
}
