/** The `multipart/form-data` path: the `FormDataLike` entry list handed to
    the external RFC 7578 encoder, and the `serialize` step that normalises the
    entries, drains the encoder's chunks into one buffer and copies its
    headers. The encoder itself (its byte layout and random boundary) is a
    parameter: any function from the form's entries to chunks and headers. */
module MultipartForm {
  import opened JsCommon
  import opened Entries

  /** `[entry.name, entry.value]` for each entry, in order. */
  function EntryPairs(s: seq<Entry>): (r: seq<(string, EntryValue)>)
    ensures |r| == |s|
    ensures forall i :: 0 <= i < |s| ==> r[i] == (s[i].name, s[i].value)
  {
    if s == [] then [] else [(s[0].name, s[0].value)] + EntryPairs(s[1..])
  }

  /** The values of the entries called `name`, in insertion order. */
  function ValuesNamed(s: seq<Entry>, name: string): (r: seq<EntryValue>)
    ensures |r| <= |s|
  {
    if s == [] then []
    else (if s[0].name == name then [s[0].value] else []) + ValuesNamed(s[1..], name)
  }

  class FormDataLike {
    var entries: seq<Entry>

    /** `new FormDataLike(entryList)`: a copy of the given list, or empty
        when none (or a falsy one) is given. */
    constructor (entryList: Option<seq<Entry>>)
      ensures entries == if entryList.Some? then entryList.value else []
    {
      if entryList.Some? {
        entries := entryList.value;
      } else {
        entries := [];
      }
    }

    /** `append(name, value)`: one entry at the end, the rest kept. */
    method Append(name: string, value: EntryValue)
      modifies this
      ensures entries == old(entries) + [Entry(name, value)]
      ensures forall n :: GetAll(n) == old(GetAll(n)) + (if n == name then [value] else [])
    {
      entries := entries + [Entry(name, value)];
      forall n ensures GetAll(n) == old(GetAll(n)) + (if n == name then [value] else []) {
        ValuesNamedAppend(old(entries), [Entry(name, value)], n);
      }
    }

    /** `getAll(name)`. */
    function GetAll(name: string): seq<EntryValue>
      reads this
    {
      ValuesNamed(entries, name)
    }

    /** What iterating `entries()` yields. */
    function Entries(): seq<(string, EntryValue)>
      reads this
    {
      EntryPairs(entries)
    }
  }

  lemma {:induction false} ValuesNamedAppend(a: seq<Entry>, b: seq<Entry>, name: string)
    ensures ValuesNamed(a + b, name) == ValuesNamed(a, name) + ValuesNamed(b, name)
  {
    if a != [] {
      assert (a + b)[1..] == a[1..] + b;
      ValuesNamedAppend(a[1..], b, name);
      AppendAssoc(if a[0].name == name then [a[0].value] else [], ValuesNamed(a[1..], name), ValuesNamed(b, name));
    } else {
      assert a + b == b;
    }
  }

  /** A value is in `getAll(name)` exactly when some entry called `name`
      carries it. */
  lemma {:induction false} ValuesNamedMembership(s: seq<Entry>, name: string, v: EntryValue)
    ensures v in ValuesNamed(s, name) <==> exists i :: 0 <= i < |s| && s[i] == Entry(name, v)
  {
    if s != [] {
      ValuesNamedMembership(s[1..], name, v);
      if exists i :: 0 <= i < |s[1..]| && s[1..][i] == Entry(name, v) {
        var i :| 0 <= i < |s[1..]| && s[1..][i] == Entry(name, v);
        assert s[i + 1] == Entry(name, v);
      }
      if exists i :: 0 <= i < |s| && s[i] == Entry(name, v) {
        var i :| 0 <= i < |s| && s[i] == Entry(name, v);
        if i > 0 {
          assert s[1..][i - 1] == Entry(name, v);
        }
      }
    }
  }

  /** `getAll(name)` is empty exactly when no entry is called `name`. */
  lemma {:induction false} ValuesNamedEmpty(s: seq<Entry>, name: string)
    ensures ValuesNamed(s, name) == [] <==> forall i :: 0 <= i < |s| ==> s[i].name != name
  {
    if s != [] {
      ValuesNamedEmpty(s[1..], name);
      assert forall i :: 1 <= i < |s| ==> s[i] == s[1..][i - 1];
    }
  }

  /** `getAll(name)` holds one value per entry called `name`. */
  function CountNamed(s: seq<Entry>, name: string): nat {
    if s == [] then 0 else (if s[0].name == name then 1 else 0) + CountNamed(s[1..], name)
  }

  lemma {:induction false} ValuesNamedCount(s: seq<Entry>, name: string)
    ensures |ValuesNamed(s, name)| == CountNamed(s, name)
  {
    if s != [] {
      ValuesNamedCount(s[1..], name);
    }
  }

  // ---------------------------------------------------------------------------
  // serialize

  /** What the external encoder produces for a form: its body chunks, in
      iteration order, and its header object. */
  datatype Encoded = Encoded(chunks: seq<seq<Byte>>, headers: map<string, string>)

  datatype Serialized = Serialized(headers: map<string, string>, buffer: seq<Byte>)

  /** `serialize(entryList, encoding)`, with the promise modelled by its
      settled value. Non-string values reach `notImplemented(…,
      this._ownerDocument._defaultView)`; `this` is the exported object, which
      has no `_ownerDocument`, so the call rejects before the `""` fallback is
      appended. */
  method Serialize(entryList: seq<Entry>, encoding: string, encoder: seq<(string, EntryValue)> -> Encoded)
    returns (r: Result<Serialized, JsError>)
    ensures r.Success? <==> AllStrings(entryList)
    ensures r.Failure? ==> r.error == DefaultViewOfUndefined
    ensures r.Success? ==>
      var encoded := encoder(EntryPairs(entryList));
      r.value.buffer == Concat(encoded.chunks) && r.value.headers == encoded.headers
  {
    var form := new FormDataLike(None);
    for i := 0 to |entryList|
      invariant form.entries == entryList[..i]
      invariant AllStrings(entryList[..i])
    {
      var entry := entryList[i];
      if entry.value.Str? {
        form.Append(entry.name, entry.value);
        assert entryList[..i + 1] == entryList[..i] + [entry];
      } else {
        assert !AllStrings(entryList);
        return Failure(DefaultViewOfUndefined);
      }
    }
    assert entryList[..|entryList|] == entryList;

    var encoded := encoder(form.Entries());

    var chunks: seq<seq<Byte>> := [];
    for i := 0 to |encoded.chunks|
      invariant chunks == encoded.chunks[..i]
    {
      chunks := chunks + [encoded.chunks[i]];
      assert encoded.chunks[..i + 1] == encoded.chunks[..i] + [encoded.chunks[i]];
    }
    assert encoded.chunks[..|encoded.chunks|] == encoded.chunks;

    var headers: map<string, string> := map[];
    var remaining := encoded.headers.Keys;
    while remaining != {}
      invariant remaining <= encoded.headers.Keys
      invariant forall k :: k in headers <==> k in encoded.headers && k !in remaining
      invariant forall k :: k in headers ==> headers[k] == encoded.headers[k]
      decreases |remaining|
    {
      var key :| key in remaining;
      headers := headers[key := encoded.headers[key]];
      remaining := remaining - {key};
    }

    r := Success(Serialized(headers, Concat(chunks)));
  }
}
