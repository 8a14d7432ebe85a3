/** The entry list that form submission builds and the serializers consume:
    an insertion-ordered sequence of name/value pairs in which a value is a
    string or an opaque Blob/File object. */
module Entries {

  /** A Blob or File value is kept opaque: only its identity is modelled. */
  datatype EntryValue = Str(s: string) | BlobRef(id: nat)

  datatype Entry = Entry(name: string, value: EntryValue)

  predicate AllStrings(entries: seq<Entry>) {
    forall i :: 0 <= i < |entries| ==> entries[i].value.Str?
  }

  /** The names and string values of an all-string entry list, in order. */
  function StringPairs(entries: seq<Entry>): (r: seq<(string, string)>)
    requires AllStrings(entries)
    ensures |r| == |entries|
    ensures forall i :: 0 <= i < |entries| ==> r[i] == (entries[i].name, entries[i].value.s)
  {
    if entries == [] then [] else [(entries[0].name, entries[0].value.s)] + StringPairs(entries[1..])
  }
}
