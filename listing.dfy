/**
 * The directory listing step of the keyword search: the remote service answers a
 * directory-listing request, and only the names of entries that are files whose
 * name ends in ".json" are kept, in the order the service returned them.
 * Every failure (a thrown request, a status other than 200, a body that is not an
 * array of entries) collapses to the empty sequence.
 */
module Listing {

  /** The suffix a listed file name must carry to be searched. */
  const JsonSuffix: string := ".json"

  /** The kind tag the service gives to ordinary files. */
  const FileKind: string := "file"

  /** One entry of a directory listing: its name and its kind tag ("file", "dir", ...). */
  datatype Entry = Entry(name: string, kind: string)

  /** The body of a listing answer: an array of entries, or some other JSON value. */
  datatype ListBody = Entries(entries: seq<Entry>) | NotAnArray

  /** What the listing request produced: an answer with a status and a body, or a thrown error. */
  datatype Listing = Answered(status: int, body: ListBody) | Threw

  /** `s.endsWith(suffix)` on strings. */
  predicate EndsWith(s: string, suffix: string)
  {
    |suffix| <= |s| && s[|s| - |suffix|..] == suffix
  }

  /** The filter's test: the entry is a file and its name ends in ".json". */
  predicate IsJsonFile(e: Entry)
  {
    e.kind == FileKind && EndsWith(e.name, JsonSuffix)
  }

  /** The names of the entries that pass `IsJsonFile`, in listing order. */
  function JsonFileNames(entries: seq<Entry>): (names: seq<string>)
    ensures |names| <= |entries|
    ensures forall k :: 0 <= k < |names| ==> EndsWith(names[k], JsonSuffix)
  {
    if entries == [] then []
    else if IsJsonFile(entries[0]) then [entries[0].name] + JsonFileNames(entries[1..])
    else JsonFileNames(entries[1..])
  }

  /**
   * The positions of the json-file entries, in increasing order: a reference
   * description of which entries the filter is meant to keep.
   */
  ghost function JsonIndices(entries: seq<Entry>): (ix: seq<nat>)
    ensures forall k :: 0 <= k < |ix| ==> ix[k] < |entries| && IsJsonFile(entries[ix[k]])
    ensures forall k, l :: 0 <= k < l < |ix| ==> ix[k] < ix[l]
    ensures forall j :: 0 <= j < |entries| && IsJsonFile(entries[j]) ==> j in ix
  {
    if entries == [] then []
    else
      var n := |entries| - 1;
      var front := entries[..n];
      assert forall j :: 0 <= j < n ==> entries[j] == front[j];
      JsonIndices(front) + (if IsJsonFile(entries[n]) then [n] else [])
  }

  /** Filtering a concatenation filters each part. */
  lemma {:induction false} JsonFileNamesAppend(a: seq<Entry>, b: seq<Entry>)
    ensures JsonFileNames(a + b) == JsonFileNames(a) + JsonFileNames(b)
  {
    if a == [] {
      assert a + b == b;
    } else {
      assert (a + b)[1..] == a[1..] + b;
      JsonFileNamesAppend(a[1..], b);
    }
  }

  /**
   * The filter keeps exactly the json-file entries, in their original relative
   * order: its k-th name is the name of the k-th json-file position.
   */
  lemma {:induction false} JsonFileNamesExact(entries: seq<Entry>)
    ensures |JsonFileNames(entries)| == |JsonIndices(entries)|
    ensures forall k :: 0 <= k < |JsonIndices(entries)| ==>
              JsonFileNames(entries)[k] == entries[JsonIndices(entries)[k]].name
  {
    if entries != [] {
      var n := |entries| - 1;
      var front := entries[..n];
      assert entries == front + [entries[n]];
      JsonFileNamesExact(front);
      JsonFileNamesAppend(front, [entries[n]]);
      assert [entries[n]][1..] == [];
      assert forall j :: 0 <= j < n ==> entries[j] == front[j];
    }
  }

  /** A name is kept exactly when some json-file entry carries it. */
  lemma {:induction false} InJsonFileNames(entries: seq<Entry>, name: string)
    ensures name in JsonFileNames(entries) <==>
              exists j :: 0 <= j < |entries| && entries[j].name == name && IsJsonFile(entries[j])
  {
    if entries != [] {
      InJsonFileNames(entries[1..], name);
      if name in JsonFileNames(entries[1..]) {
        var j :| 0 <= j < |entries[1..]| && entries[1..][j].name == name && IsJsonFile(entries[1..][j]);
        assert entries[j + 1] == entries[1..][j];
      }
      if exists j :: 0 <= j < |entries| && entries[j].name == name && IsJsonFile(entries[j]) {
        var j :| 0 <= j < |entries| && entries[j].name == name && IsJsonFile(entries[j]);
        if j > 0 {
          assert entries[1..][j - 1] == entries[j];
        }
      }
    }
  }

  /**
   * `listFiles`: the names to search. Only a 200 answer whose body is an array
   * yields names; everything else yields the empty sequence instead of an error.
   */
  function ListFiles(listing: Listing): (names: seq<string>)
    ensures names != [] ==> listing.Answered? && listing.status == 200 && listing.body.Entries?
    ensures listing.Answered? && listing.status == 200 && listing.body.Entries? ==>
              names == JsonFileNames(listing.body.entries)
  {
    match listing
    case Threw => []
    case Answered(status, body) =>
      if status == 200 then
        match body
        case Entries(entries) => JsonFileNames(entries)
        case NotAnArray => []
      else []
  }
}
