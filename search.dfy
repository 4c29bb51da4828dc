/**
 * The search decision of the `/search` endpoint. The keyword is validated, the
 * directory is listed once, and the listed files are fetched one after another;
 * the first file whose textual content contains the keyword wins and the scan
 * stops. The remote service is abstracted: the listing is a given value and
 * fetching is a given function from file name to content.
 */
module Search {
  import opened Wrappers
  import opened Listing

  /**
   * What fetching one file produced: nothing (the request failed and `null` came
   * back), a value that is not a string (such as a parsed JSON object), or text.
   */
  datatype Content = Absent | NonString | Text(text: string)

  /** The outcome of one search request. */
  datatype Outcome =
    | BadRequest                           // keyword missing or empty
    | ListFail                             // the filtered listing is empty
    | Found(name: string, content: string) // first file containing the keyword
    | NotFound                             // no listed file contains the keyword

  /** The keyword test `!keyword`: a missing or empty keyword is rejected. */
  predicate HasKeyword(keyword: Option<string>)
  {
    keyword.Some? && keyword.value != ""
  }

  /** The keyword to search for; only meaningful when `HasKeyword` holds. */
  function KeyOf(keyword: Option<string>): string
  {
    if keyword.Some? then keyword.value else ""
  }

  /** `k` occurs in `s` starting at position `i`. */
  ghost predicate OccursAt(s: string, k: string, i: int)
  {
    0 <= i && i + |k| <= |s| && s[i..i + |k|] == k
  }

  /** `s.includes(k)`: literal, case-sensitive substring search. */
  function Includes(s: string, k: string): (r: bool)
    ensures r <==> exists i :: OccursAt(s, k, i)
    decreases |s|
  {
    if |s| < |k| then false
    else if s[..|k|] == k then
      assert OccursAt(s, k, 0);
      true
    else
      var rest := Includes(s[1..], k);
      assert rest ==> exists i :: OccursAt(s, k, i) by {
        if rest {
          var i :| OccursAt(s[1..], k, i);
          assert s[1..][i..i + |k|] == s[i + 1..i + 1 + |k|];
          assert OccursAt(s, k, i + 1);
        }
      }
      assert (exists i :: OccursAt(s, k, i)) ==> rest by {
        if exists i :: OccursAt(s, k, i) {
          var i :| OccursAt(s, k, i);
          assert i != 0;
          assert s[1..][i - 1..i - 1 + |k|] == s[i..i + |k|];
          assert OccursAt(s[1..], k, i - 1);
        }
      }
      rest
  }

  /** The test `fileContent && typeof fileContent === 'string'`: non-empty text. */
  predicate Readable(c: Content)
  {
    c.Text? && c.text != ""
  }

  /** A fetched file matches when its content is readable and contains the keyword. */
  predicate Matches(c: Content, k: string)
  {
    Readable(c) && Includes(c.text, k)
  }

  /**
   * The position of the first listed file whose content matches, or `|names|`
   * when none does.
   */
  function FirstMatch(names: seq<string>, fetch: string -> Content, k: string): (i: nat)
    ensures i <= |names|
    ensures i < |names| ==> Matches(fetch(names[i]), k)
    ensures forall j :: 0 <= j < i ==> !Matches(fetch(names[j]), k)
    decreases |names|
  {
    if names == [] then 0
    else if Matches(fetch(names[0]), k) then 0
    else
      var i := FirstMatch(names[1..], fetch, k);
      assert forall j :: 1 <= j <= i ==> names[j] == names[1..][j - 1];
      1 + i
  }

  /**
   * The scan loop as a recursive function: the first listed file whose content
   * matches is found, with its fetched text, and NotFound is returned when none does.
   */
  function Scan(names: seq<string>, fetch: string -> Content, k: string): (r: Outcome)
    ensures var i := FirstMatch(names, fetch, k);
            r == if i < |names| then Found(names[i], fetch(names[i]).text) else NotFound
    decreases |names|
  {
    if names == [] then NotFound
    else if Matches(fetch(names[0]), k) then Found(names[0], fetch(names[0]).text)
    else
      var r := Scan(names[1..], fetch, k);
      assert FirstMatch(names, fetch, k) == 1 + FirstMatch(names[1..], fetch, k);
      r
  }

  /**
   * The whole handler as a function of the keyword, the listing answer and the
   * fetch oracle: BadRequest without a keyword, ListFail for an empty filtered
   * listing, otherwise the file at the first matching position or NotFound.
   */
  function Handle(keyword: Option<string>, listing: Listing, fetch: string -> Content): (r: Outcome)
    ensures !HasKeyword(keyword) ==> r == BadRequest
    ensures HasKeyword(keyword) && ListFiles(listing) == [] ==> r == ListFail
    ensures HasKeyword(keyword) && ListFiles(listing) != [] ==>
              var names := ListFiles(listing);
              var i := FirstMatch(names, fetch, keyword.value);
              r == if i < |names| then Found(names[i], fetch(names[i]).text) else NotFound
  {
    if !HasKeyword(keyword) then BadRequest
    else
      var names := ListFiles(listing);
      if names == [] then ListFail
      else Scan(names, fetch, keyword.value)
  }

  /**
   * A Found outcome names a listed file whose fetched content is exactly the
   * returned text, which contains the keyword, and every file listed before it
   * was absent, not text, or did not contain the keyword.
   */
  lemma HandleFoundIsFirstMatch(keyword: Option<string>, listing: Listing, fetch: string -> Content)
    requires Handle(keyword, listing, fetch).Found?
    ensures HasKeyword(keyword)
    ensures var names := ListFiles(listing);
            var r := Handle(keyword, listing, fetch);
            exists i :: 0 <= i < |names| && names[i] == r.name
              && fetch(r.name) == Text(r.content)
              && r.content != "" && Includes(r.content, keyword.value)
              && (forall j :: 0 <= j < i ==> !Matches(fetch(names[j]), keyword.value))
  {
  }

  /** The found file is in the listing: it is the name of a json-file entry. */
  lemma HandleFoundIsListed(keyword: Option<string>, listing: Listing, fetch: string -> Content)
    requires Handle(keyword, listing, fetch).Found?
    ensures listing.Answered? && listing.status == 200 && listing.body.Entries?
    ensures var es := listing.body.entries;
            exists j :: 0 <= j < |es| && IsJsonFile(es[j])
              && es[j].name == Handle(keyword, listing, fetch).name
  {
    HandleFoundIsFirstMatch(keyword, listing, fetch);
    InJsonFileNames(listing.body.entries, Handle(keyword, listing, fetch).name);
  }

  /**
   * Conversely, unreadable or non-matching files never stop the scan: when the
   * file at position `i` matches and none before it does, that file is found.
   */
  lemma FoundAtFirstMatch(keyword: Option<string>, listing: Listing, fetch: string -> Content, i: nat)
    requires HasKeyword(keyword)
    requires i < |ListFiles(listing)|
    requires Matches(fetch(ListFiles(listing)[i]), keyword.value)
    requires forall j :: 0 <= j < i ==> !Matches(fetch(ListFiles(listing)[j]), keyword.value)
    ensures var name := ListFiles(listing)[i];
            Handle(keyword, listing, fetch) == Found(name, fetch(name).text)
  {
  }

  /** NotFound is returned exactly when the listing is non-empty and no listed file matches. */
  lemma HandleNotFoundIffNoMatch(keyword: Option<string>, listing: Listing, fetch: string -> Content)
    requires HasKeyword(keyword)
    ensures var names := ListFiles(listing);
            Handle(keyword, listing, fetch) == NotFound <==>
              names != [] && forall j :: 0 <= j < |names| ==> !Matches(fetch(names[j]), keyword.value)
  {
  }

  /**
   * The `/search` handler as written: validate, list once, then fetch the listed
   * files in order and stop at the first match. `listed` says whether the listing
   * request was made and `fetched` records the names requested, in order.
   */
  method HandleSearch(keyword: Option<string>, listing: Listing, fetch: string -> Content)
    returns (out: Outcome, listed: bool, fetched: seq<string>)
    ensures out == Handle(keyword, listing, fetch)
    ensures listed <==> HasKeyword(keyword)
    ensures fetched <= ListFiles(listing)
    ensures |fetched| == match out
                         case Found(_, _) => FirstMatch(ListFiles(listing), fetch, KeyOf(keyword)) + 1
                         case NotFound => |ListFiles(listing)|
                         case _ => 0
  {
    listed, fetched := false, [];
    if !HasKeyword(keyword) {
      return BadRequest, listed, fetched;
    }
    var k := keyword.value;
    var names := ListFiles(listing);
    listed := true;
    if names == [] {
      return ListFail, listed, fetched;
    }
    ghost var m := FirstMatch(names, fetch, k);
    for n := 0 to |names|
      invariant fetched == names[..n]
      invariant n <= m
    {
      var content := fetch(names[n]);
      fetched := fetched + [names[n]];
      if Readable(content) {
        if Includes(content.text, k) {
          return Found(names[n], content.text), listed, fetched;
        }
      }
    }
    return NotFound, listed, fetched;
  }
}
