/**
 * How the endpoint turns a search outcome into an HTTP reply: a status code and
 * a JSON body with fixed messages. `FromReply` reads an outcome back from a
 * reply, so a client can tell every outcome apart from the reply alone.
 */
module Http {
  import opened Wrappers
  import opened Search

  const KeywordRequired: string := "Keyword is required"
  const ListingFailed: string := "Could not retrieve file list from GitHub."
  const FoundPrefix: string := "Keyword found in "
  const NotFoundMessage: string := "Keyword not found in any files."

  /** The JSON bodies the endpoint sends. */
  datatype Body =
    | ErrorBody(error: string)
    | MessageBody(message: string)
    | FoundBody(message: string, fileContent: string)

  datatype Reply = Reply(status: int, body: Body)

  /** `s` starts with `prefix`. */
  predicate StartsWith(s: string, prefix: string)
  {
    |prefix| <= |s| && s[..|prefix|] == prefix
  }

  /** Decodes a reply of the endpoint back into the outcome it reports. */
  function FromReply(r: Reply): Option<Outcome>
  {
    match r
    case Reply(400, ErrorBody(e)) =>
      if e == KeywordRequired then Some(BadRequest) else None
    case Reply(500, ErrorBody(e)) =>
      if e == ListingFailed then Some(ListFail) else None
    case Reply(200, FoundBody(m, c)) =>
      if StartsWith(m, FoundPrefix) then Some(Found(m[|FoundPrefix|..], c)) else None
    case Reply(404, MessageBody(m)) =>
      if m == NotFoundMessage then Some(NotFound) else None
    case _ => None
  }

  /**
   * The reply for an outcome: 400 for a missing keyword, 500 for an empty
   * listing, 200 with "Keyword found in <name>" and the file's content, 404 when
   * nothing matched. Every reply decodes back to the outcome it came from.
   */
  function ToReply(o: Outcome): (r: Reply)
    ensures FromReply(r) == Some(o)
    ensures r.status == 200 <==> o.Found?
  {
    match o
    case BadRequest => Reply(400, ErrorBody(KeywordRequired))
    case ListFail => Reply(500, ErrorBody(ListingFailed))
    case Found(name, content) =>
      var m := FoundPrefix + name;
      assert StartsWith(m, FoundPrefix) && m[|FoundPrefix|..] == name;
      Reply(200, FoundBody(m, content))
    case NotFound => Reply(404, MessageBody(NotFoundMessage))
  }

  /**
   * The reply of the endpoint as a whole: a 200 reply names a listed file, carries
   * exactly its fetched content, which contains the keyword, and reads
   * "Keyword found in <name>".
   */
  lemma FoundReply(keyword: Option<string>, listing: Listing.Listing, fetch: string -> Content)
    requires ToReply(Handle(keyword, listing, fetch)).status == 200
    ensures var r := ToReply(Handle(keyword, listing, fetch));
            var o := Handle(keyword, listing, fetch);
            && HasKeyword(keyword)
            && r.body == FoundBody(FoundPrefix + o.name, o.content)
            && o.name in Listing.ListFiles(listing)
            && fetch(o.name) == Text(r.body.fileContent)
            && Includes(r.body.fileContent, keyword.value)
  {
  }
}
