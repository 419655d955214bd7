/** Resolving a channel reference (a URL or handle) to a channel id. */
module ChannelRef {
  import opened Wrappers
  import opened Patterns

  /** The channel reference the program is configured with. */
  const ChannelUrl: string := "https://www.youtube.com/@RyanClogg"

  const HandleMark: string := "@"
  const ChannelPath: string := "/channel/"

  /** The channel search of the metadata service: the channel ids of the
      results for a query, in the service's order, or an exception. */
  type ChannelSearch = string -> Reply<seq<string>>

  /** The handle after the first `@` that is followed by word characters. */
  function Handle(url: string): (r: Option<string>) {
    Search(url, HandleMark, Word)
  }

  /** The id in the first `/channel/<id>` of the reference. */
  function PathId(url: string): (r: Option<string>) {
    Search(url, ChannelPath, WordOrDash)
  }

  /** The handle search answered with at least one channel. */
  predicate HandleHit(url: string, search: ChannelSearch) {
    Handle(url).Some? && search(Handle(url).value).Ok? && |search(Handle(url).value).value| > 0
  }

  /** A handle, when present and known to the search, wins and yields the
      first result; otherwise the reference falls through to the
      `/channel/` path, and None means neither produced an id. Only the
      search can raise, and it is asked only when a handle is present. */
  function ResolveChannel(url: string, search: ChannelSearch): (r: Reply<Option<string>>)
    ensures r.Raised? <==> Handle(url).Some? && search(Handle(url).value).Raised?
    ensures HandleHit(url, search) ==> r == Ok(Some(search(Handle(url).value).value[0]))
    ensures r == Ok(None) <==>
              (forall i :: !MatchesAt(url, ChannelPath, WordOrDash, i)) &&
              (Handle(url).None? || search(Handle(url).value) == Ok([]))
    ensures r.Ok? && r.value.Some? && !HandleHit(url, search) ==>
              exists i :: IsLeftmost(url, ChannelPath, WordOrDash, 0, i) &&
                          r.value.value == Run(url, i + |ChannelPath|, WordOrDash)
  {
    match Handle(url)
    case Some(handle) =>
      (match search(handle)
       case Raised => Raised
       case Ok(ids) => if |ids| > 0 then Ok(Some(ids[0])) else Ok(PathId(url)))
    case None => Ok(PathId(url))
  }

  /** Without a handle in the reference, the search is never consulted:
      any two search services give the same answer. */
  lemma NoHandleNoSearch(url: string, search1: ChannelSearch, search2: ChannelSearch)
    requires forall i :: !MatchesAt(url, HandleMark, Word, i)
    ensures ResolveChannel(url, search1) == ResolveChannel(url, search2)
    ensures ResolveChannel(url, search1).Ok?
  {
  }

  /** A reference that ends in `@handle`, with no `@` before it and a
      handle of word characters only, yields exactly that handle. */
  lemma HandleAtEnd(prefix: string, handle: string)
    requires forall k :: 0 <= k < |prefix| ==> prefix[k] != '@'
    requires |handle| > 0 && forall k :: 0 <= k < |handle| ==> IsWordChar(handle[k])
    ensures Handle(prefix + HandleMark + handle) == Some(handle)
  {
    var url := prefix + HandleMark + handle;
    var i := |prefix|;
    NoEarlierMark(prefix, handle);
    assert url[i..i + 1] == HandleMark;
    assert IsLeftmost(url, HandleMark, Word, 0, i);
    SearchAt(url, HandleMark, Word, i);
    forall k | i + 1 <= k < |url|
      ensures InClass(url[k], Word)
    {
      assert url[k] == handle[k - i - 1];
    }
    RunToEnd(url, i + 1, Word);
    assert url[i + 1..] == handle;
  }

  /** With no `@` in `prefix`, the handle pattern matches nowhere inside it. */
  lemma NoEarlierMark(prefix: string, handle: string)
    requires forall k :: 0 <= k < |prefix| ==> prefix[k] != '@'
    ensures forall k :: 0 <= k < |prefix| ==> !MatchesAt(prefix + HandleMark + handle, HandleMark, Word, k)
  {
    var url := prefix + HandleMark + handle;
    forall k | 0 <= k < |prefix|
      ensures !MatchesAt(url, HandleMark, Word, k)
    {
      assert url[k..k + 1] == [prefix[k]];
    }
  }

  /** The configured reference is a handle URL: it asks the search for
      "RyanClogg". */
  lemma ConfiguredHandle()
    ensures Handle(ChannelUrl) == Some("RyanClogg")
  {
    assert ChannelUrl == "https://www.youtube.com/" + HandleMark + "RyanClogg";
    HandleAtEnd("https://www.youtube.com/", "RyanClogg");
  }
}
