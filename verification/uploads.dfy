/** Enumerating a channel's uploads: look up the channel's uploads
    playlist, then page through it with continuation tokens. */
module Uploads {
  import opened Wrappers

  /** Items asked for per page request. */
  const PageSize: nat := 50

  /** One page request: playlist, page size and continuation token (None
      on the first request). */
  datatype PageRequest = PageRequest(playlistId: string, maxResults: nat, pageToken: Option<string>)

  /** One page of the playlist: the video ids of its items, in the
      service's order, and the continuation token it carries, if any. */
  datatype Page = Page(items: seq<string>, nextToken: Option<string>)

  /** The playlist-items service of the metadata service. */
  type PlaylistService = PageRequest -> Reply<Page>

  /** The channel lookup of the metadata service: the uploads playlist id
      of each item it returns for a channel id. */
  type ChannelService = string -> Reply<seq<string>>

  /** The outcome of an enumeration. `Aborted` stands for an exception
      escaping the enumeration, which ends the whole program; `OutOfFuel`
      for a service that was still handing out tokens when the request
      budget ran out. */
  datatype Listing = Listed(ids: seq<string>) | Aborted | OutOfFuel

  /** A page announces a further page: its token is present and non-empty
      (an absent and an empty token both end the loop). */
  predicate HasNext(p: Page) {
    p.nextToken.Some? && p.nextToken.value != ""
  }

  function Request(playlistId: string, token: Option<string>): (r: PageRequest) {
    PageRequest(playlistId, PageSize, token)
  }

  /** The token sent with the request for page `k`: none for the first, the
      previous page's token for every later one. */
  function TokenBefore(pages: seq<Page>, k: nat): (r: Option<string>)
    requires k <= |pages|
  {
    if k == 0 then None else pages[k - 1].nextToken
  }

  /** Page `k` is the service's answer to the request built from the page
      before it. */
  predicate Answers(fetch: PlaylistService, playlistId: string, pages: seq<Page>, k: nat)
    requires k < |pages|
  {
    fetch(Request(playlistId, TokenBefore(pages, k))) == Ok(pages[k])
  }

  /** `pages` are answers to successive requests, each but possibly the
      last announcing a further page. */
  predicate IsChain(fetch: PlaylistService, playlistId: string, pages: seq<Page>) {
    (forall k :: 0 <= k < |pages| ==> Answers(fetch, playlistId, pages, k)) &&
    (forall k :: 0 <= k < |pages| - 1 ==> HasNext(pages[k]))
  }

  /** `pages` are answers to successive requests and every one of them
      announces a further page: the loop is still going after them. */
  predicate Pending(fetch: PlaylistService, playlistId: string, pages: seq<Page>) {
    IsChain(fetch, playlistId, pages) && forall k :: 0 <= k < |pages| ==> HasNext(pages[k])
  }

  /** `pages` is the complete pagination of the playlist: a chain whose last
      page announces nothing further. */
  predicate IsWalk(fetch: PlaylistService, playlistId: string, pages: seq<Page>) {
    |pages| > 0 && IsChain(fetch, playlistId, pages) && !HasNext(pages[|pages| - 1])
  }

  /** The items of all pages, page after page. */
  function AllItems(pages: seq<Page>): (r: seq<string>) {
    if pages == [] then [] else AllItems(pages[..|pages| - 1]) + pages[|pages| - 1].items
  }

  /** A chain of pages that all announce a further page grows by the
      service's answer to the next request. */
  lemma ChainExtend(fetch: PlaylistService, playlistId: string, pages: seq<Page>, page: Page)
    requires IsChain(fetch, playlistId, pages)
    requires forall k :: 0 <= k < |pages| ==> HasNext(pages[k])
    requires fetch(Request(playlistId, TokenBefore(pages, |pages|))) == Ok(page)
    ensures IsChain(fetch, playlistId, pages + [page])
  {
    var ext := pages + [page];
    forall k | 0 <= k < |ext|
      ensures Answers(fetch, playlistId, ext, k)
    {
      if k < |pages| {
        assert Answers(fetch, playlistId, pages, k);
        assert TokenBefore(ext, k) == TokenBefore(pages, k);
      }
    }
  }

  /** Page `n` of a walk is the answer to the request carrying the token
      of page `n - 1`. */
  lemma WalkAnswers(fetch: PlaylistService, playlistId: string, w: seq<Page>, n: nat)
    requires IsWalk(fetch, playlistId, w) && n < |w|
    ensures fetch(Request(playlistId, TokenBefore(w, n))) == Ok(w[n])
  {
    assert Answers(fetch, playlistId, w, n);
  }

  /** The service fixes the pagination: there is at most one complete walk. */
  lemma {:induction false} WalkUnique(fetch: PlaylistService, playlistId: string, w1: seq<Page>, w2: seq<Page>)
    requires IsWalk(fetch, playlistId, w1) && IsWalk(fetch, playlistId, w2)
    ensures w1 == w2
  {
    var n := 0;
    while n < |w1| && n < |w2| && w1[n] == w2[n]
      invariant n <= |w1| && n <= |w2|
      invariant w1[..n] == w2[..n]
      decreases |w1| - n
    {
      n := n + 1;
    }
    if n < |w1| && n < |w2| {
      WalkAnswers(fetch, playlistId, w1, n);
      WalkAnswers(fetch, playlistId, w2, n);
      assert false;
    } else if n < |w1| || n < |w2| {
      assert false;
    } else {
      assert w1 == w1[..n] == w2[..n] == w2;
    }
  }

  /** Every walk within the budget that begins with `seen` goes on with the
      service's answer to the next request. */
  lemma WalksContinue(fetch: PlaylistService, playlistId: string, seen: seq<Page>, page: Page, fuel: nat)
    requires forall w :: IsWalk(fetch, playlistId, w) && |w| <= fuel ==> |seen| < |w| && w[..|seen|] == seen
    requires fetch(Request(playlistId, TokenBefore(seen, |seen|))) == Ok(page)
    ensures forall w :: IsWalk(fetch, playlistId, w) && |w| <= fuel ==>
              w[..|seen| + 1] == seen + [page] && (HasNext(page) ==> |seen| + 1 < |w|)
  {
    forall w | IsWalk(fetch, playlistId, w) && |w| <= fuel
      ensures w[..|seen| + 1] == seen + [page] && (HasNext(page) ==> |seen| + 1 < |w|)
    {
      WalkAnswers(fetch, playlistId, w, |seen|);
      assert w[..|seen| + 1] == w[..|seen|] + [w[|seen|]];
    }
  }

  /** An exception on the request after `seen` leaves no walk within the
      budget that begins with `seen`. */
  lemma RaisedEndsWalks(fetch: PlaylistService, playlistId: string, seen: seq<Page>, fuel: nat)
    requires forall w :: IsWalk(fetch, playlistId, w) && |w| <= fuel ==> |seen| < |w| && w[..|seen|] == seen
    requires fetch(Request(playlistId, TokenBefore(seen, |seen|))).Raised?
    ensures forall w :: IsWalk(fetch, playlistId, w) ==> |w| > fuel
  {
    forall w | IsWalk(fetch, playlistId, w)
      ensures |w| > fuel
    {
      if |w| <= fuel {
        WalkAnswers(fetch, playlistId, w, |seen|);
      }
    }
  }

  /** The pagination loop: request pages, collecting their items, until a
      page carries no (or an empty) continuation token; any exception ends
      it. At most `fuel` requests are made. When the service has a complete
      walk that fits in the budget, the result is the items of its pages in
      page order and exactly one request was made per page. An abort is an
      exception on the request following a run of pages that all announced
      a further page; running out of budget means `fuel` such pages came. */
  method ListPlaylist(fetch: PlaylistService, playlistId: string, fuel: nat)
    returns (r: Listing, requests: nat)
    ensures requests <= fuel
    ensures r.Aborted? ==>
              exists pages :: Pending(fetch, playlistId, pages) && requests == |pages| + 1 &&
                              fetch(Request(playlistId, TokenBefore(pages, |pages|))).Raised?
    ensures r.OutOfFuel? ==>
              requests == fuel && exists pages :: |pages| == fuel && Pending(fetch, playlistId, pages)
    ensures r.Listed? ==>
              exists pages :: IsWalk(fetch, playlistId, pages) && r.ids == AllItems(pages) && requests == |pages|
    ensures forall pages :: IsWalk(fetch, playlistId, pages) && |pages| <= fuel ==>
              r == Listed(AllItems(pages)) && requests == |pages|
  {
    var ids: seq<string> := [];
    var token: Option<string> := None;
    ghost var seen: seq<Page> := [];
    requests := 0;
    while true
      invariant requests == |seen| <= fuel
      invariant IsChain(fetch, playlistId, seen)
      invariant forall k :: 0 <= k < |seen| ==> HasNext(seen[k])
      invariant token == TokenBefore(seen, |seen|)
      invariant ids == AllItems(seen)
      invariant forall w :: IsWalk(fetch, playlistId, w) && |w| <= fuel ==> |seen| < |w| && w[..|seen|] == seen
      decreases fuel - requests
    {
      if requests == fuel {
        assert Pending(fetch, playlistId, seen);
        return OutOfFuel, requests;
      }
      var reply := fetch(Request(playlistId, token));
      requests := requests + 1;
      match reply
      case Raised =>
        RaisedEndsWalks(fetch, playlistId, seen, fuel);
        assert Pending(fetch, playlistId, seen);
        return Aborted, requests;
      case Ok(page) =>
        WalksContinue(fetch, playlistId, seen, page, fuel);
        ids := ids + page.items;
        assert (seen + [page])[..|seen|] == seen;
        ChainExtend(fetch, playlistId, seen, page);
        seen := seen + [page];
        if !HasNext(page) {
          assert IsWalk(fetch, playlistId, seen);
          forall w | IsWalk(fetch, playlistId, w) && |w| <= fuel
            ensures w == seen
          {
            WalkUnique(fetch, playlistId, w, seen);
          }
          return Listed(ids), requests;
        }
        token := page.nextToken;
    }
  }

  /** The uploads of a channel: the uploads playlist of the first item the
      channel lookup returns, paged through. An exception from the lookup,
      or a lookup without items, aborts before any page is requested; any
      other abort is an exception on a page request, and running out of
      budget means `fuel` pages all announced a further one. */
  method GetVideoIds(channels: ChannelService, fetch: PlaylistService, channelId: string, fuel: nat)
    returns (r: Listing, requests: nat)
    ensures channels(channelId).Raised? || channels(channelId) == Ok([]) ==> r == Aborted && requests == 0
    ensures r.Listed? ==>
              channels(channelId).Ok? && |channels(channelId).value| > 0 &&
              exists pages :: IsWalk(fetch, channels(channelId).value[0], pages) &&
                              r.ids == AllItems(pages) && requests == |pages|
    ensures channels(channelId).Ok? && |channels(channelId).value| > 0 ==>
              forall pages :: IsWalk(fetch, channels(channelId).value[0], pages) && |pages| <= fuel ==>
                r == Listed(AllItems(pages)) && requests == |pages|
    ensures r.Aborted? && channels(channelId).Ok? && |channels(channelId).value| > 0 ==>
              exists pages :: Pending(fetch, channels(channelId).value[0], pages) && requests == |pages| + 1 &&
                              fetch(Request(channels(channelId).value[0], TokenBefore(pages, |pages|))).Raised?
    ensures r.OutOfFuel? ==>
              channels(channelId).Ok? && |channels(channelId).value| > 0 && requests == fuel &&
              exists pages :: |pages| == fuel && Pending(fetch, channels(channelId).value[0], pages)
  {
    match channels(channelId)
    case Raised =>
      return Aborted, 0;
    case Ok(uploads) =>
      if |uploads| == 0 {
        return Aborted, 0;
      }
      r, requests := ListPlaylist(fetch, uploads[0], fuel);
  }
}
