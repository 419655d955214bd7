/** The program's main sequence: resolve the channel, enumerate its
    uploads, then run the per-video loop from the start position. */
module Scraper {
  import opened Wrappers
  import opened ChannelRef
  import opened Uploads
  import opened Transcripts

  /** All remote services the program talks to. */
  datatype Remote = Remote(
    search: ChannelSearch,
    channels: ChannelService,
    playlist: PlaylistService,
    videos: Services)

  /** How a run ended. `Crashed` is an exception escaping resolution or
      enumeration, which ends the program; `NoChannel` the printed "Could
      not find channel ID."; `GaveUp` a pagination still going when the
      request budget ran out. */
  datatype Status =
    | Completed(videoIds: seq<string>, outcomes: seq<Outcome>)
    | NoChannel
    | Crashed
    | GaveUp

  /** The channel id `url` resolves to, when resolution gives a usable one. */
  predicate ResolvesTo(remote: Remote, url: string, cid: string) {
    ResolveChannel(url, remote.search) == Ok(Some(cid)) && cid != ""
  }

  /** The channel lookup for `cid` gives at least one uploads playlist. */
  predicate HasUploads(remote: Remote, cid: string) {
    remote.channels(cid).Ok? && |remote.channels(cid).value| > 0
  }

  /** The stage after resolution, for channel id `cid`: list the channel's
      uploads, then run the loop over the start slice of them. Unless it
      completes, no file is written. Once the uploads are paged through
      completely within the budget, the run completes with those ids and
      the loop's outcomes; an exception in the channel lookup, a lookup
      without items, or an exception on a page request crashes; giving up
      means `fuel` pages all announced a further one. */
  method ProcessChannel(remote: Remote, cid: string, disk: Disk, startAt: int, fuel: nat)
    returns (status: Status, after: Disk)
    ensures !status.Completed? ==> after == disk
    ensures !status.NoChannel?
    ensures !HasUploads(remote, cid) ==> status == Crashed
    ensures forall pages :: HasUploads(remote, cid) && IsWalk(remote.playlist, remote.channels(cid).value[0], pages) && |pages| <= fuel ==>
              status.Completed? && status.videoIds == AllItems(pages)
    ensures status == Crashed ==>
              !HasUploads(remote, cid) ||
              exists pages :: Pending(remote.playlist, remote.channels(cid).value[0], pages) &&
                              remote.playlist(Request(remote.channels(cid).value[0], TokenBefore(pages, |pages|))).Raised?
    ensures status == GaveUp ==>
              HasUploads(remote, cid) &&
              exists pages :: |pages| == fuel && Pending(remote.playlist, remote.channels(cid).value[0], pages)
    ensures status.Completed? ==>
              HasUploads(remote, cid) &&
              exists pages :: IsWalk(remote.playlist, remote.channels(cid).value[0], pages) &&
                              status.videoIds == AllItems(pages)
    ensures status.Completed? ==> ProcessFrom(remote.videos, disk, status.videoIds, startAt) == RunResult(status.outcomes, after)
  {
    after := disk;
    var listing, _ := GetVideoIds(remote.channels, remote.playlist, cid, fuel);
    match listing
    case Aborted =>
      return Crashed, after;
    case OutOfFuel =>
      return GaveUp, after;
    case Listed(ids) =>
      var run := ProcessFrom(remote.videos, disk, ids, startAt);
      return Completed(ids, run.outcomes), run.disk;
  }

  /** A run for channel reference `url`. Unless it completes, no file is
      written. A resolution exception crashes and a missing or empty
      channel id stops; otherwise the run is the stage after resolution
      for the resolved id: it completes once the uploads are paged through
      within the budget, and crashes on a failed or empty channel lookup or
      an exception on a page request. When it completes, every listed
      video from the start position on got exactly one outcome, in order,
      and the disk only grew. */
  method Scrape(remote: Remote, url: string, disk: Disk, startAt: int, fuel: nat)
    returns (status: Status, after: Disk)
    ensures !status.Completed? ==> after == disk
    ensures ResolveChannel(url, remote.search).Raised? ==> status == Crashed
    ensures status == NoChannel <==>
              ResolveChannel(url, remote.search) == Ok(None) || ResolveChannel(url, remote.search) == Ok(Some(""))
    ensures status.Completed? ==> ProcessFrom(remote.videos, disk, status.videoIds, startAt) == RunResult(status.outcomes, after)
    ensures status.Completed? ==>
              ResolveChannel(url, remote.search).Ok? && ResolveChannel(url, remote.search).value.Some? &&
              var cid := ResolveChannel(url, remote.search).value.value;
              cid != "" && HasUploads(remote, cid) &&
              exists pages :: IsWalk(remote.playlist, remote.channels(cid).value[0], pages) &&
                              status.videoIds == AllItems(pages)
    ensures forall cid, pages ::
              ResolvesTo(remote, url, cid) && HasUploads(remote, cid) &&
              IsWalk(remote.playlist, remote.channels(cid).value[0], pages) && |pages| <= fuel ==>
                status.Completed? && status.videoIds == AllItems(pages)
    ensures forall cid :: ResolvesTo(remote, url, cid) && !HasUploads(remote, cid) ==> status == Crashed
    ensures status == Crashed ==>
              ResolveChannel(url, remote.search).Raised? ||
              (ResolveChannel(url, remote.search).Ok? && ResolveChannel(url, remote.search).value.Some? &&
               var cid := ResolveChannel(url, remote.search).value.value;
               cid != "" &&
               (!HasUploads(remote, cid) ||
                exists pages :: Pending(remote.playlist, remote.channels(cid).value[0], pages) &&
                                remote.playlist(Request(remote.channels(cid).value[0], TokenBefore(pages, |pages|))).Raised?))
    ensures status == GaveUp ==>
              ResolveChannel(url, remote.search).Ok? && ResolveChannel(url, remote.search).value.Some? &&
              var cid := ResolveChannel(url, remote.search).value.value;
              cid != "" && HasUploads(remote, cid) &&
              exists pages :: |pages| == fuel && Pending(remote.playlist, remote.channels(cid).value[0], pages)
  {
    var resolved := ResolveChannel(url, remote.search);
    if resolved.Raised? {
      return Crashed, disk;
    }
    if resolved.value.None? || resolved.value.value == "" {
      return NoChannel, disk;
    }
    var channelId := resolved.value.value;
    assert ResolvesTo(remote, url, channelId);
    status, after := ProcessChannel(remote, channelId, disk, startAt, fuel);
  }
}
