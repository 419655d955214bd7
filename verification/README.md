# YouTube channel transcript scraper — Dafny model

The program fetches every video of one YouTube channel and saves each
video's transcript as a Markdown file in a `transcripts` directory, and
appends it to a master file `master_transcript.md`. This project models
its core in Dafny, with every remote service and the filesystem turned
into explicit inputs:

- **Filename sanitiser** (`Filenames`): titles become file names by
  deleting `\ / * ? " < > |`.
- **Channel resolution** (`Patterns`, `ChannelRef`): the two regular
  expression searches `@(\w+)` and `/channel/([\w-]+)`, and the rule that a
  handle known to the channel search wins over a `/channel/` path.
- **Upload enumeration** (`Uploads`): the uploads playlist lookup and the
  continuation-token loop, specified against the chain of pages the service
  hands out.
- **Transcript body** (`Text`): segment texts joined with single spaces.
- **Run loop** (`Transcripts`): the `--start-at` slice, the per-video
  cycle (title lookup, skip when the file exists, transcript fetch, file
  write and master append) and the loop over all videos, with the disk
  modelled as a map from path to content plus the master file's content.
- **Main sequence** (`Scraper`): resolution, then the stage after it
  (enumeration and the loop for the resolved channel), with the program's
  early exits.

Remote calls are function-typed inputs returning `Reply<T>`: `Ok(value)` or
`Raised` (an exception). The channel search, the channel lookup, the
playlist pages, the video title lookup and the transcript service are each
one such function. A cycle's result is a typed outcome (`Written`,
`NotFound`, `AlreadySaved`, `Failed`) instead of a log line.

Three behaviours of the code worth knowing:

- When the handle search returns no channel, resolution falls through to
  the `/channel/<id>` match (`ResolveChannel`).
- An empty video list is not an error: the loop runs over nothing and the
  run completes (`Scrape`).
- `if not channel_id` rejects an empty channel id coming from the search,
  not only a missing one (`Scrape`).

The title-collision behaviour is kept as written: two titles that sanitise
to the same name share one file, so the second video is skipped
(`TitleCollision`).

## Model

| member | source | states |
|---|---|---|
| Filenames.Sanitize | scraper.py:66-68 | the result contains none of the eight invalid characters and is no longer than the title |
| Filenames.SanitizeCounts | scraper.py:66-68 | every valid character is kept exactly as often as the title has it, every invalid one is gone |
| Filenames.SanitizeAppend | scraper.py:68 | sanitising distributes over concatenation, so it deletes characters in place and keeps the order |
| Filenames.SanitizeChar | scraper.py:68 | a single character is deleted exactly when it is one of the eight |
| Filenames.SanitizeFixesClean | scraper.py:68 | a title comes back unchanged if and only if it has none of the eight characters |
| Filenames.SanitizeIdempotent | scraper.py:68 | sanitising twice equals sanitising once |
| Patterns.Run | scraper.py:32 | the greedy capture is the longest run of class characters from the given index |
| Patterns.FindFrom | scraper.py:22 | the search finds the leftmost index where the literal is followed by a class character, and None exactly when there is none |
| Patterns.Search | scraper.py:32-34 | a found group is a non-empty run of class characters captured at the leftmost match; None exactly when nothing matches |
| ChannelRef.ResolveChannel | scraper.py:19-35 | only the handle search raises; a handle with search results yields the first result even if a /channel/ path exists; None exactly when there is no /channel/ match and the handle is absent or unknown; otherwise the id is the /channel/ capture |
| ChannelRef.NoHandleNoSearch | scraper.py:22-30 | without an @handle the channel search is never consulted |
| ChannelRef.HandleAtEnd | scraper.py:22 | a reference ending in @handle, with no @ before it and a handle of word characters only, yields exactly that handle |
| ChannelRef.ConfiguredHandle | scraper.py:15 | the configured channel URL yields the handle RyanClogg |
| Uploads.WalkUnique | scraper.py:50-62 | the service fixes the pagination: there is at most one complete walk of pages |
| Uploads.ListPlaylist | scraper.py:47-64 | a listing is the items of a complete walk, page after page, with one request per page; when a complete walk fits in the request budget that is the result; an abort is an exception on the request after pages that all announced a further page; running out of budget means that many such pages came |
| Uploads.GetVideoIds | scraper.py:37-64 | a failed or empty channel lookup aborts before any page request; otherwise the ids are the pagination of the first item's uploads playlist, any other abort is an exception on one of its page requests, and running out of budget means `fuel` pages all announced a further one |
| Text.JoinSpaces | scraper.py:142 | joining no segments gives the empty text; otherwise the text starts with the first segment and is as long as all the segments together plus one space between each neighbouring pair |
| Text.JoinAppend | scraper.py:142 | joining two non-empty runs of segments puts exactly one space between their joins, whatever the segments contain: nothing is merged or lost at the seam |
| Text.SplitJoin | scraper.py:142 | splitting the joined body at spaces gives back the segments, when there is at least one and none contains a space |
| Text.JoinSplit | scraper.py:142 | joining the pieces of a split gives back the text |
| Text.JoinExample | scraper.py:142 | the segments Hello and world become Hello world |
| Transcripts.StartSlice | scraper.py:99-104 | a start at most 1 keeps the whole list; otherwise exactly start-1 leading ids are dropped, order kept, and nothing is left when that is at least the length |
| Transcripts.Step | scraper.py:119-159 | the disk changes if and only if the cycle wrote; a write creates a new file, never overwriting, with the title, URL and joined-segment entry, and appends that entry plus a rule to the master file; a skip for an existing file happens exactly when the lookup has an item and the file of its title exists, and names that file; the cycle fails exactly when the title lookup raises, or when it has an item, the file is missing and the transcript fetch raises |
| Transcripts.RunVideos | scraper.py:114-159 | every video gets an outcome, in list order, whatever the earlier outcomes; existing files keep their content; the master file gets the written entries, each followed by a rule, appended in order |
| Transcripts.AppendEntriesBlocks | scraper.py:150-154 | appending entry after entry leaves the old master content as a prefix followed by exactly the written blocks |
| Transcripts.RunNewFiles | scraper.py:134-148 | the files a run adds are exactly the paths of its writes |
| Transcripts.RunCountsFiles | scraper.py:134-148 | a run adds as many files as it has writes, so no write of a run replaces another |
| Transcripts.RunAppend | scraper.py:114 | running two lists in sequence is running their concatenation |
| Transcripts.OutcomeAt | scraper.py:114-118 | video k is processed on the disk the first k videos left |
| Transcripts.FaultIsolation | scraper.py:119-159 | a video that is not written leaves the later videos to run on an unchanged disk, ending as if it were absent |
| Transcripts.SkipDoesNotFetch | scraper.py:134-141 | with the file present the cycle skips and does not depend on the transcript service |
| Transcripts.QuietGrows | scraper.py:126-141 | a cycle that writes nothing on a disk writes nothing on any disk grown from it |
| Transcripts.StepSettles | scraper.py:134-138 | repeating a cycle for the same video writes nothing |
| Transcripts.RunSettles | scraper.py:114-138 | after a run no video of the list would write again |
| Transcripts.QuietRun | scraper.py:114-159 | a run in which no video would write leaves the disk unchanged |
| Transcripts.RerunChangesNothing | scraper.py:112-138 | running the same list again against the same services leaves files and master file as the first run left them |
| Transcripts.PathCollision | scraper.py:132-135 | two titles get the same path string exactly when they sanitise to the same name; no transcript path is the master file |
| Transcripts.WriteCycle | scraper.py:126-154 | a video with a title item, no file yet and a transcript is written, with the entry built from that title, its watch URL and the joined segments |
| Transcripts.IntroExample | scraper.py:140-154 | a video titled Intro with segments Hello and world gets transcripts/Intro.md holding the headers and Hello world, and the master file gains the same entry and a rule |
| Transcripts.WhyCollides | scraper.py:68 | the titles Why? and Why sanitise to the same name |
| Transcripts.TitleCollision | scraper.py:130-138 | of two videos processed in a row whose titles sanitise alike, the first is written and the second is skipped as already saved |
| Scraper.ProcessChannel | scraper.py:93-114 | for a resolved channel id: once its uploads are paged through completely within the budget the run completes with exactly those ids, and its outcomes and disk are the loop's over the start slice; a failed or empty channel lookup crashes; a crash is a failed lookup or an exception on a page request; giving up means the budget's worth of pages all announced a further one; nothing is written unless the run completes |
| Scraper.Scrape | scraper.py:86-114 | a resolution exception crashes and a missing or empty channel id stops, both without writing, and stopping happens only then; once the channel resolves and its uploads are paged through completely, the run completes with those ids and the loop's outcomes over the start slice; a failed or empty channel lookup crashes; a crash is a resolution exception, a failed lookup or an exception on a page request; a completed run lists the pagination of the resolved channel's uploads and only grows the disk |

## Left out

- API key loading and its placeholder check, and argument parsing (scraper.py:8-14, 72-82): configuration; the start position is a parameter.
- Building the API client and the actual service calls (scraper.py:24-28, 40-45, 51-56, 84, 121-124, 141): replaced by function-typed inputs; malformed responses (a missing key) count as `Raised`.
- The randomised sleep before each video (scraper.py:116): timing only, no effect on outputs.
- All printing, including the progress number `i + start_at` and the closing summary (scraper.py:86-106, 117-118, 127, 137, 156, 159-163).
- Creating the transcripts directory (scraper.py:108-110): the map of files has no directories; `os.path.exists` is modelled as membership of a file path.
- Transcripts.PathCollision: paths are compared as strings, as on a case-sensitive POSIX file system with `/` as separator. On Windows `os.path.join` uses `\`, and on a case-insensitive file system (macOS by default, Windows) titles such as "Intro" and "INTRO" also share one file, so there the second is skipped while the model writes both.
- Failures while writing files (scraper.py:145-154): writes always succeed in the model, so a half-written file after an OS error is not represented.
- Python's Unicode `\w`: word characters are taken as ASCII letters, digits and underscore.
- The page size of 50 is sent with every request, but how many items a page holds is left to the service.
- Segment fields other than the text (start, duration) are not modelled.
- Uploads.ListPlaylist: the program has no request budget and keeps requesting for as long as tokens keep coming; the model stops after `fuel` requests with `OutOfFuel`, so a complete result is promised only when the walk fits in the budget.
- Uploads.GetVideoIds: inherits that budget from the pagination.
- Scraper.Scrape: the `GaveUp` status exists only because of that budget.
