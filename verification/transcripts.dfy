/** The per-video cycle and the loop that runs it over the video list.
    The output directory and the master file are modelled as a map from
    path to content plus the master file's content; the two services a
    cycle consults are given as functions from video id to their reply. */
module Transcripts {
  import opened Wrappers
  import opened Filenames
  import opened Text

  const TranscriptsDir: string := "transcripts"
  const MasterFile: string := "master_transcript.md"
  const Extension: string := ".md"
  const WatchPrefix: string := "https://www.youtube.com/watch?v="
  /** What follows every entry appended to the master file. */
  const Rule: string := "\n\n---\n\n"

  /** The output files: the individual transcript files by path, and the
      master file (empty when it does not exist yet). */
  datatype Disk = Disk(files: map<string, string>, master: string)

  /** The two remote calls of a cycle: the titles of the items the video
      lookup returns, and the texts of the transcript's segments in order. */
  datatype Services = Services(
    titles: string -> Reply<seq<string>>,
    transcript: string -> Reply<seq<string>>)

  /** What one cycle did. Only `Written` touches the disk. */
  datatype Outcome =
    | Written(path: string, entry: string)
    | NotFound
    | AlreadySaved(path: string)
    | Failed

  datatype Cycle = Cycle(outcome: Outcome, disk: Disk)

  datatype RunResult = RunResult(outcomes: seq<Outcome>, disk: Disk)

  function VideoUrl(id: string): (r: string) {
    WatchPrefix + id
  }

  /** The individual file of a title: the sanitised title with the
      extension, inside the transcripts directory. */
  function TranscriptPath(title: string): (r: string) {
    TranscriptsDir + "/" + Sanitize(title) + Extension
  }

  /** Title line, URL line, blank line, transcript body. */
  function Entry(title: string, url: string, body: string): (r: string) {
    "# " + title + "\n" + "## " + url + "\n\n" + body
  }

  /** Everything outside `path` is as before and the file at `path` is new. */
  predicate AddsFile(before: Disk, after: Disk, path: string, entry: string) {
    path !in before.files && after.files == before.files[path := entry]
  }

  /** `after` keeps every file of `before` with its content and only
      extends the master file. */
  predicate Grows(before: Disk, after: Disk) {
    before.files.Keys <= after.files.Keys &&
    (forall p :: p in before.files ==> after.files[p] == before.files[p]) &&
    before.master <= after.master
  }

  /** One cycle for video `id`: look up its title, skip it when the lookup
      has no item or its file already exists, fetch the transcript, and on
      success create the file and append the same entry plus a rule to the
      master file. An exception from either call is caught and the cycle
      leaves the disk as it was. */
  function Step(svc: Services, d: Disk, id: string): (c: Cycle)
    ensures c.outcome.Written? <==> c.disk != d
    ensures Grows(d, c.disk)
    ensures c.outcome.Written? ==>
              AddsFile(d, c.disk, c.outcome.path, c.outcome.entry) &&
              c.disk.master == d.master + c.outcome.entry + Rule
    ensures c.outcome.Written? ==>
              svc.titles(id).Ok? && |svc.titles(id).value| > 0 && svc.transcript(id).Ok? &&
              c.outcome.path == TranscriptPath(svc.titles(id).value[0]) &&
              c.outcome.entry == Entry(svc.titles(id).value[0], VideoUrl(id), JoinSpaces(svc.transcript(id).value))
    ensures c.outcome.AlreadySaved? ==> c.outcome.path in d.files
    ensures c.outcome.NotFound? <==> svc.titles(id) == Ok([])
    ensures c.outcome.AlreadySaved? <==>
              svc.titles(id).Ok? && |svc.titles(id).value| > 0 && TranscriptPath(svc.titles(id).value[0]) in d.files
    ensures c.outcome.AlreadySaved? ==> c.outcome.path == TranscriptPath(svc.titles(id).value[0])
    ensures c.outcome.Failed? <==>
              svc.titles(id).Raised? ||
              (svc.titles(id).Ok? && |svc.titles(id).value| > 0 &&
               TranscriptPath(svc.titles(id).value[0]) !in d.files && svc.transcript(id).Raised?)
  {
    match svc.titles(id)
    case Raised => Cycle(Failed, d)
    case Ok(items) =>
      if |items| == 0 then Cycle(NotFound, d)
      else
        var title := items[0];
        var path := TranscriptPath(title);
        if path in d.files then Cycle(AlreadySaved(path), d)
        else
          match svc.transcript(id)
          case Raised => Cycle(Failed, d)
          case Ok(segs) =>
            var entry := Entry(title, VideoUrl(id), JoinSpaces(segs));
            Cycle(Written(path, entry), Disk(d.files[path := entry], d.master + entry + Rule))
  }

  /** The entries a run appends to the master file, in order. */
  function MasterBlocks(outs: seq<Outcome>): (r: string) {
    if outs == [] then ""
    else (if outs[0].Written? then outs[0].entry + Rule else "") + MasterBlocks(outs[1..])
  }

  /** The master file after appending, in order, the entry and a rule for
      every outcome that wrote. */
  function AppendEntries(master: string, outs: seq<Outcome>): (r: string)
    decreases |outs|
  {
    if outs == [] then master
    else AppendEntries(if outs[0].Written? then master + outs[0].entry + Rule else master, outs[1..])
  }

  /** Appending entry after entry leaves the old master file as a prefix,
      followed by exactly the written blocks. */
  lemma {:induction false} AppendEntriesBlocks(master: string, outs: seq<Outcome>)
    ensures AppendEntries(master, outs) == master + MasterBlocks(outs)
    decreases |outs|
  {
    if outs != [] {
      var block := if outs[0].Written? then outs[0].entry + Rule else "";
      var next := if outs[0].Written? then master + outs[0].entry + Rule else master;
      assert next == master + block;
      AppendEntriesBlocks(next, outs[1..]);
      assert (master + block) + MasterBlocks(outs[1..]) == master + (block + MasterBlocks(outs[1..]));
    }
  }

  /** The files a run creates. */
  function WrittenPaths(outs: seq<Outcome>): (r: set<string>) {
    if outs == [] then {}
    else (if outs[0].Written? then {outs[0].path} else {}) + WrittenPaths(outs[1..])
  }

  /** The number of cycles that wrote. */
  function CountWritten(outs: seq<Outcome>): (r: nat) {
    if outs == [] then 0
    else (if outs[0].Written? then 1 else 0) + CountWritten(outs[1..])
  }

  /** The loop over the videos, one cycle each, in order; no outcome stops
      it. Every video gets an outcome; existing files are kept; the master
      file gets the written entries appended, in order. */
  function RunVideos(svc: Services, d: Disk, ids: seq<string>): (res: RunResult)
    ensures |res.outcomes| == |ids|
    ensures Grows(d, res.disk)
    ensures res.disk.master == AppendEntries(d.master, res.outcomes)
    decreases |ids|
  {
    if ids == [] then RunResult([], d)
    else
      var c := Step(svc, d, ids[0]);
      var rest := RunVideos(svc, c.disk, ids[1..]);
      var outs := [c.outcome] + rest.outcomes;
      assert outs[1..] == rest.outcomes;
      RunResult(outs, rest.disk)
  }

  /** One turn of the loop: the first video, then the rest on its disk. */
  lemma RunCons(svc: Services, d: Disk, id: string, rest: seq<string>)
    ensures RunVideos(svc, d, [id] + rest) ==
            RunResult([Step(svc, d, id).outcome] + RunVideos(svc, Step(svc, d, id).disk, rest).outcomes,
                      RunVideos(svc, Step(svc, d, id).disk, rest).disk)
  {
    assert ([id] + rest)[1..] == rest;
  }

  /** The files a run adds are exactly the written ones. */
  lemma {:induction false} RunNewFiles(svc: Services, d: Disk, ids: seq<string>)
    ensures RunVideos(svc, d, ids).disk.files.Keys == d.files.Keys + WrittenPaths(RunVideos(svc, d, ids).outcomes)
    decreases |ids|
  {
    if ids != [] {
      var c := Step(svc, d, ids[0]);
      var rest := RunVideos(svc, c.disk, ids[1..]);
      assert ids == [ids[0]] + ids[1..];
      RunCons(svc, d, ids[0], ids[1..]);
      RunNewFiles(svc, c.disk, ids[1..]);
      assert ([c.outcome] + rest.outcomes)[1..] == rest.outcomes;
    }
  }

  /** Each write adds a file of its own: a run adds as many files as it has
      writes, so no two writes of a run share a path. */
  lemma {:induction false} RunCountsFiles(svc: Services, d: Disk, ids: seq<string>)
    ensures |RunVideos(svc, d, ids).disk.files| == |d.files| + CountWritten(RunVideos(svc, d, ids).outcomes)
    decreases |ids|
  {
    if ids != [] {
      var c := Step(svc, d, ids[0]);
      var rest := RunVideos(svc, c.disk, ids[1..]);
      assert ids == [ids[0]] + ids[1..];
      RunCons(svc, d, ids[0], ids[1..]);
      RunCountsFiles(svc, c.disk, ids[1..]);
      assert ([c.outcome] + rest.outcomes)[1..] == rest.outcomes;
      assert |c.disk.files| == |d.files| + (if c.outcome.Written? then 1 else 0);
    }
  }

  /** The videos processed for a 1-based start position: all of them when
      the position is at most 1, otherwise the list without its first
      `startAt - 1` ids, in the original order (empty when that drops
      everything). */
  function StartSlice(ids: seq<string>, startAt: int): (r: seq<string>)
    ensures startAt <= 1 ==> r == ids
    ensures startAt > 1 && startAt - 1 <= |ids| ==> |r| == |ids| - (startAt - 1)
    ensures startAt > 1 && startAt - 1 >= |ids| ==> r == []
    ensures r == ids[|ids| - |r|..]
  {
    if startAt > 1 then
      if startAt - 1 <= |ids| then ids[startAt - 1..] else []
    else ids
  }

  /** The loop from the start position on. */
  function ProcessFrom(svc: Services, d: Disk, ids: seq<string>, startAt: int): (r: RunResult) {
    RunVideos(svc, d, StartSlice(ids, startAt))
  }

  /** Running two lists one after the other is running their concatenation. */
  lemma {:induction false} RunAppend(svc: Services, d: Disk, a: seq<string>, b: seq<string>)
    ensures RunVideos(svc, d, a + b) ==
            RunResult(RunVideos(svc, d, a).outcomes + RunVideos(svc, RunVideos(svc, d, a).disk, b).outcomes,
                      RunVideos(svc, RunVideos(svc, d, a).disk, b).disk)
    decreases |a|
  {
    if a == [] {
      assert a + b == b;
    } else {
      var c := Step(svc, d, a[0]);
      assert (a + b)[0] == a[0];
      assert (a + b)[1..] == a[1..] + b;
      RunAppend(svc, c.disk, a[1..], b);
      var ra := RunVideos(svc, c.disk, a[1..]);
      var rb := RunVideos(svc, ra.disk, b);
      assert [c.outcome] + (ra.outcomes + rb.outcomes) == ([c.outcome] + ra.outcomes) + rb.outcomes;
    }
  }

  /** Video `k` is processed on the disk the first `k` videos left behind. */
  lemma OutcomeAt(svc: Services, d: Disk, ids: seq<string>, k: nat)
    requires k < |ids|
    ensures RunVideos(svc, d, ids).outcomes[k] ==
            Step(svc, RunVideos(svc, d, ids[..k]).disk, ids[k]).outcome
  {
    var mid := RunVideos(svc, d, ids[..k]);
    assert ids == ids[..k] + ids[k..];
    RunAppend(svc, d, ids[..k], ids[k..]);
    var rest := RunVideos(svc, mid.disk, ids[k..]);
    assert ids[k..][1..] == ids[k + 1..];
    assert rest.outcomes[0] == Step(svc, mid.disk, ids[k]).outcome;
  }

  /** Fault isolation: when video `k` does not get written (no item, file
      already there, or an exception), the run continues with videos
      `k + 1 ..` on an unchanged disk, and ends exactly as if video `k` had
      not been in the list. */
  lemma FaultIsolation(svc: Services, d: Disk, ids: seq<string>, k: nat)
    requires k < |ids|
    requires !Step(svc, RunVideos(svc, d, ids[..k]).disk, ids[k]).outcome.Written?
    ensures RunVideos(svc, d, ids).outcomes[k + 1..] ==
            RunVideos(svc, RunVideos(svc, d, ids[..k]).disk, ids[k + 1..]).outcomes
    ensures RunVideos(svc, d, ids).disk == RunVideos(svc, d, ids[..k] + ids[k + 1..]).disk
  {
    var pre, post := ids[..k], ids[k + 1..];
    var mid := RunVideos(svc, d, pre);
    assert ids == pre + ([ids[k]] + post);
    RunAppend(svc, d, pre, [ids[k]] + post);
    SkippedVideo(svc, mid.disk, ids[k], post);
    RunAppend(svc, d, pre, post);
  }

  /** A video that is not written hands the unchanged disk on to the rest. */
  lemma SkippedVideo(svc: Services, d: Disk, id: string, rest: seq<string>)
    requires !Step(svc, d, id).outcome.Written?
    ensures RunVideos(svc, d, [id] + rest) ==
            RunResult([Step(svc, d, id).outcome] + RunVideos(svc, d, rest).outcomes, RunVideos(svc, d, rest).disk)
  {
    RunCons(svc, d, id, rest);
  }

  /** The transcript service is consulted only after the title lookup found
      an item whose file is missing: with the file present, the cycle's
      result does not depend on the transcript service at all. */
  lemma SkipDoesNotFetch(svc: Services, d: Disk, id: string, other: string -> Reply<seq<string>>)
    requires svc.titles(id).Ok? && |svc.titles(id).value| > 0
    requires TranscriptPath(svc.titles(id).value[0]) in d.files
    ensures Step(svc, d, id) == Step(Services(svc.titles, other), d, id)
    ensures Step(svc, d, id) == Cycle(AlreadySaved(TranscriptPath(svc.titles(id).value[0])), d)
  {
  }

  /** A cycle that does not write on some disk does not write on any disk
      that has grown from it either. */
  lemma QuietGrows(svc: Services, d: Disk, e: Disk, id: string)
    requires !Step(svc, d, id).outcome.Written?
    requires Grows(d, e)
    ensures !Step(svc, e, id).outcome.Written?
  {
  }

  /** After a cycle, repeating it for the same video writes nothing. */
  lemma StepSettles(svc: Services, d: Disk, id: string)
    ensures !Step(svc, Step(svc, d, id).disk, id).outcome.Written?
  {
  }

  /** After a run, no video of the list would write again. */
  lemma {:induction false} RunSettles(svc: Services, d: Disk, ids: seq<string>)
    ensures forall k :: 0 <= k < |ids| ==> !Step(svc, RunVideos(svc, d, ids).disk, ids[k]).outcome.Written?
    decreases |ids|
  {
    if ids != [] {
      var c := Step(svc, d, ids[0]);
      var e := RunVideos(svc, d, ids).disk;
      RunSettles(svc, c.disk, ids[1..]);
      StepSettles(svc, d, ids[0]);
      QuietGrows(svc, c.disk, e, ids[0]);
      forall k | 1 <= k < |ids|
        ensures !Step(svc, e, ids[k]).outcome.Written?
      {
        assert ids[k] == ids[1..][k - 1];
      }
    }
  }

  /** A run in which no video would write leaves the disk as it is. */
  lemma {:induction false} QuietRun(svc: Services, d: Disk, ids: seq<string>)
    requires forall k :: 0 <= k < |ids| ==> !Step(svc, d, ids[k]).outcome.Written?
    ensures RunVideos(svc, d, ids).disk == d
    ensures CountWritten(RunVideos(svc, d, ids).outcomes) == 0
    decreases |ids|
  {
    if ids != [] {
      assert !Step(svc, d, ids[0]).outcome.Written?;
      forall k | 0 <= k < |ids[1..]|
        ensures !Step(svc, d, ids[1..][k]).outcome.Written?
      {
        assert ids[1..][k] == ids[k + 1];
      }
      QuietRun(svc, d, ids[1..]);
      assert RunVideos(svc, d, ids).outcomes[1..] == RunVideos(svc, d, ids[1..]).outcomes;
    }
  }

  /** Resuming is idempotent: running the same list again against the same
      services writes nothing, so files and master file stay as the first
      run left them. */
  lemma RerunChangesNothing(svc: Services, d: Disk, ids: seq<string>)
    ensures RunVideos(svc, RunVideos(svc, d, ids).disk, ids).disk == RunVideos(svc, d, ids).disk
    ensures CountWritten(RunVideos(svc, RunVideos(svc, d, ids).disk, ids).outcomes) == 0
  {
    RunSettles(svc, d, ids);
    QuietRun(svc, RunVideos(svc, d, ids).disk, ids);
  }

  /** Two titles share an individual file exactly when they sanitise to the
      same name; the path is never the master file's. */
  lemma PathCollision(a: string, b: string)
    ensures TranscriptPath(a) == TranscriptPath(b) <==> Sanitize(a) == Sanitize(b)
    ensures TranscriptPath(a) != MasterFile
  {
    var pre := TranscriptsDir + "/";
    if TranscriptPath(a) == TranscriptPath(b) {
      var pa := TranscriptPath(a);
      assert |Sanitize(a)| == |Sanitize(b)|;
      assert Sanitize(a) == pa[|pre|..|pa| - |Extension|];
      assert Sanitize(b) == TranscriptPath(b)[|pre|..|pa| - |Extension|];
    }
    assert TranscriptPath(a)[..|pre|] == pre;
    assert MasterFile[..|pre|] != pre by {
      assert MasterFile[0] == 'm';
    }
  }

  /** A cycle whose title lookup has an item, whose file is missing and
      whose transcript arrives writes that file. */
  lemma WriteCycle(svc: Services, d: Disk, id: string)
    requires svc.titles(id).Ok? && |svc.titles(id).value| > 0
    requires TranscriptPath(svc.titles(id).value[0]) !in d.files
    requires svc.transcript(id).Ok?
    ensures var title := svc.titles(id).value[0];
            var entry := Entry(title, VideoUrl(id), JoinSpaces(svc.transcript(id).value));
            Step(svc, d, id).outcome == Written(TranscriptPath(title), entry) &&
            Step(svc, d, id).disk.master == d.master + entry + Rule
  {
  }

  /** The end-to-end example: a video titled "Intro" with segments "Hello"
      and "world" and no "transcripts/Intro.md" yet gets that file, holding
      the two header lines, a blank line and "Hello world"; the master file
      gains the same block and a rule. */
  lemma IntroExample(svc: Services, d: Disk)
    requires svc.titles("v1") == Ok(["Intro"])
    requires svc.transcript("v1") == Ok(["Hello", "world"])
    requires "transcripts/Intro.md" !in d.files
    ensures Step(svc, d, "v1").outcome == Written("transcripts/Intro.md", Entry("Intro", VideoUrl("v1"), "Hello world"))
    ensures Step(svc, d, "v1").disk.master == d.master + Entry("Intro", VideoUrl("v1"), "Hello world") + Rule
  {
    SanitizeFixesClean("Intro");
    assert TranscriptPath("Intro") == "transcripts/Intro.md";
    JoinExample();
    WriteCycle(svc, d, "v1");
  }

  /** "Why?" and "Why" sanitise to the same name. */
  lemma WhyCollides()
    ensures Sanitize("Why?") == Sanitize("Why") == "Why"
  {
    SanitizeAppend("Why", "?");
    SanitizeFixesClean("Why");
    SanitizeChar('?');
    assert "Why" + "?" == "Why?";
  }

  /** Titles that sanitise alike collide, as written: of two such videos
      processed one after the other, the second is skipped because the
      first one's file is already there. */
  lemma TitleCollision(svc: Services, d: Disk, v1: string, v2: string)
    requires svc.titles(v1).Ok? && |svc.titles(v1).value| > 0
    requires svc.titles(v2).Ok? && |svc.titles(v2).value| > 0
    requires Sanitize(svc.titles(v1).value[0]) == Sanitize(svc.titles(v2).value[0])
    requires TranscriptPath(svc.titles(v1).value[0]) !in d.files
    requires svc.transcript(v1).Ok?
    ensures RunVideos(svc, d, [v1, v2]).outcomes[0].Written?
    ensures RunVideos(svc, d, [v1, v2]).outcomes[1] == AlreadySaved(TranscriptPath(svc.titles(v2).value[0]))
  {
    var c1 := Step(svc, d, v1);
    WriteCycle(svc, d, v1);
    assert TranscriptPath(svc.titles(v1).value[0]) == TranscriptPath(svc.titles(v2).value[0]);
    RunCons(svc, d, v1, [v2]);
    RunCons(svc, c1.disk, v2, []);
    assert [v1] + [v2] == [v1, v2];
  }
}
