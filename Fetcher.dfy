/**
 * The track fetcher: builds the output path, the search query and the
 * downloader options for a track record, skips the track when its file
 * already exists, otherwise downloads it and embeds its metadata, and
 * reports one outcome per track without letting a failure escape.
 *
 * The file system is a value (`Disk`): the set of existing paths and the
 * tags of each audio file. The download engine, the cover-art fetch and the
 * tagging library are oracles (`TrackEnv`) whose answers are inputs.
 */
module Fetcher {
  import opened Wrappers
  import opened Sanitizer
  import opened Catalog
  import opened Tagging

  // ---------------------------------------------------------------- output path

  /** A path below the output directory `root`: the components joined after it. */
  datatype FsPath = FsPath(root: string, parts: seq<string>)

  /** The components a name without separators adds under pathlib: none for
      an empty name or ".", otherwise the name itself. */
  function Level(name: string): (l: seq<string>)
    ensures |l| <= 1 && (l == [] <==> name == "" || name == ".")
    ensures forall i :: 0 <= i < |l| ==> l[i] == name
  {
    if name == "" || name == "." then [] else [name]
  }

  /** pathlib's `p / name` for a name without separators. */
  function Child(p: FsPath, name: string): FsPath {
    p.(parts := p.parts + Level(name))
  }

  /** The formats the command line accepts. */
  predicate KnownFormat(format: string) {
    format == "mp3" || format == "flac" || format == "m4a"
  }

  function ArtistDir(rec: TrackRecord): string
    requires |rec.artists| > 0
  {
    Sanitize(rec.artists[0])
  }

  function AlbumDir(rec: TrackRecord): string {
    Sanitize(rec.album)
  }

  /** The sanitized display name "artist - title", also the file's stem. */
  function FileStem(rec: TrackRecord): string
    requires |rec.artists| > 0
  {
    Sanitize(Sanitize(rec.artists[0]) + " - " + rec.name)
  }

  function FileName(rec: TrackRecord, format: string): string
    requires |rec.artists| > 0
  {
    FileStem(rec) + "." + format
  }

  /** `output / artist / album`: the sanitized primary artist, then the
      sanitized album, each adding a level unless pathlib drops it. */
  function TrackDir(outputDir: string, rec: TrackRecord): (dir: FsPath)
    requires |rec.artists| > 0
    ensures dir == FsPath(outputDir, Level(ArtistDir(rec)) + Level(AlbumDir(rec)))
  {
    Child(Child(FsPath(outputDir, []), ArtistDir(rec)), AlbumDir(rec))
  }

  /** `output / artist / album / "stem.format"`. */
  function FinalPath(outputDir: string, rec: TrackRecord, format: string): (path: FsPath)
    requires |rec.artists| > 0
    ensures path.root == outputDir && 1 <= |path.parts| <= 3
    ensures path.parts[|path.parts| - 1] == FileName(rec, format)
    ensures path.parts[..|path.parts| - 1] == TrackDir(outputDir, rec).parts
  {
    FileStemSplits(rec);
    Child(TrackDir(outputDir, rec), FileName(rec, format))
  }

  /** Sanitizing the whole "artist - title" string again changes nothing in the
      already-sanitized artist: the stem is sanitized artist, " - ", sanitized title. */
  lemma FileStemSplits(rec: TrackRecord)
    requires |rec.artists| > 0
    ensures FileStem(rec) == Sanitize(rec.artists[0]) + " - " + Sanitize(rec.name)
    ensures |FileStem(rec)| >= 3 && IsClean(FileStem(rec))
  {
    var a := Sanitize(rec.artists[0]);
    SanitizeAppend(a + " - ", rec.name);
    SanitizeAppend(a, " - ");
    SanitizeIdempotent(rec.artists[0]);
    SanitizeClean(" - ");
  }

  /** The file lies directly in the track directory, which has at most two
      components below the output directory (one per non-empty sanitized name);
      no component holds a reserved character, so none can add a level. */
  lemma FinalPathLayout(outputDir: string, rec: TrackRecord, format: string)
    requires |rec.artists| > 0 && KnownFormat(format)
    ensures var dir, path := TrackDir(outputDir, rec), FinalPath(outputDir, rec, format);
      && dir == FsPath(outputDir, Level(ArtistDir(rec)) + Level(AlbumDir(rec)))
      && path.root == outputDir
      && path.parts == dir.parts + [FileName(rec, format)]
      && |dir.parts| <= 2
      && (forall i :: 0 <= i < |dir.parts| ==> dir.parts[i] == ArtistDir(rec) || dir.parts[i] == AlbumDir(rec))
      && (forall i :: 0 <= i < |path.parts| ==> IsClean(path.parts[i]))
      && FileName(rec, format) == Sanitize(rec.artists[0]) + " - " + Sanitize(rec.name) + "." + format
  {
    FileStemSplits(rec);
    FileNameClean(rec, format);
  }

  /** A known format adds no reserved character to the clean stem. */
  lemma FileNameClean(rec: TrackRecord, format: string)
    requires |rec.artists| > 0 && KnownFormat(format)
    ensures IsClean(FileName(rec, format))
  {
    FileStemSplits(rec);
    var name := FileName(rec, format);
    assert IsClean("." + format);
    forall i | 0 <= i < |name| ensures !IsReserved(name[i]) {
      if i < |FileStem(rec)| {
        assert name[i] == FileStem(rec)[i];
      } else {
        assert name[i] == ("." + format)[i - |FileStem(rec)|];
      }
    }
  }

  // ---------------------------------------------------------------- query and downloader options

  const QuerySuffix := " official audio"

  /** The search text: the raw (unsanitized) title, a space, the raw primary
      artist, and " official audio". */
  function SearchQuery(rec: TrackRecord): (q: string)
    requires |rec.artists| > 0
    ensures |q| == |rec.name| + 1 + |rec.artists[0]| + |QuerySuffix|
    ensures q[..|rec.name|] == rec.name && q[|rec.name|] == ' '
    ensures q[|rec.name| + 1..|rec.name| + 1 + |rec.artists[0]|] == rec.artists[0]
    ensures q[|q| - |QuerySuffix|..] == QuerySuffix
  {
    var q := rec.name + " " + rec.artists[0] + QuerySuffix;
    assert q == (rec.name + " ") + (rec.artists[0] + QuerySuffix);
    q
  }

  /** What is handed to the engine: the first search result for the query. */
  function SearchTarget(rec: TrackRecord): string
    requires |rec.artists| > 0
  {
    "ytsearch1:" + SearchQuery(rec)
  }

  datatype Postprocessor = Postprocessor(key: string, preferredCodec: string, preferredQuality: string)

  /** The downloader options; the progress hook is the `ProgressCounter` below. */
  datatype DownloadOptions = DownloadOptions(
    selector: string,
    outTemplate: FsPath,
    quiet: bool,
    noProgress: bool,
    noPlaylist: bool,
    postprocessors: seq<Postprocessor>)

  /** The options for one track: best audio, written to the track directory
      under the stem, then extracted with the format as codec; quality "0"
      (lossless) for flac and "192" otherwise. */
  function Options(outputDir: string, rec: TrackRecord, format: string): (o: DownloadOptions)
    requires |rec.artists| > 0
    ensures o.postprocessors == [Postprocessor("FFmpegExtractAudio", format, if format == "flac" then "0" else "192")]
    ensures o.selector == "bestaudio/best" && o.quiet && o.noProgress && o.noPlaylist
  {
    var pp :=
      if format == "flac" then Postprocessor("FFmpegExtractAudio", "flac", "0")
      else Postprocessor("FFmpegExtractAudio", format, "192");
    DownloadOptions("bestaudio/best", Child(TrackDir(outputDir, rec), FileStem(rec)), true, true, true, [pp])
  }

  /** The file the audio extractor leaves: the template with the codec as extension. */
  function ExtractedPath(o: DownloadOptions): FsPath
    requires |o.outTemplate.parts| > 0 && |o.postprocessors| > 0
  {
    var n := |o.outTemplate.parts|;
    o.outTemplate.(parts := o.outTemplate.parts[..n - 1] + [o.outTemplate.parts[n - 1] + "." + o.postprocessors[0].preferredCodec])
  }

  /** The engine is pointed at exactly the path the existence check inspects. */
  lemma EncoderWritesFinalPath(outputDir: string, rec: TrackRecord, format: string)
    requires |rec.artists| > 0
    ensures var o := Options(outputDir, rec, format);
      |o.outTemplate.parts| > 0 && ExtractedPath(o) == FinalPath(outputDir, rec, format)
  {
    FileStemSplits(rec);
    var dir := TrackDir(outputDir, rec);
    assert (dir.parts + [FileStem(rec)])[..|dir.parts|] == dir.parts;
  }

  // ---------------------------------------------------------------- progress counter

  /** One progress report from the engine; the byte counts are `None` when absent. */
  datatype ProgressEvent = ProgressEvent(status: string, downloadedBytes: Option<int>, totalBytes: Option<int>)

  /** The counter after one report: "downloading" sets it to the downloaded
      bytes (0 when absent), "finished" to the total (unchanged when absent),
      anything else leaves it. */
  function NextCount(count: int, d: ProgressEvent): (r: int)
    ensures r == count || d.downloadedBytes == Some(r) || d.totalBytes == Some(r) || r == 0
    ensures d.status != "downloading" && d.status != "finished" ==> r == count
    ensures d.status == "downloading" ==> r == d.downloadedBytes.GetOr(0)
    ensures d.status == "finished" && d.totalBytes.Some? ==> r == d.totalBytes.value
    ensures d.status == "finished" && d.totalBytes.None? ==> r == count
  {
    if d.status == "downloading" then d.downloadedBytes.GetOr(0)
    else if d.status == "finished" then d.totalBytes.GetOr(count)
    else count
  }

  /** The counter after a series of reports, in the order the engine sends them. */
  function Replay(count: int, events: seq<ProgressEvent>): int
    decreases |events|
  {
    if events == [] then count else Replay(NextCount(count, events[0]), events[1..])
  }

  /** The one-element byte cell the progress hook updates. */
  class ProgressCounter {
    var bytes: int

    constructor ()
      ensures bytes == 0
    {
      bytes := 0;
    }

    /** `progress_hook`. */
    method OnProgress(d: ProgressEvent)
      modifies this
      ensures bytes == NextCount(old(bytes), d)
    {
      if d.status == "downloading" {
        bytes := d.downloadedBytes.GetOr(0);
      } else if d.status == "finished" {
        bytes := d.totalBytes.GetOr(bytes);
      }
    }

    /** The engine's hook calls for one download, one report at a time. */
    method OnProgressAll(events: seq<ProgressEvent>)
      modifies this
      ensures bytes == Replay(old(bytes), events)
    {
      var i := 0;
      while i < |events|
        invariant 0 <= i <= |events|
        invariant bytes == Replay(old(bytes), events[..i])
      {
        ReplayAppend(old(bytes), events[..i], [events[i]]);
        assert events[..i + 1] == events[..i] + [events[i]];
        OnProgress(events[i]);
        i := i + 1;
      }
      assert events[..i] == events;
    }
  }

  /** Replaying a series in two parts is replaying it at once. */
  lemma {:induction false} ReplayAppend(count: int, a: seq<ProgressEvent>, b: seq<ProgressEvent>)
    ensures Replay(count, a + b) == Replay(Replay(count, a), b)
    decreases |a|
  {
    if a == [] {
      assert a + b == b;
    } else {
      assert (a + b)[0] == a[0] && (a + b)[1..] == a[1..] + b;
      ReplayAppend(NextCount(count, a[0]), a[1..], b);
    }
  }

  /** After a final "finished" report that carries the total, the counter holds the total. */
  lemma ReplayEndsAtTotal(count: int, events: seq<ProgressEvent>, total: int)
    requires |events| > 0 && events[|events| - 1].status == "finished"
    requires events[|events| - 1].totalBytes == Some(total)
    ensures Replay(count, events) == total
  {
    var n := |events|;
    assert events == events[..n - 1] + [events[n - 1]];
    ReplayAppend(count, events[..n - 1], [events[n - 1]]);
  }

  /** Reports with any other status never move the counter. */
  lemma {:induction false} ReplayIgnoresOtherStatuses(count: int, events: seq<ProgressEvent>)
    requires forall i :: 0 <= i < |events| ==> events[i].status != "downloading" && events[i].status != "finished"
    ensures Replay(count, events) == count
  {
    if events != [] {
      ReplayIgnoresOtherStatuses(count, events[1..]);
    }
  }

  /** The counter never goes negative when the engine never reports a negative count. */
  lemma {:induction false} ReplayNonNegative(count: int, events: seq<ProgressEvent>)
    requires count >= 0
    requires forall i :: 0 <= i < |events| ==> events[i].downloadedBytes.GetOr(0) >= 0 && events[i].totalBytes.GetOr(0) >= 0
    ensures Replay(count, events) >= 0
    decreases |events|
  {
    if events != [] {
      ReplayNonNegative(NextCount(count, events[0]), events[1..]);
    }
  }

  // ---------------------------------------------------------------- one track

  /** The existing paths (files and directories) and the tags of each audio file. */
  datatype Disk = Disk(entries: set<FsPath>, tags: map<FsPath, Tags>)

  /** The engine's answer: the file was produced (with whatever tags the
      transcoder left in it), or it raised. */
  datatype EngineResult = Downloaded(initialTags: Tags) | EngineError

  /** The oracles one track meets: the engine, the cover fetch, and whether the
      tagging library raises. */
  datatype TrackEnv = TrackEnv(engine: EngineResult, art: ArtResponse, tagOk: bool)

  /** The per-track result; each carries the sanitized display name. */
  datatype Outcome = Skipped(display: string) | Succeeded(display: string) | Failed(display: string)

  datatype DownloadRequest = DownloadRequest(target: string, options: DownloadOptions)

  /** An outcome, the disk afterwards, and what was asked of the engine and of HTTP. */
  datatype Step = Step(outcome: Outcome, disk: Disk, request: Option<DownloadRequest>, artRequest: Option<string>)

  /** `mkdir(parents=True, exist_ok=True)`: the directory and all its ancestors up to the root. */
  function DirChain(p: FsPath): set<FsPath> {
    set k | 0 <= k <= |p.parts| :: FsPath(p.root, p.parts[..k])
  }

  /** The final file is never one of the directories created for it. */
  lemma FinalPathNotInDirChain(outputDir: string, rec: TrackRecord, format: string)
    requires |rec.artists| > 0
    ensures FinalPath(outputDir, rec, format).parts == TrackDir(outputDir, rec).parts + [FileName(rec, format)]
    ensures FinalPath(outputDir, rec, format) !in DirChain(TrackDir(outputDir, rec))
  {
    FileStemSplits(rec);
    var dir, path := TrackDir(outputDir, rec), FinalPath(outputDir, rec, format);
    assert |FileName(rec, format)| >= 4;
    forall q | q in DirChain(dir) ensures q != path {
      var k :| 0 <= k <= |dir.parts| && q == FsPath(dir.root, dir.parts[..k]);
      assert |q.parts| == k;
    }
  }

  /** `download_and_process_track`. */
  function DownloadAndProcess(rec: TrackRecord, outputDir: string, format: string, disk: Disk, env: TrackEnv): (s: Step)
    requires |rec.artists| > 0
    ensures var path := FinalPath(outputDir, rec, format);
      && s.outcome.display == FileStem(rec)
      && (s.outcome.Skipped? <==> path in disk.entries)
      && (s.outcome.Failed? <==> path !in disk.entries && env.engine.EngineError?)
      && s.disk.entries == disk.entries + DirChain(TrackDir(outputDir, rec)) + (if s.outcome.Succeeded? then {path} else {})
      && (s.request.Some? <==> !s.outcome.Skipped?)
      && (s.request.Some? ==> s.request.value == DownloadRequest(SearchTarget(rec), Options(outputDir, rec, format)))
      && (!s.outcome.Succeeded? ==> s.disk.tags == disk.tags && s.artRequest.None?)
      && (s.outcome.Succeeded? ==>
            (s.artRequest == ArtRequest(rec)
             && s.disk.tags == disk.tags[path := EmbedMetadata(env.engine.initialTags, rec, format, env.art, env.tagOk)]))
  {
    FinalPathNotInDirChain(outputDir, rec, format);
    var dir := TrackDir(outputDir, rec);
    var made := disk.(entries := disk.entries + DirChain(dir));
    var path := Child(dir, FileName(rec, format));
    var display := FileStem(rec);
    if path in made.entries then
      Step(Skipped(display), made, None, None)
    else
      var request := DownloadRequest(SearchTarget(rec), Options(outputDir, rec, format));
      match env.engine
      case EngineError =>
        Step(Failed(display), made, Some(request), None)
      case Downloaded(initial) =>
        var tagged := EmbedMetadata(initial, rec, format, env.art, env.tagOk);
        Step(Succeeded(display), Disk(made.entries + {path}, made.tags[path := tagged]), Some(request), ArtRequest(rec))
  }

  /** Resuming: once a track has been downloaded or skipped, processing it again
      with the same settings is a skip that asks nothing of the engine or of
      HTTP and leaves the disk, tags included, as it was. */
  lemma SecondCallSkips(rec: TrackRecord, outputDir: string, format: string, disk: Disk, env1: TrackEnv, env2: TrackEnv)
    requires |rec.artists| > 0
    requires !DownloadAndProcess(rec, outputDir, format, disk, env1).outcome.Failed?
    ensures var d1 := DownloadAndProcess(rec, outputDir, format, disk, env1).disk;
      DownloadAndProcess(rec, outputDir, format, d1, env2) == Step(Skipped(FileStem(rec)), d1, None, None)
  {
    var d1 := DownloadAndProcess(rec, outputDir, format, disk, env1).disk;
    PresentSkips(rec, outputDir, format, d1, env2);
  }

  /** A track whose file and directories are already on disk is skipped
      without any request, and the disk stays exactly as it was. */
  lemma PresentSkips(rec: TrackRecord, outputDir: string, format: string, disk: Disk, env: TrackEnv)
    requires |rec.artists| > 0
    requires FinalPath(outputDir, rec, format) in disk.entries
    requires DirChain(TrackDir(outputDir, rec)) <= disk.entries
    ensures DownloadAndProcess(rec, outputDir, format, disk, env) == Step(Skipped(FileStem(rec)), disk, None, None)
  {
    var s := DownloadAndProcess(rec, outputDir, format, disk, env);
    assert s.disk.entries == disk.entries;
  }

  // ---------------------------------------------------------------- a batch

  /** What the batch loop sees for one task: the returned outcome, or an
      exception raised by the task and caught there. */
  datatype Report = Reported(outcome: Outcome) | Raised

  datatype BatchResult = BatchResult(reports: seq<Report>, disk: Disk, requests: seq<DownloadRequest>)

  /** The tracks of one batch processed one after another (one schedule of the
      worker pool). A record without artists makes its task raise; the batch
      loop catches that and goes on. */
  function RunBatch(tracks: seq<TrackRecord>, outputDir: string, format: string, disk: Disk, envs: seq<TrackEnv>): (b: BatchResult)
    requires |envs| == |tracks|
    ensures |b.reports| == |tracks|
    ensures |b.requests| <= |tracks|
    ensures disk.entries <= b.disk.entries
    decreases |tracks|
  {
    if tracks == [] then BatchResult([], disk, [])
    else if |tracks[0].artists| == 0 then
      var rest := RunBatch(tracks[1..], outputDir, format, disk, envs[1..]);
      BatchResult([Raised] + rest.reports, rest.disk, rest.requests)
    else
      var s := DownloadAndProcess(tracks[0], outputDir, format, disk, envs[0]);
      var rest := RunBatch(tracks[1..], outputDir, format, s.disk, envs[1..]);
      BatchResult([Reported(s.outcome)] + rest.reports, rest.disk,
        (if s.request.Some? then [s.request.value] else []) + rest.requests)
  }

  /** A report that blames only its own task: the task raises exactly when its
      record has no artist, and a track fails only when its own download raised. */
  predicate OwnReport(r: Report, rec: TrackRecord, env: TrackEnv) {
    && (r == Raised <==> |rec.artists| == 0)
    && (r.Reported? && r.outcome.Failed? ==> env.engine.EngineError?)
  }

  /** Per-track reports hold for a batch when they hold for its first task and
      for the rest. */
  lemma OwnReportsCons(reports: seq<Report>, tracks: seq<TrackRecord>, envs: seq<TrackEnv>)
    requires |reports| == |tracks| == |envs| > 0
    requires OwnReport(reports[0], tracks[0], envs[0])
    requires forall i :: 0 <= i < |tracks| - 1 ==> OwnReport(reports[1..][i], tracks[1..][i], envs[1..][i])
    ensures forall i :: 0 <= i < |tracks| ==> OwnReport(reports[i], tracks[i], envs[i])
  {
    forall i | 1 <= i < |tracks| ensures OwnReport(reports[i], tracks[i], envs[i]) {
      assert reports[i] == reports[1..][i - 1] && tracks[i] == tracks[1..][i - 1] && envs[i] == envs[1..][i - 1];
    }
  }

  /** Failures stay with their own track: every report is that track's own, so
      one failure never turns another track's report into a failure. */
  lemma {:induction false} FailuresAreLocal(tracks: seq<TrackRecord>, outputDir: string, format: string, disk: Disk, envs: seq<TrackEnv>)
    requires |envs| == |tracks|
    ensures var b := RunBatch(tracks, outputDir, format, disk, envs);
      forall i :: 0 <= i < |tracks| ==> OwnReport(b.reports[i], tracks[i], envs[i])
    decreases |tracks|
  {
    if tracks != [] {
      var d := if |tracks[0].artists| == 0 then disk else DownloadAndProcess(tracks[0], outputDir, format, disk, envs[0]).disk;
      FailuresAreLocal(tracks[1..], outputDir, format, d, envs[1..]);
      var b := RunBatch(tracks, outputDir, format, disk, envs);
      assert b.reports[1..] == RunBatch(tracks[1..], outputDir, format, d, envs[1..]).reports;
      OwnReportsCons(b.reports, tracks, envs);
    }
  }

  /** `entries` holds the directories of every track that has an artist (they are
      made before the existence check, whatever the outcome), and the file of
      every track that was downloaded or skipped. */
  predicate FileKept(r: Report, rec: TrackRecord, outputDir: string, format: string, entries: set<FsPath>) {
    && (|rec.artists| > 0 ==> DirChain(TrackDir(outputDir, rec)) <= entries)
    && (r.Reported? && !r.outcome.Failed? ==>
          |rec.artists| > 0 && FinalPath(outputDir, rec, format) in entries)
  }

  /** Kept files hold for a batch when they hold for its first task and for the rest. */
  lemma FilesKeptCons(reports: seq<Report>, tracks: seq<TrackRecord>, outputDir: string, format: string, entries: set<FsPath>)
    requires |reports| == |tracks| > 0
    requires FileKept(reports[0], tracks[0], outputDir, format, entries)
    requires forall i :: 0 <= i < |tracks| - 1 ==> FileKept(reports[1..][i], tracks[1..][i], outputDir, format, entries)
    ensures forall i :: 0 <= i < |tracks| ==> FileKept(reports[i], tracks[i], outputDir, format, entries)
  {
    forall i | 1 <= i < |tracks| ensures FileKept(reports[i], tracks[i], outputDir, format, entries) {
      assert reports[i] == reports[1..][i - 1] && tracks[i] == tracks[1..][i - 1];
    }
  }

  /** After the batch every track with an artist has its directories on disk,
      and every track that was downloaded or skipped has its file there. */
  lemma {:induction false} CompletedFilesExist(tracks: seq<TrackRecord>, outputDir: string, format: string, disk: Disk, envs: seq<TrackEnv>)
    requires |envs| == |tracks|
    ensures var b := RunBatch(tracks, outputDir, format, disk, envs);
      forall i :: 0 <= i < |tracks| ==> FileKept(b.reports[i], tracks[i], outputDir, format, b.disk.entries)
    decreases |tracks|
  {
    if tracks != [] {
      var d := if |tracks[0].artists| == 0 then disk else DownloadAndProcess(tracks[0], outputDir, format, disk, envs[0]).disk;
      CompletedFilesExist(tracks[1..], outputDir, format, d, envs[1..]);
      var b := RunBatch(tracks, outputDir, format, disk, envs);
      var rest := RunBatch(tracks[1..], outputDir, format, d, envs[1..]);
      assert b.reports[1..] == rest.reports && b.disk == rest.disk;
      assert FileKept(b.reports[0], tracks[0], outputDir, format, b.disk.entries) by {
        assert d.entries <= rest.disk.entries;
      }
      FilesKeptCons(b.reports, tracks, outputDir, format, b.disk.entries);
    }
  }

  /** The track's file and all its directories already exist (vacuous for a
      record that makes its task raise). */
  predicate AlreadyOnDisk(outputDir: string, format: string, disk: Disk, rec: TrackRecord) {
    |rec.artists| > 0 ==>
      FinalPath(outputDir, rec, format) in disk.entries && DirChain(TrackDir(outputDir, rec)) <= disk.entries
  }

  /** What the batch loop sees for a track whose file is already there. */
  function SkipReport(rec: TrackRecord): Report {
    if |rec.artists| > 0 then Reported(Skipped(FileStem(rec))) else Raised
  }

  /** The reports of a batch in which every track is skipped. */
  function SkipReports(tracks: seq<TrackRecord>): (r: seq<Report>)
    ensures |r| == |tracks|
    ensures forall i :: 0 <= i < |tracks| ==> r[i] == SkipReport(tracks[i])
  {
    if tracks == [] then [] else [SkipReport(tracks[0])] + SkipReports(tracks[1..])
  }

  /** Re-running a batch whose files all exist skips every track, asks the
      engine for nothing and leaves the disk as it was. */
  lemma {:induction false} AllPresentAllSkipped(tracks: seq<TrackRecord>, outputDir: string, format: string, disk: Disk, envs: seq<TrackEnv>)
    requires |envs| == |tracks|
    requires forall i :: 0 <= i < |tracks| ==> AlreadyOnDisk(outputDir, format, disk, tracks[i])
    ensures RunBatch(tracks, outputDir, format, disk, envs) == BatchResult(SkipReports(tracks), disk, [])
    decreases |tracks|
  {
    if tracks != [] {
      var tail := tracks[1..];
      assert RunBatch(tail, outputDir, format, disk, envs[1..]) == BatchResult(SkipReports(tail), disk, []) by {
        assert forall i :: 0 <= i < |tail| ==> tail[i] == tracks[i + 1];
        AllPresentAllSkipped(tail, outputDir, format, disk, envs[1..]);
      }
      assert AlreadyOnDisk(outputDir, format, disk, tracks[0]);
      if |tracks[0].artists| > 0 {
        PresentSkips(tracks[0], outputDir, format, disk, envs[0]);
      }
    }
  }

  /** Running a batch again over the disk it left, when no track failed the
      first time, skips every track, asks the engine for nothing and changes
      nothing: the resume behaviour of the existence check. */
  lemma RerunWithoutFailuresSkips(tracks: seq<TrackRecord>, outputDir: string, format: string, disk: Disk, envs: seq<TrackEnv>, envs2: seq<TrackEnv>)
    requires |envs| == |tracks| && |envs2| == |tracks|
    requires var b := RunBatch(tracks, outputDir, format, disk, envs);
      forall i :: 0 <= i < |tracks| ==> !(b.reports[i].Reported? && b.reports[i].outcome.Failed?)
    ensures var b := RunBatch(tracks, outputDir, format, disk, envs);
      RunBatch(tracks, outputDir, format, b.disk, envs2) == BatchResult(SkipReports(tracks), b.disk, [])
  {
    var b := RunBatch(tracks, outputDir, format, disk, envs);
    CompletedFilesExist(tracks, outputDir, format, disk, envs);
    FailuresAreLocal(tracks, outputDir, format, disk, envs);
    forall i | 0 <= i < |tracks| ensures AlreadyOnDisk(outputDir, format, b.disk, tracks[i]) {
      assert OwnReport(b.reports[i], tracks[i], envs[i]);
      assert FileKept(b.reports[i], tracks[i], outputDir, format, b.disk.entries);
    }
    AllPresentAllSkipped(tracks, outputDir, format, b.disk, envs2);
  }
}
