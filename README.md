# Spotify downloader core, modelled in Dafny

This project models the deterministic logic of a command-line tool that
downloads Spotify tracks. The tool resolves a Spotify link to a list of track
records and finds each track on YouTube. It downloads and transcodes the
audio with yt-dlp, then writes tags into the file with mutagen.

The model covers five parts of `spotify.py`:

- **Sanitizer** (`Sanitizer.dfy`): `sanitize_filename` deletes the nine
  reserved path characters `\ / * ? : " < > |`.
- **Catalog resolver** (`Catalog.dfy`): `get_track_info`.
  - It classifies the URL by substring, in the order "track", "album",
    "playlist".
  - It collects the raw items. Album items get the shared album object.
    Playlist entries without a truthy track are skipped.
  - It turns every item that has album data into a flat `TrackRecord`, with
    the source's fallbacks.
  - The provider's answers are an input (`Provider`). Each endpoint gives an
    object or a provider error.
  - `GetTrackInfo` is the imperative version with the source's loops.
    `Resolve` is the function it is proved equal to.
- **Metadata embedder** (`Tagging.dfy`): `embed_metadata` for each format.
  - Each format's write is a `TagWrite`: a flag that says whether existing
    tags are deleted first, plus a map from the format's own key names to
    values.
  - `Apply` gives the file's tags after the write.
  - The cover image is used only when a cover URL is set and its fetch
    returns bytes.
  - The pipeline uses the mp3 write as the code does it, which loses the
    cover (see Findings). The intended write is modelled beside it.
- **Track fetcher** (`Fetcher.dfy`): `download_and_process_track`.
  - It builds the output path the way pathlib does, plus the search query
    and the yt-dlp options.
  - The progress hook is a `ProgressCounter` class.
  - The step itself is a function over a `Disk` value: the set of existing
    paths and each audio file's tags.
  - The engine, the cover fetch and the tagging library are oracles
    (`TrackEnv`).
- **Batch** (`Fetcher.RunBatch`): the loop over a batch's futures in `main`.
  The batch is modelled as one serial schedule.

In a few places the code behaves differently from what its names and
comments suggest; the model follows the code:

- A record's `album_artists` is `[]` when the album lists no artists. It
  does not fall back to the track's artists. So the mp3 `albumartist` tag is
  then `""`.
- flac gets no date.
- m4a never deletes existing tags.
- A track link yields no record when the track object has no album.
- `total_tracks` falls back to the length of the collected list. That length
  also counts items dropped later.

## Model

| member | source | states |
|---|---|---|
| `Sanitizer.Sanitize` | spotify.py:29-31 | the result has no reserved character, is no longer than the input, and holds only characters of the input |
| `Sanitizer.SanitizeChar` | spotify.py:31 | a single character is deleted exactly when it is one of the nine reserved characters |
| `Sanitizer.SanitizeAppend` | spotify.py:31 | sanitizing distributes over concatenation, so kept characters stay in their original order |
| `Sanitizer.SanitizeClean` | spotify.py:31 | a string without reserved characters comes back unchanged |
| `Sanitizer.SanitizeIdempotent` | spotify.py:29-31 | sanitizing twice equals sanitizing once |
| `Sanitizer.SanitizeCounts` | spotify.py:31 | every kept character occurs as often as in the input; reserved characters occur zero times |
| `Catalog.ContainsIffOccurs` | spotify.py:54-63 | the `in` test on the URL holds exactly when the word occurs at some position |
| `Catalog.Classify` | spotify.py:54-70 | the URL is a track link exactly when "track" occurs in it; an album link when "album" occurs and "track" does not; a playlist link when only "playlist" occurs; unsupported exactly when none of the three occurs |
| `Catalog.Collect` | spotify.py:54-73 | nothing is collected exactly when the URL is unsupported or a call of the selected branch fails; a track link collects the one track; an album link collects one item per album track, each carrying the album lookup; a playlist link collects at most one item per entry |
| `Catalog.StampAlbum` | spotify.py:57-62 | one item per album track, in order; each carries the album lookup as its album and is otherwise the track unchanged |
| `Catalog.TrackIndicesSpec` | spotify.py:63-67 | the positions the playlist filter keeps ascend, and a position is among them exactly when its entry has a truthy track |
| `Catalog.KeepTracksSpec` | spotify.py:63-67 | the playlist branch collects one track per kept position, in order, each the track of its entry |
| `Catalog.KeepTracksAppend` | spotify.py:65-67 | the playlist filter works entry by entry, so collected tracks keep playlist order |
| `Catalog.ResolveRecordFields` | spotify.py:48-90 | one record per collected item with album data, in order; each field is given: the track number or position + 1, the total or the collected list's length, the release date or "", the first image's URL, the album artists' names |
| `Catalog.ParsePrefix` | spotify.py:75-80 | the parse loop emits at most one record per collected item |
| `Catalog.KeptIndicesSpec` | spotify.py:76-77 | the kept positions are exactly the items with album data, in ascending order |
| `Catalog.ParsePrefixSpec` | spotify.py:75-90 | each record is the one built from its kept item, with that item's own position and the full list length |
| `Catalog.Resolve` | spotify.py:48-90 | an unsupported URL or a failed provider call gives []; otherwise there are at most as many records as collected items |
| `Catalog.ProviderErrorYieldsNothing` | spotify.py:71-73 | a provider error in the selected branch (either album call included) gives [] rather than an exception |
| `Catalog.ResolveSelectsCollected` | spotify.py:75-90 | the output is an order-preserving selection of the collected list; album-less items are dropped, all others kept |
| `Catalog.TrackUrlYieldsAtMostOne` | spotify.py:54-56 | a track link gives exactly one record when the track has an album and none otherwise; the track number falls back to 1 |
| `Catalog.AlbumRecordsShareAlbum` | spotify.py:57-88 | an album link gives one record per album track; all share album name, total, release date, art URL and album artists from the one album lookup |
| `Catalog.PlaylistRecordsComeFromTracks` | spotify.py:63-80 | a playlist link gives one record per entry whose truthy track has album data, and no other: each record has its entry's title and album, and the entries appear in playlist order |
| `Catalog.GetTrackInfo` | spotify.py:48-90 | the imperative implementation, with the source's branches and loops, returns exactly `Resolve(url, p)` |
| `Catalog.StampAlbumLoop` | spotify.py:60-62 | the appending loop of the album branch builds exactly `StampAlbum` of the album tracks |
| `Catalog.KeepTracksLoop` | spotify.py:65-67 | the appending loop of the playlist branch builds exactly `KeepTracks` of the entries |
| `Catalog.ParseLoop` | spotify.py:75-90 | the parsing loop builds exactly `ParsePrefix` of the whole collected list |
| `Tagging.JoinNamesSnoc` | spotify.py:113 | `", ".join`: appending a name to a non-empty list appends ", " and the name |
| `Tagging.NatDigits` | spotify.py:117 | the rendering of `f"{n}"` is a non-empty digit string that starts with "0" only for 0, so it has no leading zeros |
| `Tagging.NatDigitsRoundTrip` | spotify.py:117 | reading the rendered decimal digits back gives the number |
| `Tagging.TrackNumberTextSplits` | spotify.py:117 | the "n/total" text has exactly one slash, right after the number |
| `Tagging.CoverImage` | spotify.py:94-103 | there is an image only when a non-empty art URL was fetched successfully with a non-empty body, and then it is that body |
| `Tagging.Mp3TagsAsWritten` | spotify.py:106-118 | as written: tags deleted, then only title, artist, album, albumartist, date and tracknumber reach the file (no cover) |
| `Tagging.Mp3Tags` | spotify.py:106-118 | intended mp3 write: tags deleted, the six text fields, plus the cover frame when there is an image |
| `Tagging.FlacTags` | spotify.py:119-127 | flac: tags deleted, then only title, artist, album, plus the picture when there is an image |
| `Tagging.M4aTags` | spotify.py:128-134 | m4a: nothing deleted; title, artist, album, the track pair, plus the cover when there is an image |
| `Tagging.Apply` | spotify.py:105-134 | after a write the file holds the written fields, plus the old ones only when the format does not delete first |
| `Tagging.TagsFor` | spotify.py:105-134 | mp3 and flac delete first and m4a does not; as written the mp3 write never carries the cover; flac and m4a carry it exactly when there is an image; any other format writes nothing |
| `Tagging.EmbedMetadata` | spotify.py:92-136 | an exception in the tagging block or an unknown format leaves the tags unchanged; after an mp3 write the file holds exactly the six text tags, after flac exactly title, artist, album and the picture when fetched; m4a adds its four tags and the fetched cover to what was there |
| `Tagging.CoverOnlyFromFetchedArt` | spotify.py:94-134 | a flac or m4a file holds the fetched bytes as its cover exactly when the art URL was set and its fetch returned bytes; otherwise flac has no picture and m4a keeps its earlier cover |
| `Tagging.Mp3NeverStoresCover` | spotify.py:106-118 | as written, an mp3 file holds no cover after a successful write, whatever was fetched |
| `Tagging.Mp3TagsStoreFetchedCover` | spotify.py:106-118 | the intended mp3 write stores the fetched bytes as the cover exactly when they were fetched |
| `Tagging.ClearingFormatsDropStaleTags` | spotify.py:106-127 | after an mp3 or flac write no earlier tag survives |
| `Tagging.M4aKeepsStaleTags` | spotify.py:128-134 | after an m4a write every earlier tag the write does not set survives unchanged |
| `Tagging.Mp3FieldsReadBack` | spotify.py:111-118 | an mp3 file holds the title, joined artists, album, joined album artists, date and "n/total" |
| `Tagging.FlacFieldsReadBack` | spotify.py:120-127 | a flac file holds title, joined artists and album, and no date, album artist or track number |
| `Tagging.M4aFieldsReadBack` | spotify.py:129-134 | an m4a file holds title, joined artists, album and the (number, total) pair |
| `Tagging.Mp3CoverLost` | spotify.py:107-118 | the as-written mp3 write drops the cover that the intended write stores |
| `Fetcher.FileStemSplits` | spotify.py:140-143 | the stem is sanitized artist + " - " + sanitized title; it is clean and never empty |
| `Fetcher.FinalPath` | spotify.py:140-148 | the path is below the output directory with one to three components; the last is the file name and the others are the track directory's |
| `Fetcher.TrackDir` | spotify.py:140-145 | the directory is the output directory, then the sanitized primary artist, then the sanitized album, in that order; a name pathlib drops ("" or ".") adds no level |
| `Fetcher.FinalPathLayout` | spotify.py:140-148 | the file lies directly in output/artist/album, artist before album (empty names add no level); no path component holds a reserved character |
| `Fetcher.SearchQuery` | spotify.py:153 | the query is the raw title, a space, the raw primary artist, then " official audio" |
| `Fetcher.Options` | spotify.py:163-182 | one FFmpegExtractAudio step whose codec is the format in both branches; quality is "0" for flac and "192" otherwise |
| `Fetcher.EncoderWritesFinalPath` | spotify.py:148-182 | the template plus the codec extension is exactly the path the existence check inspects |
| `Fetcher.ProgressCounter.constructor` | spotify.py:154 | the byte cell starts at 0 |
| `Fetcher.NextCount` | spotify.py:157-161 | one report never invents a count: the result is the old count, a reported byte count or 0; "downloading" gives the downloaded bytes, or 0 when absent; "finished" gives the total, or keeps the old count when absent; any other status changes nothing |
| `Fetcher.ProgressCounter.OnProgress` | spotify.py:157-161 | the cell takes the value `NextCount` gives for the old value and the report |
| `Fetcher.ProgressCounter.OnProgressAll` | spotify.py:157-161 | calling the hook once per report leaves the cell at `Replay` of the old value and the reports, so the Replay lemmas hold of the cell |
| `Fetcher.ReplayAppend` | spotify.py:157-161 | replaying reports in two parts equals replaying them all at once |
| `Fetcher.ReplayEndsAtTotal` | spotify.py:160-161 | after a final "finished" report that carries a total, the counter holds that total |
| `Fetcher.ReplayIgnoresOtherStatuses` | spotify.py:157-161 | reports whose status is neither "downloading" nor "finished" never change the counter |
| `Fetcher.ReplayNonNegative` | spotify.py:157-161 | the counter stays non-negative when the reported counts are |
| `Fetcher.FinalPathNotInDirChain` | spotify.py:145-150 | creating the directories never creates the file's own path, so the existence check sees only earlier entries |
| `Fetcher.DownloadAndProcess` | spotify.py:138-192 | a skip happens exactly when the path existed. A failure happens exactly when it did not and the engine raised; it adds no file and no tags. A success adds the file and its embedded tags. The engine gets the query and the options unless the track was skipped. |
| `Fetcher.PresentSkips` | spotify.py:145-151 | a track whose file and directories exist is skipped with no request, and the disk is left exactly as it was |
| `Fetcher.SecondCallSkips` | spotify.py:150-151 | after a download or a skip, the same track with the same settings is skipped, with no engine or HTTP request and no disk change |
| `Fetcher.RunBatch` | spotify.py:235-243 | every track in the batch gets one report; a failure never stops the batch; existing paths stay |
| `Fetcher.FailuresAreLocal` | spotify.py:235-243 | every report is its own track's: a task raises exactly when its record has no artist, and a track fails only when its own download raised |
| `Fetcher.CompletedFilesExist` | spotify.py:235-243 | after the batch every track with an artist has its directories on disk, and every track that was downloaded or skipped has its file there |
| `Fetcher.SkipReports` | spotify.py:150-151 | one report per track: the skip with the track's display name, or the raised task for a record without artists |
| `Fetcher.AllPresentAllSkipped` | spotify.py:150-151 | a batch over a disk that already holds every file and directory reports exactly `SkipReports`, makes no download request and changes nothing |
| `Fetcher.RerunWithoutFailuresSkips` | spotify.py:235-243 | running a batch again over the disk it left, when no track failed, skips every track, makes no download request and changes nothing |

## Left out

- Spotify client construction and credential checks (spotify.py:33-46): these are environment variables, a foreign library and a process exit. Provider answers are inputs.
- Paging: `album_tracks` and `playlist_items` return one page, and the code reads only its `items`. The model takes that page as the item list and does not follow further pages.
- Only a `SpotifyException` is turned into `[]`. Any other exception raised inside the provider client is not modelled.
- Key lookups that raise `KeyError` are not modelled. These are a missing track `name` or `artists`, a missing album `name`, a missing artist `name`, a first image without `url` (spotify.py:87) and a progress report without `status` (spotify.py:158). The datatypes make those fields required. A key that is present with the value null is not modelled either.
- The cover download (spotify.py:98-100) is the `ArtResponse` oracle. The yt-dlp download (spotify.py:184-185) is the `EngineResult` oracle. The model assumes a successful download leaves the file at the extracted path. The choice of search result and partial files are not modelled.
- mutagen is reduced to a tag map.
  - The as-written mp3 branch raises when the file had no ID3 header and there is an image. That case is not modelled.
- Tagging.EmbedMetadata: an exception inside the tagging block leaves the tags as they were. The model does not capture that an mp3 or flac `delete()` may already have reached the file before the exception.
- Tagging.ClearingFormatsDropStaleTags: FLAC `delete()` removes the comment tags but keeps earlier picture blocks. The model treats the picture as one more tag, so it states that no earlier picture survives, which is stronger than the code.
- Tagging.EmbedMetadata: for the same reason, "after a flac write the file holds exactly title, artist, album and the fetched picture" holds of the model but not of the code, where earlier picture blocks survive `delete()`.
- Tagging.CoverOnlyFromFetchedArt: for the same reason, "without a fetched cover a flac file has no picture" holds of the model but not of the code, where an earlier picture block survives `delete()`.
- Throughput (spotify.py:154-155, 186-187) is not modelled: it needs the wall clock and floating-point division.
- Fetcher.RunBatch: the thread pool (spotify.py:235-243) runs tasks concurrently. The model runs them in submission order, one after another. Interleavings and races on the shared disk are not captured.
- `mkdir` failing with an operating-system error is not modelled.
- pathlib rendering of the output root is not modelled. A component equal to "..", which pathlib keeps, is kept as a plain component.
- The interactive loop, argparse, banner, logging and the coloured message strings (spotify.py:194-249) are not modelled. Outcomes are the `Outcome` datatype. The format is limited to the three command-line choices only where path cleanliness needs it (`KnownFormat`).

## Findings

| source | as written | input that shows it | evidently intended | confidence | as-written member | corrected member |
|---|---|---|---|---|---|---|
| spotify.py:107-118 | the APIC cover frame is added to the first `MP3` handle. The file is then reopened as `EasyMP3`, and only that second handle is saved, so the frame is dropped | format mp3, a record with a non-empty `album_art_url` whose fetch returns non-empty bytes | the cover is stored in the mp3 file, as the flac and m4a branches store theirs | medium, not executed (relies on mutagen keeping unsaved frames only in memory) | Tagging.Mp3TagsAsWritten, Tagging.Mp3CoverLost, Tagging.Mp3NeverStoresCover | Tagging.Mp3Tags, Tagging.Mp3TagsStoreFetchedCover |
