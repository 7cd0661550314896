/**
 * The metadata embedder: which tag fields each container format receives
 * for a track record, whether the file's existing tags are cleared first,
 * and when a cover image is attached.
 *
 * The tagging library is abstracted to a map from the format's own key
 * names to values; one format's write is a `TagWrite`, and `Apply` gives the
 * file's tags after it.
 */
module Tagging {
  import opened Wrappers
  import opened Catalog

  type Bytes = seq<bv8>

  /** The HTTP fetch of the cover image: the response body, or a request
      error (connection failure or an error status). */
  datatype ArtResponse = ArtFetched(content: Bytes) | ArtError

  datatype TagValue = Text(text: string) | NumberPair(number: int, total: int) | Picture(data: Bytes)

  /** A file's tags, keyed by the format's own key names. */
  type Tags = map<string, TagValue>

  /** One format's tag write: whether existing tags are deleted first, and the fields set. */
  datatype TagWrite = TagWrite(clearFirst: bool, fields: Tags)

  // ---------------------------------------------------------------- key names per format

  const Mp3Title := "title"
  const Mp3Artist := "artist"
  const Mp3Album := "album"
  const Mp3AlbumArtist := "albumartist"
  const Mp3Date := "date"
  const Mp3TrackNumber := "tracknumber"
  /** The ID3 APIC frame with description "Cover". */
  const Mp3Cover := "APIC:Cover"

  const FlacTitle := "title"
  const FlacArtist := "artist"
  const FlacAlbum := "album"
  /** The FLAC picture block. */
  const FlacPicture := "picture"

  const M4aTitle := "\U{a9}nam"
  const M4aArtist := "\U{a9}ART"
  const M4aAlbum := "\U{a9}alb"
  const M4aTrackNumber := "trkn"
  const M4aCover := "covr"

  // ---------------------------------------------------------------- text rendering

  /** Python's `", ".join(xs)`. */
  function JoinNames(xs: seq<string>): (r: string)
    ensures xs == [] ==> r == ""
    ensures |xs| == 1 ==> r == xs[0]
  {
    if xs == [] then ""
    else if |xs| == 1 then xs[0]
    else xs[0] + ", " + JoinNames(xs[1..])
  }

  /** Appending a name to a non-empty list appends ", " and the name. */
  lemma {:induction false} JoinNamesSnoc(xs: seq<string>, y: string)
    requires xs != []
    ensures JoinNames(xs + [y]) == JoinNames(xs) + ", " + y
  {
    assert (xs + [y])[0] == xs[0] && (xs + [y])[1..] == xs[1..] + [y];
    if |xs| == 1 {
      assert xs[1..] + [y] == [y];
    } else {
      JoinNamesSnoc(xs[1..], y);
      assert xs[0] + ", " + (JoinNames(xs[1..]) + ", " + y) == (xs[0] + ", " + JoinNames(xs[1..])) + ", " + y;
    }
  }

  predicate IsDigit(c: char) {
    '0' <= c <= '9'
  }

  function DigitChar(d: nat): (c: char)
    requires d < 10
    ensures IsDigit(c) && c as int - '0' as int == d
  {
    (d + '0' as int) as char
  }

  /** The decimal digits of `n`, most significant first. */
  function NatDigits(n: nat): (s: string)
    ensures |s| > 0 && (s[0] == '0' <==> n == 0)
    ensures forall i :: 0 <= i < |s| ==> IsDigit(s[i])
    decreases n
  {
    if n < 10 then [DigitChar(n)] else NatDigits(n / 10) + [DigitChar(n % 10)]
  }

  /** The number a digit string denotes. */
  function DigitsValue(s: string): nat
    requires forall i :: 0 <= i < |s| ==> IsDigit(s[i])
  {
    if s == [] then 0
    else
      assert IsDigit(s[|s| - 1]);
      10 * DigitsValue(s[..|s| - 1]) + (s[|s| - 1] as int - '0' as int)
  }

  /** Reading the rendered digits back gives the number. */
  lemma {:induction false} NatDigitsRoundTrip(n: nat)
    ensures DigitsValue(NatDigits(n)) == n
    decreases n
  {
    var s := NatDigits(n);
    if n >= 10 {
      NatDigitsRoundTrip(n / 10);
      assert s[..|s| - 1] == NatDigits(n / 10);
    }
  }

  /** Python's `f"{n}"` for an integer. */
  function Decimal(n: int): (s: string)
    ensures |s| > 0
    ensures forall i :: 0 <= i < |s| ==> IsDigit(s[i]) || s[i] == '-'
  {
    if n < 0 then "-" + NatDigits(-n) else NatDigits(n)
  }

  /** The ID3 track-number text `"n/total"`. */
  function TrackNumberText(n: int, total: int): string {
    Decimal(n) + "/" + Decimal(total)
  }

  /** The track-number text has exactly one slash, right after the track number,
      so the number and the total can be told apart. */
  lemma TrackNumberTextSplits(n: int, total: int)
    ensures var t := TrackNumberText(n, total);
      forall i :: 0 <= i < |t| ==> (t[i] == '/' <==> i == |Decimal(n)|)
  {
    var t := TrackNumberText(n, total);
    forall i | 0 <= i < |t| ensures t[i] == '/' <==> i == |Decimal(n)| {
      if i < |Decimal(n)| {
        assert t[i] == Decimal(n)[i];
      } else if i > |Decimal(n)| {
        assert t[i] == Decimal(total)[i - |Decimal(n)| - 1];
      }
    }
  }

  // ---------------------------------------------------------------- cover art

  /** The URL requested for the cover, if any: only a non-empty `album_art_url`
      triggers the request. */
  function ArtRequest(rec: TrackRecord): Option<string> {
    if rec.albumArtUrl.Some? && rec.albumArtUrl.value != "" then rec.albumArtUrl else None
  }

  /** The image attached to the file: the fetched bytes, when a request was
      made, it succeeded and the body is non-empty. */
  function CoverImage(rec: TrackRecord, resp: ArtResponse): (img: Option<Bytes>)
    ensures img.Some? ==> ArtRequest(rec).Some? && resp == ArtFetched(img.value) && |img.value| > 0
    ensures ArtRequest(rec).Some? && resp.ArtFetched? && |resp.content| > 0 ==> img == Some(resp.content)
  {
    if ArtRequest(rec).None? then None
    else match resp
      case ArtError => None
      case ArtFetched(content) => if |content| > 0 then Some(content) else None
  }

  // ---------------------------------------------------------------- per-format writes

  /** The six text fields written through the easy ID3 interface. */
  function Mp3TextFields(rec: TrackRecord): Tags {
    map[
      Mp3Title := Text(rec.name),
      Mp3Artist := Text(JoinNames(rec.artists)),
      Mp3Album := Text(rec.album),
      Mp3AlbumArtist := Text(JoinNames(rec.albumArtists)),
      Mp3Date := Text(rec.releaseDate),
      Mp3TrackNumber := Text(TrackNumberText(rec.trackNumber, rec.totalTracks))]
  }

  /** The mp3 branch as written: the cover frame is added to the first file
      handle, which is then dropped unsaved when the file is reopened for the
      easy interface, so only the text fields reach the file. */
  function Mp3TagsAsWritten(rec: TrackRecord, image: Option<Bytes>): (w: TagWrite)
    ensures w.clearFirst
    ensures w.fields.Keys == {Mp3Title, Mp3Artist, Mp3Album, Mp3AlbumArtist, Mp3Date, Mp3TrackNumber}
  {
    TagWrite(true, Mp3TextFields(rec))
  }

  /** The mp3 write as intended: tags cleared, the six text fields, and the
      cover frame when there is an image. */
  function Mp3Tags(rec: TrackRecord, image: Option<Bytes>): (w: TagWrite)
    ensures w.clearFirst
    ensures w.fields.Keys == {Mp3Title, Mp3Artist, Mp3Album, Mp3AlbumArtist, Mp3Date, Mp3TrackNumber}
      + (if image.Some? then {Mp3Cover} else {})
  {
    TagWrite(true, Mp3TextFields(rec) + (if image.Some? then map[Mp3Cover := Picture(image.value)] else map[]))
  }

  /** The flac write: tags cleared, then only title, artist, album and the picture. */
  function FlacTags(rec: TrackRecord, image: Option<Bytes>): (w: TagWrite)
    ensures w.clearFirst
    ensures w.fields.Keys == {FlacTitle, FlacArtist, FlacAlbum} + (if image.Some? then {FlacPicture} else {})
  {
    TagWrite(true,
      map[FlacTitle := Text(rec.name), FlacArtist := Text(JoinNames(rec.artists)), FlacAlbum := Text(rec.album)]
      + (if image.Some? then map[FlacPicture := Picture(image.value)] else map[]))
  }

  /** The m4a write: nothing cleared; title, artist, album, the (number, total)
      pair and the cover. */
  function M4aTags(rec: TrackRecord, image: Option<Bytes>): (w: TagWrite)
    ensures !w.clearFirst
    ensures w.fields.Keys == {M4aTitle, M4aArtist, M4aAlbum, M4aTrackNumber} + (if image.Some? then {M4aCover} else {})
  {
    TagWrite(false,
      map[
        M4aTitle := Text(rec.name),
        M4aArtist := Text(JoinNames(rec.artists)),
        M4aAlbum := Text(rec.album),
        M4aTrackNumber := NumberPair(rec.trackNumber, rec.totalTracks)]
      + (if image.Some? then map[M4aCover := Picture(image.value)] else map[]))
  }

  /** Dispatch on the format string, as written: mp3 and flac clear first, the
      mp3 write never carries the cover, flac and m4a carry it exactly when
      there is an image, and any other format writes nothing. */
  function TagsFor(format: string, rec: TrackRecord, image: Option<Bytes>): (w: TagWrite)
    ensures w.clearFirst <==> format == "mp3" || format == "flac"
    ensures format == "mp3" ==> Mp3Cover !in w.fields
    ensures format == "flac" ==> (FlacPicture in w.fields <==> image.Some?)
    ensures format == "m4a" ==> (M4aCover in w.fields <==> image.Some?)
    ensures format != "mp3" && format != "flac" && format != "m4a" ==> w.fields == map[]
  {
    if format == "mp3" then Mp3TagsAsWritten(rec, image)
    else if format == "flac" then FlacTags(rec, image)
    else if format == "m4a" then M4aTags(rec, image)
    else TagWrite(false, map[])
  }

  /** The file's tags after a write. */
  function Apply(existing: Tags, w: TagWrite): (r: Tags)
    ensures r.Keys == w.fields.Keys + (if w.clearFirst then {} else existing.Keys)
    ensures forall k :: k in w.fields ==> r[k] == w.fields[k]
    ensures forall k :: k in existing && k !in w.fields && !w.clearFirst ==> r[k] == existing[k]
  {
    (if w.clearFirst then map[] else existing) + w.fields
  }

  /** `embed_metadata`: the cover is fetched when the record has a URL; a
      tagging failure is swallowed and leaves the file's tags as they were. */
  function EmbedMetadata(existing: Tags, rec: TrackRecord, format: string, art: ArtResponse, tagOk: bool): (r: Tags)
    ensures !tagOk ==> r == existing
    ensures format != "mp3" && format != "flac" && format != "m4a" ==> r == existing
    ensures tagOk && format == "mp3" ==>
      r.Keys == {Mp3Title, Mp3Artist, Mp3Album, Mp3AlbumArtist, Mp3Date, Mp3TrackNumber}
    ensures tagOk && format == "flac" ==>
      r.Keys == {FlacTitle, FlacArtist, FlacAlbum} + (if CoverImage(rec, art).Some? then {FlacPicture} else {})
    ensures tagOk && format == "m4a" ==>
      r.Keys == existing.Keys + {M4aTitle, M4aArtist, M4aAlbum, M4aTrackNumber}
        + (if CoverImage(rec, art).Some? then {M4aCover} else {})
  {
    if tagOk then Apply(existing, TagsFor(format, rec, CoverImage(rec, art))) else existing
  }

  /** The cover reaches a flac or m4a file exactly when a cover URL was set,
      its fetch succeeded and returned bytes, and it then holds those bytes;
      without them flac has no picture and m4a keeps whatever cover it had. */
  lemma CoverOnlyFromFetchedArt(existing: Tags, rec: TrackRecord, format: string, art: ArtResponse)
    requires format == "flac" || format == "m4a"
    ensures var key, fetched := (if format == "flac" then FlacPicture else M4aCover),
        ArtRequest(rec).Some? && art.ArtFetched? && |art.content| > 0;
      var tags := EmbedMetadata(existing, rec, format, art, true);
      && (fetched ==> key in tags && tags[key] == Picture(art.content))
      && (!fetched && format == "flac" ==> key !in tags)
      && (!fetched && format == "m4a" ==>
            (key in tags <==> key in existing) && (key in existing ==> tags[key] == existing[key]))
  {
  }

  /** As written, an mp3 file never holds a cover after a successful write,
      whatever the fetch returned and whatever cover it had before. */
  lemma Mp3NeverStoresCover(existing: Tags, rec: TrackRecord, art: ArtResponse)
    ensures Mp3Cover !in EmbedMetadata(existing, rec, "mp3", art, true)
  {
  }

  /** The corrected mp3 write stores the cover exactly when it was fetched,
      as flac does. */
  lemma Mp3TagsStoreFetchedCover(existing: Tags, rec: TrackRecord, art: ArtResponse)
    ensures var fetched := ArtRequest(rec).Some? && art.ArtFetched? && |art.content| > 0;
      var tags := Apply(existing, Mp3Tags(rec, CoverImage(rec, art)));
      && (Mp3Cover in tags <==> fetched)
      && (fetched ==> tags[Mp3Cover] == Picture(art.content))
  {
  }

  /** mp3 and flac delete the existing tags: nothing stale survives a successful write. */
  lemma ClearingFormatsDropStaleTags(existing: Tags, rec: TrackRecord, format: string, art: ArtResponse)
    requires format == "mp3" || format == "flac"
    ensures EmbedMetadata(existing, rec, format, art, true).Keys
      == TagsFor(format, rec, CoverImage(rec, art)).fields.Keys
  {
  }

  /** m4a does not delete: every existing tag it does not overwrite survives. */
  lemma M4aKeepsStaleTags(existing: Tags, rec: TrackRecord, art: ArtResponse)
    ensures var tags := EmbedMetadata(existing, rec, "m4a", art, true);
      && existing.Keys <= tags.Keys
      && forall k :: k in existing && k !in {M4aTitle, M4aArtist, M4aAlbum, M4aTrackNumber, M4aCover}
           ==> tags[k] == existing[k]
  {
  }

  /** What an mp3 file holds after a successful write: the record's text
      fields, the album artists joined (so "" when there are none) and "n/total". */
  lemma Mp3FieldsReadBack(existing: Tags, rec: TrackRecord, art: ArtResponse)
    ensures var t := EmbedMetadata(existing, rec, "mp3", art, true);
      && t[Mp3Title] == Text(rec.name)
      && t[Mp3Artist] == Text(JoinNames(rec.artists))
      && t[Mp3Album] == Text(rec.album)
      && t[Mp3AlbumArtist] == Text(JoinNames(rec.albumArtists))
      && t[Mp3Date] == Text(rec.releaseDate)
      && t[Mp3TrackNumber] == Text(Decimal(rec.trackNumber) + "/" + Decimal(rec.totalTracks))
  {
    assert TagsFor("mp3", rec, CoverImage(rec, art)).fields == Mp3TextFields(rec);
  }

  /** What a flac file holds after a successful write: title, artist and album
      only; no date, album artist or track number. */
  lemma FlacFieldsReadBack(existing: Tags, rec: TrackRecord, art: ArtResponse)
    ensures var t := EmbedMetadata(existing, rec, "flac", art, true);
      && t[FlacTitle] == Text(rec.name)
      && t[FlacArtist] == Text(JoinNames(rec.artists))
      && t[FlacAlbum] == Text(rec.album)
      && "date" !in t && "albumartist" !in t && "tracknumber" !in t
  {
    assert FlacPicture != FlacTitle && FlacPicture != FlacArtist && FlacPicture != FlacAlbum;
  }

  /** What an m4a file holds after a successful write: title, artist, album
      and the (number, total) pair. */
  lemma M4aFieldsReadBack(existing: Tags, rec: TrackRecord, art: ArtResponse)
    ensures var t := EmbedMetadata(existing, rec, "m4a", art, true);
      && t[M4aTitle] == Text(rec.name)
      && t[M4aArtist] == Text(JoinNames(rec.artists))
      && t[M4aAlbum] == Text(rec.album)
      && t[M4aTrackNumber] == NumberPair(rec.trackNumber, rec.totalTracks)
  {
    assert M4aCover != M4aTitle && M4aCover != M4aArtist && M4aCover != M4aAlbum && M4aCover != M4aTrackNumber;
  }

  /** The mp3 branch as written loses the cover that the intended write keeps. */
  lemma Mp3CoverLost(rec: TrackRecord, image: Bytes)
    ensures Mp3Cover !in Apply(map[], Mp3TagsAsWritten(rec, Some(image)))
    ensures Apply(map[], Mp3Tags(rec, Some(image)))[Mp3Cover] == Picture(image)
  {
  }
}
