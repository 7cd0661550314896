/**
 * The catalog resolver: classifies a Spotify URL as a track, album or
 * playlist link, collects the raw items the provider returns for it, and
 * normalises each surviving item into a flat track record.
 *
 * The provider client is not modelled; what it answered for the URL at
 * hand is an input (`Provider`), one response per endpoint, each either the
 * provider-native object or a provider error.
 */
module Catalog {
  import opened Wrappers

  /** An artist object; only its `name` is read. */
  datatype RawArtist = RawArtist(name: string)

  /** An image object; only its `url` is read. */
  datatype RawImage = RawImage(url: string)

  /** An album object. `images` and `artists` read as `[]` when the key is
      absent; for `images` the code treats absent, null and empty alike, while
      a null `artists` raises and is not modelled. The two `Option` fields are
      `None` when the key is absent. */
  datatype RawAlbum = RawAlbum(
    name: string,
    totalTracks: Option<int>,
    releaseDate: Option<string>,
    images: seq<RawImage>,
    artists: seq<RawArtist>)

  /** A track object. `album` is `None` when the key is absent or its value
      is falsy (null or an empty object); `trackNumber` is `None` when absent. */
  datatype RawTrack = RawTrack(
    name: string,
    artists: seq<RawArtist>,
    trackNumber: Option<int>,
    album: Option<RawAlbum>)

  /** A playlist entry; `track` is `None` when absent or falsy. */
  datatype PlaylistItem = PlaylistItem(track: Option<RawTrack>)

  /** One provider call: its result, or a provider error. */
  datatype Response<T> = Ok(value: T) | ProviderError

  /** What the provider answers, for the URL being resolved, on each endpoint
      (single track, album, the album's track page, the playlist's item page). */
  datatype Provider = Provider(
    track: Response<RawTrack>,
    album: Response<RawAlbum>,
    albumTracks: Response<seq<RawTrack>>,
    playlistItems: Response<seq<PlaylistItem>>)

  /** The normalised track record handed to the downloader. */
  datatype TrackRecord = TrackRecord(
    name: string,
    artists: seq<string>,
    album: string,
    trackNumber: int,
    totalTracks: int,
    releaseDate: string,
    albumArtUrl: Option<string>,
    albumArtists: seq<string>)

  datatype UrlKind = TrackUrl | AlbumUrl | PlaylistUrl | Unsupported

  // ---------------------------------------------------------------- URL classification

  /** Python's `p in s` for strings: `p` occurs somewhere in `s`. */
  function Contains(s: string, p: string): bool
    decreases |s|
  {
    if |s| < |p| then false
    else s[..|p|] == p || Contains(s[1..], p)
  }

  /** `p` occurs in `s` starting at index `i`. */
  ghost predicate OccursAt(s: string, p: string, i: int) {
    0 <= i && i + |p| <= |s| && s[i..i + |p|] == p
  }

  /** `Contains` is the substring test. */
  lemma {:induction false} ContainsIffOccurs(s: string, p: string)
    ensures Contains(s, p) <==> exists i :: OccursAt(s, p, i)
    decreases |s|
  {
    if |s| < |p| {
      forall i ensures !OccursAt(s, p, i) { }
    } else if s[..|p|] == p {
      assert OccursAt(s, p, 0);
    } else {
      ContainsIffOccurs(s[1..], p);
      if Contains(s[1..], p) {
        var j :| OccursAt(s[1..], p, j);
        assert s[1..][j..j + |p|] == s[j + 1..j + 1 + |p|];
        assert OccursAt(s, p, j + 1);
      } else {
        forall i | OccursAt(s, p, i) ensures false {
          assert i != 0;
          assert s[1..][i - 1..i - 1 + |p|] == s[i..i + |p|];
          assert OccursAt(s[1..], p, i - 1);
        }
      }
    }
  }

  /** The link kind, tested by substring with a fixed priority: a URL in which
      "track" occurs is a track link even when "album" or "playlist" also
      occur; otherwise "album" wins over "playlist"; a URL with none of the
      three is unsupported. */
  function Classify(url: string): (k: UrlKind)
    ensures (exists i :: OccursAt(url, "track", i)) ==> k == TrackUrl
    ensures ((!exists i :: OccursAt(url, "track", i)) && (exists i :: OccursAt(url, "album", i)))
      ==> k == AlbumUrl
    ensures ((!exists i :: OccursAt(url, "track", i)) && (!exists i :: OccursAt(url, "album", i))
      && (exists i :: OccursAt(url, "playlist", i))) ==> k == PlaylistUrl
    ensures k == Unsupported <==>
      (!exists i :: OccursAt(url, "track", i)) && (!exists i :: OccursAt(url, "album", i))
      && (!exists i :: OccursAt(url, "playlist", i))
  {
    ContainsIffOccurs(url, "track");
    ContainsIffOccurs(url, "album");
    ContainsIffOccurs(url, "playlist");
    if Contains(url, "track") then TrackUrl
    else if Contains(url, "album") then AlbumUrl
    else if Contains(url, "playlist") then PlaylistUrl
    else Unsupported
  }

  // ---------------------------------------------------------------- collecting raw items

  /** The album branch: the shared album object is stamped onto every item;
      each item keeps its place and all its other fields. */
  function StampAlbum(items: seq<RawTrack>, info: RawAlbum): (r: seq<RawTrack>)
    ensures |r| == |items|
    ensures forall k :: 0 <= k < |r| ==> r[k].album == Some(info)
    ensures forall k :: 0 <= k < |r| ==> r[k].(album := items[k].album) == items[k]
  {
    seq(|items|, k requires 0 <= k < |items| => items[k].(album := Some(info)))
  }

  /** The playlist branch: the embedded tracks of the entries whose track is truthy. */
  function KeepTracks(items: seq<PlaylistItem>): (r: seq<RawTrack>)
    ensures |r| <= |items|
    ensures forall k :: 0 <= k < |r| ==> exists j :: 0 <= j < |items| && items[j].track == Some(r[k])
  {
    if items == [] then []
    else
      var last := items[|items| - 1];
      var init := items[..|items| - 1];
      var front := KeepTracks(init);
      assert forall j :: 0 <= j < |init| ==> init[j] == items[j];
      front + (if last.track.Some? then [last.track.value] else [])
  }

  /** Keeping tracks works entry by entry, so the kept tracks stay in playlist order. */
  lemma {:induction false} KeepTracksAppend(a: seq<PlaylistItem>, b: seq<PlaylistItem>)
    ensures KeepTracks(a + b) == KeepTracks(a) + KeepTracks(b)
    decreases |b|
  {
    if b == [] {
      assert a + b == a;
    } else {
      var b' := b[..|b| - 1];
      assert (a + b)[..|a + b| - 1] == a + b';
      assert (a + b)[|a + b| - 1] == b[|b| - 1];
      KeepTracksAppend(a, b');
    }
  }

  /** The positions of the first `k` playlist entries whose track is truthy. */
  function TrackIndices(items: seq<PlaylistItem>, k: nat): seq<nat>
    requires k <= |items|
  {
    if k == 0 then []
    else TrackIndices(items, k - 1) + (if items[k - 1].track.Some? then [k - 1] else [])
  }

  /** The positions of truthy tracks are exactly the entries below `k` whose
      track is truthy, ascending. */
  lemma {:induction false} TrackIndicesSpec(items: seq<PlaylistItem>, k: nat)
    requires k <= |items|
    ensures var ix := TrackIndices(items, k);
      && (forall m :: 0 <= m < |ix| ==> ix[m] < k && items[ix[m]].track.Some?)
      && (forall m, m' :: 0 <= m < m' < |ix| ==> ix[m] < ix[m'])
      && (forall j :: 0 <= j < k ==> (items[j].track.Some? <==> j in ix))
  {
    if k > 0 {
      TrackIndicesSpec(items, k - 1);
      var ix0 := TrackIndices(items, k - 1);
      assert k - 1 !in ix0;
      if items[k - 1].track.Some? {
        var ix := ix0 + [k - 1];
        assert forall m :: 0 <= m < |ix0| ==> ix[m] == ix0[m];
      }
    }
  }

  /** The tracks kept from the first `k` entries are the truthy tracks at those
      positions, one per position, in entry order. */
  lemma {:induction false} KeepTracksSpec(items: seq<PlaylistItem>, k: nat)
    requires k <= |items|
    ensures |KeepTracks(items[..k])| == |TrackIndices(items, k)|
    ensures forall m :: 0 <= m < |TrackIndices(items, k)| ==>
      TrackIndices(items, k)[m] < k && items[TrackIndices(items, k)[m]].track == Some(KeepTracks(items[..k])[m])
  {
    if k > 0 {
      KeepTracksSpec(items, k - 1);
      var ix0, r0 := TrackIndices(items, k - 1), KeepTracks(items[..k - 1]);
      var ix, r := TrackIndices(items, k), KeepTracks(items[..k]);
      assert items[..k][..k - 1] == items[..k - 1];
      if items[k - 1].track.Some? {
        assert ix == ix0 + [k - 1];
        assert r == r0 + [items[k - 1].track.value];
        forall m | 0 <= m < |ix| ensures ix[m] < k && items[ix[m]].track == Some(r[m]) {
          if m < |ix0| {
            assert ix[m] == ix0[m] && r[m] == r0[m];
          }
        }
      } else {
        assert ix == ix0 && r == r0;
      }
    }
  }

  /** The raw items collected for the URL, or `None` when the URL is unsupported
      or a provider call of the selected branch failed. */
  function Collect(url: string, p: Provider): (r: Option<seq<RawTrack>>)
    ensures r.None? <==>
      || Classify(url) == Unsupported
      || (Classify(url) == TrackUrl && p.track.ProviderError?)
      || (Classify(url) == AlbumUrl && (p.album.ProviderError? || p.albumTracks.ProviderError?))
      || (Classify(url) == PlaylistUrl && p.playlistItems.ProviderError?)
    ensures Classify(url) == TrackUrl && r.Some? ==> r.value == [p.track.value]
    ensures Classify(url) == AlbumUrl && r.Some? ==>
      |r.value| == |p.albumTracks.value| && forall k :: 0 <= k < |r.value| ==> r.value[k].album == Some(p.album.value)
    ensures Classify(url) == PlaylistUrl && r.Some? ==> |r.value| <= |p.playlistItems.value|
  {
    match Classify(url)
    case TrackUrl =>
      if p.track.Ok? then Some([p.track.value]) else None
    case AlbumUrl =>
      if p.album.Ok? && p.albumTracks.Ok? then Some(StampAlbum(p.albumTracks.value, p.album.value))
      else None
    case PlaylistUrl =>
      if p.playlistItems.Ok? then Some(KeepTracks(p.playlistItems.value)) else None
    case Unsupported => None
  }

  // ---------------------------------------------------------------- normalisation

  function Names(artists: seq<RawArtist>): (r: seq<string>)
    ensures |r| == |artists|
    ensures forall k :: 0 <= k < |r| ==> r[k] == artists[k].name
  {
    seq(|artists|, k requires 0 <= k < |artists| => artists[k].name)
  }

  /** The record for collected item `t` at 0-based position `i` of a collected
      list of length `n`, with album data `a`. */
  function ToRecord(t: RawTrack, a: RawAlbum, i: nat, n: nat): (r: TrackRecord)
    ensures r.name == t.name && r.artists == Names(t.artists) && r.album == a.name
    ensures t.trackNumber.Some? ==> r.trackNumber == t.trackNumber.value
    ensures t.trackNumber.None? ==> r.trackNumber == i + 1
    ensures a.totalTracks.Some? ==> r.totalTracks == a.totalTracks.value
    ensures a.totalTracks.None? ==> r.totalTracks == n
    ensures a.releaseDate.Some? ==> r.releaseDate == a.releaseDate.value
    ensures a.releaseDate.None? ==> r.releaseDate == ""
    ensures r.albumArtUrl.Some? <==> |a.images| > 0
    ensures r.albumArtUrl.Some? ==> r.albumArtUrl.value == a.images[0].url
    ensures r.albumArtists == Names(a.artists)
  {
    TrackRecord(
      name := t.name,
      artists := Names(t.artists),
      album := a.name,
      trackNumber := t.trackNumber.GetOr(i + 1),
      totalTracks := a.totalTracks.GetOr(n),
      releaseDate := a.releaseDate.GetOr(""),
      albumArtUrl := if |a.images| > 0 then Some(a.images[0].url) else None,
      albumArtists := Names(a.artists))
  }

  /** The record for `list[i]`, or nothing when that item has no album. */
  function ParseItem(list: seq<RawTrack>, i: nat): seq<TrackRecord>
    requires i < |list|
  {
    match list[i].album
    case None => []
    case Some(a) => [ToRecord(list[i], a, i, |list|)]
  }

  /** The records for the first `k` collected items. */
  function ParsePrefix(list: seq<RawTrack>, k: nat): (r: seq<TrackRecord>)
    requires k <= |list|
    ensures |r| <= k
  {
    if k == 0 then [] else ParsePrefix(list, k - 1) + ParseItem(list, k - 1)
  }

  /** The positions of the first `k` collected items that have album data. */
  function KeptIndices(list: seq<RawTrack>, k: nat): seq<nat>
    requires k <= |list|
  {
    if k == 0 then []
    else KeptIndices(list, k - 1) + (if list[k - 1].album.Some? then [k - 1] else [])
  }

  /** `r` is the record built from collected item `j`. */
  ghost predicate RecordOf(list: seq<RawTrack>, j: int, r: TrackRecord) {
    0 <= j < |list| && list[j].album.Some? && r == ToRecord(list[j], list[j].album.value, j, |list|)
  }

  /** The kept positions are exactly the positions below `k` with album data, ascending. */
  lemma {:induction false} KeptIndicesSpec(list: seq<RawTrack>, k: nat)
    requires k <= |list|
    ensures var ix := KeptIndices(list, k);
      && |ix| <= k
      && (forall m :: 0 <= m < |ix| ==> ix[m] < k && list[ix[m]].album.Some?)
      && (forall m, m' :: 0 <= m < m' < |ix| ==> ix[m] < ix[m'])
      && (forall j :: 0 <= j < k ==> (list[j].album.Some? <==> j in ix))
  {
    if k > 0 {
      KeptIndicesSpec(list, k - 1);
      var ix0 := KeptIndices(list, k - 1);
      if list[k - 1].album.Some? {
        var ix := ix0 + [k - 1];
        assert forall m :: 0 <= m < |ix0| ==> ix[m] == ix0[m];
        assert k - 1 !in ix0;
      } else {
        assert k - 1 !in ix0;
      }
    }
  }

  /** The records for the first `k` items are those of the kept positions, one each, in order. */
  lemma {:induction false} ParsePrefixSpec(list: seq<RawTrack>, k: nat)
    requires k <= |list|
    ensures |ParsePrefix(list, k)| == |KeptIndices(list, k)|
    ensures forall m :: 0 <= m < |KeptIndices(list, k)| ==>
      RecordOf(list, KeptIndices(list, k)[m], ParsePrefix(list, k)[m])
  {
    if k > 0 {
      ParsePrefixSpec(list, k - 1);
      var ix0, out0 := KeptIndices(list, k - 1), ParsePrefix(list, k - 1);
      var ix, out := KeptIndices(list, k), ParsePrefix(list, k);
      if list[k - 1].album.None? {
        assert ix == ix0 && out == out0;
      } else {
        var r := ToRecord(list[k - 1], list[k - 1].album.value, k - 1, |list|);
        assert ix == ix0 + [k - 1];
        assert out == out0 + [r];
        assert RecordOf(list, k - 1, r);
        forall m | 0 <= m < |ix| ensures RecordOf(list, ix[m], out[m]) {
          if m < |ix0| {
            assert ix[m] == ix0[m] && out[m] == out0[m];
          }
        }
      }
    }
  }

  /** When every collected item carries album data, every position is kept. */
  lemma {:induction false} KeptAll(list: seq<RawTrack>, k: nat)
    requires k <= |list|
    requires forall j :: 0 <= j < |list| ==> list[j].album.Some?
    ensures KeptIndices(list, k) == seq(k, j => j)
  {
    if k > 0 {
      KeptAll(list, k - 1);
    }
  }

  /** The whole of `get_track_info` as a function of the URL and the provider's answers. */
  function Resolve(url: string, p: Provider): (r: seq<TrackRecord>)
    ensures Classify(url) == Unsupported ==> r == []
    ensures Collect(url, p).None? ==> r == []
    ensures Collect(url, p).Some? ==> |r| <= |Collect(url, p).value|
  {
    match Collect(url, p)
    case None => []
    case Some(list) => ParsePrefix(list, |list|)
  }

  /** A provider error in the branch the URL selects yields no records, never an exception. */
  lemma ProviderErrorYieldsNothing(url: string, p: Provider)
    requires || (Classify(url) == TrackUrl && p.track.ProviderError?)
             || (Classify(url) == AlbumUrl && (p.album.ProviderError? || p.albumTracks.ProviderError?))
             || (Classify(url) == PlaylistUrl && p.playlistItems.ProviderError?)
    ensures Resolve(url, p) == []
  {
  }

  /** The output is an order-preserving selection of the collected items with
      album data; album-less items are dropped; the fallbacks use the item's
      position and the collected list's length. */
  lemma ResolveSelectsCollected(url: string, p: Provider)
    requires Collect(url, p).Some?
    ensures var list, ix, out := Collect(url, p).value, KeptIndices(Collect(url, p).value, |Collect(url, p).value|), Resolve(url, p);
      && |out| == |ix| <= |list|
      && (forall m, m' :: 0 <= m < m' < |ix| ==> ix[m] < ix[m'])
      && (forall j :: 0 <= j < |list| ==> (list[j].album.Some? <==> j in ix))
      && (forall m :: 0 <= m < |ix| ==> RecordOf(list, ix[m], out[m]))
  {
    var list := Collect(url, p).value;
    KeptIndicesSpec(list, |list|);
    ParsePrefixSpec(list, |list|);
  }

  /** Every field of every record, in terms of the collected item it comes
      from: the item's own values where present, otherwise its 1-based
      position, the collected list's length, "" and no cover. */
  lemma ResolveRecordFields(url: string, p: Provider)
    requires Collect(url, p).Some?
    ensures var list, out := Collect(url, p).value, Resolve(url, p);
      var ix := KeptIndices(list, |list|);
      && |out| == |ix|
      && forall m :: 0 <= m < |out| ==>
           && 0 <= ix[m] < |list| && list[ix[m]].album.Some?
           && out[m].name == list[ix[m]].name
           && out[m].artists == Names(list[ix[m]].artists)
           && out[m].album == list[ix[m]].album.value.name
           && out[m].trackNumber == (if list[ix[m]].trackNumber.Some? then list[ix[m]].trackNumber.value else ix[m] + 1)
           && out[m].totalTracks == (if list[ix[m]].album.value.totalTracks.Some? then list[ix[m]].album.value.totalTracks.value else |list|)
           && out[m].releaseDate == (if list[ix[m]].album.value.releaseDate.Some? then list[ix[m]].album.value.releaseDate.value else "")
           && out[m].albumArtUrl == (if |list[ix[m]].album.value.images| > 0 then Some(list[ix[m]].album.value.images[0].url) else None)
           && out[m].albumArtists == Names(list[ix[m]].album.value.artists)
  {
    var list, out := Collect(url, p).value, Resolve(url, p);
    var ix := KeptIndices(list, |list|);
    ResolveSelectsCollected(url, p);
    forall m | 0 <= m < |out|
      ensures out[m] == ToRecord(list[ix[m]], list[ix[m]].album.value, ix[m], |list|)
    {
      assert RecordOf(list, ix[m], out[m]);
    }
  }

  /** A track link yields one record when the track has album data and none
      otherwise; its fallbacks are position 1 and a list length of 1. */
  lemma TrackUrlYieldsAtMostOne(url: string, p: Provider, t: RawTrack)
    requires Classify(url) == TrackUrl && p.track == Ok(t)
    ensures t.album.None? ==> Resolve(url, p) == []
    ensures t.album.Some? ==> Resolve(url, p) == [ToRecord(t, t.album.value, 0, 1)]
    ensures t.album.Some? ==> Resolve(url, p)[0].trackNumber == t.trackNumber.GetOr(1)
  {
    assert Collect(url, p) == Some([t]);
    assert ParsePrefix([t], 1) == ParsePrefix([t], 0) + ParseItem([t], 0);
  }

  /** An album link yields one record per album track, in order, all sharing
      the album name, total, release date, cover URL and album artists of the
      single album lookup; track numbers fall back to the 1-based position. */
  lemma AlbumRecordsShareAlbum(url: string, p: Provider)
    requires Classify(url) == AlbumUrl && p.album.Ok? && p.albumTracks.Ok?
    ensures var a, items, out := p.album.value, p.albumTracks.value, Resolve(url, p);
      && |out| == |items|
      && forall k :: 0 <= k < |out| ==>
           && out[k].name == items[k].name
           && out[k].artists == Names(items[k].artists)
           && out[k].trackNumber == items[k].trackNumber.GetOr(k + 1)
           && out[k].album == a.name
           && out[k].totalTracks == a.totalTracks.GetOr(|items|)
           && out[k].releaseDate == a.releaseDate.GetOr("")
           && out[k].albumArtUrl == (if |a.images| > 0 then Some(a.images[0].url) else None)
           && out[k].albumArtists == Names(a.artists)
  {
    var a, items := p.album.value, p.albumTracks.value;
    var list := StampAlbum(items, a);
    assert Collect(url, p) == Some(list);
    KeptAll(list, |list|);
    ParsePrefixSpec(list, |list|);
    var out := Resolve(url, p);
    forall k | 0 <= k < |out|
      ensures out[k] == ToRecord(items[k].(album := Some(a)), a, k, |items|)
    {
      assert KeptIndices(list, |list|)[k] == k;
      assert RecordOf(list, k, out[k]);
    }
  }

  /** `origin[m]` is the playlist entry that record `out[m]` comes from: the
      origins ascend, each is an entry whose truthy track has album data and
      gives the record its name and album, and every such entry is one. */
  ghost predicate PlaylistOrigins(items: seq<PlaylistItem>, out: seq<TrackRecord>, origin: seq<int>) {
    && |origin| == |out|
    && (forall m, m' :: 0 <= m < m' < |origin| ==> origin[m] < origin[m'])
    && (forall m :: 0 <= m < |origin| ==>
          && 0 <= origin[m] < |items|
          && items[origin[m]].track.Some? && items[origin[m]].track.value.album.Some?
          && out[m].name == items[origin[m]].track.value.name
          && out[m].album == items[origin[m]].track.value.album.value.name)
    && (forall j :: 0 <= j < |items| && items[j].track.Some? && items[j].track.value.album.Some? ==> j in origin)
  }

  /** The playlist entry each parsed record comes from: the entry position of
      each kept track, taken at the kept positions. */
  function RecordEntries(items: seq<PlaylistItem>): seq<int> {
    var list := KeepTracks(items);
    Compose(TrackIndices(items, |items|), KeptIndices(list, |list|))
  }

  /** The records parsed from a playlist's kept tracks come from `RecordEntries`. */
  lemma PlaylistOriginsOfEntries(items: seq<PlaylistItem>)
    ensures var list := KeepTracks(items);
      PlaylistOrigins(items, ParsePrefix(list, |list|), RecordEntries(items))
  {
    var list := KeepTracks(items);
    var out := ParsePrefix(list, |list|);
    var tix := TrackIndices(items, |items|);
    var kix := KeptIndices(list, |list|);
    assert RecordEntries(items) == Compose(tix, kix);
    assert PlaylistOrigins(items, out, Compose(tix, kix)) by {
      TrackEntries(items);
      KeptRecords(list);
      ComposeOrigins(items, list, out, tix, kix);
    }
  }

  /** The positions of truthy tracks, with the kept track at each. */
  lemma TrackEntries(items: seq<PlaylistItem>)
    ensures var list, tix := KeepTracks(items), TrackIndices(items, |items|);
      && |tix| == |list|
      && (forall q :: 0 <= q < |tix| ==> tix[q] < |items| && items[tix[q]].track == Some(list[q]))
      && (forall q, q' :: 0 <= q < q' < |tix| ==> tix[q] < tix[q'])
      && (forall j :: 0 <= j < |items| ==> (items[j].track.Some? <==> j in tix))
  {
    TrackIndicesSpec(items, |items|);
    KeepTracksSpec(items, |items|);
    assert items[..|items|] == items;
  }

  /** The kept positions of a collected list, with the name and album of the record at each. */
  lemma KeptRecords(list: seq<RawTrack>)
    ensures var out, kix := ParsePrefix(list, |list|), KeptIndices(list, |list|);
      && |out| == |kix|
      && (forall m :: 0 <= m < |kix| ==>
            (kix[m] < |list| && list[kix[m]].album.Some?
             && out[m].name == list[kix[m]].name && out[m].album == list[kix[m]].album.value.name))
      && (forall m, m' :: 0 <= m < m' < |kix| ==> kix[m] < kix[m'])
      && (forall q :: 0 <= q < |list| ==> (list[q].album.Some? <==> q in kix))
  {
    var out, kix := ParsePrefix(list, |list|), KeptIndices(list, |list|);
    KeptIndicesSpec(list, |list|);
    ParsePrefixSpec(list, |list|);
    forall m | 0 <= m < |kix|
      ensures out[m].name == list[kix[m]].name && out[m].album == list[kix[m]].album.value.name
    {
      assert RecordOf(list, kix[m], out[m]);
    }
  }

  /** Composing the positions of truthy tracks with the positions of kept
      tracks gives each record's playlist entry. */
  lemma ComposeOrigins(items: seq<PlaylistItem>, list: seq<RawTrack>, out: seq<TrackRecord>, tix: seq<nat>, kix: seq<nat>)
    requires |tix| == |list|
    requires forall q :: 0 <= q < |tix| ==> tix[q] < |items| && items[tix[q]].track == Some(list[q])
    requires forall q, q' :: 0 <= q < q' < |tix| ==> tix[q] < tix[q']
    requires forall j :: 0 <= j < |items| ==> (items[j].track.Some? <==> j in tix)
    requires |out| == |kix|
    requires forall m :: 0 <= m < |kix| ==>
      (kix[m] < |list| && list[kix[m]].album.Some?
       && out[m].name == list[kix[m]].name && out[m].album == list[kix[m]].album.value.name)
    requires forall m, m' :: 0 <= m < m' < |kix| ==> kix[m] < kix[m']
    requires forall q :: 0 <= q < |list| ==> (list[q].album.Some? <==> q in kix)
    ensures PlaylistOrigins(items, out, Compose(tix, kix))
  {
    var origin := Compose(tix, kix);
    forall m | 0 <= m < |origin|
      ensures 0 <= origin[m] < |items| && items[origin[m]].track.Some? && items[origin[m]].track.value.album.Some?
      ensures out[m].name == items[origin[m]].track.value.name
      ensures out[m].album == items[origin[m]].track.value.album.value.name
    {
      assert origin[m] == tix[kix[m]];
    }
    forall m, m' | 0 <= m < m' < |origin| ensures origin[m] < origin[m'] {
      assert kix[m] < kix[m'];
      assert origin[m] == tix[kix[m]] && origin[m'] == tix[kix[m']];
    }
    forall j | 0 <= j < |items| && items[j].track.Some? && items[j].track.value.album.Some?
      ensures j in origin
    {
      var q :| 0 <= q < |tix| && tix[q] == j;
      assert list[q] == items[j].track.value;
      assert q in kix;
      var m :| 0 <= m < |kix| && kix[m] == q;
      assert origin[m] == j;
    }
  }

  /** `outer[inner[m]]` for each `m`, and -1 where `inner[m]` is out of range. */
  function Compose(outer: seq<nat>, inner: seq<nat>): (r: seq<int>)
    ensures |r| == |inner|
    ensures forall m :: 0 <= m < |inner| && inner[m] < |outer| ==> r[m] == outer[inner[m]]
  {
    if inner == [] then []
    else [if inner[0] < |outer| then outer[inner[0]] else -1] + Compose(outer, inner[1..])
  }

  /** A playlist link yields exactly one record per entry whose track is truthy
      and carries album data, in entry order, and no other record. */
  lemma PlaylistRecordsComeFromTracks(url: string, p: Provider)
    requires Classify(url) == PlaylistUrl && p.playlistItems.Ok?
    ensures var items, out := p.playlistItems.value, Resolve(url, p);
      && |out| <= |items|
      && PlaylistOrigins(items, out, RecordEntries(items))
  {
    var items := p.playlistItems.value;
    assert Collect(url, p) == Some(KeepTracks(items));
    PlaylistOriginsOfEntries(items);
  }

  // ---------------------------------------------------------------- the imperative resolver

  /** `get_track_info`: collects `track_list` and builds `parsed_tracks` by
      appending in loops, exactly as the source does. */
  method GetTrackInfo(url: string, p: Provider) returns (parsed: seq<TrackRecord>)
    ensures parsed == Resolve(url, p)
  {
    var trackList: seq<RawTrack>;
    if Contains(url, "track") {
      if p.track.ProviderError? {
        return [];
      }
      trackList := [p.track.value];
      assert Classify(url) == TrackUrl;
    } else if Contains(url, "album") {
      if p.album.ProviderError? || p.albumTracks.ProviderError? {
        return [];
      }
      trackList := StampAlbumLoop(p.albumTracks.value, p.album.value);
      assert Classify(url) == AlbumUrl;
    } else if Contains(url, "playlist") {
      if p.playlistItems.ProviderError? {
        return [];
      }
      trackList := KeepTracksLoop(p.playlistItems.value);
      assert Classify(url) == PlaylistUrl;
    } else {
      return [];
    }
    assert Collect(url, p) == Some(trackList);
    parsed := ParseLoop(trackList);
  }

  /** The album branch's loop: each album track gets the album object. */
  method StampAlbumLoop(items: seq<RawTrack>, albumInfo: RawAlbum) returns (trackList: seq<RawTrack>)
    ensures trackList == StampAlbum(items, albumInfo)
  {
    trackList := [];
    var i := 0;
    while i < |items|
      invariant 0 <= i <= |items|
      invariant trackList == StampAlbum(items[..i], albumInfo)
    {
      trackList := trackList + [items[i].(album := Some(albumInfo))];
      i := i + 1;
    }
    assert items[..i] == items;
  }

  /** The playlist branch's loop: entries without a track are skipped. */
  method KeepTracksLoop(items: seq<PlaylistItem>) returns (trackList: seq<RawTrack>)
    ensures trackList == KeepTracks(items)
  {
    trackList := [];
    var i := 0;
    while i < |items|
      invariant 0 <= i <= |items|
      invariant trackList == KeepTracks(items[..i])
    {
      assert items[..i + 1][..i] == items[..i];
      if items[i].track.Some? {
        trackList := trackList + [items[i].track.value];
      }
      i := i + 1;
    }
    assert items[..i] == items;
  }

  /** The parsing loop: one record per collected track that has album data. */
  method ParseLoop(trackList: seq<RawTrack>) returns (parsed: seq<TrackRecord>)
    ensures parsed == ParsePrefix(trackList, |trackList|)
  {
    parsed := [];
    var i := 0;
    while i < |trackList|
      invariant 0 <= i <= |trackList|
      invariant parsed == ParsePrefix(trackList, i)
    {
      var track := trackList[i];
      if track.album.Some? {
        parsed := parsed + [ToRecord(track, track.album.value, i, |trackList|)];
      }
      i := i + 1;
    }
  }
}
