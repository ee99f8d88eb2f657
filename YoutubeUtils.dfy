/**
 * youtube_utils.py: the search query built from a song, and the choice of the
 * audio stream with the highest bitrate. The video search and the stream
 * lookup are calls into other libraries and are not modelled: the search
 * outcome and the list of audio-only streams are inputs.
 */
module YoutubeUtils {
  import opened Wrappers
  import opened Strings
  import opened SpotifyUtils

  // ---------------------------------------------------------------------------
  // Search query
  // ---------------------------------------------------------------------------

  /** get_youtube_search_query_from_song_info: "<name> by <artists> Official Audio". */
  function GetYoutubeSearchQueryFromSongInfo(song: SongInfo): (query: string)
    ensures |query| == |song.name| + |song.artists| + 19
    ensures query[..|song.name|] == song.name
    ensures query[|song.name|..|song.name| + 4] == " by "
    ensures query[|song.name| + 4..|query| - 15] == song.artists
    ensures query[|query| - 15..] == " Official Audio"
  {
    var query := song.name + " by " + song.artists + " Official Audio";
    assert query[|song.name| + 4..|query| - 15] == song.artists;
    query
  }

  /**
   * create_search_query: the query it hands to the search is the name, " by ",
   * the artists and " Official Audio", as get_youtube_search_query_from_song_info
   * builds it.
   */
  function CreateSearchQuery(song: SongInfo): (query: string)
    ensures |query| == |song.name| + |song.artists| + 19
    ensures query[..|song.name|] == song.name
    ensures query[|song.name|..|song.name| + 4] == " by "
    ensures query[|song.name| + 4..|query| - 15] == song.artists
    ensures query[|query| - 15..] == " Official Audio"
  {
    GetYoutubeSearchQueryFromSongInfo(song)
  }

  /** The query reads only the name and the artists of a song. */
  lemma QueryDependsOnlyOnNameAndArtists(a: SongInfo, b: SongInfo)
    ensures CreateSearchQuery(a) == CreateSearchQuery(b) <==> a.name + " by " + a.artists == b.name + " by " + b.artists
  {
    var qa, qb := CreateSearchQuery(a), CreateSearchQuery(b);
    var pa, pb := a.name + " by " + a.artists, b.name + " by " + b.artists;
    if qa == qb {
      assert pa == qa[..|qa| - 15];
      assert pb == qb[..|qb| - 15];
    }
  }

  // ---------------------------------------------------------------------------
  // Stream selection
  // ---------------------------------------------------------------------------

  /** An audio stream; `abr` is its average bitrate as text, such as "128kbps". */
  datatype Stream = Stream(itag: int, abr: string)

  /** The two ways `max(streams, key=...)` raises `ValueError`. */
  datatype StreamError =
    | EmptySequence              // no audio-only stream
    | InvalidLiteral(abr: string) // a bitrate text `int` cannot read

  /** Python's `s[:-4]`: all but the last four characters, or "" when there are fewer. */
  function DropLastFour(s: string): (r: string)
    ensures r <= s
    ensures |r| == if |s| >= 4 then |s| - 4 else 0
    ensures |s| >= 4 ==> r + s[|s| - 4..] == s
  {
    if |s| >= 4 then s[..|s| - 4] else ""
  }

  /**
   * The sort key `int(stream.abr[:-4])`. A text of four characters or fewer
   * leaves `int('')`, which raises.
   */
  function Bitrate(abr: string): (r: Option<int>)
    ensures |abr| <= 4 ==> r.None?
  {
    ParseInt(DropLastFour(abr))
  }

  /** A number followed by a four-letter unit, such as "128kbps", has that number as bitrate. */
  lemma BitrateOfNumberAndUnit(n: nat, unit: string)
    requires |unit| == 4
    ensures Bitrate(NatToString(n) + unit) == Some(n)
  {
    var s := NatToString(n) + unit;
    assert DropLastFour(s) == NatToString(n);
    ParseIntOfNatToString(n);
  }

  lemma BitrateOf128kbps()
    ensures Bitrate("128kbps") == Some(128)
  {
    assert NatToString(128) == "128";
    BitrateOfNumberAndUnit(128, "kbps");
    assert "128kbps" == NatToString(128) + "kbps";
  }

  /** Stream `i` is the first whose bitrate text is not a number. */
  predicate IsFirstUnreadable(streams: seq<Stream>, i: int)
  {
    && 0 <= i < |streams|
    && Bitrate(streams[i].abr).None?
    && forall j :: 0 <= j < i ==> Bitrate(streams[j].abr).Some?
  }

  /**
   * The keys of all streams, in order, as `max` computes them; the first
   * stream whose key cannot be computed makes the whole call fail.
   */
  function Bitrates(streams: seq<Stream>): (r: Result<seq<int>, StreamError>)
    ensures r.Success? ==> |r.value| == |streams|
    ensures r.Success? ==> forall i :: 0 <= i < |streams| ==> Bitrate(streams[i].abr) == Some(r.value[i])
    ensures r.Failure? ==> exists i :: IsFirstUnreadable(streams, i) && r.error == InvalidLiteral(streams[i].abr)
  {
    if |streams| == 0 then Success([])
    else match Bitrate(streams[0].abr)
      case None => Failure(InvalidLiteral(streams[0].abr))
      case Some(key) =>
        match Bitrates(streams[1..])
        case Failure(e) =>
          var i :| IsFirstUnreadable(streams[1..], i) && e == InvalidLiteral(streams[1..][i].abr);
          FirstUnreadableAfterReadable(streams, i);
          Failure(e)
        case Success(rest) =>
          KeysAfterReadable(streams, key, rest);
          Success([key] + rest)
  }

  /** A readable first stream moves the first unreadable one of the rest one place on. */
  lemma FirstUnreadableAfterReadable(streams: seq<Stream>, i: int)
    requires |streams| > 0 && Bitrate(streams[0].abr).Some?
    requires IsFirstUnreadable(streams[1..], i)
    ensures IsFirstUnreadable(streams, i + 1) && streams[i + 1] == streams[1..][i]
  {
    forall j | 0 <= j < i + 1 ensures Bitrate(streams[j].abr).Some? {
      if j > 0 { assert streams[j] == streams[1..][j - 1]; }
    }
  }

  /** The key of the first stream followed by the keys of the rest are the keys of all streams. */
  lemma KeysAfterReadable(streams: seq<Stream>, key: int, rest: seq<int>)
    requires |streams| > 0 && Bitrate(streams[0].abr) == Some(key)
    requires |rest| == |streams| - 1
    requires forall i :: 0 <= i < |rest| ==> Bitrate(streams[1..][i].abr) == Some(rest[i])
    ensures forall i :: 0 <= i < |streams| ==> Bitrate(streams[i].abr) == Some(([key] + rest)[i])
  {
    forall i | 0 <= i < |streams| ensures Bitrate(streams[i].abr) == Some(([key] + rest)[i]) {
      if i > 0 { assert streams[i] == streams[1..][i - 1]; }
    }
  }

  /**
   * The position `max` settles on: scanning left to right it replaces its
   * candidate only by a strictly larger key, so it keeps the first maximum.
   */
  function FirstMaxIndex(keys: seq<int>): (k: nat)
    requires |keys| > 0
    ensures k < |keys|
    ensures forall j :: 0 <= j < |keys| ==> keys[j] <= keys[k]
    ensures forall j :: 0 <= j < k ==> keys[j] < keys[k]
  {
    if |keys| == 1 then 0
    else
      var best := FirstMaxIndex(keys[..|keys| - 1]);
      assert forall j :: 0 <= j < |keys| - 1 ==> keys[..|keys| - 1][j] == keys[j];
      if keys[|keys| - 1] > keys[best] then |keys| - 1 else best
  }

  /**
   * get_highest_quality_audio_stream: among the audio-only streams, the first
   * one with the largest bitrate. It fails on an empty list and on a bitrate
   * text that is not a number.
   */
  function GetHighestQualityAudioStream(audioStreams: seq<Stream>): (r: Result<Stream, StreamError>)
    ensures |audioStreams| == 0 ==> r == Failure(EmptySequence)
    ensures r.Success? <==> |audioStreams| > 0 && forall i :: 0 <= i < |audioStreams| ==> Bitrate(audioStreams[i].abr).Some?
    ensures r.Success? ==> exists k :: 0 <= k < |audioStreams| && audioStreams[k] == r.value && IsFirstHighest(audioStreams, k)
    ensures r.Failure? && |audioStreams| > 0 ==> exists i :: IsFirstUnreadable(audioStreams, i) && r.error == InvalidLiteral(audioStreams[i].abr)
  {
    if |audioStreams| == 0 then Failure(EmptySequence)
    else match Bitrates(audioStreams)
      case Failure(e) => Failure(e)
      case Success(keys) =>
        var k := FirstMaxIndex(keys);
        Success(audioStreams[k])
  }

  /**
   * Stream `k` has a bitrate at least that of every stream, and strictly
   * more than that of every stream before it.
   */
  predicate IsFirstHighest(streams: seq<Stream>, k: nat)
    requires k < |streams|
    requires forall i :: 0 <= i < |streams| ==> Bitrate(streams[i].abr).Some?
  {
    && (forall j :: 0 <= j < |streams| ==> Bitrate(streams[j].abr).value <= Bitrate(streams[k].abr).value)
    && (forall j :: 0 <= j < k ==> Bitrate(streams[j].abr).value < Bitrate(streams[k].abr).value)
  }
}
