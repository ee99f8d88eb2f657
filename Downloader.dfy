/**
 * main.py: what one worker reports for a song, and how the reports, arriving
 * from the pool in any order, are put back into playlist order before the
 * log is written.
 *
 * The search and the download are calls into other libraries; here they are
 * their outcomes: `search` is the top video URL or the text of the exception
 * raised, `download` is whether downloading the stream raised, and with
 * which text. The prompts, the process pool and the progress bar are not
 * modelled; the pool's output is a sequence in arrival order.
 */
module Downloader {
  import opened Wrappers
  import opened Strings
  import opened Helpers
  import opened SpotifyUtils
  import opened YoutubeUtils

  // ---------------------------------------------------------------------------
  // download_song
  // ---------------------------------------------------------------------------

  /** The pair download_song returns: `(int(song_info['number']), result_summary)`. */
  datatype SongReport = SongReport(number: int, summary: string)

  /**
   * `f"{number} {name} - {artists} - {album}"`: the number and a space come
   * first, the album last, and the separators add seven characters.
   */
  function Description(song: SongInfo): (d: string)
    ensures |d| == |song.number| + |song.name| + |song.artists| + |song.album| + 7
    ensures d[..|song.number|] == song.number && d[|song.number|] == ' '
    ensures d[|d| - |song.album|..] == song.album
  {
    song.number + " " + song.name + " - " + song.artists + " - " + song.album
  }

  /** The file the audio is saved as: the sanitised description with the extension ".mp4". */
  function Filename(song: SongInfo): (f: string)
    ensures |f| >= 4 && f[|f| - 4..] == ".mp4"
    ensures f[..|f| - 4] == RemoveIllegalCharacters(Description(song))
    ensures IsLegalName(f)
  {
    var base := RemoveIllegalCharacters(Description(song));
    var f := base + ".mp4";
    assert f[..|f| - 4] == base;
    assert IsLegalName(f) by {
      forall i | 0 <= i < |f| ensures !IsIllegal(f[i]) {
        if i < |base| { assert f[i] == base[i]; }
      }
    }
    f
  }

  /** `video_url` once the search step is over: `None` when the search raised. */
  function VideoUrl(search: Result<string, string>): (url: Option<string>)
    ensures IsTruthy(url) <==> search.Success? && search.value != ""
  {
    match search
    case Success(url) => Some(url)
    case Failure(_) => None
  }

  /**
   * `failure_message` at the end: set by a failed search, or by a failed
   * download, which is attempted only when the search produced a URL.
   */
  function FailureMessage(search: Result<string, string>, download: Outcome<string>): (m: Option<string>)
    ensures search.Failure? ==> m == Some("Failed to retrieve YouTube URL: " + search.error)
    ensures search.Success? ==> (m.Some? <==> search.value != "" && download.Fail?)
    ensures search.Success? && m.Some? ==> m.value == "Failed to download audio stream: " + download.error
  {
    var afterSearch := if search.Failure? then Some("Failed to retrieve YouTube URL: " + search.error) else None;
    if IsTruthy(VideoUrl(search)) && download.Fail? then
      Some("Failed to download audio stream: " + download.error)
    else afterSearch
  }

  /**
   * The Download line: "Successful" or the failure message, which Python
   * prints as "None" when unset. It reads "Successful" exactly when a
   * non-empty URL was found and its download did not raise, and "None"
   * exactly when the search returned an empty URL.
   */
  function DownloadStatus(search: Result<string, string>, download: Outcome<string>): (status: string)
    ensures status == "Successful" <==> search.Success? && search.value != "" && download.Pass?
    ensures status == "None" <==> search == Success("")
  {
    var failure := FailureMessage(search, download);
    if IsTruthy(VideoUrl(search)) && failure.None? then "Successful"
    else if failure.Some? then
      assert failure.value[0] == 'F';
      failure.value
    else "None"
  }

  /** The URL Retrieved line: the URL, or "N/A" when there is none. */
  function UrlRetrieved(search: Result<string, string>): (line: string)
    ensures search.Success? && search.value != "" ==> line == search.value
    ensures search.Failure? || search == Success("") ==> line == "N/A"
  {
    var url := VideoUrl(search);
    if IsTruthy(url) then url.value else "N/A"
  }

  /** The four-line layout of a result summary. */
  function SummaryText(description: string, status: string, query: string, url: string): string
  {
    "Spotify Info: " + description + "\n"
    + "\tDownload: " + status + "\n"
    + "\tQuery Used: " + query + "\n"
    + "\tURL Retrieved: " + url
  }

  /**
   * `result_summary`, by outcome: a failed search reports its error and no
   * URL; a found URL whose download failed reports the download error and the
   * URL; a found URL whose download succeeded reports success. An empty URL
   * is false to Python, so neither a download nor a message follows it.
   */
  function Summary(song: SongInfo, search: Result<string, string>, download: Outcome<string>): (s: string)
    ensures search.Failure? ==>
      s == SummaryText(Description(song), "Failed to retrieve YouTube URL: " + search.error, CreateSearchQuery(song), "N/A")
    ensures search.Success? && search.value != "" && download.Fail? ==>
      s == SummaryText(Description(song), "Failed to download audio stream: " + download.error, CreateSearchQuery(song), search.value)
    ensures search.Success? && search.value != "" && download.Pass? ==>
      s == SummaryText(Description(song), "Successful", CreateSearchQuery(song), search.value)
    ensures search == Success("") ==>
      s == SummaryText(Description(song), "None", CreateSearchQuery(song), "N/A")
  {
    SummaryText(Description(song), DownloadStatus(search, download), CreateSearchQuery(song), UrlRetrieved(search))
  }

  /**
   * download_song: the song's number read back with `int` (which raises, here
   * `None`, on text that is not a number) and its summary. A song numbered
   * `str(k)`, as format_track_info numbers them, reports the number `k`.
   */
  function DownloadSong(song: SongInfo, search: Result<string, string>, download: Outcome<string>): (r: Option<SongReport>)
    ensures r.Some? <==> ParseInt(song.number).Some?
    ensures r.Some? ==> r.value.summary == Summary(song, search, download)
    ensures forall k: nat :: song.number == NatToString(k) ==> r == Some(SongReport(k, Summary(song, search, download)))
    ensures song.number == "" ==> r == None
  {
    assert forall k: nat :: song.number == NatToString(k) ==> ParseInt(song.number) == Some(k) by {
      forall k: nat | song.number == NatToString(k) ensures ParseInt(song.number) == Some(k) {
        ParseIntOfNatToString(k);
      }
    }
    match ParseInt(song.number)
    case None => None
    case Some(number) => Some(SongReport(number, Summary(song, search, download)))
  }

  /** After a failed search no download is attempted: the download's outcome does not show in the summary. */
  lemma SearchFailureSkipsDownload(song: SongInfo, error: string, download1: Outcome<string>, download2: Outcome<string>)
    ensures Summary(song, Failure(error), download1) == Summary(song, Failure(error), download2)
    ensures UrlRetrieved(Failure(error)) == "N/A"
    ensures DownloadStatus(Failure(error), download1) == "Failed to retrieve YouTube URL: " + error
  {
  }

  // ---------------------------------------------------------------------------
  // Collecting the results in main
  // ---------------------------------------------------------------------------

  /**
   * Python's `list[i]` on a list of `length` elements: a negative index counts
   * from the end; outside `-length .. length - 1` it raises `IndexError`.
   */
  function PythonIndex(length: nat, i: int): (r: Option<nat>)
    ensures r.Some? <==> -(length as int) <= i < length
    ensures r.Some? ==> r.value < length && (r.value == i || r.value == i + length)
  {
    if 0 <= i < length then Some(i)
    else if -(length as int) <= i < 0 then Some(i + length)
    else None
  }

  /** `[None for _ in range(n)]`: `n` slots, none of them filled yet. */
  function Unfilled(n: nat): (slots: seq<Option<string>>)
    ensures |slots| == n && forall k :: 0 <= k < n ==> slots[k].None?
  {
    seq(n, _ => None)
  }

  /**
   * `result_summaries[song_number - 1] = result_summary` for each report in
   * arrival order; `None` when one of them raises `IndexError`.
   */
  function Collect(slots: seq<Option<string>>, arrivals: seq<SongReport>): (r: Option<seq<Option<string>>>)
    ensures r.Some? ==> |r.value| == |slots|
    decreases |arrivals|
  {
    if |arrivals| == 0 then Some(slots)
    else match PythonIndex(|slots|, arrivals[0].number - 1)
      case None => None
      case Some(k) => Collect(slots[k := Some(arrivals[0].summary)], arrivals[1..])
  }

  /** Storing one report fills its own slot and leaves every other slot as it was. */
  lemma CollectOneReport(slots: seq<Option<string>>, report: SongReport)
    requires 1 <= report.number <= |slots|
    ensures Collect(slots, [report]).Some?
    ensures var r := Collect(slots, [report]).value;
      && r[report.number - 1] == Some(report.summary)
      && forall k :: 0 <= k < |slots| && k != report.number - 1 ==> r[k] == slots[k]
  {
    assert [report][1..] == [];
  }

  /**
   * The loop of main (lines 71-78): a list of `n` empty slots, each report
   * written into slot `number - 1` as it arrives. `ok` is false when a
   * report's number lies outside the list.
   */
  method CollectSummaries(n: nat, arrivals: seq<SongReport>) returns (summaries: array<Option<string>>, ok: bool)
    ensures fresh(summaries) && summaries.Length == n
    ensures ok <==> Collect(Unfilled(n), arrivals).Some?
    ensures ok ==> summaries[..] == Collect(Unfilled(n), arrivals).value
  {
    summaries := new Option<string>[n](_ => None);
    assert summaries[..] == Unfilled(n);
    ok := true;
    var i := 0;
    while i < |arrivals|
      invariant 0 <= i <= |arrivals|
      invariant summaries.Length == n
      invariant Collect(Unfilled(n), arrivals) == Collect(summaries[..], arrivals[i..])
    {
      var report := arrivals[i];
      assert arrivals[i..][0] == report && arrivals[i..][1..] == arrivals[i + 1..];
      var index := PythonIndex(n, report.number - 1);
      if index.None? {
        ok := false;
        return;
      }
      summaries[index.value] := Some(report.summary);
      i := i + 1;
    }
  }

  /** The reports of songs 1..n in playlist order. */
  function InOrder(summaries: seq<string>): (r: seq<SongReport>)
    ensures |r| == |summaries|
  {
    seq(|summaries|, i requires 0 <= i < |summaries| => SongReport(i + 1, summaries[i]))
  }

  /** Every slot holding its song's summary. */
  function Filled(summaries: seq<string>): (r: seq<Option<string>>)
    ensures |r| == |summaries|
  {
    seq(|summaries|, i requires 0 <= i < |summaries| => Some(summaries[i]))
  }

  /** Some report in `arrivals` carries `number`. */
  predicate Arrives(arrivals: seq<SongReport>, number: int)
  {
    exists j :: 0 <= j < |arrivals| && arrivals[j].number == number
  }

  /** What a permutation of the in-order reports tells about each arrival and each slot. */
  lemma PermutationFacts(summaries: seq<string>, arrivals: seq<SongReport>)
    requires multiset(arrivals) == multiset(InOrder(summaries))
    ensures forall j :: 0 <= j < |arrivals| ==>
      1 <= arrivals[j].number <= |summaries| && arrivals[j].summary == summaries[arrivals[j].number - 1]
    ensures forall number :: 1 <= number <= |summaries| ==> Arrives(arrivals, number)
  {
    var order := InOrder(summaries);
    forall j | 0 <= j < |arrivals|
      ensures 1 <= arrivals[j].number <= |summaries| && arrivals[j].summary == summaries[arrivals[j].number - 1]
    {
      assert arrivals[j] in multiset(arrivals);
      assert arrivals[j] in order;
      var i :| 0 <= i < |order| && order[i] == arrivals[j];
    }
    forall number | 1 <= number <= |summaries| ensures Arrives(arrivals, number) {
      var k := number - 1;
      assert order[k] in multiset(order);
      assert order[k] in arrivals;
      var j :| 0 <= j < |arrivals| && arrivals[j] == order[k];
      assert arrivals[j].number == k + 1;
    }
  }

  lemma {:induction false} CollectFills(slots: seq<Option<string>>, rest: seq<SongReport>, summaries: seq<string>)
    requires |slots| == |summaries|
    requires forall j :: 0 <= j < |rest| ==>
      1 <= rest[j].number <= |summaries| && rest[j].summary == summaries[rest[j].number - 1]
    requires forall k :: 0 <= k < |slots| ==>
      slots[k] == Some(summaries[k]) || Arrives(rest, k + 1)
    ensures Collect(slots, rest) == Some(Filled(summaries))
    decreases |rest|
  {
    if |rest| == 0 {
      assert slots == Filled(summaries);
    } else {
      var k0 := rest[0].number - 1;
      var next := slots[k0 := Some(rest[0].summary)];
      forall k | 0 <= k < |next|
        ensures next[k] == Some(summaries[k]) || Arrives(rest[1..], k + 1)
      {
        if k != k0 && slots[k] != Some(summaries[k]) {
          var j :| 0 <= j < |rest| && rest[j].number == k + 1;
          assert rest[1..][j - 1] == rest[j];
        }
      }
      forall j | 0 <= j < |rest[1..]|
        ensures 1 <= rest[1..][j].number <= |summaries| && rest[1..][j].summary == summaries[rest[1..][j].number - 1]
      {
        assert rest[1..][j] == rest[j + 1];
      }
      CollectFills(next, rest[1..], summaries);
    }
  }

  /**
   * Whatever order the pool delivers the reports of songs 1..n in, the loop
   * ends with every slot filled and slot i holding the summary of song i + 1.
   */
  lemma CollectRestoresPlaylistOrder(summaries: seq<string>, arrivals: seq<SongReport>)
    requires multiset(arrivals) == multiset(InOrder(summaries))
    ensures Collect(Unfilled(|summaries|), arrivals) == Some(Filled(summaries))
  {
    PermutationFacts(summaries, arrivals);
    CollectFills(Unfilled(|summaries|), arrivals, summaries);
  }

  lemma {:induction false} DistinctCountAtMostOne<T>(s: seq<T>, x: T)
    requires forall i, j :: 0 <= i < j < |s| ==> s[i] != s[j]
    ensures multiset(s)[x] <= 1
  {
    if |s| > 0 {
      var init := s[..|s| - 1];
      assert s == init + [s[|s| - 1]];
      DistinctCountAtMostOne(init, x);
      if x == s[|s| - 1] {
        assert x !in init;
      }
    }
  }

  lemma RepeatCountAtLeastTwo<T>(s: seq<T>, i: nat, j: nat)
    requires i < j < |s| && s[i] == s[j]
    ensures multiset(s)[s[i]] >= 2
  {
    assert s == s[..j] + [s[j]] + s[j + 1..];
    assert s[..j][i] == s[i];
    assert s[i] in multiset(s[..j]);
  }

  /**
   * Every slot is written by exactly one report: each number 1..n arrives,
   * and no two reports carry the same number.
   */
  lemma EachSlotWrittenOnce(summaries: seq<string>, arrivals: seq<SongReport>)
    requires multiset(arrivals) == multiset(InOrder(summaries))
    ensures |arrivals| == |summaries|
    ensures forall number :: 1 <= number <= |summaries| ==> Arrives(arrivals, number)
    ensures forall i, j :: 0 <= i < j < |arrivals| ==> arrivals[i].number != arrivals[j].number
  {
    assert |arrivals| == |multiset(arrivals)| == |multiset(InOrder(summaries))| == |summaries|;
    PermutationFacts(summaries, arrivals);
    var order := InOrder(summaries);
    forall i, j | 0 <= i < j < |arrivals| ensures arrivals[i].number != arrivals[j].number {
      if arrivals[i].number == arrivals[j].number {
        assert arrivals[i] == arrivals[j];
        RepeatCountAtLeastTwo(arrivals, i, j);
        DistinctCountAtMostOne(order, arrivals[i]);
        assert false;
      }
    }
  }

  /** The summaries of all songs, in playlist order. */
  function Summaries(songs: seq<SongInfo>, searches: seq<Result<string, string>>, downloads: seq<Outcome<string>>): (r: seq<string>)
    requires |searches| == |songs| && |downloads| == |songs|
    ensures |r| == |songs|
  {
    seq(|songs|, i requires 0 <= i < |songs| => Summary(songs[i], searches[i], downloads[i]))
  }

  /**
   * For songs numbered by format_track_info, the workers' reports are exactly
   * the in-order reports: song i reports number i + 1.
   */
  lemma WorkersReportInOrder(songs: seq<SongInfo>, searches: seq<Result<string, string>>, downloads: seq<Outcome<string>>)
    requires |searches| == |songs| && |downloads| == |songs|
    requires forall i :: 0 <= i < |songs| ==> songs[i].number == NatToString(i + 1)
    ensures forall i :: 0 <= i < |songs| ==>
      DownloadSong(songs[i], searches[i], downloads[i]) == Some(InOrder(Summaries(songs, searches, downloads))[i])
  {
    forall i | 0 <= i < |songs|
      ensures DownloadSong(songs[i], searches[i], downloads[i]) == Some(InOrder(Summaries(songs, searches, downloads))[i])
    {
      var summary := Summary(songs[i], searches[i], downloads[i]);
      var all := Summaries(songs, searches, downloads);
      assert all[i] == summary;
      assert InOrder(all)[i] == SongReport(i + 1, summary);
      assert songs[i].number == NatToString(i + 1);
    }
  }

  /**
   * `save_log(result_summaries, ...)`: the log text, or `None` when a slot was
   * never filled (joining `None` raises `TypeError`).
   */
  function LogOfSlots(slots: seq<Option<string>>): (r: Option<string>)
    ensures r.Some? <==> forall k :: 0 <= k < |slots| ==> slots[k].Some?
    ensures forall summaries :: slots == Filled(summaries) ==> r == Some(LogText(summaries))
  {
    if forall k :: 0 <= k < |slots| ==> slots[k].Some? then
      var texts := seq(|slots|, k requires 0 <= k < |slots| => slots[k].value);
      assert forall summaries :: slots == Filled(summaries) ==> texts == summaries by {
        forall summaries | slots == Filled(summaries) ensures texts == summaries {
          assert forall k :: 0 <= k < |slots| ==> texts[k] == summaries[k];
        }
      }
      Some(LogText(texts))
    else None
  }

  /**
   * End to end: for any arrival order of the workers' reports, the log lists
   * the songs' summaries in playlist order, one per line group.
   */
  lemma LogFollowsPlaylistOrder(summaries: seq<string>, arrivals: seq<SongReport>)
    requires multiset(arrivals) == multiset(InOrder(summaries))
    ensures Collect(Unfilled(|summaries|), arrivals).Some?
    ensures LogOfSlots(Collect(Unfilled(|summaries|), arrivals).value) == Some(LogText(summaries))
  {
    CollectRestoresPlaylistOrder(summaries, arrivals);
  }
}
