/**
 * spotify_utils.py: collecting a playlist's track records page by page and
 * formatting them into the song records the rest of the program works on.
 * The Spotify client, its authentication and its network calls are not
 * modelled: the pages it would return and the playlist name are inputs.
 */
module SpotifyUtils {
  import opened Wrappers
  import opened Strings

  /** The parts of the Spotify API's track objects that are read. */
  datatype Artist = Artist(name: string)
  datatype Album = Album(name: string)
  datatype Track = Track(name: string, album: Album, artists: seq<Artist>)

  /** One entry of a playlist's `items` list; its track sits under the key `track`. */
  datatype PlaylistItem = PlaylistItem(track: Track)

  /** One page of `playlist_tracks` results; `next` is the URL of the next page or null. */
  datatype Page = Page(items: seq<PlaylistItem>, next: Option<string>)

  /** The formatted song dictionary: keys artists, album, number, name and display. */
  datatype SongInfo = SongInfo(artists: string, album: string, number: string, name: string, display: string)

  /** Python's truth test `if results['next']`: a non-empty URL; null and "" both end the paging. */
  predicate HasNext(page: Page)
  {
    IsTruthy(page.next)
  }

  /**
   * The pages the API hands out for one playlist, first to last: each page
   * but the last links to a next one, and the last does not.
   */
  predicate IsPageChain(pages: seq<Page>)
  {
    |pages| > 0 && forall i :: 0 <= i < |pages| ==> (HasNext(pages[i]) <==> i < |pages| - 1)
  }

  /** The items of the pages, in page order. */
  function AllItems(pages: seq<Page>): seq<PlaylistItem>
  {
    if |pages| == 0 then [] else AllItems(pages[..|pages| - 1]) + pages[|pages| - 1].items
  }

  /** The items of two runs of pages are those of the first run followed by those of the second. */
  lemma {:induction false} AllItemsAppend(a: seq<Page>, b: seq<Page>)
    ensures AllItems(a + b) == AllItems(a) + AllItems(b)
    decreases |b|
  {
    if |b| == 0 {
      assert a + b == a;
    } else {
      var init := b[..|b| - 1];
      assert (a + b)[..|a + b| - 1] == a + init;
      AllItemsAppend(a, init);
    }
  }

  /** The number of items collected is the sum of the page sizes. */
  function ItemCount(pages: seq<Page>): nat
  {
    if |pages| == 0 then 0 else ItemCount(pages[..|pages| - 1]) + |pages[|pages| - 1].items|
  }

  lemma {:induction false} AllItemsLength(pages: seq<Page>)
    ensures |AllItems(pages)| == ItemCount(pages)
  {
    if |pages| > 0 {
      AllItemsLength(pages[..|pages| - 1]);
    }
  }

  /**
   * get_all_playlist_tracks: the first page's items, then those of every
   * following page while the current page has a next one.
   */
  method GetAllPlaylistTracks(pages: seq<Page>) returns (tracks: seq<PlaylistItem>)
    requires IsPageChain(pages)
    ensures tracks == AllItems(pages)
  {
    tracks := [];
    var current := 0;
    var results := pages[current];
    tracks := tracks + results.items;
    assert pages[..1] == [pages[0]];
    while HasNext(results)
      invariant 0 <= current < |pages|
      invariant results == pages[current]
      invariant tracks == AllItems(pages[..current + 1])
      decreases |pages| - current
    {
      current := current + 1;
      results := pages[current];
      tracks := tracks + results.items;
      assert pages[..current + 1][..current] == pages[..current];
    }
    assert current == |pages| - 1;
    assert pages[..current + 1] == pages;
  }

  /** `[artist['name'] for artist in track['artists']]`. */
  function ArtistNames(artists: seq<Artist>): seq<string>
  {
    seq(|artists|, j requires 0 <= j < |artists| => artists[j].name)
  }

  /** What format_track_info makes of the track at position `index`. */
  predicate FormatsTrack(song: SongInfo, track: Track, index: nat)
  {
    && song.number == NatToString(index + 1)
    && song.name == track.name
    && song.album == track.album.name
    && song.artists == Join(ArtistNames(track.artists), ", ")
    && song.display == track.name + " - " + song.artists
  }

  /**
   * format_track_info: one song per track, in the same order, numbered from
   * 1, with the artist names joined by ", ".
   */
  method FormatTrackInfo(tracks: seq<PlaylistItem>) returns (songs: seq<SongInfo>)
    ensures |songs| == |tracks|
    ensures forall i :: 0 <= i < |tracks| ==> FormatsTrack(songs[i], tracks[i].track, i)
  {
    songs := [];
    for index := 0 to |tracks|
      invariant |songs| == index
      invariant forall i :: 0 <= i < index ==> FormatsTrack(songs[i], tracks[i].track, i)
    {
      var track := tracks[index].track;
      var trackName := track.name;
      var albumName := track.album.name;
      var artists := ArtistNames(track.artists);
      var artistNames := Join(artists, ", ");
      var trackNumber := NatToString(index + 1);
      var displayName := trackName + " - " + artistNames;
      songs := songs + [SongInfo(artistNames, albumName, trackNumber, trackName, displayName)];
    }
  }

  /** Song numbers are "1".."N": each reads back as its 1-based position, so no two are equal. */
  lemma NumbersArePositions(songs: seq<SongInfo>, tracks: seq<PlaylistItem>)
    requires |songs| == |tracks|
    requires forall i :: 0 <= i < |tracks| ==> FormatsTrack(songs[i], tracks[i].track, i)
    ensures forall i :: 0 <= i < |songs| ==> ParseInt(songs[i].number) == Some(i + 1)
    ensures forall i, j :: 0 <= i < j < |songs| ==> songs[i].number != songs[j].number
  {
    forall i | 0 <= i < |songs| ensures ParseInt(songs[i].number) == Some(i + 1) {
      ParseIntOfNatToString(i + 1);
    }
  }

  /**
   * Artist names appear in the artists field in track order, each at its
   * offset in the ", "-join; a single artist is shown alone, no artist as "".
   */
  lemma ArtistsInOrder(track: Track, song: SongInfo, index: nat)
    requires FormatsTrack(song, track, index)
    ensures |track.artists| == 0 ==> song.artists == ""
    ensures |track.artists| == 1 ==> song.artists == track.artists[0].name
    ensures forall k :: 0 <= k < |track.artists| ==>
      && Offset(ArtistNames(track.artists), k, ", ") + |track.artists[k].name| <= |song.artists|
      && song.artists[Offset(ArtistNames(track.artists), k, ", ")..Offset(ArtistNames(track.artists), k, ", ") + |track.artists[k].name|]
         == track.artists[k].name
  {
    var names := ArtistNames(track.artists);
    forall k | 0 <= k < |track.artists|
      ensures Offset(names, k, ", ") + |track.artists[k].name| <= |song.artists|
      ensures song.artists[Offset(names, k, ", ")..Offset(names, k, ", ") + |track.artists[k].name|] == track.artists[k].name
    {
      JoinAt(names, ", ", k);
    }
  }

  /**
   * get_playlist_name_and_song_list_from_spotify_url: the playlist name as the
   * API returned it and the formatted songs of every page.
   */
  method GetPlaylistNameAndSongList(playlistName: string, pages: seq<Page>) returns (name: string, songs: seq<SongInfo>)
    requires IsPageChain(pages)
    ensures name == playlistName
    ensures |songs| == |AllItems(pages)|
    ensures forall i :: 0 <= i < |songs| ==> FormatsTrack(songs[i], AllItems(pages)[i].track, i)
  {
    name := playlistName;
    var tracks := GetAllPlaylistTracks(pages);
    songs := FormatTrackInfo(tracks);
  }
}
