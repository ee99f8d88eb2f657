# Spotify playlist downloader: a Dafny model of its sequential core

The downloader reads a Spotify playlist's tracks page by page and formats each
track into a song record: a 1-based number, the name, the album, the artist
names joined by ", " and a display string. For every song a worker builds a
YouTube search query and searches for it. It then downloads the best audio
stream into a file named after the song, with the nine characters
backslash, slash, colon, star, question mark, double quote, less-than,
greater-than and vertical bar removed. It reports a four-line summary of what happened. The
process pool hands the reports back in any order. `main` stores each one in
slot `number - 1` of a list sized for the playlist, then writes the list,
joined by newlines, to `log.txt`. That file sits in a folder named after the
playlist and stamped with the creation time.

This project models that logic as Dafny and proves what it promises:

- `Wrappers.dfy`: `Option`, `Result` and `Outcome`. They stand for Python's `None` and for raised exceptions.
- `Strings.dfy`: the Python builtins the code relies on, which are `sep.join`, `str(n)` and `int(s)`. It also holds their round-trip lemmas.
- `Helpers.dfy` (helpers.py): `remove_illegal_characters`, the folder name made by `create_playlist_folder`, and the text written by `save_log`.
- `SpotifyUtils.dfy` (spotify_utils.py): the pagination loop of `get_all_playlist_tracks`, as a method over the pages the API would return, and the `for` loop of `format_track_info`.
- `YoutubeUtils.dfy` (youtube_utils.py): the query template, and stream selection by `max(..., key=int(abr[:-4]))`.
- `Downloader.dfy` (main.py): `download_song` as a function of the two external steps' outcomes. It also holds the result-collection loop of `main`, as a method that fills an `array`, proved against a specification function, plus the lemmas that the loop restores playlist order for any arrival order.

Behaviour of the code that the model keeps:

- On a tie in bitrate, Python's `max` keeps the first stream found.
- Workers return a `(number, summary text)` pair. The outcome of a download can be seen only in the text of the Download line.
- A search that returns an empty URL counts as false in Python. No download is tried, `failure_message` stays unset, and the Download line reads `None` (see `Downloader.Summary`).
- `result_summaries[song_number - 1]` follows Python's indexing rules. A number of 0 would write the last slot. A number above the playlist length raises `IndexError` (see `Downloader.PythonIndex`).

## Model

| member | source | states |
|---|---|---|
| `Helpers.RemoveIllegalCharacters` | helpers.py:8-10 | the output has none of the nine illegal characters (backslash, slash, colon, star, question mark, double quote, less-than, greater-than, vertical bar) and is no longer than the input |
| `Helpers.IsIllegal` | helpers.py:10 | the class of the regular expression: backslash, slash, colon, star, question mark, double quote, less-than, greater-than and vertical bar; all are printable ASCII, so control characters are kept |
| `Helpers.RemoveIllegalCharactersDeletesExactlyIllegal` | helpers.py:10 | the output is an order-preserving subsequence of the input; it keeps each legal character exactly as often as the input has it, and no illegal one |
| `Helpers.RemoveIllegalCharactersKeepsLegalName` | helpers.py:10 | a string without illegal characters comes back unchanged |
| `Helpers.RemoveIllegalCharactersIdempotent` | helpers.py:10 | sanitising twice equals sanitising once |
| `Helpers.RemoveIllegalCharactersDistributes` | helpers.py:10 | sanitise(a + b) == sanitise(a) + sanitise(b) |
| `Helpers.RemoveIllegalCharactersCons` | helpers.py:10 | the substitution acts on one character at a time: it drops the character exactly when that character is illegal |
| `Helpers.Stamp` | helpers.py:22 | `strftime("%d-%m-%Y %H;%M;%S")` of a valid date and time is 19 characters long |
| `Helpers.StampFields` | helpers.py:22 | the stamp has the form DD-MM-YYYY HH;MM;SS; each zero-padded field reads back with `int` as the date/time component it came from; the stamp holds no illegal character |
| `Helpers.PlaylistFolderName` | helpers.py:19-24 | the folder name is the sanitised playlist name, then " (", the stamp and ")"; it is 22 characters longer than the sanitised name and holds no illegal character |
| `Helpers.FolderNameOfLegalName` | helpers.py:22-24 | a playlist name with no illegal character appears in its folder name unchanged, followed by " (", the stamp and ")" |
| `Helpers.FolderNameIgnoresIllegal` | helpers.py:23-24 | an illegal character anywhere in the playlist name leaves the folder name as if it were not there |
| `Helpers.LogText` | helpers.py:17 | the log is the messages joined by newlines: empty for no messages, otherwise starting with the first message and ending with the last, with a newline right after the first when there are two or more |
| `Helpers.LogTextLength` | helpers.py:17 | for n >= 1 messages the log's length is the sum of their lengths plus n - 1 |
| `Helpers.LogTextInOrder` | helpers.py:17 | message k stands in the log right after messages 0..k-1 and k newlines, so the messages appear in list order |
| `Helpers.LogTextAppend` | helpers.py:17 | appending a message adds exactly one newline and then the message |
| `Strings.NatToString` | spotify_utils.py:46 | `str(n)` is a non-empty run of decimal digits with no leading zero |
| `Strings.ParseIntOfNatToString` | main.py:59 | `int(str(n)) == n`, so `int(song_info['number'])` recovers the position |
| `Strings.NatToStringInjective` | spotify_utils.py:46 | different positions give different number strings |
| `Strings.ParseInt` | main.py:59 | over the ASCII syntax modelled (an optional sign, then digits), `int(s)` succeeds only on text ending in a digit, a negative value needs a leading minus, and text starting with a letter raises |
| `Strings.ParseIntAcceptsOnlyDigits` | youtube_utils.py:26 | over the syntax modelled, every character after the first in a text `int` accepts is a digit |
| `Strings.IsTruthy` | main.py:46 | Python's truth test on a string or `None`: true for a present, non-empty string |
| `Strings.ParseIntOfZeroPadded` | helpers.py:22 | a zero-padded field of a given width reads back as its number |
| `Strings.Join` | spotify_utils.py:45 | `sep.join(parts)`: the parts in order with `sep` between neighbours; its properties are stated by the three lemmas below |
| `Strings.JoinEnds` | spotify_utils.py:45 | a join of no parts is ""; otherwise it starts with the first part and ends with the last, and the separator follows the first part when there are two or more |
| `Strings.JoinLength` | helpers.py:17 | a join ends right after its last part |
| `Strings.JoinAt` | spotify_utils.py:45 | each part of a join stands at its offset, so parts appear in order |
| `SpotifyUtils.GetAllPlaylistTracks` | spotify_utils.py:24-34 | for a chain of pages ending with a null `next`, the tracks are every page's items, in page order |
| `SpotifyUtils.HasNext` | spotify_utils.py:30 | `if results['next']`: a page is followed by another exactly when its `next` is a non-empty URL, so both null and "" end the paging |
| `SpotifyUtils.AllItemsAppend` | spotify_utils.py:28-32 | collecting two runs of pages yields the first run's items followed by the second's |
| `SpotifyUtils.AllItemsLength` | spotify_utils.py:28-32 | the number of tracks is the sum of the page sizes |
| `SpotifyUtils.ArtistNames` | spotify_utils.py:44 | the names of the track's artists, one per artist, in the order the API lists them |
| `SpotifyUtils.FormatTrackInfo` | spotify_utils.py:36-57 | the output has the same length and order as the input; song i has number str(i+1), name and album copied from the track, artists equal to the artist names joined by ", ", and display equal to name + " - " + artists |
| `SpotifyUtils.NumbersArePositions` | spotify_utils.py:40-46 | each song's number reads back as its 1-based position, and no two numbers are equal |
| `SpotifyUtils.ArtistsInOrder` | spotify_utils.py:44-45 | every artist name stands in the artists field in track order; one artist is shown alone, none gives "" |
| `SpotifyUtils.GetPlaylistNameAndSongList` | spotify_utils.py:59-64 | the playlist name is passed through; the songs are the formatted tracks of all pages |
| `YoutubeUtils.GetYoutubeSearchQueryFromSongInfo` | youtube_utils.py:10-14 | the query is the name, then " by ", then the artists, then " Official Audio" |
| `YoutubeUtils.CreateSearchQuery` | youtube_utils.py:5-8 | the query handed to the search is the name, then " by ", then the artists, then " Official Audio"; it is 19 characters longer than name and artists together |
| `YoutubeUtils.QueryDependsOnlyOnNameAndArtists` | youtube_utils.py:12-14 | two songs get the same query exactly when "name by artists" is the same for both; album, number and display play no part |
| `YoutubeUtils.DropLastFour` | youtube_utils.py:26 | `abr[:-4]` is a prefix of `abr`, four characters shorter (or empty when `abr` has fewer than four), and putting the last four characters back gives `abr` |
| `YoutubeUtils.BitrateOfNumberAndUnit` | youtube_utils.py:26 | a number followed by a four-character unit has that number as its bitrate |
| `YoutubeUtils.BitrateOf128kbps` | youtube_utils.py:26 | "128kbps" gives 128 |
| `YoutubeUtils.Bitrate` | youtube_utils.py:26 | the key `int(abr[:-4])`; a text of four characters or fewer leaves `int('')`, which raises |
| `YoutubeUtils.Bitrates` | youtube_utils.py:26 | the keys are the parsed bitrates in stream order; if any fails to parse, the error names the first stream whose bitrate does not parse |
| `YoutubeUtils.FirstMaxIndex` | youtube_utils.py:26 | the index chosen holds the largest key, and every earlier key is strictly smaller (the first maximum) |
| `YoutubeUtils.GetHighestQualityAudioStream` | youtube_utils.py:22-26 | an empty list fails; otherwise the result succeeds exactly when every bitrate parses; the stream chosen is in the list, has a bitrate at least every other stream's, and is the first such stream |
| `Downloader.Description` | main.py:35 | the song description starts with the number and a space and ends with the album; the separators add seven characters |
| `Downloader.VideoUrl` | main.py:39-44 | `video_url` after the search: the test `if video_url` holds exactly when the search returned a non-empty URL |
| `Downloader.FailureMessage` | main.py:38-51 | a failed search sets "Failed to retrieve YouTube URL: …"; after a successful search a message is set exactly when the URL is non-empty and the download raised, and it reads "Failed to download audio stream: …" |
| `Downloader.DownloadStatus` | main.py:55 | the Download line reads "Successful" exactly when a non-empty URL was found and its download did not raise, and "None" exactly when the search returned an empty URL |
| `Downloader.UrlRetrieved` | main.py:57 | the URL line shows a non-empty URL as it is, and "N/A" after a failed search or an empty URL |
| `Downloader.Filename` | main.py:48 | the file name is the sanitised description followed by ".mp4"; it ends in ".mp4" and holds no illegal character |
| `Downloader.Summary` | main.py:38-58 | a failed search gives "Failed to retrieve YouTube URL: …" and URL "N/A"; a found URL whose download failed gives "Failed to download audio stream: …" and still reports the URL; a full success gives "Successful"; an empty URL gives "None" and "N/A" |
| `Downloader.DownloadSong` | main.py:32-59 | the report exists exactly when `int(number)` parses and carries the summary; a song numbered `str(k)` reports the number k; an empty number raises |
| `Downloader.SearchFailureSkipsDownload` | main.py:41-46 | after a failed search the download's outcome does not affect the summary, so no download was attempted |
| `Downloader.PythonIndex` | main.py:78 | list indexing accepts -n..n-1, counts negative indexes from the end, and otherwise raises |
| `Downloader.Unfilled` | main.py:71 | `[None for _ in range(len(song_list))]`: one empty slot per song |
| `Downloader.Collect` | main.py:77-78 | storing the reports never changes the length of the list |
| `Downloader.CollectOneReport` | main.py:78 | storing one report fills its own slot and leaves every other slot unchanged |
| `Downloader.CollectSummaries` | main.py:71-78 | the list is allocated once with n empty slots and only assigned by index; the final array is what `Collect` specifies, or the loop stops when an index is out of range |
| `Downloader.CollectRestoresPlaylistOrder` | main.py:71-78 | if the arrivals are any permutation of the reports of songs 1..n, every slot ends up filled and slot i holds song i+1's summary |
| `Downloader.EachSlotWrittenOnce` | main.py:77-78 | under such a permutation, every number 1..n arrives and no two reports share a number, so each slot is written exactly once |
| `Downloader.WorkersReportInOrder` | main.py:59 | for songs numbered by format_track_info, song i's report is (i+1, its summary) |
| `Downloader.LogOfSlots` | main.py:80 | the log text exists exactly when every slot is filled, since joining a `None` raises; when every slot holds its summary, the text is the summaries joined by newlines |
| `Downloader.LogFollowsPlaylistOrder` | main.py:71-80 | for any arrival order, the log is the songs' summaries in playlist order, joined by newlines |

## Left out

- The Spotify client: OAuth, reading `.env`, `get_playlist_name` and the network calls behind `playlist_tracks` and `next` (spotify_utils.py:1-22, 27, 31). They are foreign calls. The playlist name and the chain of pages are inputs.
- SpotifyUtils.GetAllPlaylistTracks: it requires the pages to form a chain in which only the last page has a null `next`. A failing `sp.next` call is a network error and is not modelled.
- The YouTube search (`get_top_url_from_youtube_search`), `YouTube(url)`, `streams.filter(only_audio=True)`, `download_audio_stream` and `audio_stream.download` (youtube_utils.py:16-25, main.py:26-30). They belong to other libraries and do I/O. The search is an input `Result` holding the URL or the exception text. The download is an input `Outcome`. The audio-only stream list is an input of `GetHighestQualityAudioStream`.
- `get_audio_stream_from_song_info` (youtube_utils.py:28-32): nothing in the program calls it, and it only chains the two external calls above.
- The process pool, `imap_unordered` and the tqdm progress bar (main.py:74-76). The concurrency is not modelled. The pool's output is a sequence of reports in arrival order, and the collection loop runs sequentially over it.
- The user prompts: `clear_console`, `get_yes_or_no_input`, `get_output_path`, the retry loop of `get_playlist_name_and_song_list_from_user_input`, and the early return in `main` when no playlist is chosen (helpers.py:31-53, main.py:10-24, main.py:63-68).
- File-system effects: `os.path.join`, `os.makedirs`, and opening and writing `log.txt`, with its text encoding (helpers.py:15-16, helpers.py:24-26). Only the folder's name and the log's text are modelled.
- `datetime.now()` (helpers.py:22): the date and time components are a parameter. A day is only checked to lie in 1..31, not against its month's length.
- Helpers.Stamp: `%Y` is modelled as four zero-padded digits. For years below 1000, the output of `strftime` depends on the platform.
- Strings.ParseInt: Python's `int` also accepts surrounding whitespace, underscores between digits and non-ASCII digits. The model accepts only an optional sign followed by ASCII digits.
- Python exception messages (`str(e)`): they are opaque strings passed in with the failed outcome.
- Downloader.DownloadSong: when `int(number)` raises, the result is `None`. In the program that exception would end the whole run through the pool. That propagation is not modelled.
