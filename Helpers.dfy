/**
 * helpers.py: file-name sanitising, the playlist folder name and the text of
 * the run log. The file-system calls around them are not modelled; only the
 * strings they are given are.
 */
module Helpers {
  import opened Wrappers
  import opened Strings

  // ---------------------------------------------------------------------------
  // remove_illegal_characters
  // ---------------------------------------------------------------------------

  /**
   * The characters of the regular-expression class `[\\/:*?"<>|]`. All nine
   * are printable ASCII, so control characters are never removed.
   */
  predicate IsIllegal(c: char)
    ensures IsIllegal(c) ==> 32 <= c as int < 127
  {
    c == '\\' || c == '/' || c == ':' || c == '*' || c == '?' || c == '"' || c == '<' || c == '>' || c == '|'
  }

  /** No character of `s` is illegal in a file or folder name. */
  predicate IsLegalName(s: string)
  {
    forall i :: 0 <= i < |s| ==> !IsIllegal(s[i])
  }

  /** `re.sub(r'[\\/:*?"<>|]', '', s)`: every illegal character is deleted. */
  function RemoveIllegalCharacters(s: string): (r: string)
    ensures IsLegalName(r)
    ensures |r| <= |s|
  {
    if |s| == 0 then ""
    else (if IsIllegal(s[0]) then "" else [s[0]]) + RemoveIllegalCharacters(s[1..])
  }

  /** Sanitising works character by character, so it distributes over concatenation. */
  lemma {:induction false} RemoveIllegalCharactersDistributes(a: string, b: string)
    ensures RemoveIllegalCharacters(a + b) == RemoveIllegalCharacters(a) + RemoveIllegalCharacters(b)
  {
    if |a| > 0 {
      assert (a + b)[0] == a[0];
      assert (a + b)[1..] == a[1..] + b;
      RemoveIllegalCharactersDistributes(a[1..], b);
    } else {
      assert a + b == b;
    }
  }

  /** A name without illegal characters is left as it is. */
  lemma {:induction false} RemoveIllegalCharactersKeepsLegalName(s: string)
    requires IsLegalName(s)
    ensures RemoveIllegalCharacters(s) == s
  {
    if |s| > 0 {
      assert IsLegalName(s[1..]) by {
        forall i | 0 <= i < |s[1..]| ensures !IsIllegal(s[1..][i]) {
          assert s[1..][i] == s[i + 1];
        }
      }
      RemoveIllegalCharactersKeepsLegalName(s[1..]);
    }
  }

  /** Sanitising twice is sanitising once. */
  lemma RemoveIllegalCharactersIdempotent(s: string)
    ensures RemoveIllegalCharacters(RemoveIllegalCharacters(s)) == RemoveIllegalCharacters(s)
  {
    RemoveIllegalCharactersKeepsLegalName(RemoveIllegalCharacters(s));
  }

  /** `sub` is `s` with some characters deleted, the others kept in their order. */
  predicate IsSubsequence(sub: string, s: string)
    decreases |s|
  {
    if |sub| == 0 then true
    else if |s| == 0 then false
    else (sub[0] == s[0] && IsSubsequence(sub[1..], s[1..])) || IsSubsequence(sub, s[1..])
  }

  /**
   * The output is exactly the input with its illegal characters deleted: an
   * order-preserving subsequence that keeps every legal character as often as
   * the input has it and no illegal one.
   */
  lemma {:induction false} RemoveIllegalCharactersDeletesExactlyIllegal(s: string)
    ensures IsSubsequence(RemoveIllegalCharacters(s), s)
    ensures forall c :: multiset(RemoveIllegalCharacters(s))[c] == if IsIllegal(c) then 0 else multiset(s)[c]
  {
    var r := RemoveIllegalCharacters(s);
    if |s| > 0 {
      var rest := RemoveIllegalCharacters(s[1..]);
      RemoveIllegalCharactersDeletesExactlyIllegal(s[1..]);
      assert s == [s[0]] + s[1..];
      if IsIllegal(s[0]) {
        assert r == rest;
      } else {
        assert r == [s[0]] + rest;
        assert r[0] == s[0] && r[1..] == rest;
      }
    }
  }

  // ---------------------------------------------------------------------------
  // create_playlist_folder
  // ---------------------------------------------------------------------------

  /** The fields of `datetime.now()` that the folder stamp uses. */
  datatype DateTime = DateTime(year: int, month: int, day: int, hour: int, minute: int, second: int)

  /** The ranges Python's `datetime` keeps its fields in. */
  predicate ValidDateTime(t: DateTime)
  {
    && 1 <= t.year <= 9999
    && 1 <= t.month <= 12
    && 1 <= t.day <= 31
    && 0 <= t.hour < 24
    && 0 <= t.minute < 60
    && 0 <= t.second < 60
  }

  /** `t.strftime("%d-%m-%Y %H;%M;%S")`. */
  function Stamp(t: DateTime): (s: string)
    requires ValidDateTime(t)
    ensures |s| == 19
  {
    ZeroPadded(t.day, 2) + "-" + ZeroPadded(t.month, 2) + "-" + ZeroPadded(t.year, 4) + " "
    + ZeroPadded(t.hour, 2) + ";" + ZeroPadded(t.minute, 2) + ";" + ZeroPadded(t.second, 2)
  }

  /**
   * The stamp is DD-MM-YYYY HH;MM;SS: zero-padded fields at fixed positions,
   * each of which reads back as the component it was made from, and it holds
   * no character that is illegal in a folder name.
   */
  lemma StampFields(t: DateTime)
    requires ValidDateTime(t)
    ensures var s := Stamp(t);
      && s[2] == '-' && s[5] == '-' && s[10] == ' ' && s[13] == ';' && s[16] == ';'
      && ParseInt(s[0..2]) == Some(t.day)
      && ParseInt(s[3..5]) == Some(t.month)
      && ParseInt(s[6..10]) == Some(t.year)
      && ParseInt(s[11..13]) == Some(t.hour)
      && ParseInt(s[14..16]) == Some(t.minute)
      && ParseInt(s[17..19]) == Some(t.second)
      && IsLegalName(s)
  {
    StampSlices(t);
    assert Power10(2) == 100 && Power10(4) == 10000;
    ParseIntOfZeroPadded(t.day, 2);
    ParseIntOfZeroPadded(t.month, 2);
    ParseIntOfZeroPadded(t.year, 4);
    ParseIntOfZeroPadded(t.hour, 2);
    ParseIntOfZeroPadded(t.minute, 2);
    ParseIntOfZeroPadded(t.second, 2);
    StampIsLegal(t);
  }

  lemma StampSlices(t: DateTime)
    requires ValidDateTime(t)
    ensures var s := Stamp(t);
      && s[2] == '-' && s[5] == '-' && s[10] == ' ' && s[13] == ';' && s[16] == ';'
      && s[0..2] == ZeroPadded(t.day, 2)
      && s[3..5] == ZeroPadded(t.month, 2)
      && s[6..10] == ZeroPadded(t.year, 4)
      && s[11..13] == ZeroPadded(t.hour, 2)
      && s[14..16] == ZeroPadded(t.minute, 2)
      && s[17..19] == ZeroPadded(t.second, 2)
  {
  }

  lemma StampIsLegal(t: DateTime)
    requires ValidDateTime(t)
    ensures IsLegalName(Stamp(t))
  {
    var s := Stamp(t);
    forall i | 0 <= i < |s| ensures !IsIllegal(s[i]) {
      if i !in {2, 5, 10, 13, 16} {
        assert IsDigit(s[i]);
      }
    }
  }

  /**
   * The name of the folder `create_playlist_folder` makes inside the output
   * path: the sanitised playlist name followed by the stamp in parentheses.
   */
  function PlaylistFolderName(playlistName: string, now: DateTime): (r: string)
    requires ValidDateTime(now)
    ensures IsLegalName(r)
    ensures |r| == |RemoveIllegalCharacters(playlistName)| + 22
    ensures r[..|r| - 22] == RemoveIllegalCharacters(playlistName)
    ensures r[|r| - 22..|r| - 20] == " (" && r[|r| - 1] == ')'
    ensures r[|r| - 20..|r| - 1] == Stamp(now)
  {
    StampFields(now);
    var name := RemoveIllegalCharacters(playlistName);
    var r := name + " (" + Stamp(now) + ")";
    assert r[..|r| - 22] == name;
    assert r[|r| - 20..|r| - 1] == Stamp(now);
    assert IsLegalName(r) by {
      forall i | 0 <= i < |r| ensures !IsIllegal(r[i]) {
        if i < |name| {
          assert r[i] == name[i];
        } else if |name| + 2 <= i < |r| - 1 {
          assert r[i] == Stamp(now)[i - |name| - 2];
        }
      }
    }
    r
  }

  /** Sanitising a string one character at a time. */
  lemma RemoveIllegalCharactersCons(c: char, s: string)
    ensures RemoveIllegalCharacters([c] + s) == (if IsIllegal(c) then "" else [c]) + RemoveIllegalCharacters(s)
  {
    assert ([c] + s)[0] == c;
    assert ([c] + s)[1..] == s;
  }

  /** The folder name is fixed by the sanitised playlist name and the stamp. */
  lemma {:induction false} FolderNameComposition(playlistName: string, now: DateTime)
    requires ValidDateTime(now)
    ensures PlaylistFolderName(playlistName, now) == RemoveIllegalCharacters(playlistName) + " (" + Stamp(now) + ")"
  {
    var r := PlaylistFolderName(playlistName, now);
    assert r == r[..|r| - 22] + r[|r| - 22..|r| - 20] + r[|r| - 20..|r| - 1] + r[|r| - 1..];
  }

  /** A playlist name that is already legal appears in its folder name as it is. */
  lemma FolderNameOfLegalName(playlistName: string, now: DateTime)
    requires ValidDateTime(now) && IsLegalName(playlistName)
    ensures PlaylistFolderName(playlistName, now) == playlistName + " (" + Stamp(now) + ")"
  {
    FolderNameComposition(playlistName, now);
    RemoveIllegalCharactersKeepsLegalName(playlistName);
  }

  /** An illegal character anywhere in the playlist name leaves no trace in its folder name. */
  lemma FolderNameIgnoresIllegal(before: string, c: char, after: string, now: DateTime)
    requires ValidDateTime(now) && IsIllegal(c)
    ensures PlaylistFolderName(before + [c] + after, now) == PlaylistFolderName(before + after, now)
  {
    RemoveIllegalCharactersDistributes(before + [c], after);
    RemoveIllegalCharactersDistributes(before, [c]);
    RemoveIllegalCharactersCons(c, "");
    RemoveIllegalCharactersDistributes(before, after);
    FolderNameComposition(before + [c] + after, now);
    FolderNameComposition(before + after, now);
  }

  // ---------------------------------------------------------------------------
  // save_log
  // ---------------------------------------------------------------------------

  /**
   * The text `save_log` writes to log.txt: the messages joined by newlines.
   * No messages give an empty file; otherwise it starts with the first
   * message and ends with the last.
   */
  function LogText(messages: seq<string>): (r: string)
    ensures |messages| == 0 ==> r == ""
    ensures |messages| > 0 ==> |messages[0]| <= |r| && r[..|messages[0]|] == messages[0]
    ensures |messages| > 0 ==> |messages[|messages| - 1]| <= |r| && r[|r| - |messages[|messages| - 1]|..] == messages[|messages| - 1]
    ensures |messages| > 1 ==> |messages[0]| < |r| && r[|messages[0]|] == '\n'
  {
    JoinEnds(messages, "\n");
    Join(messages, "\n")
  }

  /** Total length of the messages. */
  function TotalLength(messages: seq<string>): nat
  {
    if |messages| == 0 then 0 else TotalLength(messages[..|messages| - 1]) + |messages[|messages| - 1]|
  }

  lemma {:induction false} NewlineOffset(messages: seq<string>, k: nat)
    requires k <= |messages|
    ensures Offset(messages, k, "\n") == TotalLength(messages[..k]) + k
  {
    if k > 0 {
      NewlineOffset(messages, k - 1);
      assert messages[..k][..k - 1] == messages[..k - 1];
    }
  }

  /** For n >= 1 messages the log is as long as all of them plus n - 1 newlines. */
  lemma LogTextLength(messages: seq<string>)
    requires |messages| > 0
    ensures |LogText(messages)| == TotalLength(messages) + |messages| - 1
  {
    var n := |messages|;
    JoinLength(messages, "\n");
    NewlineOffset(messages, n - 1);
    assert messages[..n] == messages;
    assert messages[..n][..n - 1] == messages[..n - 1];
  }

  /**
   * Message `k` stands in the log right after the `k` messages before it and
   * their `k` newlines, so the messages appear in list order.
   */
  lemma LogTextInOrder(messages: seq<string>, k: nat)
    requires k < |messages|
    ensures var start := TotalLength(messages[..k]) + k;
      && start + |messages[k]| <= |LogText(messages)|
      && LogText(messages)[start..start + |messages[k]|] == messages[k]
  {
    JoinAt(messages, "\n", k);
    NewlineOffset(messages, k);
  }

  /** A message followed by the next one: consecutive messages are separated by exactly one newline. */
  lemma LogTextAppend(messages: seq<string>, m: string)
    requires |messages| > 0
    ensures LogText(messages + [m]) == LogText(messages) + "\n" + m
  {
    assert (messages + [m])[..|messages|] == messages;
  }
}
