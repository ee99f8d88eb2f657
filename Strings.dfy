/**
 * The few Python string builtins the downloader relies on: `sep.join(parts)`,
 * `str(n)` for a non-negative integer and `int(s)` for a decimal literal.
 */
module Strings {
  import opened Wrappers

  // ---------------------------------------------------------------------------
  // sep.join(parts)
  // ---------------------------------------------------------------------------

  /** Python's `sep.join(parts)`. */
  function Join(parts: seq<string>, sep: string): string
  {
    if |parts| == 0 then ""
    else if |parts| == 1 then parts[0]
    else Join(parts[..|parts| - 1], sep) + sep + parts[|parts| - 1]
  }

  /**
   * No parts join to ""; otherwise the text starts with the first part, ends
   * with the last, and puts `sep` right after the first part when there is a
   * second.
   */
  lemma {:induction false} JoinEnds(parts: seq<string>, sep: string)
    ensures var r := Join(parts, sep);
      && (|parts| == 0 ==> r == "")
      && (|parts| > 0 ==> |parts[0]| <= |r| && r[..|parts[0]|] == parts[0])
      && (|parts| > 0 ==> |parts[|parts| - 1]| <= |r| && r[|r| - |parts[|parts| - 1]|..] == parts[|parts| - 1])
      && (|parts| > 1 ==> |parts[0]| + |sep| <= |r| && r[|parts[0]|..|parts[0]| + |sep|] == sep)
  {
    if |parts| > 1 {
      var init := parts[..|parts| - 1];
      var left := Join(init, sep);
      var r := left + sep + parts[|parts| - 1];
      JoinEnds(init, sep);
      assert init[0] == parts[0];
      assert r[..|left|] == left;
      assert r[..|parts[0]|] == left[..|parts[0]|];
      assert |init| > 1 ==> r[|parts[0]|..|parts[0]| + |sep|] == left[|parts[0]|..|parts[0]| + |sep|];
      assert r[|r| - |parts[|parts| - 1]|..] == parts[|parts| - 1];
    }
  }

  /** Where part `k` starts in `Join(parts, sep)`: the parts before it, each followed by `sep`. */
  function Offset(parts: seq<string>, k: nat, sep: string): nat
    requires k <= |parts|
  {
    if k == 0 then 0 else Offset(parts, k - 1, sep) + |parts[k - 1]| + |sep|
  }

  /** `Offset` only looks at the parts before `k`. */
  lemma {:induction false} OffsetOfPrefix(parts: seq<string>, m: nat, k: nat, sep: string)
    requires k <= m <= |parts|
    ensures Offset(parts[..m], k, sep) == Offset(parts, k, sep)
  {
    if k > 0 {
      OffsetOfPrefix(parts, m, k - 1, sep);
      assert parts[..m][k - 1] == parts[k - 1];
    }
  }

  /** The joined text ends right after its last part. */
  lemma {:induction false} JoinLength(parts: seq<string>, sep: string)
    requires |parts| > 0
    ensures |Join(parts, sep)| == Offset(parts, |parts| - 1, sep) + |parts[|parts| - 1]|
  {
    if |parts| > 1 {
      var init := parts[..|parts| - 1];
      JoinLength(init, sep);
      OffsetOfPrefix(parts, |parts| - 1, |parts| - 2, sep);
      assert init[|init| - 1] == parts[|parts| - 2];
    }
  }

  /** Every part occurs in the joined text, in order, at its offset. */
  lemma {:induction false} JoinAt(parts: seq<string>, sep: string, k: nat)
    requires k < |parts|
    ensures Offset(parts, k, sep) + |parts[k]| <= |Join(parts, sep)|
    ensures Join(parts, sep)[Offset(parts, k, sep)..Offset(parts, k, sep) + |parts[k]|] == parts[k]
  {
    var n := |parts|;
    if n > 1 {
      var init := parts[..n - 1];
      var left := Join(init, sep);
      assert Join(parts, sep) == left + sep + parts[n - 1];
      JoinLength(init, sep);
      OffsetOfPrefix(parts, n - 1, n - 2, sep);
      assert init[n - 2] == parts[n - 2];
      if k < n - 1 {
        JoinAt(init, sep, k);
        OffsetOfPrefix(parts, n - 1, k, sep);
        assert init[k] == parts[k];
      } else {
        assert Offset(parts, k, sep) == |left| + |sep|;
      }
    }
  }

  // ---------------------------------------------------------------------------
  // str(n) and int(s)
  // ---------------------------------------------------------------------------

  predicate IsDigit(c: char)
  {
    '0' <= c <= '9'
  }

  /** The character of a decimal digit. */
  function DigitChar(d: nat): (c: char)
    requires d < 10
    ensures IsDigit(c)
  {
    (d + '0' as int) as char
  }

  /** The value of a decimal digit character. */
  function DigitValue(c: char): (d: nat)
    requires IsDigit(c)
    ensures d < 10
  {
    c as int - '0' as int
  }

  /** A non-empty run of decimal digits. */
  predicate IsDecimal(s: string)
  {
    |s| > 0 && forall i :: 0 <= i < |s| ==> IsDigit(s[i])
  }

  /** Python's `str(n)` for `n >= 0`: its decimal digits, without leading zeros. */
  function NatToString(n: nat): (s: string)
    ensures IsDecimal(s)
    ensures |s| > 1 ==> s[0] != '0'
  {
    if n < 10 then [DigitChar(n)]
    else NatToString(n / 10) + [DigitChar(n % 10)]
  }

  /** The number a run of decimal digits denotes (leading zeros allowed). */
  function DigitsValue(s: string): nat
    requires forall i :: 0 <= i < |s| ==> IsDigit(s[i])
  {
    if |s| == 0 then 0 else DigitsValue(s[..|s| - 1]) * 10 + DigitValue(s[|s| - 1])
  }

  /**
   * Python's `int(s)`: an optional sign followed by decimal digits; any other
   * text raises `ValueError`, modelled as `None`.
   */
  function ParseInt(s: string): (r: Option<int>)
    ensures r.Some? ==> |s| > 0 && IsDigit(s[|s| - 1])
    ensures r.Some? && r.value < 0 ==> s[0] == '-'
    ensures |s| > 0 && ('a' <= s[0] <= 'z' || 'A' <= s[0] <= 'Z') ==> r.None?
  {
    if |s| > 0 && (s[0] == '+' || s[0] == '-') && IsDecimal(s[1..]) then
      var magnitude: int := DigitsValue(s[1..]);
      Some(if s[0] == '-' then -magnitude else magnitude)
    else if IsDecimal(s) then Some(DigitsValue(s))
    else None
  }

  /** Every character `int` accepts after the first is a digit: no spaces, signs or letters inside. */
  lemma ParseIntAcceptsOnlyDigits(s: string, i: nat)
    requires ParseInt(s).Some?
    requires 1 <= i < |s|
    ensures IsDigit(s[i])
  {
    if IsDecimal(s[1..]) {
      assert s[1..][i - 1] == s[i];
    }
  }

  lemma {:induction false} DigitsValueOfNatToString(n: nat)
    ensures DigitsValue(NatToString(n)) == n
  {
    var s := NatToString(n);
    if n >= 10 {
      DigitsValueOfNatToString(n / 10);
      assert s[..|s| - 1] == NatToString(n / 10);
    }
  }

  /** `int(str(n)) == n`: the decimal text of a number reads back as that number. */
  lemma ParseIntOfNatToString(n: nat)
    ensures ParseInt(NatToString(n)) == Some(n)
  {
    DigitsValueOfNatToString(n);
  }

  /** Python's truth test on a `str` or `None`: present and not empty. */
  predicate IsTruthy(s: Option<string>)
  {
    s.Some? && s.value != ""
  }

  /** Different numbers have different decimal texts. */
  lemma NatToStringInjective(m: nat, n: nat)
    requires m != n
    ensures NatToString(m) != NatToString(n)
  {
    ParseIntOfNatToString(m);
    ParseIntOfNatToString(n);
  }

  /** The text of `n` padded with zeros on the left to `width` digits (strftime's `%02d`, `%04d`). */
  function ZeroPadded(n: nat, width: nat): (s: string)
    ensures |s| == width
    ensures forall i :: 0 <= i < |s| ==> IsDigit(s[i])
  {
    if width == 0 then "" else ZeroPadded(n / 10, width - 1) + [DigitChar(n % 10)]
  }

  function Power10(k: nat): (p: nat)
    ensures p >= 1
  {
    if k == 0 then 1 else 10 * Power10(k - 1)
  }

  /** A number below `10^width` is read back from its zero-padded text. */
  lemma {:induction false} DigitsValueOfZeroPadded(n: nat, width: nat)
    requires n < Power10(width)
    ensures DigitsValue(ZeroPadded(n, width)) == n
  {
    if width > 0 {
      var s := ZeroPadded(n, width);
      assert n / 10 < Power10(width - 1);
      DigitsValueOfZeroPadded(n / 10, width - 1);
      assert s[..|s| - 1] == ZeroPadded(n / 10, width - 1);
    }
  }

  /** `int` of a zero-padded field gives back the number (leading zeros are accepted). */
  lemma ParseIntOfZeroPadded(n: nat, width: nat)
    requires 0 < width && n < Power10(width)
    ensures ParseInt(ZeroPadded(n, width)) == Some(n)
  {
    DigitsValueOfZeroPadded(n, width);
  }
}
