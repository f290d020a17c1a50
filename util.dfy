/**
 * The string helpers of src/util.ts: cutting a command line at its first
 * space, and printing a duration in seconds as [H]H:MM:SS or MM:SS.
 */
module Util {
  import opened Optional
  import Sequences

  /** The record `splitAfterFirstSpace` returns. */
  datatype Split = Split(beforeSpace: string, afterSpace: string)

  /**
   * `splitAfterFirstSpace`: the text before the first space and the text after
   * it; a text without a space is all `beforeSpace`.
   */
  function SplitAfterFirstSpace(s: string): (r: Split)
    ensures ' ' in s ==> ' ' !in r.beforeSpace && r.beforeSpace + " " + r.afterSpace == s
    ensures ' ' !in s ==> r == Split(s, "")
  {
    var i := Sequences.IndexOf(s, ' ');
    if i != -1 then
      assert s == s[..i] + " " + s[i + 1..];
      Split(s[..i], s[i + 1..])
    else Split(s, "")
  }

  /**
   * The split is the only way to write a text as a space-free head, one space
   * and a tail: the first space is the cut.
   */
  lemma {:induction false} SplitIsUnique(s: string, head: string, tail: string)
    requires ' ' !in head && head + " " + tail == s
    ensures SplitAfterFirstSpace(s) == Split(head, tail)
  {
    var r := SplitAfterFirstSpace(s);
    assert s[|head|] == ' ';
    assert ' ' in s;
    var i := |r.beforeSpace|;
    assert s[i] == ' ' by {
      assert (r.beforeSpace + " " + r.afterSpace)[i] == ' ';
    }
    assert r.beforeSpace == s[..i] == head;
    assert r.afterSpace == s[i + 1..] == tail;
  }

  predicate IsDigit(c: char)
  {
    '0' <= c <= '9'
  }

  predicate AllDigits(s: string)
  {
    forall i :: 0 <= i < |s| ==> IsDigit(s[i])
  }

  function DigitChar(d: nat): (c: char)
    requires d < 10
    ensures IsDigit(c)
  {
    ('0' as int + d) as char
  }

  function DigitValue(c: char): (d: nat)
    requires IsDigit(c)
  {
    c as int - '0' as int
  }

  /** `n.toString()` for a non-negative integer: its decimal digits, no leading zero. */
  function NatToString(n: nat): (s: string)
    ensures |s| >= 1 && AllDigits(s)
    ensures |s| == 1 <==> n < 10
    ensures s[0] == '0' ==> n == 0
    decreases n
  {
    if n < 10 then [DigitChar(n)] else NatToString(n / 10) + [DigitChar(n % 10)]
  }

  /** The value of a string of decimal digits (the empty string reads as 0). */
  function ParseNat(s: string): nat
    requires AllDigits(s)
  {
    if |s| == 0 then 0 else ParseNat(s[..|s| - 1]) * 10 + DigitValue(s[|s| - 1])
  }

  lemma {:induction false} ParseNatToString(n: nat)
    ensures ParseNat(NatToString(n)) == n
    decreases n
  {
    var s := NatToString(n);
    if n >= 10 {
      ParseNatToString(n / 10);
      assert s[..|s| - 1] == NatToString(n / 10);
    }
  }

  /** A leading zero does not change the value of a digit string. */
  lemma {:induction false} ParseNatLeadingZero(s: string)
    requires AllDigits(s)
    ensures AllDigits("0" + s) && ParseNat("0" + s) == ParseNat(s)
    decreases |s|
  {
    if |s| > 0 {
      var t := "0" + s;
      assert t[..|t| - 1] == "0" + s[..|s| - 1];
      ParseNatLeadingZero(s[..|s| - 1]);
    }
  }

  /** The minutes and seconds fields: `toString()`, with a '0' put in front of a single digit. */
  function PadTwo(n: nat): string
  {
    var t := NatToString(n);
    if |t| == 1 then "0" + t else t
  }

  /** A field below 60 is printed as exactly two digits that read back as its value. */
  lemma PadTwoBelowSixty(n: nat)
    requires n < 60
    ensures |PadTwo(n)| == 2 && AllDigits(PadTwo(n)) && ParseNat(PadTwo(n)) == n
  {
    ParseNatToString(n);
    var t := NatToString(n);
    if n < 10 {
      ParseNatLeadingZero(t);
    } else {
      assert |NatToString(n / 10)| == 1;
    }
  }

  /** `prettyPrintDuration`: a duration in seconds as H:MM:SS, or MM:SS under an hour. */
  function PrettyPrintDuration(duration: nat): string
  {
    var hours := NatToString(duration / 3600);
    var minutes := PadTwo(duration % 3600 / 60);
    var seconds := PadTwo(duration % 60);
    if hours == "0" then minutes + ":" + seconds
    else if |hours| == 1 then "0" + hours + ":" + minutes + ":" + seconds
    else hours + ":" + minutes + ":" + seconds
  }

  /** Reads a text of the shape [H...:]MM:SS back into seconds. */
  function ParseDuration(t: string): Option<nat>
  {
    if |t| < 5 || t[|t| - 3] != ':' || !AllDigits(t[|t| - 5..|t| - 3]) || !AllDigits(t[|t| - 2..]) then None
    else
      var minutes := ParseNat(t[|t| - 5..|t| - 3]);
      var seconds := ParseNat(t[|t| - 2..]);
      if |t| == 5 then Some(minutes * 60 + seconds)
      else if |t| >= 8 && t[|t| - 6] == ':' && AllDigits(t[..|t| - 6]) then
        Some(ParseNat(t[..|t| - 6]) * 3600 + minutes * 60 + seconds)
      else None
  }

  lemma CarrySplit(d: nat)
    ensures d == d / 3600 * 3600 + d % 3600 / 60 * 60 + d % 60
    ensures d % 3600 / 60 < 60 && d % 60 == d % 3600 % 60
  {
    var h, r := d / 3600, d % 3600;
    assert d == h * 3600 + r;
    assert r == r / 60 * 60 + r % 60;
    assert d % 60 == r % 60 by {
      assert d == (h * 60 + r / 60) * 60 + r % 60;
    }
  }

  /**
   * The shape of the printed duration: the last five characters are MM:SS, two
   * digits each, reading back as the minutes and the seconds of the duration
   * (so both are below 60); below them, the MM:SS form is printed exactly when
   * the hour count is 0, one-digit hours get a leading '0', and longer hour
   * counts are printed as they are.
   */
  lemma PrettyPrintDurationShape(duration: nat)
    ensures var r := PrettyPrintDuration(duration);
      var h, m, s := duration / 3600, duration % 3600 / 60, duration % 60;
      && |r| >= 5 && r[|r| - 3] == ':'
      && r[|r| - 5..|r| - 3] == PadTwo(m) && |PadTwo(m)| == 2 && AllDigits(PadTwo(m)) && ParseNat(PadTwo(m)) == m < 60
      && r[|r| - 2..] == PadTwo(s) && |PadTwo(s)| == 2 && AllDigits(PadTwo(s)) && ParseNat(PadTwo(s)) == s < 60
      && (|r| == 5 <==> h == 0)
      && (1 <= h < 10 ==> r[..3] == ['0', DigitChar(h), ':'])
      && (h >= 10 ==> r[0] != '0' && r[..|r| - 6] == NatToString(h) && r[|r| - 6] == ':')
  {
    var r := PrettyPrintDuration(duration);
    var h, m, s := duration / 3600, duration % 3600 / 60, duration % 60;
    CarrySplit(duration);
    PadTwoBelowSixty(m);
    PadTwoBelowSixty(s);
    var hs := NatToString(h);
    assert hs == "0" <==> h == 0 by {
      if h == 0 { assert hs == [DigitChar(0)]; }
    }
    if h >= 10 {
      assert r == hs + ":" + PadTwo(m) + ":" + PadTwo(s);
      assert r[..|r| - 6] == hs;
    }
  }

  /** Round trip: the printed duration reads back as the same number of seconds. */
  lemma PrettyPrintDurationRoundTrip(duration: nat)
    ensures ParseDuration(PrettyPrintDuration(duration)) == Some(duration)
  {
    var r := PrettyPrintDuration(duration);
    var h, m, s := duration / 3600, duration % 3600 / 60, duration % 60;
    PrettyPrintDurationShape(duration);
    CarrySplit(duration);
    var hs := NatToString(h);
    ParseNatToString(h);
    if h != 0 {
      assert |r| >= 8;
      if |hs| == 1 {
        assert r == "0" + hs + ":" + PadTwo(m) + ":" + PadTwo(s);
        assert r[..|r| - 6] == "0" + hs;
        ParseNatLeadingZero(hs);
      } else {
        assert r[..|r| - 6] == hs;
      }
    }
  }
}
