/** The hall page's countdown text, `HH:MM:SS` (public/hall.js `formatCountdown`). */
module Countdown {
  import opened Decimal
  import opened Text
  import opened Wrappers

  /**
   * Negative input counts as zero; hours are padded to at least two digits and
   * may be longer, minutes and seconds are padded to exactly two.
   */
  function FormatCountdown(seconds: int): string {
    var safe := Clamp(seconds);
    Join(PadStart(NatToString(safe / 3600), 2, '0'), Pad2(safe % 3600 / 60), Pad2(safe % 60))
  }

  /** `Math.max(0, seconds)`. */
  function Clamp(seconds: int): nat {
    if 0 < seconds then seconds else 0
  }

  /** The template `${hours}:${minutes}:${secs}`. */
  function Join(h: string, m: string, s: string): string {
    h + ":" + m + ":" + s
  }

  /** Reads `H:MM:SS` back into a count of seconds; None when the text is not of that form. */
  function ParseCountdown(t: string): Option<nat> {
    var i := IndexOf(t, ':');
    if i < 0 then None
    else
      var rest := t[i + 1..];
      var j := IndexOf(rest, ':');
      if j < 0 then None
      else ParseFields(t[..i], rest[..j], rest[j + 1..])
  }

  /** The count of seconds three colon-separated fields stand for, if they are well formed. */
  function ParseFields(h: string, m: string, s: string): Option<nat> {
    if h != [] && |m| == 2 && |s| == 2 && AllDigits(h) && AllDigits(m) && AllDigits(s)
    then Some(TotalSeconds(DigitsValue(h), DigitsValue(m), DigitsValue(s)))
    else None
  }

  function TotalSeconds(hours: nat, minutes: nat, seconds: nat): nat {
    hours * 3600 + minutes * 60 + seconds
  }

  /** Hours, minutes below 60 and seconds below 60 add back up to the clamped count. */
  lemma Split(safe: nat)
    ensures safe % 3600 / 60 < 60 && safe % 60 < 60
    ensures safe / 3600 * 3600 + safe % 3600 / 60 * 60 + safe % 60 == safe
  {
    var h, r := safe / 3600, safe % 3600;
    assert safe == h * 3600 + r;
    var m, s := r / 60, r % 60;
    assert r == m * 60 + s;
    assert safe % 60 == s by {
      assert safe == (h * 60 + m) * 60 + s;
    }
  }

  lemma NoColon(d: string)
    requires AllDigits(d)
    ensures ':' !in d
  {
  }

  /** The first colon of `Join(h, m, s)` is the one right after `h`, when `h` has none. */
  lemma JoinFirstColon(h: string, m: string, s: string)
    requires ':' !in h
    ensures var t := Join(h, m, s);
      IndexOf(t, ':') == |h| && t[..|h|] == h && t[|h| + 1..] == m + [':'] + s
  {
    var rest := m + [':'] + s;
    assert Join(h, m, s) == h + [':'] + rest;
    IndexAfter(h, ':', rest);
  }

  /** Joining three digit fields, the last two of width two, parses back field by field. */
  lemma JoinParses(h: string, m: string, s: string)
    requires h != [] && |m| == 2 && |s| == 2 && AllDigits(h) && AllDigits(m) && AllDigits(s)
    ensures ParseCountdown(Join(h, m, s)) == Some(TotalSeconds(DigitsValue(h), DigitsValue(m), DigitsValue(s)))
  {
    NoColon(h);
    NoColon(m);
    JoinFirstColon(h, m, s);
    var rest := m + [':'] + s;
    IndexAfter(m, ':', s);
    assert rest[..2] == m && rest[3..] == s;
  }

  /** The layout of a joined text: the fields sit at fixed distances from its end. */
  lemma JoinLayout(h: string, m: string, s: string)
    requires |m| == 2 && |s| == 2
    ensures var r := Join(h, m, s);
      && |r| == |h| + 6 && r[|r| - 6] == ':' && r[|r| - 3] == ':'
      && r[..|r| - 6] == h && r[|r| - 5..|r| - 3] == m && r[|r| - 2..] == s
  {
  }

  /**
   * The shape of the output: an hours field of two or more digits, then a colon,
   * exactly two digits of minutes below 60, a colon, exactly two digits of seconds below 60.
   */
  lemma FormatShape(seconds: int)
    ensures var r := FormatCountdown(seconds);
      && |r| >= 8 && r[|r| - 6] == ':' && r[|r| - 3] == ':'
      && AllDigits(r[..|r| - 6])
      && AllDigits(r[|r| - 5..|r| - 3]) && DigitsValue(r[|r| - 5..|r| - 3]) < 60
      && AllDigits(r[|r| - 2..]) && DigitsValue(r[|r| - 2..]) < 60
  {
    var safe := Clamp(seconds);
    Split(safe);
    var h := PadStart(NatToString(safe / 3600), 2, '0');
    var m := Pad2(safe % 3600 / 60);
    var s := Pad2(safe % 60);
    PadStartRoundTrip(safe / 3600, 2);
    Pad2Shape(safe % 3600 / 60);
    Pad2Shape(safe % 60);
    JoinLayout(h, m, s);
  }

  /** Any count of seconds at or below zero shows as `00:00:00`. */
  lemma NonPositiveIsZero(seconds: int)
    requires seconds <= 0
    ensures FormatCountdown(seconds) == "00:00:00"
  {
    assert Clamp(seconds) == 0;
    assert NatToString(0) == "0";
    assert Repeat('0', 1) == "0";
    assert Pad2(0) == "00";
    assert PadStart(NatToString(0), 2, '0') == "00";
    assert Join("00", "00", "00") == "00:00:00";
  }

  /** Reading the output back gives the clamped input: `H*3600 + MM*60 + SS == max(0, seconds)`. */
  lemma RoundTrip(seconds: int)
    ensures ParseCountdown(FormatCountdown(seconds)) == Some(Clamp(seconds))
  {
    var safe := Clamp(seconds);
    Split(safe);
    var h := PadStart(NatToString(safe / 3600), 2, '0');
    var m := Pad2(safe % 3600 / 60);
    var s := Pad2(safe % 60);
    PadStartRoundTrip(safe / 3600, 2);
    Pad2Shape(safe % 3600 / 60);
    Pad2Shape(safe % 60);
    JoinParses(h, m, s);
    assert TotalSeconds(safe / 3600, safe % 3600 / 60, safe % 60) == safe;
  }
}
