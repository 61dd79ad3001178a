/** The day key of a local calendar date, `YYYY-MM-DD` (server.js `getDayKey`). */
module Calendar {
  import opened Decimal

  /** A local date as `Date` reports it: `getFullYear()`, `getMonth() + 1` and `getDate()`. */
  datatype LocalDate = LocalDate(year: int, month: nat, day: nat) {
    predicate Valid() {
      1 <= month <= 12 && 1 <= day <= 31
    }
  }

  /** The year as `String` writes it, then month and day each padded to two digits. */
  function DayKey(d: LocalDate): string
    requires d.Valid()
  {
    IntToString(d.year) + "-" + Pad2(d.month) + "-" + Pad2(d.day)
  }

  /** The year field of a key: everything before the last six characters `-MM-DD`. */
  function YearText(k: string): string
    requires |k| >= 6
  {
    k[..|k| - 6]
  }

  function MonthText(k: string): string
    requires |k| >= 6
  {
    k[|k| - 5..|k| - 3]
  }

  function DayText(k: string): string
    requires |k| >= 6
  {
    k[|k| - 2..]
  }

  /** The key splits back into its three fields. */
  lemma DayKeyFields(d: LocalDate)
    requires d.Valid()
    ensures |DayKey(d)| == |IntToString(d.year)| + 6
    ensures DayKey(d)[|DayKey(d)| - 6] == '-' && DayKey(d)[|DayKey(d)| - 3] == '-'
    ensures YearText(DayKey(d)) == IntToString(d.year)
    ensures AllDigits(MonthText(DayKey(d))) && DigitsValue(MonthText(DayKey(d))) == d.month
    ensures AllDigits(DayText(DayKey(d))) && DigitsValue(DayText(DayKey(d))) == d.day
  {
    var k := DayKey(d);
    var y := IntToString(d.year);
    Pad2Shape(d.month);
    Pad2Shape(d.day);
    assert k == y + "-" + Pad2(d.month) + "-" + Pad2(d.day);
    assert YearText(k) == y;
    assert MonthText(k) == Pad2(d.month);
    assert DayText(k) == Pad2(d.day);
  }

  /** Different dates have different keys, so the key changes whenever the local date does. */
  lemma DayKeyInjective(a: LocalDate, b: LocalDate)
    requires a.Valid() && b.Valid()
    ensures DayKey(a) == DayKey(b) <==> a == b
  {
    var k := DayKey(a);
    if k == DayKey(b) {
      DayKeyFields(a);
      DayKeyFields(b);
      IntToStringInjective(a.year, b.year);
    }
  }

  /** For a four-digit year the key is exactly `YYYY-MM-DD`: ten characters, dashes at 4 and 7. */
  lemma DayKeyIsoShape(d: LocalDate)
    requires d.Valid() && 1000 <= d.year <= 9999
    ensures var k := DayKey(d);
      && |k| == 10 && k[4] == '-' && k[7] == '-'
      && forall i :: 0 <= i < 10 && i != 4 && i != 7 ==> IsDigit(k[i])
  {
    var y := NatToString(d.year);
    assert |NatToString(d.year / 10)| == 3 by {
      assert |NatToString(d.year / 1000)| == 1;
    }
    DayKeyFields(d);
    var k := DayKey(d);
    assert YearText(k) == k[..4];
    assert MonthText(k) == k[5..7];
    assert DayText(k) == k[8..];
    forall i | 0 <= i < 10 && i != 4 && i != 7 ensures IsDigit(k[i]) {
      if i < 4 { assert k[i] == y[i]; }
      else if i < 7 { assert k[i] == MonthText(k)[i - 5]; }
      else { assert k[i] == DayText(k)[i - 8]; }
    }
  }

  /** 2 January 2023 has the key `2023-01-02`. */
  lemma DayKeyExample()
    ensures DayKey(LocalDate(2023, 1, 2)) == "2023-01-02"
  {
  }
}
