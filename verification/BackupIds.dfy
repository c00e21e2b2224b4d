/** The timestamp in a backup id, written by a run and recovered by a listing. */
module BackupIds {
  import opened Wrappers
  import opened Listing
  import opened Calendar

  const NANOS_PER_SECOND := 1_000_000_000

  /** A number in decimal, with leading zeros. */
  function Digits(n: nat, width: nat): (s: string)
    ensures |s| == width
  {
    if width == 0 then "" else Digits(n / 10, width - 1) + [('0' as nat + n % 10) as char]
  }

  lemma {:induction false} DigitsAreDigits(n: nat, width: nat)
    ensures forall c :: c in Digits(n, width) ==> '0' <= c <= '9'
  {
    if width == 0 {
    } else {
      DigitsAreDigits(n / 10, width - 1);
    }
  }

  /** Read at any place, the digits give the number. */
  lemma {:induction false} DigitsReadBack(n: nat, width: nat, s: string, i: nat)
    requires i + width <= |s| && s[i..i + width] == Digits(n, width) && n < PowerOfTen(width)
    ensures IsDigits(s, i, i + width) && DigitsValue(s, i, i + width) == n
  {
    if width == 0 {
    } else {
      var front := Digits(n / 10, width - 1);
      var all := s[i..i + width];
      assert all == front + [('0' as nat + n % 10) as char];
      assert s[i + width - 1] == all[width - 1] == ('0' as nat + n % 10) as char;
      assert s[i..i + (width - 1)] == all[..width - 1] == front;
      DigitsReadBack(n / 10, width - 1, s, i);
    }
  }

  /** The time of day in seconds, as hours, minutes and seconds. */
  function SecondOfDay(t: int): nat {
    t % NANOS_PER_DAY / NANOS_PER_SECOND
  }

  /** t.Format("20060102T150405Z") for years of four digits. */
  function Stamp(t: int): string
    requires 0 <= DateOfDay(DayOfInstant(t)).year
  {
    var d, s := DateOfDay(DayOfInstant(t)), SecondOfDay(t);
    Digits(d.year, 4) + Digits(d.month, 2) + Digits(d.day, 2) + "T"
    + Digits(s / 3600, 2) + Digits(s / 60 % 60, 2) + Digits(s % 60, 2) + "Z"
  }

  function BackupId(t: int, ulid: string): string
    requires 0 <= DateOfDay(DayOfInstant(t)).year
  {
    Stamp(t) + "-" + ulid
  }

  lemma {:induction false} CutAtDash(s: string, rest: string)
    requires '-' !in s
    ensures Cut(s + "-" + rest, '-') == Some(s)
  {
    var text := s + "-" + rest;
    if s == "" {
      assert text[0] == '-';
    } else {
      assert s[0] in s && text[1..] == s[1..] + "-" + rest;
      CutAtDash(s[1..], rest);
      assert [s[0]] + s[1..] == s;
    }
  }

  lemma {:induction false} AfterSlash(dir: string, s: string)
    requires '/' !in s
    ensures AfterLast(dir + "/" + s, '/') == s
  {
    var text := dir + "/" + s;
    if s == "" {
      assert text[|text| - 1] == '/';
    } else {
      assert s[|s| - 1] in s && text[..|text| - 1] == dir + "/" + s[..|s| - 1];
      AfterSlash(dir, s[..|s| - 1]);
    }
  }

  lemma LastPieceOf(dir: string, s: string)
    requires '/' !in s && s != ""
    ensures LastPiece(dir + "/" + s) == s
  {
    assert s[|s| - 1] in s;
    AfterSlash(dir, s);
  }

  lemma StampChars(t: int)
    requires 0 <= DateOfDay(DayOfInstant(t)).year
    ensures |Stamp(t)| == 16 && '-' !in Stamp(t) && '/' !in Stamp(t)
  {
    hide DateOfDay;
    var d, s := DateOfDay(DayOfInstant(t)), SecondOfDay(t);
    DigitsAreDigits(d.year, 4);
    DigitsAreDigits(d.month, 2);
    DigitsAreDigits(d.day, 2);
    DigitsAreDigits(s / 3600, 2);
    DigitsAreDigits(s / 60 % 60, 2);
    DigitsAreDigits(s % 60, 2);
    hide Digits;
  }

  /** The pieces of a stamp. */
  lemma StampParts(t: int)
    requires 0 <= DateOfDay(DayOfInstant(t)).year
    ensures var ts, d, s := Stamp(t), DateOfDay(DayOfInstant(t)), SecondOfDay(t);
            && |ts| == 16 && ts[8] == 'T' && ts[15..] == "Z"
            && ts[0..4] == Digits(d.year, 4) && ts[4..6] == Digits(d.month, 2) && ts[6..8] == Digits(d.day, 2)
            && ts[9..11] == Digits(s / 3600, 2) && ts[11..13] == Digits(s / 60 % 60, 2)
                && ts[13..15] == Digits(s % 60, 2)
  {
    hide DateOfDay;
  }

  /** Adjacent runs of digits. */
  lemma DigitsTogether(s: string, i: nat, j: nat, k: nat)
    requires i <= j <= k <= |s| && IsDigits(s, i, j) && IsDigits(s, j, k)
    ensures IsDigits(s, i, k)
  {
  }

  lemma Powers()
    ensures PowerOfTen(2) == 100 && PowerOfTen(4) == 10000
  {
  }

  lemma SecondsOf(t: int)
    ensures var s := SecondOfDay(t);
            && s / 3600 < 24 && s / 60 % 60 < 60 && s % 60 < 60
            && 3600 * (s / 3600) + 60 * (s / 60 % 60) + s % 60 == s
  {
  }

  lemma DaysInMonth(d: Date)
    requires RealDate(d)
    ensures d.day <= 31 && d.month <= 12
  {
  }

  /** A stamp is read as the date and the time it was written from. */
  lemma StampReadsBack(t: int)
    requires 0 <= DateOfDay(DayOfInstant(t)).year <= 9999
    ensures var ts, d, s := Stamp(t), DateOfDay(DayOfInstant(t)), SecondOfDay(t);
            && |ts| == 16 && ts[8] == 'T' && ts[15..] == "Z" && IsDigits(ts, 0, 8) && IsDigits(ts, 9, 15)
            && DigitsValue(ts, 0, 4) == d.year && DigitsValue(ts, 4, 6) == d.month && DigitsValue(ts, 6, 8) == d.day
            && DigitsValue(ts, 9, 11) == s / 3600 && DigitsValue(ts, 11, 13) == s / 60 % 60
            && DigitsValue(ts, 13, 15) == s % 60
  {
    hide DateOfDay, DigitsValue, Digits, Stamp, IsDigits, SecondOfDay, RealDate, PowerOfTen;
    var ts, d, s := Stamp(t), DateOfDay(DayOfInstant(t)), SecondOfDay(t);
    StampParts(t);
    SecondsOf(t);
    DaysInMonth(d);
    Powers();
    DigitsReadBack(d.year, 4, ts, 0);
    DigitsReadBack(MonthOf(d), 2, ts, 4);
    DigitsReadBack(DayIn(d), 2, ts, 6);
    DigitsReadBack(s / 3600, 2, ts, 9);
    DigitsReadBack(s / 60 % 60, 2, ts, 11);
    DigitsReadBack(s % 60, 2, ts, 13);
    DigitsTogether(ts, 0, 4, 6);
    DigitsTogether(ts, 0, 6, 8);
    DigitsTogether(ts, 9, 11, 13);
    DigitsTogether(ts, 9, 13, 15);
  }

  function MonthOf(d: Date): nat
    requires RealDate(d)
  {
    d.month
  }

  function DayIn(d: Date): nat
    requires RealDate(d)
  {
    d.day
  }

  /** A listing dates an artifact of a run to the second the run began, whatever lies above
      the file and whatever random part the id has. */
  lemma CreatedAtReadsBack(dir: string, t: int, ulid: string)
    requires 0 <= DateOfDay(DayOfInstant(t)).year <= 9999 && '/' !in ulid
    ensures CreatedAtFromStem(dir + "/" + BackupId(t, ulid)) == t - t % 1_000_000_000
  {
    hide DateOfDay, DigitsValue, Stamp, IsDigits, LastPiece, Cut, SecondOfDay, DayOfDate, RealDate, Fraction;
    var id, ts := BackupId(t, ulid), Stamp(t);
    StampChars(t);
    LastPieceOf(dir, id);
    CutAtDash(ts, ulid);
    StampReadsBack(t);
    SecondsOf(t);
    JustZ();
    WholeSeconds(t);
  }

  /** What fourteen digits around a T stand for: that second of that day, and the fraction if
      one follows, if there is such a day and such a second. */
  lemma TimeOfStem(dir: string, ts: string, tail: string, rest: string)
    requires |ts| == 15 && IsDigits(ts, 0, 8) && ts[8] == 'T' && IsDigits(ts, 9, 15) && '/' !in rest
    requires Fraction(tail).Some? && '-' !in tail && '/' !in tail
    ensures var year, month, day := DigitsValue(ts, 0, 4), DigitsValue(ts, 4, 6), DigitsValue(ts, 6, 8);
            var hour, minute, second := DigitsValue(ts, 9, 11), DigitsValue(ts, 11, 13), DigitsValue(ts, 13, 15);
            var length := if month == 4 || month == 6 || month == 9 || month == 11 then 30
                          else if month != 2 then 31
                          else if year % 4 == 0 && (year % 100 != 0 || year % 400 == 0) then 29 else 28;
            CreatedAtFromStem(dir + "/" + (ts + tail + "-" + rest))
            == if 1 <= month <= 12 && 1 <= day <= length && hour <= 23 && minute <= 59 && second <= 59
               then DayOfDate(Date(year, month, day)) * 86_400_000_000_000
                    + (3600 * hour + 60 * minute + second) * 1_000_000_000 + Fraction(tail).value
               else 0
  {
    hide DigitsValue, LastPiece, Cut, DayOfDate, RealDate, Fraction;
    var stamp := ts + tail;
    NoDash(ts);
    LastPieceOf(dir, stamp + "-" + rest);
    CutAtDash(stamp, rest);
    SameDigits(ts, tail);
    assert stamp[15..] == tail;
    RealDateMeans(Date(DigitsValue(ts, 0, 4), DigitsValue(ts, 4, 6), DigitsValue(ts, 6, 8)));
  }

  lemma NoDash(ts: string)
    requires |ts| == 15 && IsDigits(ts, 0, 8) && ts[8] == 'T' && IsDigits(ts, 9, 15)
    ensures '-' !in ts && '/' !in ts
  {
    forall i | 0 <= i < 15
      ensures ts[i] != '-' && ts[i] != '/'
    {
    }
  }

  /** Digits stand for the same number whatever follows them. */
  lemma SameDigits(s: string, t: string)
    ensures forall i, j :: 0 <= i <= j <= |s| && IsDigits(s, i, j) ==>
              IsDigits(s + t, i, j) && DigitsValue(s + t, i, j) == DigitsValue(s, i, j)
  {
    forall i, j | 0 <= i <= j <= |s| && IsDigits(s, i, j)
      ensures IsDigits(s + t, i, j) && DigitsValue(s + t, i, j) == DigitsValue(s, i, j)
    {
      SameDigitsAt(s, t, i, j);
    }
  }

  lemma {:induction false} SameDigitsAt(s: string, t: string, i: nat, j: nat)
    requires i <= j <= |s| && IsDigits(s, i, j)
    ensures IsDigits(s + t, i, j) && DigitsValue(s + t, i, j) == DigitsValue(s, i, j)
  {
    if i == j {
    } else {
      SameDigitsAt(s, t, i, j - 1);
    }
  }

  /** Any other text before the dash has no time, and neither has a name without a dash. */
  lemma NoTimeInStem(dir: string, ts: string, rest: string)
    requires '-' !in ts && '/' !in ts && '/' !in rest
    requires || |ts| < 15 || ts[8] != 'T' || (exists i :: 0 <= i < 15 && i != 8 && !('0' <= ts[i] <= '9'))
             || |ts| == 15 || (ts[15..] != "Z" && ts[15] != '.' && ts[15] != ',')
    ensures CreatedAtFromStem(dir + "/" + (ts + "-" + rest)) == 0
    ensures ts != "" ==> CreatedAtFromStem(dir + "/" + ts) == 0
  {
    hide DigitsValue, LastPiece, Cut, DayOfDate, RealDate, DigitsEnd, Nanos;
    LastPieceOf(dir, ts + "-" + rest);
    CutAtDash(ts, rest);
    if ts != "" {
      LastPieceOf(dir, ts);
      NoCut(ts);
    }
  }

  lemma {:induction false} NoCut(s: string)
    requires '-' !in s
    ensures Cut(s, '-') == None
  {
    if s == "" {
    } else {
      NoCut(s[1..]);
    }
  }

  /** A fraction of up to nine digits is read in nanoseconds, and a Z alone is none. */
  lemma FractionReadsBack(n: nat, width: nat)
    requires 0 < width <= 9 && n < PowerOfTen(width)
    ensures Fraction("." + Digits(n, width) + "Z") == Some(n * PowerOfTen(9 - width))
    ensures Fraction("Z") == Some(0)
  {
    JustZ();
    hide Digits, PowerOfTen, DigitsValue;
    var s := "." + Digits(n, width) + "Z";
    assert s[1..1 + width] == Digits(n, width);
    DigitsReadBack(n, width, s, 1);
    DigitsStop(s, 1, 1 + width);
    assert s[1 + width..] == "Z";
  }

  lemma {:induction false} DigitsStop(s: string, i: nat, j: nat)
    requires i <= j < |s| && IsDigits(s, i, j) && !('0' <= s[j] <= '9')
    ensures DigitsEnd(s, i) == j
    decreases j - i
  {
    if i == j {
    } else {
      DigitsStop(s, i + 1, j);
    }
  }

  lemma JustZ()
    ensures Fraction("Z") == Some(0)
  {
  }

  lemma WholeSeconds(t: int)
    ensures DayOfInstant(t) * NANOS_PER_DAY + SecondOfDay(t) * NANOS_PER_SECOND == t - t % NANOS_PER_SECOND
  {
  }
}
