/** The two date helpers shared by the event and announcement forms:
    formatting calendar fields into the API's `dd-MM-yyyy HH:mm` wire
    format, and turning a wire string back into the `yyyy-MM-ddTHH:mm`
    value of a datetime-local input. */
module DateUtils {
  import opened Common

  /** The calendar fields a JavaScript `Date` hands out in local time:
      `getDate()`, `getMonth()` (0-based), `getFullYear()`, `getHours()`,
      `getMinutes()`. */
  datatype DateFields = DateFields(day: nat, month: nat, year: int, hours: nat, minutes: nat)

  /** The fields a real date can have (any year, negative ones included). */
  predicate InRange(d: DateFields) {
    1 <= d.day <= 31 && d.month <= 11 && d.hours <= 23 && d.minutes <= 59
  }

  predicate IsDigit(c: char) {
    '0' <= c <= '9'
  }

  function Digit(n: nat): (c: char)
    requires n < 10
    ensures IsDigit(c) && DigitValue(c) == n
  {
    (('0' as int) + n) as char
  }

  function DigitValue(c: char): nat
    requires IsDigit(c)
  {
    (c as int) - ('0' as int)
  }

  /** `String(n)` for a non-negative integer: decimal, no leading zeros. */
  function NatToString(n: nat): (s: string)
    ensures 1 <= |s|
    ensures forall i :: 0 <= i < |s| ==> IsDigit(s[i])
    decreases n
  {
    if n < 10 then [Digit(n)] else NatToString(n / 10) + [Digit(n % 10)]
  }

  /** `String(n)` for any integer. */
  function IntToString(n: int): string {
    if n < 0 then "-" + NatToString(-n) else NatToString(n)
  }

  /** `s.padStart(2, '0')`. */
  function PadStart2(s: string): string {
    if |s| >= 2 then s else if |s| == 1 then "0" + s else "00"
  }

  /** `String(n).padStart(2, '0')`. */
  function Pad2(n: nat): string {
    PadStart2(NatToString(n))
  }

  /** `formatDateTimeForApi`: `dd-MM-yyyy HH:mm`, with the 0-based month
      printed 1-based and the year not padded. */
  function FormatDateTimeForApi(d: DateFields): (r: string)
    ensures InRange(d) ==> |r| == 12 + |IntToString(d.year)|
    ensures InRange(d) ==> r[2] == '-' && r[5] == '-' && r[|r| - 6] == ' ' && r[|r| - 3] == ':'
    ensures InRange(d) ==> AllDigits(r[..2]) && DigitsValue(r[..2]) == d.day
                           && AllDigits(r[3..5]) && DigitsValue(r[3..5]) == d.month + 1
    ensures InRange(d) ==> r[6..|r| - 6] == IntToString(d.year)
    ensures InRange(d) ==> AllDigits(r[|r| - 5..|r| - 3]) && DigitsValue(r[|r| - 5..|r| - 3]) == d.hours
                           && AllDigits(r[|r| - 2..]) && DigitsValue(r[|r| - 2..]) == d.minutes
  {
    FormattedGroups(d);
    WireLayout(Pad2(d.day), Pad2(d.month + 1), IntToString(d.year), Pad2(d.hours), Pad2(d.minutes))
  }

  /** The 16 characters from index `i` on read `dd-MM-yyyy HH:mm` with
      ASCII digits, the shape the wire pattern looks for. */
  predicate MatchesAt(s: string, i: nat) {
    i + 16 <= |s|
    && IsDigit(s[i]) && IsDigit(s[i + 1]) && s[i + 2] == '-'
    && IsDigit(s[i + 3]) && IsDigit(s[i + 4]) && s[i + 5] == '-'
    && IsDigit(s[i + 6]) && IsDigit(s[i + 7]) && IsDigit(s[i + 8]) && IsDigit(s[i + 9])
    && s[i + 10] == ' '
    && IsDigit(s[i + 11]) && IsDigit(s[i + 12]) && s[i + 13] == ':'
    && IsDigit(s[i + 14]) && IsDigit(s[i + 15])
  }

  /** The leftmost index at or after `from` where the pattern matches (the
      pattern has a fixed length and no alternatives, so the leftmost start
      decides the match). */
  function FindMatch(s: string, from: nat): (r: Option<nat>)
    ensures r.Some? ==> from <= r.value && MatchesAt(s, r.value)
                        && forall j :: from <= j < r.value ==> !MatchesAt(s, j)
    ensures r.None? ==> forall j :: from <= j ==> !MatchesAt(s, j)
    decreases |s| - from
  {
    if from + 16 > |s| then None
    else if MatchesAt(s, from) then Some(from)
    else FindMatch(s, from + 1)
  }

  /** The capture groups of a match at `i`, rearranged to `yyyy-MM-ddTHH:mm`. */
  function Rearranged(s: string, i: nat): string
    requires i + 16 <= |s|
  {
    s[i + 6..i + 10] + "-" + s[i + 3..i + 5] + "-" + s[i..i + 2] + "T" + s[i + 11..i + 13] + ":" + s[i + 14..i + 16]
  }

  /** `parseApiDateTimeToInput`: the leftmost `dd-MM-yyyy HH:mm` anywhere in
      the text, rearranged; the empty string when the text is empty or holds
      no such pattern. */
  function ParseApiDateTimeToInput(s: string): (r: string)
    ensures s == "" ==> r == ""
    ensures (forall j :: !MatchesAt(s, j)) ==> r == ""
    ensures s != "" && (exists j :: MatchesAt(s, j)) ==>
              exists i :: MatchesAt(s, i) && (forall j :: j < i ==> !MatchesAt(s, j)) && r == Rearranged(s, i)
  {
    if s == "" then ""
    else
      match FindMatch(s, 0)
      case None => ""
      case Some(i) => Rearranged(s, i)
  }

  // ---------------------------------------------------------------------
  // Decimal digits read back

  predicate AllDigits(s: string) {
    forall i :: 0 <= i < |s| ==> IsDigit(s[i])
  }

  /** The number a string of decimal digits denotes. */
  function DigitsValue(s: string): nat
    requires AllDigits(s)
  {
    if s == [] then 0 else 10 * DigitsValue(s[..|s| - 1]) + DigitValue(s[|s| - 1])
  }

  /** Reading back what `String(n)` printed gives `n`. */
  lemma {:induction false} ValueOfNatToString(n: nat)
    ensures DigitsValue(NatToString(n)) == n
    decreases n
  {
    var s := NatToString(n);
    if n >= 10 {
      assert s[..|s| - 1] == NatToString(n / 10);
      ValueOfNatToString(n / 10);
    }
  }

  /** A digit string whose first digit is not zero denotes at least 1. */
  lemma {:induction false} LeadingDigitPositive(s: string)
    requires AllDigits(s) && |s| >= 1 && s[0] != '0'
    ensures DigitsValue(s) >= 1
  {
    if |s| > 1 {
      LeadingDigitPositive(s[..|s| - 1]);
    }
  }

  /** Printing the number a digit string denotes gives the string back,
      provided it has no leading zero. */
  lemma {:induction false} NatToStringOfValue(s: string)
    requires AllDigits(s) && |s| >= 1 && (s[0] != '0' || |s| == 1)
    ensures NatToString(DigitsValue(s)) == s
  {
    var p := s[..|s| - 1];
    if |s| > 1 {
      LeadingDigitPositive(p);
      NatToStringOfValue(p);
      var v := DigitsValue(s);
      assert v / 10 == DigitsValue(p) && v % 10 == DigitValue(s[|s| - 1]);
      assert s == p + [s[|s| - 1]];
    }
  }

  /** A number below 100 pads to two digits that read back as the number. */
  lemma Pad2Value(n: nat)
    requires n < 100
    ensures |Pad2(n)| == 2 && AllDigits(Pad2(n)) && DigitsValue(Pad2(n)) == n
  {
    ValueOfNatToString(n);
    if n >= 10 {
      assert NatToString(n / 10) == [Digit(n / 10)];
    } else {
      assert Pad2(n)[..1] == "0";
    }
  }

  /** Two digits are recovered by padding their value. */
  lemma Pad2OfValue(s: string)
    requires |s| == 2 && AllDigits(s)
    ensures Pad2(DigitsValue(s)) == s
  {
    if s[0] == '0' {
      assert s[..1] == "0" && s[..1][..0] == [];
      assert DigitsValue(s[..1]) == 0;
      assert s[1..][..0] == [];
      assert DigitsValue(s[1..]) == DigitValue(s[1]) == DigitsValue(s);
      NatToStringOfValue(s[1..]);
      assert s == "0" + s[1..];
    } else {
      NatToStringOfValue(s);
    }
  }

  /** A four-digit year prints as four digits that read back as the year. */
  lemma Year4Value(y: nat)
    requires 1000 <= y <= 9999
    ensures |IntToString(y)| == 4 && AllDigits(IntToString(y)) && DigitsValue(IntToString(y)) == y
  {
    ValueOfNatToString(y);
    assert 100 <= y / 10 < 1000 && 10 <= y / 100 < 100 && (y / 10) / 10 == y / 100;
    assert 1 <= y / 1000 < 10 && (y / 100) / 10 == y / 1000;
    assert NatToString(y / 1000) == [Digit(y / 1000)];
    assert |NatToString(y / 100)| == 2;
    assert |NatToString(y / 10)| == 3;
    assert NatToString(y) == NatToString(y / 10) + [Digit(y % 10)];
  }

  // ---------------------------------------------------------------------
  // The two string layouts

  /** `dd-MM-yyyy HH:mm` from its five digit groups. */
  function WireLayout(dd: string, mm: string, yyyy: string, hh: string, mi: string): string {
    dd + "-" + mm + "-" + yyyy + " " + hh + ":" + mi
  }

  /** `yyyy-MM-ddTHH:mm` from its five digit groups. */
  function InputLayout(yyyy: string, mm: string, dd: string, hh: string, mi: string): string {
    yyyy + "-" + mm + "-" + dd + "T" + hh + ":" + mi
  }

  /** Where each group of the wire layout sits. */
  lemma WireLayoutSlices(dd: string, mm: string, yyyy: string, hh: string, mi: string)
    requires |dd| == 2 && |mm| == 2 && |yyyy| == 4 && |hh| == 2 && |mi| == 2
    ensures var w := WireLayout(dd, mm, yyyy, hh, mi);
      |w| == 16 && w[..2] == dd && w[2] == '-' && w[3..5] == mm && w[5] == '-' && w[6..10] == yyyy
      && w[10] == ' ' && w[11..13] == hh && w[13] == ':' && w[14..] == mi
  {
  }

  /** Where each group of the wire layout sits, for a year of any length. */
  lemma WireLayoutAnyYear(dd: string, mm: string, yyyy: string, hh: string, mi: string)
    requires |dd| == 2 && |mm| == 2 && |hh| == 2 && |mi| == 2
    ensures var w := WireLayout(dd, mm, yyyy, hh, mi);
      |w| == 12 + |yyyy| && w[..2] == dd && w[2] == '-' && w[3..5] == mm && w[5] == '-'
      && w[6..|w| - 6] == yyyy && w[|w| - 6] == ' ' && w[|w| - 5..|w| - 3] == hh && w[|w| - 3] == ':'
      && w[|w| - 2..] == mi
  {
    var w := WireLayout(dd, mm, yyyy, hh, mi);
    assert w == dd + "-" + mm + "-" + yyyy + " " + (hh + ":" + mi);
  }

  /** The digit groups of the formatted fields, for in-range fields. */
  lemma FormattedGroups(d: DateFields)
    ensures var w := WireLayout(Pad2(d.day), Pad2(d.month + 1), IntToString(d.year), Pad2(d.hours), Pad2(d.minutes));
      InRange(d) ==>
        |w| == 12 + |IntToString(d.year)| && w[2] == '-' && w[5] == '-' && w[|w| - 6] == ' ' && w[|w| - 3] == ':'
        && AllDigits(w[..2]) && DigitsValue(w[..2]) == d.day
        && AllDigits(w[3..5]) && DigitsValue(w[3..5]) == d.month + 1
        && w[6..|w| - 6] == IntToString(d.year)
        && AllDigits(w[|w| - 5..|w| - 3]) && DigitsValue(w[|w| - 5..|w| - 3]) == d.hours
        && AllDigits(w[|w| - 2..]) && DigitsValue(w[|w| - 2..]) == d.minutes
  {
    if InRange(d) {
      Pad2Value(d.day);
      Pad2Value(d.month + 1);
      Pad2Value(d.hours);
      Pad2Value(d.minutes);
      WireLayoutAnyYear(Pad2(d.day), Pad2(d.month + 1), IntToString(d.year), Pad2(d.hours), Pad2(d.minutes));
    }
  }

  /** Where each group of the input layout sits. */
  lemma InputLayoutSlices(yyyy: string, mm: string, dd: string, hh: string, mi: string)
    requires |dd| == 2 && |mm| == 2 && |yyyy| == 4 && |hh| == 2 && |mi| == 2
    ensures var v := InputLayout(yyyy, mm, dd, hh, mi);
      |v| == 16 && v[..4] == yyyy && v[4] == '-' && v[5..7] == mm && v[7] == '-' && v[8..10] == dd
      && v[10] == 'T' && v[11..13] == hh && v[13] == ':' && v[14..] == mi
  {
  }

  /** A 16-character string with the wire separators is the wire layout of
      its own groups. */
  lemma WireLayoutOfSlices(w: string)
    requires |w| == 16 && w[2] == '-' && w[5] == '-' && w[10] == ' ' && w[13] == ':'
    ensures w == WireLayout(w[..2], w[3..5], w[6..10], w[11..13], w[14..])
  {
    var l := WireLayout(w[..2], w[3..5], w[6..10], w[11..13], w[14..]);
    WireLayoutSlices(w[..2], w[3..5], w[6..10], w[11..13], w[14..]);
    assert forall i :: 0 <= i < 16 ==> l[i] == w[i] by {
      forall i | 0 <= i < 16 ensures l[i] == w[i] {
        if i < 2 { assert l[..2][i] == w[..2][i]; }
        else if 3 <= i < 5 { assert l[3..5][i - 3] == w[3..5][i - 3]; }
        else if 6 <= i < 10 { assert l[6..10][i - 6] == w[6..10][i - 6]; }
        else if 11 <= i < 13 { assert l[11..13][i - 11] == w[11..13][i - 11]; }
        else if 14 <= i { assert l[14..][i - 14] == w[14..][i - 14]; }
      }
    }
  }

  /** The wire layout of digit groups matches the pattern at its start, and
      parsing it rearranges the groups. */
  lemma {:induction false} ParseWireLayout(dd: string, mm: string, yyyy: string, hh: string, mi: string)
    requires |dd| == 2 && |mm| == 2 && |yyyy| == 4 && |hh| == 2 && |mi| == 2
    requires AllDigits(dd) && AllDigits(mm) && AllDigits(yyyy) && AllDigits(hh) && AllDigits(mi)
    ensures MatchesAt(WireLayout(dd, mm, yyyy, hh, mi), 0)
    ensures ParseApiDateTimeToInput(WireLayout(dd, mm, yyyy, hh, mi)) == InputLayout(yyyy, mm, dd, hh, mi)
  {
    var w := WireLayout(dd, mm, yyyy, hh, mi);
    WireLayoutSlices(dd, mm, yyyy, hh, mi);
    assert w[0] == dd[0] && w[1] == dd[1] && w[3] == mm[0] && w[4] == mm[1];
    assert w[6] == yyyy[0] && w[7] == yyyy[1] && w[8] == yyyy[2] && w[9] == yyyy[3];
    assert w[11] == hh[0] && w[12] == hh[1] && w[14] == mi[0] && w[15] == mi[1];
    assert MatchesAt(w, 0);
    assert FindMatch(w, 0) == Some(0);
  }

  // ---------------------------------------------------------------------
  // Properties of the two helpers

  /** Formatting yields `dd-MM-yyyy HH:mm`: 16 characters, separators in
      place, and each digit group reads back as its field (the month
      1-based, the year unpadded). */
  lemma {:induction false} FormatShape(d: DateFields)
    requires InRange(d) && 1000 <= d.year <= 9999
    ensures var w := FormatDateTimeForApi(d);
      |w| == 16 && MatchesAt(w, 0)
      && AllDigits(w[..2]) && DigitsValue(w[..2]) == d.day
      && AllDigits(w[3..5]) && DigitsValue(w[3..5]) == d.month + 1
      && AllDigits(w[6..10]) && DigitsValue(w[6..10]) == d.year
      && AllDigits(w[11..13]) && DigitsValue(w[11..13]) == d.hours
      && AllDigits(w[14..]) && DigitsValue(w[14..]) == d.minutes
  {
    Pad2Value(d.day);
    Pad2Value(d.month + 1);
    Pad2Value(d.hours);
    Pad2Value(d.minutes);
    Year4Value(d.year);
    WireLayoutSlices(Pad2(d.day), Pad2(d.month + 1), IntToString(d.year), Pad2(d.hours), Pad2(d.minutes));
    ParseWireLayout(Pad2(d.day), Pad2(d.month + 1), IntToString(d.year), Pad2(d.hours), Pad2(d.minutes));
  }

  /** The value of a datetime-local input for the same fields. */
  function InputValue(d: DateFields): string {
    IntToString(d.year) + "-" + Pad2(d.month + 1) + "-" + Pad2(d.day) + "T" + Pad2(d.hours) + ":" + Pad2(d.minutes)
  }

  /** Formatting then parsing gives the datetime-local value of the same
      fields: no field is lost or moved. */
  lemma {:induction false} FormatThenParse(d: DateFields)
    requires InRange(d) && 1000 <= d.year <= 9999
    ensures ParseApiDateTimeToInput(FormatDateTimeForApi(d)) == InputValue(d)
  {
    Pad2Value(d.day);
    Pad2Value(d.month + 1);
    Pad2Value(d.hours);
    Pad2Value(d.minutes);
    Year4Value(d.year);
    ParseWireLayout(Pad2(d.day), Pad2(d.month + 1), IntToString(d.year), Pad2(d.hours), Pad2(d.minutes));
  }

  /** The digit groups of a `yyyy-MM-ddTHH:mm` value are digits, with a
      month of at least 1. */
  predicate ReadableInput(v: string) {
    |v| == 16 && AllDigits(v[..4]) && AllDigits(v[5..7]) && AllDigits(v[8..10])
    && AllDigits(v[11..13]) && AllDigits(v[14..]) && DigitsValue(v[5..7]) >= 1
  }

  /** The fields read back from a `yyyy-MM-ddTHH:mm` value (month made
      0-based again). */
  function ReadInputFields(v: string): DateFields
    requires ReadableInput(v)
  {
    DateFields(DigitsValue(v[8..10]), DigitsValue(v[5..7]) - 1, DigitsValue(v[..4]),
               DigitsValue(v[11..13]), DigitsValue(v[14..]))
  }

  /** A wire string that is exactly one well-formed, in-range
      `dd-MM-yyyy HH:mm` whose year has four significant digits. */
  predicate IsCanonicalWire(w: string) {
    |w| == 16 && MatchesAt(w, 0) && w[6] != '0'
    && AllDigits(w[..2]) && AllDigits(w[3..5]) && AllDigits(w[6..10]) && AllDigits(w[11..13]) && AllDigits(w[14..])
    && 1 <= DigitsValue(w[..2]) <= 31 && 1 <= DigitsValue(w[3..5]) <= 12
    && DigitsValue(w[11..13]) <= 23 && DigitsValue(w[14..]) <= 59
  }

  /** Round trip at field level: parsing a canonical wire string, reading
      the fields of the result and formatting them again gives back the
      wire string. */
  lemma {:induction false} ParseThenFormat(w: string)
    requires IsCanonicalWire(w)
    ensures var v := ParseApiDateTimeToInput(w);
      |v| == 16 && v == InputLayout(w[6..10], w[3..5], w[..2], w[11..13], w[14..])
      && ReadableInput(v) && FormatDateTimeForApi(ReadInputFields(v)) == w
  {
    WireLayoutOfSlices(w);
    ParseWireLayout(w[..2], w[3..5], w[6..10], w[11..13], w[14..]);
    var v := ParseApiDateTimeToInput(w);
    InputLayoutSlices(w[6..10], w[3..5], w[..2], w[11..13], w[14..]);
    var d := ReadInputFields(v);
    Pad2OfValue(w[..2]);
    Pad2OfValue(w[3..5]);
    Pad2OfValue(w[11..13]);
    Pad2OfValue(w[14..]);
    assert w[6..10][0] == w[6];
    NatToStringOfValue(w[6..10]);
  }

  /** The pattern at position `|pre|` of `pre + w + post` reads the same
      16 characters as `w` on its own. */
  lemma MatchInContext(pre: string, w: string, post: string)
    requires |w| == 16
    ensures MatchesAt(pre + w + post, |pre|) <==> MatchesAt(w, 0)
    ensures Rearranged(pre + w + post, |pre|) == Rearranged(w, 0)
  {
    var s := pre + w + post;
    var n := |pre|;
    forall k | 0 <= k < 16 ensures s[n + k] == w[k] {
    }
    assert s[n + 6..n + 10] == w[6..10];
    assert s[n + 3..n + 5] == w[3..5];
    assert s[n..n + 2] == w[..2];
    assert s[n + 11..n + 13] == w[11..13];
    assert s[n + 14..n + 16] == w[14..];
  }

  /** Text before and after the first match is ignored: when no match
      starts inside `pre`, the text parses as the matched part alone. */
  lemma ParseIgnoresSurroundingText(pre: string, w: string, post: string)
    requires |w| == 16 && MatchesAt(w, 0)
    requires forall j :: 0 <= j < |pre| ==> !MatchesAt(pre + w + post, j)
    ensures ParseApiDateTimeToInput(pre + w + post) == ParseApiDateTimeToInput(w)
  {
    MatchInContext(pre, w, post);
    assert FindMatch(w, 0) == Some(0);
    assert FindMatch(pre + w + post, 0) == Some(|pre|);
  }

  /** The all-nines string has the shape of the wire pattern. */
  lemma NinesMatch(s: string)
    requires s == "99-99-9999 99:99"
    ensures MatchesAt(s, 0)
  {
  }

  /** There is no range check: impossible fields are passed through. */
  lemma ParseHasNoRangeCheck()
    ensures ParseApiDateTimeToInput("99-99-9999 99:99") == "9999-99-99T99:99"
  {
    var s := "99-99-9999 99:99";
    NinesMatch(s);
    assert FindMatch(s, 0) == Some(0);
    assert Rearranged(s, 0) == "9999-99-99T99:99";
  }

  /** Other separators do not match, and the result is empty. */
  lemma ParseRejectsOtherSeparators()
    ensures ParseApiDateTimeToInput("15/03/2024 14:30") == ""
  {
    var u := "15/03/2024 14:30";
    assert !MatchesAt(u, 0);
    assert FindMatch(u, 1) == None;
  }
}
