/** Schedule labels: the `"HH:MM"` strings a cat's daily schedule holds.

    The application reads a label with `t.split(":").map(Number)` and writes
    one by zero-padding hours and minutes to two digits. This module models
    the splitting, the decimal reading of each part and the padding, and
    accepts exactly the labels that denote a valid time of day. */
module Labels {
  import opened Wrappers

  /** An hour and minute of the 24-hour clock. */
  datatype TimeOfDay = TimeOfDay(hour: int, minute: int) {
    predicate Valid() {
      0 <= hour < 24 && 0 <= minute < 60
    }
  }

  /** `s.split(sep)`: the maximal runs of `s` free of `sep`, including the
      empty ones before, between and after separators. */
  function Split(s: string, sep: char): (parts: seq<string>)
    ensures |parts| >= 1
    ensures forall i :: 0 <= i < |parts| ==> sep !in parts[i]
    decreases |s|
  {
    if |s| == 0 then [""]
    else if s[0] == sep then [""] + Split(s[1..], sep)
    else
      var rest := Split(s[1..], sep);
      [[s[0]] + rest[0]] + rest[1..]
  }

  /** `parts.join(sep)`. */
  function Join(parts: seq<string>, sep: char): string
    requires |parts| >= 1
    decreases |parts|
  {
    if |parts| == 1 then parts[0] else parts[0] + [sep] + Join(parts[1..], sep)
  }

  /** Splitting loses nothing: joining the parts with the separator
      rebuilds the original string. */
  lemma {:induction false} JoinSplit(s: string, sep: char)
    ensures Join(Split(s, sep), sep) == s
    decreases |s|
  {
    if |s| == 0 {
    } else if s[0] == sep {
      JoinSplit(s[1..], sep);
      assert s == [sep] + s[1..];
    } else {
      var rest := Split(s[1..], sep);
      JoinSplit(s[1..], sep);
      if |rest| == 1 {
        assert s == [s[0]] + s[1..];
      } else {
        assert Join(rest, sep) == rest[0] + [sep] + Join(rest[1..], sep);
        assert s == [s[0]] + s[1..];
      }
    }
  }

  /** A string free of the separator is one part; a separator-free prefix
      followed by the separator is the first of several parts. */
  lemma {:induction false} SplitAtFirst(a: string, b: string, sep: char)
    requires sep !in a
    ensures Split(a, sep) == [a]
    ensures Split(a + [sep] + b, sep) == [a] + Split(b, sep)
    decreases |a|
  {
    if |a| == 0 {
      assert a + [sep] + b == [sep] + b;
      assert ([sep] + b)[1..] == b;
    } else {
      SplitAtFirst(a[1..], b, sep);
      assert (a + [sep] + b)[1..] == a[1..] + [sep] + b;
      assert [a[0]] + a[1..] == a;
    }
  }

  predicate IsDigit(c: char) {
    '0' <= c <= '9'
  }

  /** A non-empty run of decimal digits. */
  predicate IsDigits(s: string) {
    |s| > 0 && forall i :: 0 <= i < |s| ==> IsDigit(s[i])
  }

  /** The value of a run of decimal digits (`Number(s)` on such a run). */
  function DecimalValue(s: string): (n: nat)
    requires forall i :: 0 <= i < |s| ==> IsDigit(s[i])
    decreases |s|
  {
    if |s| == 0 then 0
    else
      assert IsDigit(s[|s| - 1]);
      DecimalValue(s[..|s| - 1]) * 10 + (s[|s| - 1] as int - '0' as int)
  }

  /** `n.toString().padStart(2, "0")` for `n` below 100. */
  function Pad2(n: int): (s: string)
    requires 0 <= n < 100
    ensures |s| == 2 && IsDigits(s)
  {
    [('0' as int + n / 10) as char, ('0' as int + n % 10) as char]
  }

  /** The canonical label of a time of day, `"HH:MM"`, as the schedule
      editor writes it. */
  function FormatLabel(t: TimeOfDay): (text: string)
    requires t.Valid()
    ensures |text| == 5 && text[2] == ':'
  {
    Pad2(t.hour) + ":" + Pad2(t.minute)
  }

  /** The time of day a label denotes: two non-empty digit groups separated
      by one ':', with an hour below 24 and a minute below 60. Anything
      else is not a time of day (`None`). */
  function ParseLabel(text: string): (r: Option<TimeOfDay>)
    ensures r.Some? ==> r.value.Valid()
    ensures r.Some? ==> ':' in text
  {
    var parts := Split(text, ':');
    if |parts| == 2 && IsDigits(parts[0]) && IsDigits(parts[1]) then
      var t := TimeOfDay(DecimalValue(parts[0]), DecimalValue(parts[1]));
      if t.Valid() then
        assert text == Join(parts, ':') by { JoinSplit(text, ':'); }
        Some(t)
      else None
    else None
  }

  /** The value of a two-digit run, from its digits. */
  lemma DecimalOfTwoDigits(s: string)
    requires |s| == 2 && IsDigits(s)
    ensures DecimalValue(s) == (s[0] as int - '0' as int) * 10 + (s[1] as int - '0' as int)
  {
    var first := s[..1];
    assert s[..|s| - 1] == first;
    assert first[..|first| - 1] == [];
    assert DecimalValue(first) == s[0] as int - '0' as int;
  }

  lemma DecimalOfPad2(n: int)
    requires 0 <= n < 100
    ensures DecimalValue(Pad2(n)) == n
  {
    DecimalOfTwoDigits(Pad2(n));
  }

  lemma Pad2OfDecimal(s: string)
    requires |s| == 2 && IsDigits(s)
    ensures DecimalValue(s) < 100
    ensures Pad2(DecimalValue(s)) == s
  {
    DecimalOfTwoDigits(s);
    assert IsDigit(s[0]) && IsDigit(s[1]);
  }

  /** Every valid time of day survives formatting and parsing. */
  lemma ParseFormat(t: TimeOfDay)
    requires t.Valid()
    ensures ParseLabel(FormatLabel(t)) == Some(t)
  {
    var a, b := Pad2(t.hour), Pad2(t.minute);
    SplitAtFirst(a, b, ':');
    SplitAtFirst(b, [], ':');
    assert FormatLabel(t) == a + [':'] + b;
    DecimalOfPad2(t.hour);
    DecimalOfPad2(t.minute);
  }

  /** A five-character label "DD:DD" that parses is canonical: formatting
      its time of day gives the label back. */
  lemma FormatParse(text: string)
    requires |text| == 5 && text[2] == ':'
    requires ParseLabel(text).Some?
    ensures FormatLabel(ParseLabel(text).value) == text
  {
    var parts := Split(text, ':');
    JoinSplit(text, ':');
    assert text == parts[0] + [':'] + parts[1];
    assert |parts[0]| == 2;
    assert parts[0] == text[..2];
    assert parts[1] == text[3..];
    Pad2OfDecimal(parts[0]);
    Pad2OfDecimal(parts[1]);
  }

  /** A digit run holds no ':'. */
  lemma DigitsHaveNoColon(s: string)
    requires IsDigits(s)
    ensures ':' !in s
  {
  }

  /** Which labels are accepted, and what they denote: any two digit runs
      around one ':', padded or not ("8:00", "08:5", "008:00"), whose values
      are an hour below 24 and a minute below 60, denote that hour and
      minute, as `Number` reads each group. */
  lemma ParseDigitGroups(a: string, b: string)
    requires IsDigits(a) && IsDigits(b)
    requires DecimalValue(a) < 24 && DecimalValue(b) < 60
    ensures ParseLabel(a + ":" + b) == Some(TimeOfDay(DecimalValue(a), DecimalValue(b)))
  {
    DigitsHaveNoColon(a);
    DigitsHaveNoColon(b);
    SplitAtFirst(a, b, ':');
    SplitAtFirst(b, [], ':');
    assert a + ":" + b == a + [':'] + b;
  }

  /** Conversely, every accepted label is two digit runs around one ':',
      and denotes the values of those runs. */
  lemma ParseAcceptsOnlyDigitGroups(text: string)
    requires ParseLabel(text).Some?
    ensures exists a, b :: IsDigits(a) && IsDigits(b) && text == a + ":" + b
              && ParseLabel(text).value == TimeOfDay(DecimalValue(a), DecimalValue(b))
  {
    var parts := Split(text, ':');
    JoinSplit(text, ':');
    assert text == parts[0] + ":" + parts[1];
  }
}
