/** The date re-ordering helper of the update handler: `dateStr.split('-')`
    destructured into day, month and year, reassembled as `${year}-${month}-${day}`. */
module DateFormat {

  /** `s.split('-')`: the maximal dash-free pieces of `s`, in order.
      Never empty: splitting "" gives [""]. */
  function Split(s: string): (parts: seq<string>)
    ensures |parts| >= 1
    ensures forall i :: 0 <= i < |parts| ==> '-' !in parts[i]
    decreases |s|
  {
    if s == [] then [""]
    else
      var rest := Split(s[1..]);
      if s[0] == '-' then [""] + rest
      else [[s[0]] + rest[0]] + rest[1..]
  }

  /** `parts.join('-')`. */
  function JoinDash(parts: seq<string>): string
    requires |parts| >= 1
  {
    if |parts| == 1 then parts[0] else parts[0] + "-" + JoinDash(parts[1..])
  }

  /** Splitting and joining again gives back the string. */
  lemma {:induction false} JoinSplit(s: string)
    ensures JoinDash(Split(s)) == s
    decreases |s|
  {
    if s != [] {
      JoinSplit(s[1..]);
      var rest := Split(s[1..]);
      if s[0] == '-' {
        assert s == "-" + s[1..];
      } else if |rest| == 1 {
        assert s == [s[0]] + rest[0];
      } else {
        assert JoinDash(rest) == rest[0] + "-" + JoinDash(rest[1..]);
        assert s == [s[0]] + s[1..];
      }
    }
  }

  /** A dash-free prefix followed by a dash splits off as the first part. */
  lemma {:induction false} SplitFirst(a: string, b: string)
    requires '-' !in a
    ensures Split(a + "-" + b) == [a] + Split(b)
    decreases |a|
  {
    var s := a + "-" + b;
    if a == [] {
      assert s[1..] == b;
    } else {
      assert s[1..] == a[1..] + "-" + b;
      SplitFirst(a[1..], b);
      assert [a[0]] + a[1..] == a;
    }
  }

  /** A dash-free string is a single part. */
  lemma {:induction false} SplitDashFree(a: string)
    requires '-' !in a
    ensures Split(a) == [a]
    decreases |a|
  {
    if a != [] {
      SplitDashFree(a[1..]);
      assert [a[0]] + a[1..] == a;
    }
  }

  /** Joining dash-free parts and splitting again gives back the parts. */
  lemma {:induction false} SplitJoin(parts: seq<string>)
    requires |parts| >= 1
    requires forall i :: 0 <= i < |parts| ==> '-' !in parts[i]
    ensures Split(JoinDash(parts)) == parts
    decreases |parts|
  {
    if |parts| == 1 {
      SplitDashFree(parts[0]);
    } else {
      SplitJoin(parts[1..]);
      SplitFirst(parts[0], JoinDash(parts[1..]));
    }
  }

  /** Destructuring `[day, month, year]`: a missing element is `undefined`,
      which a template literal prints as the text "undefined". */
  function Part(parts: seq<string>, i: nat): string {
    if i < |parts| then parts[i] else "undefined"
  }

  /** `convertDateFormat`: "DD-MM-YYYY" to "YYYY-MM-DD". Only the first three
      parts are used, missing ones print as "undefined", and nothing checks
      that the parts form a calendar date. The result always holds the two
      dashes of the template, so it is never empty. */
  function ConvertDateFormat(dateStr: string): (r: string)
    ensures |r| >= 2 && r != ""
    ensures exists i, j :: 0 <= i < j < |r| && r[i] == '-' && r[j] == '-'
  {
    var parts := Split(dateStr);
    var day, month, year := Part(parts, 0), Part(parts, 1), Part(parts, 2);
    var r := year + "-" + month + "-" + day;
    assert r[|year|] == '-' && r[|year| + 1 + |month|] == '-';
    r
  }

  /** Three dash-free parts `d-m-y` come back as `y-m-d`, whatever they hold. */
  lemma ConvertDayMonthYear(d: string, m: string, y: string)
    requires '-' !in d && '-' !in m && '-' !in y
    ensures ConvertDateFormat(d + "-" + m + "-" + y) == y + "-" + m + "-" + d
  {
    SplitDashFree(y);
    SplitFirst(m, y);
    assert d + "-" + m + "-" + y == d + "-" + (m + "-" + y);
    SplitFirst(d, m + "-" + y);
  }

  /** On a three-part date the conversion is its own inverse. */
  lemma ConvertTwice(d: string, m: string, y: string)
    requires '-' !in d && '-' !in m && '-' !in y
    ensures ConvertDateFormat(ConvertDateFormat(d + "-" + m + "-" + y)) == d + "-" + m + "-" + y
  {
    ConvertDayMonthYear(d, m, y);
    ConvertDayMonthYear(y, m, d);
  }

  /** With more than three parts only the first three are used. */
  lemma ConvertDropsExtraParts(d: string, m: string, y: string, rest: string)
    requires '-' !in d && '-' !in m && '-' !in y
    ensures ConvertDateFormat(d + "-" + m + "-" + y + "-" + rest) == y + "-" + m + "-" + d
  {
    var s := d + "-" + m + "-" + y + "-" + rest;
    SplitFirst(y, rest);
    assert s == d + "-" + (m + "-" + (y + "-" + rest));
    SplitFirst(m, y + "-" + rest);
    SplitFirst(d, m + "-" + (y + "-" + rest));
  }

  /** With two parts the year is missing and prints as "undefined". */
  lemma ConvertMissingYear(d: string, m: string)
    requires '-' !in d && '-' !in m
    ensures ConvertDateFormat(d + "-" + m) == "undefined" + "-" + m + "-" + d
  {
    SplitDashFree(m);
    SplitFirst(d, m);
    assert Split(d + "-" + m) == [d, m];
  }

  /** With one part the month and the year print as "undefined". */
  lemma ConvertMissingMonthAndYear(d: string)
    requires '-' !in d
    ensures ConvertDateFormat(d) == "undefined" + "-" + "undefined" + "-" + d
  {
    SplitDashFree(d);
  }

  /** "05-03-2024" is stored as "2024-03-05". */
  lemma ConvertExampleValid(s: string)
    requires s == "05-03-2024"
    ensures ConvertDateFormat(s) == "2024-03-05"
  {
    var d, m, y := s[..2], s[3..5], s[6..];
    assert s == d + "-" + m + "-" + y;
    ConvertDayMonthYear(d, m, y);
  }

  /** "31-02-2024" is no calendar date and is converted all the same. */
  lemma ConvertExampleNoCalendarCheck(s: string)
    requires s == "31-02-2024"
    ensures ConvertDateFormat(s) == "2024-02-31"
  {
    var d, m, y := s[..2], s[3..5], s[6..];
    assert s == d + "-" + m + "-" + y;
    ConvertDayMonthYear(d, m, y);
  }

  /** "1-2" gains an "undefined" year. */
  lemma ConvertExampleTwoParts(s: string)
    requires s == "1-2"
    ensures ConvertDateFormat(s) == "undefined-2-1"
  {
    var d, m := s[..1], s[2..];
    assert s == d + "-" + m;
    ConvertMissingYear(d, m);
  }

  /** "1-2-3-4" loses its fourth part. */
  lemma ConvertExampleFourParts(s: string)
    requires s == "1-2-3-4"
    ensures ConvertDateFormat(s) == "3-2-1"
  {
    var d, m, y, rest := s[..1], s[2..3], s[4..5], s[6..];
    assert s == d + "-" + m + "-" + y + "-" + rest;
    ConvertDropsExtraParts(d, m, y, rest);
  }

  /** The empty string is one empty part: day "" and two "undefined" parts. */
  lemma ConvertExampleEmpty(s: string)
    requires s == ""
    ensures ConvertDateFormat(s) == "undefined-undefined-"
  {
    ConvertMissingMonthAndYear(s);
  }
}
