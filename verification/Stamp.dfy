/** The name a session's file is given, and what a list of recordings reads back out of it. */
module Stamp {
  import opened Calendar
  import opened Decimal
  import opened Wrappers
  import Utf8

  // ---- Writing: the backend --------------------------------------------------------------

  predicate IsAlphanumeric(c: char) {
    IsDigit(c) || 'a' <= c <= 'z' || 'A' <= c <= 'Z'
  }

  predicate IsKept(c: char) {
    IsAlphanumeric(c) || c in "._-"
  }

  function Cleaned(title: string): (r: string)
    ensures |r| == |title| && forall i | 0 <= i < |r| :: r[i] == if IsKept(title[i]) then title[i] else '_'
  {
    if title == "" then ""
    else
      [if IsKept(title[0]) then title[0] else '_'] + Cleaned(title[1..])
  }

  function TrimStart(s: string): string {
    if s != "" && s[0] in "_." then TrimStart(s[1..]) else s
  }

  function TrimEnd(s: string): string {
    if s != "" && s[|s| - 1] in "_." then TrimEnd(s[..|s| - 1]) else s
  }

  function SafeLabel(title: string): string {
    var trimmed := TrimEnd(TrimStart(Cleaned(title)));
    if trimmed == "" then "session" else if |trimmed| > 48 then trimmed[..48] else trimmed
  }

  /** `{n:0w}`. */
  function Padded(n: nat, w: nat): string {
    var d := Digits(n);
    if |d| < w then seq(w - |d|, _ => '0') + d else d
  }

  /** `YYYYMMDD-HHMMSS` of a moment, in UTC. */
  function Timestamp(secs: nat): string {
    var d := CivilFromDays(secs / 86_400);
    var rem := secs % 86_400;
    CivilIsADate(secs / 86_400);
    FromTheEpochOn(secs / 86_400);
    Padded(d.year, 4) + Padded(d.month, 2) + Padded(d.day, 2) + "-"
      + Padded(rem / 3600, 2) + Padded(rem % 3600 / 60, 2) + Padded(rem % 60, 2)
  }

  lemma FromTheEpochOn(z: int)
    requires 0 <= z
    ensures 1970 <= CivilFromDays(z).year
  {
    CivilIsADate(z);
    var d := CivilFromDays(z);
    hide CivilFromDays, DaysBeforeYear, DaysBeforeMonth;
    WithinTheYear(d);
    if d.year < 1970 {
      YearsGrow(d.year + 1, 1970);
      assert DaysBeforeYear(1970) == 0 by { YearZero(); }
    }
  }

  lemma YearZero()
    ensures DaysBeforeYear(1970) == 0 && DaysBeforeYear(10_000) == 2_932_897
  {
  }

  /** How many bytes a character takes in UTF-8. */
  function Width(c: char): nat {
    var v := c as int;
    if v < 0x80 then 1 else if v < 0x800 then 2 else if v < 0x1_0000 then 3 else 4
  }

  /** How many characters the first `bytes` bytes are, when they end between two. */
  function CharsIn(s: string, bytes: nat): (r: Option<nat>)
    ensures r.Some? ==> r.value <= |s|
  {
    if bytes == 0 then Some(0)
    else if s == "" || Width(s[0]) > bytes then None
    else
      var rest := CharsIn(s[1..], bytes - Width(s[0]));
      if rest.None? then None else Some(1 + rest.value)
  }

  /** `session_id.get(..8).unwrap_or(session_id)`. */
  function ShortId(id: string): string {
    var n := CharsIn(id, 8);
    if n.Some? then id[..n.value] else id
  }

  function FileStem(title: string, id: string, secs: nat): string {
    SafeLabel(title) + "_" + Timestamp(secs) + "_" + ShortId(id)
  }

  // ---- Reading: the list of recordings ------------------------------------------------------

  predicate IsIdPart(s: string) {
    1 <= |s| <= 8 && forall i | 0 <= i < |s| :: IsAlphanumeric(s[i]) || s[i] == '-'
  }

  /** Eight digits, a dash, six digits. */
  predicate IsStamp(s: string) {
    |s| == 15 && AllDigits(s[..8]) && s[8] == '-' && AllDigits(s[9..])
  }

  /** `.` in the pattern: anything but a line terminator. */
  predicate OneLine(s: string) {
    forall i | 0 <= i < |s| :: s[i] !in "\n\r\U{2028}\U{2029}"
  }

  /** The pattern a name is matched against, as the pieces it captures. */
  predicate Captures(stem: string, title: string, stamp: string, id: string) {
    && stem == title + "_" + stamp + "_" + id
    && OneLine(title) && IsStamp(stamp) && IsIdPart(id)
  }

  /** `Date.UTC`, in seconds: months past the year's end run on into the next, and a year below
      100 is one of the twentieth century. */
  function DateUtc(y: nat, month0: int, d: int, h: int, mi: int, s: int): int {
    var year := (if y < 100 then 1900 + y else y) + month0 / 12;
    (DaysBeforeYear(year) + DaysBeforeMonth(year, month0 % 12 + 1) + d - 1) * 86_400 + h * 3600 + mi * 60 + s
  }

  function MomentOf(stamp: string): int
    requires IsStamp(stamp)
  {
    var n := (a: nat, b: nat) requires a <= b <= 8 => Number(stamp[..8][a..b]);
    var m := (a: nat, b: nat) requires a <= b <= 6 => Number(stamp[9..][a..b]);
    DateUtc(n(0, 4), n(4, 6) - 1, n(6, 8), m(0, 2), m(2, 4), m(4, 6))
  }

  function Spaced(s: string): (r: string)
    ensures |r| == |s| && forall i | 0 <= i < |r| :: r[i] == if s[i] == '_' then ' ' else s[i]
  {
    if s == "" then "" else [if s[0] == '_' then ' ' else s[0]] + Spaced(s[1..])
  }

  /** Where the part after the last underscore starts. */
  function LastPart(s: string): (k: nat)
    ensures k <= |s| && '_' !in s[k..]
    ensures k > 0 ==> s[k - 1] == '_'
  {
    if s == "" || s[|s| - 1] == '_' then |s|
    else
      var k := LastPart(s[..|s| - 1]);
      assert s[k..] == s[..|s| - 1][k..] + [s[|s| - 1]];
      k
  }

  function WithoutCast(name: string): string {
    var n := |name|;
    if n >= 5 && name[n - 5] == '.' && name[n - 4] in "cC" && name[n - 3] in "aA" && name[n - 2] in "sS"
      && name[n - 1] in "tT"
    then name[..n - 5] else name
  }

  datatype Named = Named(title: string, at: Option<int>)

  /** The pattern matched: its last two parts have nowhere else to be. */
  predicate IsCaptured(stem: string) {
    var k := LastPart(stem);
    17 <= k && Captures(stem, stem[..k - 17], stem[k - 16..k - 1], stem[k..])
  }

  function RecordingName(fileName: string): Named {
    var stem := WithoutCast(fileName);
    if !IsCaptured(stem) then Named(stem, None)
    else
      var k := LastPart(stem);
      Named(Spaced(stem[..k - 17]), Some(MomentOf(stem[k - 16..k - 1])))
  }

  lemma LastPartIs(s: string, k: nat)
    requires 0 < k <= |s| && s[k - 1] == '_' && '_' !in s[k..]
    ensures LastPart(s) == k
  {
    var l := LastPart(s);
    assert forall i | l <= i < |s| :: s[i] in s[l..];
    assert forall i | k <= i < |s| :: s[i] in s[k..];
  }

  /** The name is read as the pattern says: captured when it matches, in the one way it can. */
  lemma ReadAsCaptured(stem: string, title: string, stamp: string, id: string)
    requires Captures(stem, title, stamp, id)
    ensures RecordingName(stem + ".cast") == Named(Spaced(title), Some(MomentOf(stamp)))
  {
    hide MomentOf, Spaced, AllDigits, OneLine, LastPart, WithoutCast;
    CastComesOff(stem);
    var k := |title| + 17;
    assert stem[k..] == id && stem[k - 1] == '_';
    assert '_' !in id;
    LastPartIs(stem, k);
    assert stem[..k - 17] == title && stem[k - 16..k - 1] == stamp;
  }

  lemma WhenNamed(stem: string)
    requires RecordingName(stem + ".cast").at.Some?
    ensures 17 <= LastPart(stem) && IsIdPart(stem[LastPart(stem)..])
    ensures |RecordingName(stem + ".cast").title| == LastPart(stem) - 17
  {
    hide MomentOf, LastPart, IsIdPart, IsStamp, WithoutCast, Spaced;
    CastComesOff(stem);
  }

  lemma CastComesOff(stem: string)
    ensures WithoutCast(stem + ".cast") == stem
  {
    assert (stem + ".cast")[..|stem|] == stem;
  }

  // ---- The digits of a stamp -------------------------------------------------------------------

  function TwoDigits(n: nat): string
    requires n < 100
  {
    [Digit(n / 10), Digit(n % 10)]
  }

  function FourDigits(n: nat): string
    requires n < 10_000
  {
    TwoDigits(n / 100) + TwoDigits(n % 100)
  }

  lemma PaddedToTwo(n: nat)
    requires n < 100
    ensures Padded(n, 2) == TwoDigits(n)
  {
    assert seq(1, _ => '0') == [Digit(0)];
    assert n >= 10 ==> Digits(n / 10) == [Digit(n / 10)];
  }

  lemma PaddedToFour(n: nat)
    requires 1000 <= n < 10_000
    ensures Padded(n, 4) == FourDigits(n)
  {
    assert Digits(n) == Digits(n / 10) + [Digit(n % 10)];
    assert Digits(n / 10) == Digits(n / 10 / 10) + [Digit(n / 10 % 10)];
    assert Digits(n / 10 / 10) == Digits(n / 10 / 10 / 10) + [Digit(n / 10 / 10 % 10)];
    assert n / 10 / 10 == n / 100 && n / 100 / 10 == n / 1000;
    assert n % 100 / 10 == n / 10 % 10 && n % 100 % 10 == n % 10;
  }

  lemma PaddedPastFour(n: nat)
    requires n >= 10_000
    ensures |Padded(n, 4)| > 4
  {
    var m := n / 10 / 10;
    assert |Digits(n)| == |Digits(n / 10)| + 1 && |Digits(n / 10)| == |Digits(m)| + 1;
    assert |Digits(m)| == |Digits(m / 10)| + 1 && m / 10 >= 10;
    assert Digits(m / 10) == Digits(m / 10 / 10) + [Digit(m / 10 % 10)];
  }

  lemma TwoDigitsRead(n: nat)
    requires n < 100
    ensures AllDigits(TwoDigits(n)) && Number(TwoDigits(n)) == n
  {
    assert TwoDigits(n)[..1] == [Digit(n / 10)] && TwoDigits(n)[..1][..0] == "";
    assert Number(TwoDigits(n)[..1]) == n / 10;
  }

  lemma FourDigitsRead(n: nat)
    requires n < 10_000
    ensures AllDigits(FourDigits(n)) && Number(FourDigits(n)) == n
  {
    var s := FourDigits(n);
    TwoDigitsRead(n / 100);
    assert s[..2] == TwoDigits(n / 100);
    assert s[..3][..2] == s[..2] && s[..4] == s && s[..4][..3] == s[..3];
    assert Number(s[..3]) == n / 100 * 10 + n % 100 / 10;
  }

  /** The two halves of a stamp with a four-digit year, their fields side by side. */
  function DateText(d: Date): string
    requires 0 <= d.year < 10_000 && Valid(d)
  {
    FourDigits(d.year) + TwoDigits(d.month) + TwoDigits(d.day)
  }

  function ClockText(rem: nat): string
    requires rem < 86_400
  {
    TwoDigits(rem / 3600) + TwoDigits(rem % 3600 / 60) + TwoDigits(rem % 60)
  }

  const END_OF_9999: nat := 253_402_300_800

  lemma FourDigitYears(secs: nat)
    ensures CivilFromDays(secs / 86_400).year < 10_000 <==> secs < END_OF_9999
  {
    CivilIsADate(secs / 86_400);
    var d := CivilFromDays(secs / 86_400);
    hide CivilFromDays, DaysBeforeYear, DaysBeforeMonth;
    YearZero();
    WithinTheYear(d);
    if d.year < 10_000 {
      YearsGrow(d.year + 1, 10_000);
    } else {
      YearsGrow(10_000, d.year);
    }
  }

  lemma TimestampIsFields(secs: nat)
    requires secs < END_OF_9999
    ensures
      var d := CivilFromDays(secs / 86_400);
      1970 <= d.year < 10_000 && Valid(d) && Timestamp(secs) == DateText(d) + "-" + ClockText(secs % 86_400)
  {
    CivilIsADate(secs / 86_400);
    FromTheEpochOn(secs / 86_400);
    FourDigitYears(secs);
    var d, rem := CivilFromDays(secs / 86_400), secs % 86_400;
    hide CivilFromDays, Digits, Padded;
    PaddedToFour(d.year);
    PaddedToTwo(d.month);
    PaddedToTwo(d.day);
    PaddedToTwo(rem / 3600);
    PaddedToTwo(rem % 3600 / 60);
    PaddedToTwo(rem % 60);
  }

  lemma DateIsRead(d: Date)
    requires 0 <= d.year < 10_000 && Valid(d)
    ensures var s := DateText(d);
      && |s| == 8 && AllDigits(s)
      && Number(s[0..4]) == d.year && Number(s[4..6]) == d.month && Number(s[6..8]) == d.day
  {
    FourDigitsRead(d.year);
    TwoDigitsRead(d.month);
    TwoDigitsRead(d.day);
    Lengths(d.year, d.month);
    Lengths(d.year, d.day);
    var s := DateText(d);
    hide FourDigits, TwoDigits, Number;
    assert s[0..4] == FourDigits(d.year) && s[4..6] == TwoDigits(d.month) && s[6..8] == TwoDigits(d.day);
    JoinDigits(FourDigits(d.year), TwoDigits(d.month));
    JoinDigits(FourDigits(d.year) + TwoDigits(d.month), TwoDigits(d.day));
  }

  lemma JoinDigits(a: string, b: string)
    requires AllDigits(a) && AllDigits(b)
    ensures AllDigits(a + b)
  {
  }

  lemma ClockIsRead(rem: nat)
    requires rem < 86_400
    ensures var s := ClockText(rem);
      && |s| == 6 && AllDigits(s)
      && Number(s[0..2]) == rem / 3600 && Number(s[2..4]) == rem % 3600 / 60 && Number(s[4..6]) == rem % 60
  {
    TwoDigitsRead(rem / 3600);
    TwoDigitsRead(rem % 3600 / 60);
    TwoDigitsRead(rem % 60);
    Lengths(0, rem / 3600);
    Lengths(0, rem % 3600 / 60);
    Lengths(0, rem % 60);
    var s := ClockText(rem);
    hide TwoDigits, Number;
    assert s[0..2] == TwoDigits(rem / 3600) && s[2..4] == TwoDigits(rem % 3600 / 60) && s[4..6] == TwoDigits(rem % 60);
    JoinDigits(TwoDigits(rem / 3600), TwoDigits(rem % 3600 / 60));
    JoinDigits(TwoDigits(rem / 3600) + TwoDigits(rem % 3600 / 60), TwoDigits(rem % 60));
  }

  lemma FieldsAreRead(s: string, d: Date, rem: nat)
    requires 1000 <= d.year < 10_000 && Valid(d) && rem < 86_400
    requires s == DateText(d) + "-" + ClockText(rem)
    ensures IsStamp(s) && MomentOf(s) == DayNumber(d) * 86_400 + rem
  {
    DateIsRead(d);
    ClockIsRead(rem);
    Clock(rem);
    hide DaysBeforeYear, DaysBeforeMonth, DateText, ClockText, Number;
    assert s[..8] == DateText(d) && s[9..] == ClockText(rem);
    assert (d.month - 1) % 12 == d.month - 1 && (d.month - 1) / 12 == 0;
  }

  /** A stamp reads back as the second it was made from. */
  lemma StampIsRead(secs: nat)
    requires secs < END_OF_9999
    ensures IsStamp(Timestamp(secs)) && MomentOf(Timestamp(secs)) == secs
  {
    TimestampIsFields(secs);
    CivilIsADate(secs / 86_400);
    hide CivilFromDays, MomentOf, IsStamp, DayNumber, Timestamp, DateText, ClockText;
    FieldsAreRead(Timestamp(secs), CivilFromDays(secs / 86_400), secs % 86_400);
  }

  lemma Lengths(n: nat, m: nat)
    requires n < 10_000 && m < 100
    ensures |FourDigits(n)| == 4 && |TwoDigits(m)| == 2
  {
  }

  lemma Clock(rem: nat)
    ensures rem / 3600 * 3600 + rem % 3600 / 60 * 60 + rem % 60 == rem
  {
    var q, r := rem / 3600, rem % 3600;
    OverMinutes(60 * q + r / 60, r % 60);
    assert rem == 60 * (60 * q + r / 60) + r % 60;
  }

  lemma OverMinutes(m: int, s: int)
    requires 0 <= s < 60
    ensures (60 * m + s) % 60 == s
  {
  }

  // ---- What a file may be called ---------------------------------------------------------------

  predicate IsEdge(c: char) { c in "_." }

  lemma {:induction false} StartComesOff(s: string) returns (i: nat)
    ensures i <= |s| && TrimStart(s) == s[i..] && (forall k | 0 <= k < i :: IsEdge(s[k])) && (i < |s| ==> !IsEdge(s[i]))
  {
    if s != "" && s[0] in "_." {
      var k := StartComesOff(s[1..]);
      i := k + 1;
      assert s[1..][k..] == s[i..];
    } else {
      i := 0;
    }
  }

  lemma {:induction false} EndComesOff(s: string) returns (j: nat)
    ensures j <= |s| && TrimEnd(s) == s[..j]
    ensures (forall k | j <= k < |s| :: IsEdge(s[k])) && (j > 0 ==> !IsEdge(s[j - 1]))
  {
    if s != "" && s[|s| - 1] in "_." {
      j := EndComesOff(s[..|s| - 1]);
      assert s[..|s| - 1][..j] == s[..j];
    } else {
      j := |s|;
    }
  }

  /** A label is the title from its first character that is a letter, a digit or a dash to its last, but no
      more than 48 of them, with every character a file name need not have made an underscore; `session`
      when there is no such character. */
  lemma LabelIs(title: string) returns (i: nat, j: nat)
    ensures i <= j <= |title|
    ensures forall k | 0 <= k < |title| && (k < i || j <= k) :: IsEdge(Cleaned(title)[k])
    ensures i < j ==> !IsEdge(Cleaned(title)[i]) && !IsEdge(Cleaned(title)[j - 1])
    ensures i == j ==> SafeLabel(title) == "session"
    ensures i < j ==> SafeLabel(title) == Cleaned(title)[i..if j - i > 48 then i + 48 else j]
  {
    hide TrimStart, TrimEnd, IsKept;
    var c := Cleaned(title);
    i := StartComesOff(c);
    var n := EndComesOff(c[i..]);
    j := i + n;
    assert c[i..][..n] == c[i..j];
    assert forall k | j <= k < |c| :: c[i..][k - i] == c[k];
    assert j > i ==> c[i..][n - 1] == c[j - 1];
    if i < j {
      assert c[i..j] != "";
      assert j - i > 48 ==> c[i..j][..48] == c[i..i + 48];
    }
  }

  predicate MayStandInAName(c: char) {
    '0' <= c <= '9' || 'a' <= c <= 'z' || 'A' <= c <= 'Z' || c == '.' || c == '_' || c == '-'
  }

  lemma KeptMayStand()
    ensures forall c: char :: IsKept(c) <==> MayStandInAName(c)
  {
  }

  predicate IsPlainName(s: string) {
    1 <= |s| <= 48 && (forall k | 0 <= k < |s| :: IsKept(s[k])) && !IsEdge(s[0]) && !IsEdge(s[|s| - 1])
  }

  /** So a label is never empty or too long, leads to no other directory and hides no file; and a title
      that is such a label is its own. */
  lemma LabelsAreFileNames(title: string)
    ensures var name := SafeLabel(title);
      && 1 <= |name| <= 48 && !IsEdge(name[0])
      && forall k | 0 <= k < |name| :: MayStandInAName(name[k])
    ensures 1 <= |title| <= 48 && (forall k | 0 <= k < |title| :: MayStandInAName(title[k])) ==>
      IsEdge(title[0]) || IsEdge(title[|title| - 1]) || SafeLabel(title) == title
  {
    hide SafeLabel, Cleaned;
    var i, j := LabelIs(title);
    var c := Cleaned(title);
    assert "session"[0] == 's';
    KeptMayStand();
    if IsPlainName(title) {
      assert c == title && i == 0 && j == |title|;
      assert c[0..|title|] == title;
    }
  }

  /** How long a text is in UTF-8. */
  function BytesOf(s: string): nat {
    if s == "" then 0 else Width(s[0]) + BytesOf(s[1..])
  }

  lemma WidthIsUtf8(c: char)
    requires Utf8.IsScalar(c as int)
    ensures Width(c) == |Utf8.Encode(c as int)|
  {
  }

  lemma {:induction false} CharsInExactly(s: string, bytes: nat)
    ensures var n := CharsIn(s, bytes);
      && (n.Some? ==> BytesOf(s[..n.value]) == bytes)
      && (n == None ==> forall m | 0 <= m <= |s| :: BytesOf(s[..m]) != bytes)
  {
    if bytes > 0 && s != "" && Width(s[0]) <= bytes {
      CharsInExactly(s[1..], bytes - Width(s[0]));
      forall m | 0 < m <= |s| ensures BytesOf(s[..m]) == Width(s[0]) + BytesOf(s[1..][..m - 1]) {
        assert s[..m][1..] == s[1..][..m - 1];
      }
    } else {
      forall m | 0 < m <= |s| ensures BytesOf(s[..m]) >= Width(s[0]) {
        assert s[..m][0] == s[0];
      }
    }
  }

  /** Of an id the first eight bytes are used, when they end between two characters, and else all of it. */
  lemma ShortIdIs(id: string)
    ensures ShortId(id) <= id
    ensures if exists n | 0 <= n <= |id| :: BytesOf(id[..n]) == 8 then BytesOf(ShortId(id)) == 8 else ShortId(id) == id
  {
    hide BytesOf, CharsIn;
    CharsInExactly(id, 8);
  }

  // ---- Main results ------------------------------------------------------------------------------

  lemma {:induction false} LabelsAreOneLine(title: string)
    ensures OneLine(SafeLabel(title))
  {
    CleanedIsOneLine(title);
    TrimmedIsOneLine(Cleaned(title));
  }

  lemma {:induction false} CleanedIsOneLine(title: string)
    ensures OneLine(Cleaned(title))
  {
    if title != "" {
      CleanedIsOneLine(title[1..]);
    }
  }

  lemma TrimmedIsOneLine(s: string)
    requires OneLine(s)
    ensures OneLine(TrimEnd(TrimStart(s)))
  {
    StartIsOneLine(s);
    EndIsOneLine(TrimStart(s));
  }

  lemma {:induction false} StartIsOneLine(s: string)
    requires OneLine(s)
    ensures OneLine(TrimStart(s))
  {
    if s != "" && s[0] in "_." {
      StartIsOneLine(s[1..]);
    }
  }

  lemma {:induction false} EndIsOneLine(s: string)
    requires OneLine(s)
    ensures OneLine(TrimEnd(s))
  {
    if s != "" && s[|s| - 1] in "_." {
      EndIsOneLine(s[..|s| - 1]);
    }
  }

  /** The list shows a recording by the cleaned label and the second it started, exactly when the
      year has four digits and the start of the id is one to eight letters, digits or dashes. */
  lemma NameRoundTrip(title: string, id: string, secs: nat)
    ensures RecordingName(FileStem(title, id, secs) + ".cast") == Named(Spaced(SafeLabel(title)), Some(secs))
       <==> && secs < END_OF_9999 && 1 <= |ShortId(id)| <= 8
            && forall i | 0 <= i < |ShortId(id)| :: IsAlphanumeric(ShortId(id)[i]) || ShortId(id)[i] == '-'
  {
    var stem := FileStem(title, id, secs);
    if secs < END_OF_9999 && IsIdPart(ShortId(id)) {
      WrittenIsRead(title, id, secs);
    }
    if RecordingName(stem + ".cast") == Named(Spaced(SafeLabel(title)), Some(secs)) {
      OnlyThenRead(title, id, secs);
    }
  }

  lemma WrittenIsRead(title: string, id: string, secs: nat)
    requires secs < END_OF_9999 && IsIdPart(ShortId(id))
    ensures RecordingName(FileStem(title, id, secs) + ".cast") == Named(Spaced(SafeLabel(title)), Some(secs))
  {
    StampIsRead(secs);
    LabelsAreOneLine(title);
    hide MomentOf, CivilFromDays, SafeLabel, RecordingName, Timestamp, ShortId, IsStamp, IsIdPart, OneLine;
    ReadAsCaptured(FileStem(title, id, secs), SafeLabel(title), Timestamp(secs), ShortId(id));
  }

  lemma OnlyThenRead(title: string, id: string, secs: nat)
    requires RecordingName(FileStem(title, id, secs) + ".cast") == Named(Spaced(SafeLabel(title)), Some(secs))
    ensures secs < END_OF_9999 && IsIdPart(ShortId(id))
  {
    var stem, name, stamp, short := FileStem(title, id, secs), SafeLabel(title), Timestamp(secs), ShortId(id);
    WhenNamed(stem);
    hide SafeLabel, RecordingName, IsCaptured, ShortId;
    StampLength(secs);
    assert stem == name + "_" + stamp + "_" + short;
    var sep := |name| + 1 + |stamp|;
    assert stem[sep] == '_' && stem[sep + 1..] == short;
    var k := LastPart(stem);
    assert forall i | k <= i < |stem| :: stem[i] in stem[k..];
    assert sep < k;
  }

  lemma StampLength(secs: nat)
    ensures |Timestamp(secs)| >= 15
    ensures |Timestamp(secs)| == 15 ==> secs < END_OF_9999
  {
    if secs < END_OF_9999 {
      TimestampIsFields(secs);
    } else {
      CivilIsADate(secs / 86_400);
      FromTheEpochOn(secs / 86_400);
      FourDigitYears(secs);
      var d := CivilFromDays(secs / 86_400);
      hide CivilFromDays, Padded;
      PaddedPastFour(d.year);
      PaddedToTwo(d.month);
      PaddedToTwo(d.day);
      var rem := secs % 86_400;
      PaddedToTwo(rem / 3600);
      PaddedToTwo(rem % 3600 / 60);
      PaddedToTwo(rem % 60);
    }
  }

  /** Text order: at the first difference the smaller character decides. */
  predicate Before(a: string, b: string) {
    if a == "" then b != ""
    else b != "" && (a[0] < b[0] || (a[0] == b[0] && Before(a[1..], b[1..])))
  }

  lemma {:induction false} BeforeThen(a: string, b: string, x: string, y: string)
    requires |a| == |b| && (Before(a, b) || (a == b && Before(x, y)))
    ensures Before(a + x, b + y)
  {
    if a == "" {
      assert a + x == x && b + y == y;
    } else {
      assert (a + x)[1..] == a[1..] + x && (b + y)[1..] == b[1..] + y;
      if a[0] == b[0] {
        BeforeThen(a[1..], b[1..], x, y);
      }
    }
  }

  lemma {:induction false} NotBothWays(a: string, b: string)
    requires Before(a, b)
    ensures !Before(b, a) && a != b
  {
    if a != "" && a[0] == b[0] {
      NotBothWays(a[1..], b[1..]);
    }
  }

  lemma TwoInOrder(m: nat, n: nat)
    requires m < n < 100
    ensures Before(TwoDigits(m), TwoDigits(n))
  {
    var a, b := TwoDigits(m), TwoDigits(n);
    assert a[1..] == [Digit(m % 10)] && b[1..] == [Digit(n % 10)];
    assert a[1..][1..] == "" && b[1..][1..] == "";
  }

  lemma FourInOrder(m: nat, n: nat)
    requires m < n < 10_000
    ensures Before(FourDigits(m), FourDigits(n))
  {
    if m / 100 < n / 100 {
      TwoInOrder(m / 100, n / 100);
    } else {
      TwoInOrder(m % 100, n % 100);
    }
    hide TwoDigits;
    Lengths(0, m / 100);
    Lengths(0, n / 100);
    BeforeThen(TwoDigits(m / 100), TwoDigits(n / 100), TwoDigits(m % 100), TwoDigits(n % 100));
  }

  /** Of two days the earlier has the earlier year, or month, or day of it. */
  lemma DatesInOrder(d: Date, e: Date)
    requires Valid(d) && Valid(e) && DayNumber(d) < DayNumber(e)
    ensures d.year < e.year || (d.year == e.year && (d.month < e.month || (d.month == e.month && d.day < e.day)))
  {
    hide DaysBeforeYear, DaysBeforeMonth;
    WithinTheYear(d);
    WithinTheYear(e);
    if e.year < d.year {
      YearsGrow(e.year + 1, d.year);
    } else if e.year == d.year && e.month < d.month {
      MonthsGrow(d.year, e.month, d.month);
    }
  }

  lemma DateTextInOrder(d: Date, e: Date)
    requires Valid(d) && Valid(e) && 0 <= d.year < 10_000 && 0 <= e.year < 10_000 && DayNumber(d) < DayNumber(e)
    ensures Before(DateText(d), DateText(e))
  {
    DatesInOrder(d, e);
    Lengths(d.year, d.month);
    Lengths(e.year, e.month);
    if d.year < e.year {
      FourInOrder(d.year, e.year);
    } else if d.month < e.month {
      TwoInOrder(d.month, e.month);
    } else {
      TwoInOrder(d.day, e.day);
    }
    hide FourDigits, TwoDigits, Before;
    if d.month < e.month || d.year < e.year {
      BeforeThen(FourDigits(d.year), FourDigits(e.year), TwoDigits(d.month), TwoDigits(e.month));
    }
    BeforeThen(FourDigits(d.year) + TwoDigits(d.month), FourDigits(e.year) + TwoDigits(e.month),
               TwoDigits(d.day), TwoDigits(e.day));
  }

  lemma ClockTextInOrder(m: nat, n: nat)
    requires m < n < 86_400
    ensures Before(ClockText(m), ClockText(n))
  {
    Clock(m);
    Clock(n);
    var a, b, c := m / 3600, m % 3600 / 60, m % 60;
    var a', b', c' := n / 3600, n % 3600 / 60, n % 60;
    Lengths(0, a);
    Lengths(0, a');
    Lengths(0, b);
    Lengths(0, b');
    if a < a' {
      TwoInOrder(a, a');
    } else if b < b' {
      TwoInOrder(b, b');
    } else {
      TwoInOrder(c, c');
    }
    hide TwoDigits, Before;
    if a < a' || b < b' {
      BeforeThen(TwoDigits(a), TwoDigits(a'), TwoDigits(b), TwoDigits(b'));
    }
    BeforeThen(TwoDigits(a) + TwoDigits(b), TwoDigits(a') + TwoDigits(b'), TwoDigits(c), TwoDigits(c'));
  }

  lemma FieldsInOrder(d: Date, m: nat, e: Date, n: nat)
    requires Valid(d) && Valid(e) && 0 <= d.year < 10_000 && 0 <= e.year < 10_000 && m < 86_400 && n < 86_400
    requires DayNumber(d) < DayNumber(e) || (d == e && m < n)
    ensures Before(DateText(d) + "-" + ClockText(m), DateText(e) + "-" + ClockText(n))
  {
    DateIsRead(d);
    DateIsRead(e);
    hide DateText, ClockText, Before, Number, DayNumber;
    if d != e {
      DateTextInOrder(d, e);
      BeforeThen(DateText(d), DateText(e), "-", "-");
    } else {
      ClockTextInOrder(m, n);
    }
    BeforeThen(DateText(d) + "-", DateText(e) + "-", ClockText(m), ClockText(n));
  }

  lemma DayThenClock(a: nat, b: nat)
    requires a < b
    ensures a / 86_400 < b / 86_400 || (a / 86_400 == b / 86_400 && a % 86_400 < b % 86_400)
  {
  }

  lemma StampsInOrder(a: nat, b: nat)
    requires a < b < END_OF_9999
    ensures Before(Timestamp(a), Timestamp(b))
  {
    TimestampIsFields(a);
    TimestampIsFields(b);
    CivilIsADate(a / 86_400);
    CivilIsADate(b / 86_400);
    DayThenClock(a, b);
    hide CivilFromDays, DateText, ClockText, Before, Timestamp, DayNumber;
    FieldsInOrder(CivilFromDays(a / 86_400), a % 86_400, CivilFromDays(b / 86_400), b % 86_400);
  }

  lemma LeadingDigit(secs: nat, d: Date)
    requires d == CivilFromDays(secs / 86_400) && d.year >= 1000
    ensures Timestamp(secs) != "" && Timestamp(secs)[0] == Digits(d.year)[0]
  {
    hide CivilFromDays;
    assert |Digits(d.year)| == |Digits(d.year / 10)| + 1;
    assert |Digits(d.year / 10)| == |Digits(d.year / 10 / 10)| + 1;
    assert |Digits(d.year / 10 / 10)| == |Digits(d.year / 10 / 10 / 10)| + 1;
  }

  lemma DropLastDigit(n: nat)
    requires n >= 10
    ensures Digits(n)[0] == Digits(n / 10)[0]
  {
  }

  lemma NewYear()
    ensures CivilFromDays(2_932_896) == Date(9999, 12, 31) && CivilFromDays(2_932_897) == Date(10_000, 1, 1)
  {
    hide CivilFromDays;
    CivilInverts(Date(9999, 12, 31));
    CivilInverts(Date(10_000, 1, 1));
    MonthsAddUp(9999, 12);
  }

  /** The first moment whose stamp sorts before an earlier one's. */
  lemma FiveDigitYearsSortEarly()
    ensures Before(Timestamp(END_OF_9999), Timestamp(END_OF_9999 - 1))
  {
    NewYear();
    hide CivilFromDays, Timestamp;
    assert (END_OF_9999 - 1) / 86_400 == 2_932_896 && END_OF_9999 / 86_400 == 2_932_897;
    LeadingDigit(END_OF_9999, Date(10_000, 1, 1));
    LeadingDigit(END_OF_9999 - 1, Date(9999, 12, 31));
    DropLastDigit(10_000);
    DropLastDigit(1000);
    DropLastDigit(100);
    DropLastDigit(10);
    DropLastDigit(9999);
    DropLastDigit(999);
    DropLastDigit(99);
    assert Digits(1)[0] == '1' && Digits(9)[0] == '9';
  }

  /** Stamps sort as text in time order up to the end of the year 9999, and no further. */
  lemma StampsSort(end: nat)
    ensures (forall a: nat, b: nat | a < b < end :: Before(Timestamp(a), Timestamp(b))) <==> end <= END_OF_9999
  {
    if end <= END_OF_9999 {
      forall a: nat, b: nat | a < b < end ensures Before(Timestamp(a), Timestamp(b)) {
        StampsInOrder(a, b);
      }
    } else {
      FiveDigitYearsSortEarly();
      NotBothWays(Timestamp(END_OF_9999), Timestamp(END_OF_9999 - 1));
    }
  }
}
