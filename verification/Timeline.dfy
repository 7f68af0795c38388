/** Dates as text (src/explore/timeline.rs): formatting, the looser parser, and the order of events. */
module Timeline {
  import opened Common
  import opened Calendar
  import opened Normalize
  import opened Sorting

  const SPD := 86400

  // ---- instants ----

  datatype Instant = Instant(date: Date, hour: int, minute: int, second: int)

  /** `epoch_to_ymdhms`. */
  function EpochToYmdhms(secs: int): Instant {
    var rest := secs % SPD;
    Instant(CivilFromDays(secs / SPD), rest / 3600, rest % 3600 / 60, rest % 60)
  }

  // ---- formatting ----

  function Zeros(n: nat): string {
    seq(n, i => '0')
  }

  /** `{n:0w}` of a number that is not negative. */
  function Pad(n: nat, w: nat): string {
    var s := Decimal(n);
    if |s| < w then Zeros(w - |s|) + s else s
  }

  function PadYear(y: int): string {
    if y < 0 then "-" + Pad(-y, 3) else Pad(y, 4)
  }

  function DateText(d: Date): string
    requires 0 <= d.month && 0 <= d.day
  {
    PadYear(d.year) + "-" + Pad(d.month, 2) + "-" + Pad(d.day, 2)
  }

  function TimeText(h: nat, mi: nat, s: nat): string {
    Pad(h, 2) + ":" + Pad(mi, 2) + ":" + Pad(s, 2)
  }

  function FormatEpoch(secs: int): string {
    CivilCounts(secs / SPD);
    var t := EpochToYmdhms(secs);
    if t.hour == 0 && t.minute == 0 && t.second == 0 then DateText(t.date)
    else DateText(t.date) + "T" + TimeText(t.hour, t.minute, t.second)
  }

  // ---- parsing ----

  /** A decimal that fits in 32 bits. */
  function ParseU32(s: string): Option<nat> {
    if s != "" && IsDigits(s) && FromDecimal(s) < 0x1_0000_0000 then Some(FromDecimal(s)) else None
  }

  /** The text before the first character of `stops`. */
  function Before(s: string, stops: set<char>): string {
    if s == "" || s[0] in stops then "" else [s[0]] + Before(s[1..], stops)
  }

  function SplitAt(s: string, sep: char): seq<string> {
    var first := Before(s, {sep});
    BeforeIsShort(s, {sep});
    if |first| == |s| then [first] else [first] + SplitAt(s[|first| + 1..], sep)
  }

  lemma {:induction false} BeforeIsShort(s: string, stops: set<char>)
    ensures |Before(s, stops)| <= |s|
  {
    if s != "" && s[0] !in stops {
      BeforeIsShort(s[1..], stops);
    }
  }

  function ParseTimeTail(body: string): Option<(nat, nat, nat)> {
    var core := Before(Before(body, {'Z', '+', '-'}), {'.'});
    var parts := SplitAt(core, ':');
    if |parts| < 2 then None
    else
      match (ParseU32(parts[0]), ParseU32(parts[1]), if |parts| > 2 then ParseU32(parts[2]) else Some(0))
      case (Some(h), Some(mi), Some(s)) => if h < 24 && mi < 60 && s <= 60 then Some((h, mi, s)) else None
      case _ => None
  }

  predicate DateShape(s: string) {
    && |s| == 10 && s[4] == '-' && s[7] == '-'
    && IsDigits(s[0..4]) && IsDigits(s[5..7]) && IsDigits(s[8..10])
  }

  function ParseDate(s: string): Option<Date> {
    if !DateShape(s) then None
    else
      var y, m, d := FromDecimal(s[0..4]), FromDecimal(s[5..7]), FromDecimal(s[8..10]);
      if 1 <= m <= 12 && 1 <= d <= 31 then Some(Date(y, m, d)) else None
  }

  /** The time of day behind a date: midnight, or a `T` or a blank and a time. */
  function RestOf(rest: string): Option<(nat, nat, nat)> {
    if rest == "" then Some((0, 0, 0)) else if rest[0] in {'T', ' '} then ParseTimeTail(rest[1..]) else None
  }

  function ParseIsoEpoch(raw: string): Option<int> {
    var s := TrimEnd(TrimStart(raw));
    if |s| < 10 then None
    else
      match ParseDate(s[..10])
      case None => None
      case Some(date) =>
        match RestOf(s[10..])
        case None => None
        case Some((h, mi, sec)) => Some(Days(date) * SPD + h * 3600 + mi * 60 + sec)
  }

  // ---- numbers and their digits ----

  lemma {:induction false} LeadingZeros(k: nat, s: string)
    requires IsDigits(s)
    ensures IsDigits(Zeros(k) + s) && FromDecimal(Zeros(k) + s) == FromDecimal(s)
    decreases k + |s|
  {
    var t := Zeros(k) + s;
    if s != "" {
      assert t[..|t| - 1] == Zeros(k) + s[..|s| - 1];
      LeadingZeros(k, s[..|s| - 1]);
    } else if k > 0 {
      assert t[..k - 1] == Zeros(k - 1) + "";
      LeadingZeros(k - 1, "");
      assert DigitValue('0') == 0;
    }
  }

  lemma {:induction false} DecimalLength(n: nat, w: nat, bound: nat)
    requires w > 0 && bound == Power(w) && n < bound
    ensures |Decimal(n)| <= w
    decreases w
  {
    if n >= 10 {
      DecimalLength(n / 10, w - 1, Power(w - 1));
    }
  }

  function Power(w: nat): nat {
    if w == 0 then 1 else 10 * Power(w - 1)
  }

  lemma PadReads(n: nat, w: nat)
    requires w > 0 && n < Power(w)
    ensures |Pad(n, w)| == w && IsDigits(Pad(n, w)) && FromDecimal(Pad(n, w)) == n
  {
    DecimalLength(n, w, Power(w));
    DecimalRoundTrip(n);
    LeadingZeros(w - |Decimal(n)|, Decimal(n));
  }

  /** Dates the date shape can express. */
  predicate Printable(d: Date) {
    0 <= d.year < 10000 && 1 <= d.month <= 12 && 1 <= d.day <= 31
  }

  lemma DateReads(d: Date)
    requires Printable(d)
    ensures |DateText(d)| == 10 && ParseDate(DateText(d)) == Some(d)
    ensures DateText(d)[0] != ' ' && forall i :: 0 <= i < 10 ==> '0' <= DateText(d)[i] <= '9' || DateText(d)[i] == '-'
  {
    hide Pad, FromDecimal;
    assert Power(2) == 100 && Power(4) == 10000 by {
      assert Power(1) == 10 && Power(3) == 1000;
    }
    PadReads(d.year, 4);
    PadReads(d.month, 2);
    PadReads(d.day, 2);
    var y, m, day, s := Pad(d.year, 4), Pad(d.month, 2), Pad(d.day, 2), DateText(d);
    assert s[0..4] == y && s[5..7] == m && s[8..10] == day && s[4] == '-' && s[7] == '-';
  }

  // ---- which texts are dates ----

  lemma LastDigit(s: string)
    requires s != "" && IsDigits(s)
    ensures IsDigits(s[..|s| - 1]) && '0' <= s[|s| - 1] <= '9' && DigitValue(s[|s| - 1]) < 10
    ensures FromDecimal(s) == FromDecimal(s[..|s| - 1]) * 10 + DigitValue(s[|s| - 1])
  {
  }

  lemma SameDigit(a: char, b: char)
    requires '0' <= a <= '9' && '0' <= b <= '9' && DigitValue(a) == DigitValue(b)
    ensures a == b
  {
  }

  lemma {:induction false} SameDigits(a: string, b: string)
    requires |a| == |b| && IsDigits(a) && IsDigits(b) && FromDecimal(a) == FromDecimal(b)
    ensures a == b
  {
    hide FromDecimal, IsDigits, DigitValue;
    if a != "" {
      var n := |a| - 1;
      LastDigit(a);
      LastDigit(b);
      SameDigit(a[n], b[n]);
      SameDigits(a[..n], b[..n]);
      assert a == a[..n] + [a[n]] && b == b[..n] + [b[n]];
    }
  }

  /** Two decimal digits. */
  function Two(n: nat): string
    requires n < 100
  {
    [Digit(n / 10), Digit(n % 10)]
  }

  lemma TwoReads(n: nat)
    requires n < 100
    ensures IsDigits(Two(n)) && FromDecimal(Two(n)) == n
  {
    var s := Two(n);
    LastDigit(s);
    assert s[..1] == [Digit(n / 10)];
    LastDigit(s[..1]);
    assert s[..1][..0] == "";
  }

  lemma FourReads(n: nat)
    requires n < 10000
    ensures IsDigits(Two(n / 100) + Two(n % 100)) && FromDecimal(Two(n / 100) + Two(n % 100)) == n
  {
    hide FromDecimal, Digit;
    TwoReads(n / 100);
    TwoReads(n % 100);
    var a, b := Two(n / 100), Two(n % 100);
    LastDigit(a + b);
    assert (a + b)[..3] == a + b[..1];
    LastDigit(a + b[..1]);
    assert (a + b[..1])[..2] == a;
    LastDigit(b);
    LastDigit(b[..1]);
    Nothing(b[..1][..0]);
  }

  lemma Nothing(s: string)
    requires s == ""
    ensures IsDigits(s) && FromDecimal(s) == 0
  {
  }

  /** Year, month and day from left to right, digit by digit. */
  lemma DateTextIs(d: Date)
    requires Printable(d)
    ensures DateText(d) == Two(d.year / 100) + Two(d.year % 100) + "-" + Two(d.month) + "-" + Two(d.day)
  {
    hide Pad, FromDecimal, Two, IsDigits;
    assert Power(2) == 100 && Power(4) == 10000 by {
      assert Power(1) == 10 && Power(3) == 1000;
    }
    PadReads(d.year, 4);
    PadReads(d.month, 2);
    PadReads(d.day, 2);
    FourReads(d.year);
    TwoReads(d.month);
    TwoReads(d.day);
    TwoLength(d.year / 100);
    TwoLength(d.year % 100);
    TwoLength(d.month);
    TwoLength(d.day);
    SameDigits(Two(d.year / 100) + Two(d.year % 100), Pad(d.year, 4));
    SameDigits(Two(d.month), Pad(d.month, 2));
    SameDigits(Two(d.day), Pad(d.day, 2));
  }

  /** A year before the first one has a sign and three digits. */
  lemma NegativeYear(y: int)
    requires -1000 < y < 0
    ensures PadYear(y) == "-" + [Digit(-y / 100)] + Two(-y % 100)
  {
    hide Pad, FromDecimal, Two, IsDigits;
    assert Power(3) == 1000 by {
      assert Power(1) == 10 && Power(2) == 100;
    }
    PadReads(-y, 3);
    ThreeReads(-y);
    SameDigits([Digit(-y / 100)] + Two(-y % 100), Pad(-y, 3));
  }

  lemma ThreeReads(n: nat)
    requires n < 1000
    ensures IsDigits([Digit(n / 100)] + Two(n % 100)) && FromDecimal([Digit(n / 100)] + Two(n % 100)) == n
    ensures |[Digit(n / 100)] + Two(n % 100)| == 3
  {
    hide FromDecimal, Digit;
    TwoReads(n % 100);
    var a, b := [Digit(n / 100)], Two(n % 100);
    LastDigit(a + b);
    assert (a + b)[..2] == a + b[..1];
    LastDigit(a + b[..1]);
    assert (a + b[..1])[..1] == a;
    LastDigit(a);
    LastDigit(b);
    LastDigit(b[..1]);
    Nothing(a[..0]);
    Nothing(b[..1][..0]);
  }

  lemma TwoLength(n: nat)
    requires n < 100
    ensures |Two(n)| == 2
  {
  }

  /** The date part is accepted exactly if it is the text of a printable date, and then as that date. */
  lemma DatesExactly(s: string, d: Date)
    ensures ParseDate(s) == Some(d) <==> Printable(d) && s == DateText(d)
  {
    hide DateText, FromDecimal, Pad, IsDigits;
    if Printable(d) && s == DateText(d) {
      DateReads(d);
    }
    if ParseDate(s) == Some(d) {
      SmallNumber(s[0..4], 4);
      assert Power(4) == 10000 by {
        assert Power(1) == 10 && Power(2) == 100 && Power(3) == 1000;
      }
      DateIsItsText(s, d);
    }
  }

  lemma {:induction false} SmallNumber(s: string, w: nat)
    requires |s| == w && IsDigits(s)
    ensures FromDecimal(s) < Power(w)
  {
    if w > 0 {
      LastDigit(s);
      SmallNumber(s[..w - 1], w - 1);
    }
  }

  lemma DateIsItsText(s: string, d: Date)
    requires ParseDate(s) == Some(d) && Printable(d)
    ensures s == DateText(d)
  {
    hide FromDecimal, Pad, IsDigits;
    assert Power(2) == 100 && Power(4) == 10000 by {
      assert Power(1) == 10 && Power(3) == 1000;
    }
    PadReads(d.year, 4);
    PadReads(d.month, 2);
    PadReads(d.day, 2);
    SameDigits(s[0..4], Pad(d.year, 4));
    SameDigits(s[5..7], Pad(d.month, 2));
    SameDigits(s[8..10], Pad(d.day, 2));
    assert s == s[0..4] + [s[4]] + s[5..7] + [s[7]] + s[8..10];
  }

  // ---- times ----

  predicate Clear(s: string, stops: set<char>) {
    forall i :: 0 <= i < |s| ==> s[i] !in stops
  }

  lemma {:induction false} BeforeAll(s: string, stops: set<char>)
    requires Clear(s, stops)
    ensures Before(s, stops) == s
  {
    if s != "" {
      BeforeAll(s[1..], stops);
    }
  }

  lemma {:induction false} BeforeStop(a: string, c: char, b: string, stops: set<char>)
    requires Clear(a, stops) && c in stops
    ensures Before(a + [c] + b, stops) == a
  {
    var s := a + [c] + b;
    if a != "" {
      assert s[1..] == a[1..] + [c] + b;
      BeforeStop(a[1..], c, b, stops);
    }
  }

  lemma SplitThree(a: string, b: string, c: string, sep: char)
    requires Clear(a, {sep}) && Clear(b, {sep}) && Clear(c, {sep})
    ensures SplitAt(a + [sep] + b + [sep] + c, sep) == [a, b, c]
  {
    var s, t := a + [sep] + b + [sep] + c, b + [sep] + c;
    assert s == a + [sep] + t;
    BeforeStop(a, sep, t, {sep});
    BeforeStop(b, sep, c, {sep});
    BeforeAll(c, {sep});
    assert s[|a| + 1..] == t && t[|b| + 1..] == c;
    assert SplitAt(t, sep) == [b] + SplitAt(c, sep);
    assert SplitAt(c, sep) == [c];
  }

  lemma TimeReads(h: nat, mi: nat, sec: nat)
    requires h < 24 && mi < 60 && sec < 60
    ensures ParseTimeTail(TimeText(h, mi, sec)) == Some((h, mi, sec))
    ensures var t := TimeText(h, mi, sec); t != "" && forall i :: 0 <= i < |t| ==> '0' <= t[i] <= '9' || t[i] == ':'
  {
    hide Pad, FromDecimal, Before, SplitAt;
    assert Power(2) == 100 by {
      assert Power(1) == 10;
    }
    PadReads(h, 2);
    PadReads(mi, 2);
    PadReads(sec, 2);
    var a, b, c, t := Pad(h, 2), Pad(mi, 2), Pad(sec, 2), TimeText(h, mi, sec);
    assert t == a + [':'] + b + [':'] + c;
    assert forall i :: 0 <= i < |t| ==> '0' <= t[i] <= '9' || t[i] == ':';
    BeforeAll(t, {'Z', '+', '-'});
    BeforeAll(t, {'.'});
    SplitThree(a, b, c, ':');
  }

  // ---- which texts are instants ----

  const TAIL_STOPS: set<char> := {'Z', '+', '-', '.'}

  /** The time without its zone and fraction: what stands before the first of their signs. */
  ghost predicate IsCore(body: string, core: string) {
    core <= body && Clear(core, TAIL_STOPS) && (|core| < |body| ==> body[|core|] in TAIL_STOPS)
  }

  ghost predicate Reads(s: string, n: nat) {
    s != "" && IsDigits(s) && FromDecimal(s) == n
  }

  predicate ColonAt(s: string, i: int) {
    0 <= i < |s| && s[i] == ':'
  }

  /** Seconds, and perhaps a colon with anything behind it. */
  ghost predicate Seconds(s: string, sec: nat) {
    Reads(s, sec) || exists i :: ColonAt(s, i) && Reads(s[..i], sec)
  }

  /** Minutes alone, or with a colon and seconds behind them. */
  ghost predicate Minutes(s: string, mi: nat, sec: nat) {
    (Reads(s, mi) && sec == 0) || exists i :: ColonAt(s, i) && Reads(s[..i], mi) && Seconds(s[i + 1..], sec)
  }

  /** Hours, a colon, and minutes, perhaps with seconds. */
  ghost predicate IsTime(core: string, h: nat, mi: nat, sec: nat) {
    && h < 24 && mi < 60 && sec <= 60
    && exists i :: ColonAt(core, i) && Reads(core[..i], h) && Minutes(core[i + 1..], mi, sec)
  }

  lemma {:induction false} BeforeIs(s: string, stops: set<char>)
    ensures var b := Before(s, stops);
            b <= s && Clear(b, stops) && (|b| < |s| ==> s[|b|] in stops)
  {
    if s != "" && s[0] !in stops {
      BeforeIs(s[1..], stops);
    }
  }

  lemma NotShorter(body: string, a: string, b: string)
    requires IsCore(body, a) && IsCore(body, b)
    ensures |a| >= |b|
  {
    assert forall i :: 0 <= i < |b| ==> b[i] == body[i] && body[i] !in TAIL_STOPS;
  }

  lemma CoreIs(body: string, core: string)
    requires IsCore(body, core)
    ensures Before(Before(body, {'Z', '+', '-'}), {'.'}) == core
  {
    var zoned := Before(body, {'Z', '+', '-'});
    var cut := Before(zoned, {'.'});
    BeforeIs(body, {'Z', '+', '-'});
    BeforeIs(zoned, {'.'});
    assert IsCore(body, cut);
    NotShorter(body, cut, core);
    NotShorter(body, core, cut);
    assert cut == body[..|cut|] && core == body[..|core|];
  }

  lemma ReadsClear(s: string, n: nat)
    requires Reads(s, n)
    ensures Clear(s, {':'})
  {
    hide FromDecimal;
  }

  lemma U32Is(s: string, n: nat)
    requires n < 100
    ensures ParseU32(s) == Some(n) <==> Reads(s, n)
  {
  }

  /** A number without a colon, up to the end or to one, is the first piece. */
  lemma FirstPiece(s: string, i: nat, n: nat)
    requires i <= |s| && (i < |s| ==> s[i] == ':') && Reads(s[..i], n)
    ensures SplitAt(s, ':') == if i == |s| then [s] else [s[..i]] + SplitAt(s[i + 1..], ':')
  {
    hide Before, Reads, SplitAt;
    ReadsClear(s[..i], n);
    if i == |s| {
      assert s[..i] == s;
      BeforeAll(s, {':'});
    } else {
      assert s == s[..i] + [':'] + s[i + 1..];
      BeforeStop(s[..i], ':', s[i + 1..], {':'});
    }
    SplitByFirst(s, i);
  }

  lemma SplitByFirst(s: string, i: nat)
    requires i <= |s| && Before(s, {':'}) == s[..i]
    ensures SplitAt(s, ':') == if i == |s| then [s] else [s[..i]] + SplitAt(s[i + 1..], ':')
  {
    hide Before;
    assert s[..|s|] == s;
  }

  /** The first piece ends at the first colon, or at the end. */
  lemma PieceEnd(s: string) returns (i: nat)
    ensures i <= |s| && (i < |s| ==> ColonAt(s, i))
    ensures SplitAt(s, ':') == if i == |s| then [s] else [s[..i]] + SplitAt(s[i + 1..], ':')
  {
    BeforeIs(s, {':'});
    i := |Before(s, {':'})|;
    assert s[..i] == Before(s, {':'});
    SplitByFirst(s, i);
  }

  lemma SecondsSplit(s: string, sec: nat)
    requires sec <= 60
    ensures Seconds(s, sec) <==> ParseU32(SplitAt(s, ':')[0]) == Some(sec)
  {
    hide SplitAt, ParseU32, Reads;
    var end := PieceEnd(s);
    U32Is(s, sec);
    U32Is(s[..end], sec);
    if Reads(s, sec) {
      assert s[..|s|] == s;
      FirstPiece(s, |s|, sec);
    }
    if i :| ColonAt(s, i) && Reads(s[..i], sec) {
      FirstPiece(s, i, sec);
      U32Is(s[..i], sec);
    }
  }

  /** The pieces from the minutes on read as minutes and seconds. */
  predicate MinutesRead(parts: seq<string>, mi: nat, sec: nat) {
    && parts != [] && ParseU32(parts[0]) == Some(mi)
    && (if |parts| > 1 then ParseU32(parts[1]) else Some(0)) == Some(sec)
  }

  lemma MinutesSplit(s: string, mi: nat, sec: nat)
    requires mi < 60 && sec <= 60
    ensures Minutes(s, mi, sec) <==> MinutesRead(SplitAt(s, ':'), mi, sec)
  {
    hide SplitAt, ParseU32, Reads, Seconds;
    var end := PieceEnd(s);
    U32Is(s, mi);
    U32Is(s[..end], mi);
    if end < |s| {
      SecondsSplit(s[end + 1..], sec);
      SplitsIntoSome(s[end + 1..]);
    }
    if Reads(s, mi) {
      assert s[..|s|] == s;
      FirstPiece(s, |s|, mi);
    }
    if i :| ColonAt(s, i) && Reads(s[..i], mi) && Seconds(s[i + 1..], sec) {
      FirstPiece(s, i, mi);
      U32Is(s[..i], mi);
      SecondsSplit(s[i + 1..], sec);
      SplitsIntoSome(s[i + 1..]);
    }
  }

  lemma SplitsIntoSome(s: string)
    ensures SplitAt(s, ':') != []
  {
  }

  lemma TimeSplit(core: string, h: nat, mi: nat, sec: nat)
    requires h < 24 && mi < 60 && sec <= 60
    ensures var parts := SplitAt(core, ':');
            IsTime(core, h, mi, sec) <==>
            |parts| >= 2 && ParseU32(parts[0]) == Some(h) && MinutesRead(parts[1..], mi, sec)
  {
    hide SplitAt, ParseU32, Reads, Minutes, MinutesRead;
    var end := PieceEnd(core);
    U32Is(core[..end], h);
    if end < |core| {
      MinutesSplit(core[end + 1..], mi, sec);
      SplitsIntoSome(core[end + 1..]);
      assert SplitAt(core, ':')[1..] == SplitAt(core[end + 1..], ':');
    }
    if i :| ColonAt(core, i) && Reads(core[..i], h) && Minutes(core[i + 1..], mi, sec) {
      FirstPiece(core, i, h);
      U32Is(core[..i], h);
      MinutesSplit(core[i + 1..], mi, sec);
      SplitsIntoSome(core[i + 1..]);
      assert SplitAt(core, ':')[1..] == SplitAt(core[i + 1..], ':');
    }
  }

  /** The time behind a date is accepted exactly if it is a time, whatever zone or fraction follows. */
  lemma TimesExactly(body: string, core: string, h: nat, mi: nat, sec: nat)
    requires IsCore(body, core)
    ensures ParseTimeTail(body) == Some((h, mi, sec)) <==> IsTime(core, h, mi, sec)
  {
    hide SplitAt, ParseU32, IsCore, Before;
    CoreIs(body, core);
    var parts := SplitAt(core, ':');
    if h < 24 && mi < 60 && sec <= 60 {
      TimeSplit(core, h, mi, sec);
      assert |parts| >= 2 ==> (MinutesRead(parts[1..], mi, sec) <==>
        ParseU32(parts[1]) == Some(mi) && (if |parts| > 2 then ParseU32(parts[2]) else Some(0)) == Some(sec));
    }
  }

  /** What stands behind the date: nothing, or a `T` or a blank and a time. */
  ghost predicate IsRest(rest: string, h: nat, mi: nat, sec: nat) {
    || (rest == "" && h == 0 && mi == 0 && sec == 0)
    || (rest != "" && rest[0] in {'T', ' '} && exists core :: IsCore(rest[1..], core) && IsTime(core, h, mi, sec))
  }

  ghost predicate IsInstantText(s: string, secs: int, d: Date, h: nat, mi: nat, sec: nat) {
    && Printable(d) && DateText(d) <= s && IsRest(s[|DateText(d)|..], h, mi, sec)
    && secs == Days(d) * SPD + h * 3600 + mi * 60 + sec
  }

  lemma InstantIsParsed(raw: string, secs: int, d: Date, h: nat, mi: nat, sec: nat)
    requires IsInstantText(TrimEnd(TrimStart(raw)), secs, d, h, mi, sec)
    ensures ParseIsoEpoch(raw) == Some(secs)
  {
    hide ParseDate, DateText, TrimStart, TrimEnd, Days, IsRest, RestOf;
    var s := TrimEnd(TrimStart(raw));
    DateReads(d);
    assert s[..10] == DateText(d);
    RestExactly(s[10..], h, mi, sec);
  }

  lemma ParsedIsInstant(raw: string, secs: int) returns (d: Date, h: nat, mi: nat, sec: nat)
    requires ParseIsoEpoch(raw) == Some(secs)
    ensures IsInstantText(TrimEnd(TrimStart(raw)), secs, d, h, mi, sec)
  {
    hide ParseDate, DateText, TrimStart, TrimEnd, Days, IsRest, RestOf;
    var s := TrimEnd(TrimStart(raw));
    d := ParseDate(s[..10]).value;
    DatesExactly(s[..10], d);
    DateReads(d);
    var time := RestOf(s[10..]).value;
    h, mi, sec := time.0, time.1, time.2;
    RestExactly(s[10..], h, mi, sec);
  }

  /** The parser accepts exactly the texts of printable dates with such a rest, outer blanks aside. */
  lemma InstantsExactly(raw: string, secs: int)
    ensures ParseIsoEpoch(raw) == Some(secs) <==>
            exists d, h: nat, mi: nat, sec: nat :: IsInstantText(TrimEnd(TrimStart(raw)), secs, d, h, mi, sec)
  {
    hide ParseIsoEpoch, IsInstantText, TrimStart, TrimEnd;
    if d, h: nat, mi: nat, sec: nat :| IsInstantText(TrimEnd(TrimStart(raw)), secs, d, h, mi, sec) {
      InstantIsParsed(raw, secs, d, h, mi, sec);
    }
    if ParseIsoEpoch(raw) == Some(secs) {
      var d, h, mi, sec := ParsedIsInstant(raw, secs);
    }
  }

  lemma RestExactly(rest: string, h: nat, mi: nat, sec: nat)
    ensures RestOf(rest) == Some((h, mi, sec)) <==> IsRest(rest, h, mi, sec)
  {
    hide ParseTimeTail, IsTime, Before;
    if rest != "" {
      var body := rest[1..];
      BeforeIs(body, TAIL_STOPS);
      TimesExactly(body, Before(body, TAIL_STOPS), h, mi, sec);
      forall core | IsCore(body, core) ensures RestOf(rest) == Some((h, mi, sec)) && rest[0] in {'T', ' '} <==>
                                         rest[0] in {'T', ' '} && IsTime(core, h, mi, sec)
      {
        TimesExactly(body, core, h, mi, sec);
      }
    }
  }

  // ---- round trips ----

  lemma {:induction false} TrimNothing(s: string)
    requires s != "" && !IsSpace(s[0]) && !IsSpace(s[|s| - 1])
    ensures TrimEnd(TrimStart(s)) == s
  {
  }

  lemma InstantParts(secs: int)
    ensures var t := EpochToYmdhms(secs);
            && t.date == Counted(secs / SPD) && Days(t.date) == secs / SPD
            && 0 <= t.hour < 24 && 0 <= t.minute < 60 && 0 <= t.second < 60
            && Days(t.date) * SPD + t.hour * 3600 + t.minute * 60 + t.second == secs
  {
    hide DaysFromCivil, CivilFromDays, Counted;
    CivilCounts(secs / SPD);
    DaysCount(secs / SPD);
    var rest := secs % SPD;
    assert rest == rest / 3600 * 3600 + rest % 3600 && rest % 3600 == rest % 3600 / 60 * 60 + rest % 60;
  }

  /** Formatting an instant of the years 0 to 9999 and parsing the text gives the instant back. */
  lemma ParseFormat(secs: int)
    requires 0 <= Counted(secs / SPD).year < 10000
    ensures ParseIsoEpoch(FormatEpoch(secs)) == Some(secs)
  {
    hide DateText, TimeText, ParseDate, ParseTimeTail, TrimStart, TrimEnd, DaysFromCivil, CivilFromDays, Counted,
    EpochToYmdhms;
    InstantParts(secs);
    var t, s := EpochToYmdhms(secs), FormatEpoch(secs);
    DateReads(t.date);
    TimeReads(t.hour, t.minute, t.second);
    TrimNothing(s);
    if t.hour == 0 && t.minute == 0 && t.second == 0 {
      assert s[..10] == s && s[10..] == "";
    } else {
      var time := TimeText(t.hour, t.minute, t.second);
      assert s[..10] == DateText(t.date) && s[10..] == "T" + time && ("T" + time)[1..] == time;
    }
  }

  /**
   The parser takes any day up to 31. A date text it accepts is formatted back unchanged exactly when the date exists;
   otherwise it stands for another, later day.
   */
  lemma AcceptedDates(d: Date)
    requires Printable(d)
    ensures ParseIsoEpoch(DateText(d)) == Some(Days(d) * SPD)
    ensures FormatEpoch(Days(d) * SPD) == DateText(d) <==> Valid(d)
  {
    hide DateText, ParseDate, TrimStart, TrimEnd, DaysFromCivil, CivilFromDays, Counted, Leap;
    var s, secs := DateText(d), Days(d) * SPD;
    DateReads(d);
    TrimNothing(s);
    assert s[..10] == s && s[10..] == "";
    assert secs / SPD == Days(d) && secs % SPD == 0;
    CivilCounts(Days(d));
    var e := CivilFromDays(Days(d));
    assert FormatEpoch(secs) == DateText(e);
    if Valid(d) {
      CivilInverse(d);
    } else if DateText(e) == s {
      YearStaysPrintable(d);
      DateReads(e);
    }
  }

  /** A day past the end of its month lies in the next month of the same year. */
  lemma YearStaysPrintable(d: Date)
    requires Printable(d) && !Valid(d)
    ensures Printable(Counted(Days(d))) && CivilFromDays(Days(d)) == Counted(Days(d))
  {
    hide DaysFromCivil, CivilFromDays, Counted, Leap;
    var last := Date(d.year, d.month, MonthLength(d.year, d.month));
    var over := Date(d.year, d.month + 1, d.day - MonthLength(d.year, d.month));
    assert Valid(last) && Valid(over);
    DaysAhead(Next(last), over.day - 1);
    DaysStep(last);
    Split(d.year, d.month, d.day);
    Split(last.year, last.month, last.day);
    EveryDateCounted(over);
    CivilCounts(Days(d));
  }

  lemma {:induction false} DaysAhead(first: Date, k: nat)
    requires first.day == 1 && Valid(Date(first.year, first.month, 1 + k)) && Valid(first)
    ensures Days(Date(first.year, first.month, 1 + k)) == Days(first) + k
  {
    Split(first.year, first.month, 1);
    Split(first.year, first.month, 1 + k);
  }

  // ---- the order of events ----

  datatype Event = Event(date: string, epoch: Option<int>, position: nat)

  /** Dated events by instant, undated ones behind them by their text. */
  predicate EventOrder(a: Event, b: Event) {
    match (a.epoch, b.epoch)
    case (Some(x), Some(y)) => x <= y
    case (Some(_), None) => true
    case (None, Some(_)) => false
    case (None, None) => !TextLess(b.date, a.date)
  }

  predicate Listed(a: Event, b: Event) {
    a.position < b.position
  }

  lemma {:induction false} TextOrder(a: string, b: string, c: string)
    ensures !TextLess(a, b) || !TextLess(b, a)
    ensures TextLess(a, b) || TextLess(b, a) || a == b
    ensures TextLess(a, b) && TextLess(b, c) ==> TextLess(a, c)
  {
    if a != "" && b != "" && c != "" {
      TextOrder(a[1..], b[1..], c[1..]);
      assert a == [a[0]] + a[1..] && b == [b[0]] + b[1..];
    } else if a != "" && b != "" {
      TextOrder(a[1..], b[1..], c);
      assert a == [a[0]] + a[1..] && b == [b[0]] + b[1..];
    }
  }

  lemma EventOrderIsOrder()
    ensures TotalPreorder(EventOrder)
  {
    forall a: Event, b: Event, c: Event ensures EventOrder(a, b) || EventOrder(b, a)
                                        ensures EventOrder(a, b) && EventOrder(b, c) ==> EventOrder(a, c)
    {
      TextOrder(a.date, b.date, c.date);
      TextOrder(c.date, b.date, a.date);
      TextOrder(a.date, c.date, b.date);
      TextOrder(c.date, a.date, b.date);
    }
  }

  /** `sort_events`: equal events keep the order they were extracted in. */
  method SortEvents(events: seq<Event>) returns (sorted: seq<Event>)
    requires forall i, j :: 0 <= i < j < |events| ==> Listed(events[i], events[j])
    ensures multiset(sorted) == multiset(events)
    ensures forall i, j :: 0 <= i < j < |sorted| && sorted[j].epoch.Some? ==>
              && sorted[i].epoch.Some? && sorted[i].epoch.value <= sorted[j].epoch.value
              && (sorted[i].epoch == sorted[j].epoch ==> sorted[i].position < sorted[j].position)
    ensures forall i, j :: 0 <= i < j < |sorted| && sorted[i].epoch.None? ==>
              && sorted[j].epoch.None? && !TextLess(sorted[j].date, sorted[i].date)
              && (sorted[i].date == sorted[j].date ==> sorted[i].position < sorted[j].position)
  {
    EventOrderIsOrder();
    sorted := StableSort(events, EventOrder, Listed);
  }
}
