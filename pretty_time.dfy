/**
  The faucet's human-readable duration, `pretty_time_delta` in faucet.py.

  Instants are integers counting microseconds (the resolution of Python's
  `datetime`). The formatter takes the difference of two instants, truncates
  it toward zero to whole seconds, drops the sign, splits the total into
  days, hours, minutes and seconds with a chain of `divmod`s, and prints the
  units from the largest non-zero one down to seconds.
*/
module PrettyTime {
  import opened Wrappers

  const MicrosPerSecond: nat := 1_000_000
  const SecondsPerMinute: nat := 60
  const SecondsPerHour: nat := 3600
  const SecondsPerDay: nat := 86400

  function Abs(x: int): nat {
    if x < 0 then -x else x
  }

  /** `int(...)` applied to a difference of `micros` microseconds expressed in seconds:
      the quotient truncated toward zero (not Dafny's Euclidean division). */
  function TruncSeconds(micros: int): (s: int)
    ensures micros >= 0 ==> 0 <= s && s * MicrosPerSecond <= micros < (s + 1) * MicrosPerSecond
    ensures micros < 0 ==> s <= 0 && (s - 1) * MicrosPerSecond < micros <= s * MicrosPerSecond
  {
    if micros >= 0 then micros / MicrosPerSecond else -((-micros) / MicrosPerSecond)
  }

  /** `abs(int((start - end).total_seconds()))`: the whole seconds between two instants. */
  function WholeSeconds(start: int, end: int): (n: nat)
    ensures n * MicrosPerSecond <= Abs(start - end) < (n + 1) * MicrosPerSecond
  {
    Abs(TruncSeconds(start - end))
  }

  /** A total number of seconds split into units. */
  datatype Breakdown = Breakdown(days: nat, hours: nat, minutes: nat, seconds: nat)

  function TotalSeconds(b: Breakdown): nat {
    b.days * SecondsPerDay + b.hours * SecondsPerHour + b.minutes * SecondsPerMinute + b.seconds
  }

  predicate Normal(b: Breakdown) {
    b.hours < 24 && b.minutes < 60 && b.seconds < 60
  }

  /** The `divmod` chain by 86400, 3600 and 60. */
  function Decompose(total: nat): (b: Breakdown)
    ensures Normal(b) && TotalSeconds(b) == total
  {
    var days, afterDays := total / SecondsPerDay, total % SecondsPerDay;
    var hours, afterHours := afterDays / SecondsPerHour, afterDays % SecondsPerHour;
    var minutes, seconds := afterHours / SecondsPerMinute, afterHours % SecondsPerMinute;
    Breakdown(days, hours, minutes, seconds)
  }

  /** Only one normal breakdown has a given total, so Decompose is the inverse of TotalSeconds. */
  lemma {:induction false} DecomposeTotal(b: Breakdown)
    requires Normal(b)
    ensures Decompose(TotalSeconds(b)) == b
  {
    var total := TotalSeconds(b);
    var c := Decompose(total);
    var below := b.hours * SecondsPerHour + b.minutes * SecondsPerMinute + b.seconds;
    var belowC := c.hours * SecondsPerHour + c.minutes * SecondsPerMinute + c.seconds;
    assert below < SecondsPerDay && belowC < SecondsPerDay;
    QuotientUnique(b.days, below, c.days, belowC, SecondsPerDay);
    var belowH := b.minutes * SecondsPerMinute + b.seconds;
    var belowHC := c.minutes * SecondsPerMinute + c.seconds;
    QuotientUnique(b.hours, belowH, c.hours, belowHC, SecondsPerHour);
    QuotientUnique(b.minutes, b.seconds, c.minutes, c.seconds, SecondsPerMinute);
  }

  lemma QuotientUnique(q: nat, r: nat, q': nat, r': nat, d: nat)
    requires 0 < d && r < d && r' < d && q * d + r == q' * d + r'
    ensures q == q' && r == r'
  {
    if q < q' {
      MulMonotone(q + 1, q', d);
    } else if q' < q {
      MulMonotone(q' + 1, q, d);
    }
  }

  lemma MulMonotone(a: nat, b: nat, d: nat)
    requires a <= b
    ensures a * d <= b * d
  {
  }

  predicate IsDigit(c: char) {
    '0' <= c <= '9'
  }

  predicate AllDigits(s: string) {
    s == [] || (IsDigit(s[0]) && AllDigits(s[1..]))
  }

  lemma {:induction false} AllDigitsAppend(s: string, c: char)
    requires AllDigits(s) && IsDigit(c)
    ensures AllDigits(s + [c])
  {
    if s != [] {
      assert (s + [c])[1..] == s[1..] + [c];
      AllDigitsAppend(s[1..], c);
    }
  }

  function DigitChar(d: nat): (c: char)
    requires d < 10
    ensures IsDigit(c) && c as int - '0' as int == d
  {
    ('0' as int + d) as char
  }

  /** Python's `'%d'` of a non-negative integer: its decimal digits, without leading zeros. */
  function Decimal(n: nat): (s: string)
    ensures |s| >= 1
    ensures (s[0] == '0') == (n == 0)
  {
    if n < 10 then [DigitChar(n)] else Decimal(n / 10) + [DigitChar(n % 10)]
  }

  lemma {:induction false} DecimalDigits(n: nat)
    ensures AllDigits(Decimal(n))
  {
    if n < 10 {
      assert Decimal(n)[1..] == [];
    } else {
      DecimalDigits(n / 10);
      AllDigitsAppend(Decimal(n / 10), DigitChar(n % 10));
    }
  }

  function DigitValue(c: char): nat {
    if IsDigit(c) then c as int - '0' as int else 0
  }

  /** The number a string of decimal digits denotes. */
  function DecimalValue(s: string): nat {
    if s == [] then 0 else DecimalValue(s[..|s| - 1]) * 10 + DigitValue(s[|s| - 1])
  }

  lemma {:induction false} DecimalRoundTrip(n: nat)
    ensures DecimalValue(Decimal(n)) == n
  {
    if n >= 10 {
      DecimalRoundTrip(n / 10);
      var s := Decimal(n);
      assert s[..|s| - 1] == Decimal(n / 10);
    }
  }

  /** The formatting step of pretty_time_delta: from the largest non-zero unit down to seconds. */
  function Format(b: Breakdown): (r: string)
    ensures |r| >= 2 && r[|r| - 1] == 's'
    ensures (r[0] == '0') == (TotalSeconds(b) == 0)
  {
    if b.days > 0 then
      Decimal(b.days) + "d" + Decimal(b.hours) + "h" + Decimal(b.minutes) + "m" + Decimal(b.seconds) + "s"
    else if b.hours > 0 then
      Decimal(b.hours) + "h" + Decimal(b.minutes) + "m" + Decimal(b.seconds) + "s"
    else if b.minutes > 0 then
      Decimal(b.minutes) + "m" + Decimal(b.seconds) + "s"
    else
      Decimal(b.seconds) + "s"
  }

  /** pretty_time_delta on a whole number of seconds. */
  function FormatSeconds(total: nat): string {
    Format(Decompose(total))
  }

  /** pretty_time_delta(start, end): its text reads back as the whole seconds between the instants. */
  function PrettyTimeDelta(start: int, end: int): (r: string)
    ensures ParseDelta(r) == Some(WholeSeconds(start, end))
  {
    ParseFormatRoundTrip(WholeSeconds(start, end));
    FormatSeconds(WholeSeconds(start, end))
  }

  /** Only the absolute, truncated difference matters: the argument order does not. */
  lemma PrettyTimeDeltaSymmetric(start: int, end: int)
    ensures PrettyTimeDelta(start, end) == PrettyTimeDelta(end, start)
  {
    assert TruncSeconds(end - start) == -TruncSeconds(start - end);
    assert WholeSeconds(start, end) == WholeSeconds(end, start);
  }

  /** The four shapes of the output, stated on the total: units above the largest
      non-zero one are omitted, every unit below it down to seconds is printed. */
  lemma FormatSecondsCases(total: nat)
    ensures total < 60 ==>
      FormatSeconds(total) == Decimal(total) + "s"
    ensures 60 <= total < 3600 ==>
      FormatSeconds(total) == Decimal(total / 60) + "m" + Decimal(total % 60) + "s"
    ensures 3600 <= total < 86400 ==>
      FormatSeconds(total) == Decimal(total / 3600) + "h" + Decimal(total % 3600 / 60) + "m" + Decimal(total % 60) + "s"
    ensures 86400 <= total ==>
      FormatSeconds(total) ==
        Decimal(total / 86400) + "d" + Decimal(total % 86400 / 3600) + "h" + Decimal(total % 3600 / 60) + "m" + Decimal(total % 60) + "s"
  {
    var b := Breakdown(total / 86400, total % 86400 / 3600, total % 3600 / 60, total % 60);
    DecomposeClosed(total);
    assert FormatSeconds(total) == Format(b);
    if total < 60 {
      assert b.days == 0 && b.hours == 0 && b.minutes == 0 && b.seconds == total;
    } else if total < 3600 {
      assert b.days == 0 && b.hours == 0 && b.minutes == total / 60 > 0;
    } else if total < 86400 {
      assert b.days == 0 && b.hours == total / 3600 > 0;
    } else {
      assert b.days > 0;
    }
  }

  /** The `divmod` chain in closed form: each unit is computed from the total alone. */
  lemma DecomposeClosed(total: nat)
    ensures Decompose(total) == Breakdown(total / 86400, total % 86400 / 3600, total % 3600 / 60, total % 60)
  {
    var r := total % 86400;
    var q := total / 86400;
    assert total == (24 * q + r / 3600) * 3600 + r % 3600;
    QuotientUnique(total / 3600, total % 3600, 24 * q + r / 3600, r % 3600, 3600);
    var h := total % 3600;
    assert h == (h / 60) * 60 + h % 60;
    assert total == (60 * (total / 3600) + h / 60) * 60 + h % 60;
    QuotientUnique(total / 60, total % 60, 60 * (total / 3600) + h / 60, h % 60, 60);
  }

  /** The output starts with the digit zero exactly when the two instants are less than a second apart. */
  lemma FormatSecondsLeadingZero(total: nat)
    ensures (FormatSeconds(total)[0] == '0') == (total == 0)
  {
  }

  lemma FormatSecondsExamples()
    ensures FormatSeconds(0) == "0s"
    ensures FormatSeconds(59) == "59s"
  {
    FormatSecondsCases(0);
    FormatSecondsCases(59);
    assert Decimal(59) == Decimal(5) + "9";
  }

  lemma FormatSecondsExamplesMinutes()
    ensures FormatSeconds(60) == "1m0s"
    ensures FormatSeconds(61) == "1m1s"
  {
    FormatSecondsCases(60);
    FormatSecondsCases(61);
  }

  lemma FormatSecondsExamplesHours()
    ensures FormatSeconds(3600) == "1h0m0s"
    ensures FormatSeconds(3661) == "1h1m1s"
  {
    FormatSecondsCases(3600);
    FormatSecondsCases(3661);
  }

  lemma FormatSecondsExamplesDays()
    ensures FormatSeconds(90000) == "1d1h0m0s"
    ensures FormatSeconds(90061) == "1d1h1m1s"
  {
    FormatSecondsCases(90000);
    FormatSecondsCases(90061);
  }

  // A reader for the formatter's output, used to show that no information is lost.

  predicate IsUnit(c: char) {
    c == 'd' || c == 'h' || c == 'm' || c == 's'
  }

  /** n in the unit c, in seconds. */
  function Scale(n: nat, c: char): nat
    requires IsUnit(c)
  {
    if c == 'd' then n * SecondsPerDay
    else if c == 'h' then n * SecondsPerHour
    else if c == 'm' then n * SecondsPerMinute
    else n
  }

  /** The longest prefix of digits and what follows it. */
  function SplitDigits(s: string): (r: (string, string))
    ensures |r.1| <= |s|
  {
    if s != [] && IsDigit(s[0]) then
      var (digits, rest) := SplitDigits(s[1..]);
      ([s[0]] + digits, rest)
    else
      ([], s)
  }

  /** Reads a sequence of groups of digits each followed by one of d, h, m, s, and adds them up in seconds. */
  function ParseDelta(s: string): Option<nat>
    decreases |s|
  {
    var (digits, rest) := SplitDigits(s);
    if digits == [] || rest == [] || !IsUnit(rest[0]) then None
    else
      var amount := Scale(DecimalValue(digits), rest[0]);
      if |rest| == 1 then Some(amount)
      else
        match ParseDelta(rest[1..])
        case None => None
        case Some(more) => Some(amount + more)
  }

  lemma {:induction false} SplitDigitsPrefix(digits: string, rest: string)
    requires AllDigits(digits)
    requires rest != [] && !IsDigit(rest[0])
    ensures SplitDigits(digits + rest) == (digits, rest)
  {
    if digits == [] {
      assert digits + rest == rest;
    } else {
      var s := digits + rest;
      assert s != [] && IsDigit(s[0]);
      assert s[1..] == digits[1..] + rest;
      SplitDigitsPrefix(digits[1..], rest);
      assert SplitDigits(s) == ([s[0]] + digits[1..], rest);
      assert [digits[0]] + digits[1..] == digits;
    }
  }

  /** Splitting a group of digits followed by its unit and the rest of the text. */
  lemma SplitGroup(digits: string, c: char, rest: string)
    requires digits != [] && AllDigits(digits) && IsUnit(c)
    ensures SplitDigits(digits + [c] + rest) == (digits, [c] + rest)
  {
    assert digits + [c] + rest == digits + ([c] + rest);
    SplitDigitsPrefix(digits, [c] + rest);
  }

  /** Reading the last group of digits and its unit. */
  lemma ParseLastGroup(digits: string, c: char)
    requires digits != [] && AllDigits(digits) && IsUnit(c)
    ensures ParseDelta(digits + [c]) == Some(Scale(DecimalValue(digits), c))
  {
    SplitGroup(digits, c, []);
    assert digits + [c] + [] == digits + [c];
  }

  /** Reading one group of digits and its unit, followed by more groups worth `more` seconds. */
  lemma ParseGroup(digits: string, c: char, rest: string, more: nat)
    requires digits != [] && AllDigits(digits) && IsUnit(c)
    requires rest != [] && ParseDelta(rest) == Some(more)
    ensures ParseDelta(digits + [c] + rest) == Some(Scale(DecimalValue(digits), c) + more)
  {
    SplitGroup(digits, c, rest);
    assert ([c] + rest)[1..] == rest;
  }

  /** A formatted duration seen as a list of (amount, unit) groups. */
  function Render(groups: seq<(nat, char)>): string {
    if groups == [] then [] else Decimal(groups[0].0) + [groups[0].1] + Render(groups[1..])
  }

  function Sum(groups: seq<(nat, char)>): nat
    requires Units(groups)
  {
    if groups == [] then 0 else Scale(groups[0].0, groups[0].1) + Sum(groups[1..])
  }

  predicate Units(groups: seq<(nat, char)>) {
    forall i :: 0 <= i < |groups| ==> IsUnit(groups[i].1)
  }

  lemma {:induction false} ParseRender(groups: seq<(nat, char)>)
    requires groups != [] && Units(groups)
    ensures ParseDelta(Render(groups)) == Some(Sum(groups))
  {
    var n, c, tail := groups[0].0, groups[0].1, groups[1..];
    DecimalRoundTrip(n);
    DecimalDigits(n);
    if tail == [] {
      RenderCons(groups);
      assert Render(groups) == Decimal(n) + [c];
      ParseLastGroup(Decimal(n), c);
    } else {
      assert Units(tail) by {
        forall i | 0 <= i < |tail| ensures IsUnit(tail[i].1) {
          assert tail[i] == groups[i + 1];
        }
      }
      ParseRender(tail);
      RenderNonEmpty(tail);
      RenderCons(groups);
      ParseGroup(Decimal(n), c, Render(tail), Sum(tail));
    }
  }

  /** One step of rendering: the first group, then the others. */
  lemma RenderCons(groups: seq<(nat, char)>)
    requires groups != []
    ensures Render(groups) == Decimal(groups[0].0) + [groups[0].1] + Render(groups[1..])
  {
  }

  lemma RenderNonEmpty(groups: seq<(nat, char)>)
    requires groups != []
    ensures Render(groups) != []
  {
    assert |Decimal(groups[0].0) + [groups[0].1]| > 0;
  }

  /** The groups pretty_time_delta prints for a breakdown. */
  function Shown(b: Breakdown): seq<(nat, char)> {
    if b.days > 0 then [(b.days, 'd'), (b.hours, 'h'), (b.minutes, 'm'), (b.seconds, 's')]
    else if b.hours > 0 then [(b.hours, 'h'), (b.minutes, 'm'), (b.seconds, 's')]
    else if b.minutes > 0 then [(b.minutes, 'm'), (b.seconds, 's')]
    else [(b.seconds, 's')]
  }

  lemma FormatRender(b: Breakdown)
    ensures Format(b) == Render(Shown(b))
  {
    RenderSeconds(b.seconds);
    RenderMinutes(b.minutes, b.seconds);
    RenderHours(b.hours, b.minutes, b.seconds);
    RenderDays(b.days, b.hours, b.minutes, b.seconds);
  }

  lemma RenderSeconds(s: nat)
    ensures Render([(s, 's')]) == Decimal(s) + "s"
  {
    RenderCons([(s, 's')]);
    assert [(s, 's')][1..] == [];
  }

  lemma RenderMinutes(m: nat, s: nat)
    ensures Render([(m, 'm'), (s, 's')]) == Decimal(m) + "m" + Decimal(s) + "s"
  {
    RenderCons([(m, 'm'), (s, 's')]);
    assert [(m, 'm'), (s, 's')][1..] == [(s, 's')];
    RenderSeconds(s);
    Associate(Decimal(m) + "m", Decimal(s), "s");
  }

  lemma RenderHours(h: nat, m: nat, s: nat)
    ensures Render([(h, 'h'), (m, 'm'), (s, 's')]) == Decimal(h) + "h" + Decimal(m) + "m" + Decimal(s) + "s"
  {
    RenderCons([(h, 'h'), (m, 'm'), (s, 's')]);
    assert [(h, 'h'), (m, 'm'), (s, 's')][1..] == [(m, 'm'), (s, 's')];
    RenderMinutes(m, s);
    Associate(Decimal(h) + "h", Decimal(m) + "m" + Decimal(s), "s");
    Associate(Decimal(h) + "h", Decimal(m) + "m", Decimal(s));
    Associate(Decimal(h) + "h", Decimal(m), "m");
  }

  lemma RenderDays(d: nat, h: nat, m: nat, s: nat)
    ensures Render([(d, 'd'), (h, 'h'), (m, 'm'), (s, 's')]) ==
      Decimal(d) + "d" + Decimal(h) + "h" + Decimal(m) + "m" + Decimal(s) + "s"
  {
    RenderCons([(d, 'd'), (h, 'h'), (m, 'm'), (s, 's')]);
    assert [(d, 'd'), (h, 'h'), (m, 'm'), (s, 's')][1..] == [(h, 'h'), (m, 'm'), (s, 's')];
    RenderHours(h, m, s);
    var x := Decimal(d) + "d";
    Associate(x, Decimal(h) + "h" + Decimal(m) + "m" + Decimal(s), "s");
    Associate(x, Decimal(h) + "h" + Decimal(m) + "m", Decimal(s));
    Associate(x, Decimal(h) + "h" + Decimal(m), "m");
    Associate(x, Decimal(h) + "h", Decimal(m));
    Associate(x, Decimal(h), "h");
  }

  lemma Associate(a: string, b: string, c: string)
    ensures a + (b + c) == a + b + c
  {
  }

  lemma SumShown(b: Breakdown)
    ensures Units(Shown(b)) && Sum(Shown(b)) == TotalSeconds(b)
  {
    var last := [(b.seconds, 's')];
    assert Sum(last) == b.seconds by {
      assert last[1..] == [];
    }
    var m := [(b.minutes, 'm')] + last;
    assert Sum(m) == b.minutes * 60 + b.seconds by {
      assert m[1..] == last;
    }
    var h := [(b.hours, 'h')] + m;
    assert Sum(h) == b.hours * 3600 + b.minutes * 60 + b.seconds by {
      assert h[1..] == m;
    }
    var d := [(b.days, 'd')] + h;
    assert Sum(d) == TotalSeconds(b) by {
      assert d[1..] == h;
    }
    if b.days > 0 {
      assert Shown(b) == d;
    } else if b.hours > 0 {
      assert Shown(b) == h;
    } else if b.minutes > 0 {
      assert Shown(b) == m;
    } else {
      assert Shown(b) == last;
    }
  }

  /** Reading the output back gives the total that was formatted. */
  lemma ParseFormatRoundTrip(total: nat)
    ensures ParseDelta(FormatSeconds(total)) == Some(total)
  {
    var b := Decompose(total);
    FormatRender(b);
    SumShown(b);
    ParseRender(Shown(b));
  }

  /** Different totals are never formatted the same way. */
  lemma FormatSecondsInjective(a: nat, b: nat)
    requires FormatSeconds(a) == FormatSeconds(b)
    ensures a == b
  {
    ParseFormatRoundTrip(a);
    ParseFormatRoundTrip(b);
  }

  /** The message text always reads back as the whole seconds between the two instants. */
  lemma PrettyTimeDeltaReadsBack(start: int, end: int)
    ensures ParseDelta(PrettyTimeDelta(start, end)).Some?
    ensures var n := ParseDelta(PrettyTimeDelta(start, end)).value;
      n * MicrosPerSecond <= Abs(start - end) < (n + 1) * MicrosPerSecond
  {
    ParseFormatRoundTrip(WholeSeconds(start, end));
  }
}
