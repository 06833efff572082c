/** `_fmt_duration`, which the three report programs (the P&L check, the
    CSV export and the dashboard) each define with the same body: a whole
    number of seconds shown as "Xd Yh Zm", "Yh Zm" or "Zm". */
module Durations {
  import opened Common

  /** The whole days, hours and minutes of a number of seconds, computed
      with Python's floor division and modulo (which agree with Dafny's for
      the positive divisors used here). */
  datatype Parts = Parts(days: int, hours: nat, minutes: nat)

  function Breakdown(seconds: int): (p: Parts)
    ensures p.hours < 24 && p.minutes < 60
    ensures 86400 * p.days + 3600 * p.hours + 60 * p.minutes <= seconds
    ensures seconds < 86400 * p.days + 3600 * p.hours + 60 * p.minutes + 60
    ensures 86400 * p.days + 3600 * p.hours + 60 * p.minutes == seconds - seconds % 60
    ensures seconds >= 0 ==> p.days >= 0
  {
    var days := seconds / 86400;
    var inDay := seconds % 86400;
    var hours := inDay / 3600;
    var inHour := inDay % 3600;
    Mod3600Unique(seconds, 24 * days + hours, inHour);
    var minutes := (seconds % 3600) / 60;
    Mod60Unique(seconds, 1440 * days + 60 * hours + minutes, inHour % 60);
    Parts(days, hours, minutes)
  }

  /** The remainder by 3600 is the only one that rebuilds `s`. */
  lemma Mod3600Unique(s: int, q: int, r: int)
    requires 0 <= r < 3600 && s == 3600 * q + r
    ensures s % 3600 == r
  {
  }

  /** The remainder by 60 is the only one that rebuilds `s`. */
  lemma Mod60Unique(s: int, q: int, r: int)
    requires 0 <= r < 60 && s == 60 * q + r
    ensures s % 60 == r
  {
  }

  function DigitChar(d: nat): char
    requires d < 10
  {
    ('0' as int + d) as char
  }

  predicate IsDigit(c: char)
  {
    '0' <= c <= '9'
  }

  /** Python's `str(n)` for a non-negative integer. */
  function NatToString(n: nat): (s: string)
    ensures |s| >= 1
    ensures forall i :: 0 <= i < |s| ==> IsDigit(s[i])
  {
    if n < 10 then [DigitChar(n)] else NatToString(n / 10) + [DigitChar(n % 10)]
  }

  /** The decimal value of a string of digits. */
  function ParseDigits(s: string): int
  {
    if s == [] then 0
    else 10 * ParseDigits(s[..|s| - 1]) + (s[|s| - 1] as int - '0' as int)
  }

  lemma {:induction false} ParseNatToString(n: nat)
    ensures ParseDigits(NatToString(n)) == n
  {
    var s := NatToString(n);
    if n >= 10 {
      ParseNatToString(n / 10);
      assert s[..|s| - 1] == NatToString(n / 10);
    }
  }

  function MinutesText(minutes: nat): string
  {
    NatToString(minutes) + "m"
  }

  function HoursText(hours: nat, minutes: nat): string
  {
    NatToString(hours) + "h " + MinutesText(minutes)
  }

  function DaysText(days: nat, hours: nat, minutes: nat): string
  {
    NatToString(days) + "d " + HoursText(hours, minutes)
  }

  /** `_fmt_duration`: days are shown only when positive, hours only when
      days or hours are positive, minutes always. */
  function FmtDuration(seconds: int): (r: string)
    ensures r != [] && r[|r| - 1] == 'm'
    ensures ('d' in r) <==> Breakdown(seconds).days > 0
    ensures ('h' in r) <==> Breakdown(seconds).days > 0 || Breakdown(seconds).hours > 0
  {
    var p := Breakdown(seconds);
    var m := MinutesText(p.minutes);
    var hm := HoursText(p.hours, p.minutes);
    assert 'd' !in m && 'h' !in m by {
      assert forall i :: 0 <= i < |m| - 1 ==> IsDigit(m[i]);
    }
    assert 'd' !in hm by {
      assert forall i :: 0 <= i < |NatToString(p.hours)| ==> IsDigit(hm[i]);
      assert hm[|NatToString(p.hours)|..] == "h " + m;
    }
    if p.days > 0 then
      var r := DaysText(p.days, p.hours, p.minutes);
      assert r[|NatToString(p.days)|] == 'd';
      assert r[|NatToString(p.days)| + 2 + |NatToString(p.hours)|] == 'h';
      Shape(p)
    else if p.hours > 0 then
      assert hm[|NatToString(p.hours)|] == 'h';
      Shape(p)
    else
      Shape(p)
  }

  /** The text for given days, hours and minutes: days shown only when
      positive, hours only when days or hours are positive. */
  function Shape(p: Parts): string
  {
    if p.days > 0 then DaysText(p.days, p.hours, p.minutes)
    else if p.hours > 0 then HoursText(p.hours, p.minutes)
    else MinutesText(p.minutes)
  }

  /** Reads back the text `_fmt_duration` writes: space-separated groups of
      digits each followed by a unit letter d, h or m; the value is in
      seconds. */
  function ReadDuration(s: string): Option<int>
  {
    ReadGroups(s, 0)
  }

  /** The length of the run of digits that starts `s`. */
  function LeadingDigits(s: string): (n: nat)
    ensures n <= |s|
  {
    if s == [] || !IsDigit(s[0]) then 0 else 1 + LeadingDigits(s[1..])
  }

  function UnitSeconds(c: char): nat
  {
    if c == 'd' then 86400 else if c == 'h' then 3600 else if c == 'm' then 60 else 0
  }

  /** `v` units of `unit`, in seconds. */
  function Scaled(v: int, unit: char): int
  {
    if unit == 'd' then 86400 * v else if unit == 'h' then 3600 * v else if unit == 'm' then 60 * v else 0
  }

  function ReadGroups(s: string, acc: int): Option<int>
    decreases |s|
  {
    var k := LeadingDigits(s);
    if k == 0 || k == |s| || UnitSeconds(s[k]) == 0 then None
    else
      var total := acc + Scaled(ParseDigits(s[..k]), s[k]);
      if k + 1 == |s| then Some(total)
      else if s[k + 1] == ' ' then ReadGroups(s[k + 2..], total)
      else None
  }

  lemma {:induction false} LeadingDigitsOf(n: nat, rest: string)
    requires rest == [] || !IsDigit(rest[0])
    ensures LeadingDigits(NatToString(n) + rest) == |NatToString(n)|
    ensures (NatToString(n) + rest)[..|NatToString(n)|] == NatToString(n)
  {
    var d := NatToString(n);
    LeadingDigitsPrefix(d, rest);
  }

  lemma {:induction false} LeadingDigitsPrefix(d: string, rest: string)
    requires forall i :: 0 <= i < |d| ==> IsDigit(d[i])
    requires rest == [] || !IsDigit(rest[0])
    ensures LeadingDigits(d + rest) == |d|
  {
    if d != [] {
      assert (d + rest)[1..] == d[1..] + rest;
      LeadingDigitsPrefix(d[1..], rest);
    } else {
      assert d + rest == rest;
    }
  }

  /** A group "<digits><unit> " followed by more groups; `g` is the unit
      letter and the space. */
  lemma ReadDigitsThen(d: string, g: string, rest: string, acc: int)
    requires d != [] && forall i :: 0 <= i < |d| ==> IsDigit(d[i])
    requires |g| == 2 && g[1] == ' ' && UnitSeconds(g[0]) > 0
    ensures ReadGroups(d + g + rest, acc) == ReadGroups(rest, acc + Scaled(ParseDigits(d), g[0]))
  {
    var s := d + g + rest;
    assert s == d + (g + rest);
    LeadingDigitsPrefix(d, g + rest);
    var k := |d|;
    assert s[..k] == d && s[k] == g[0] && s[k + 1] == ' ' && s[k + 2..] == rest;
  }

  /** The final group "<n><unit>"; `g` is the unit letter. */
  lemma {:induction false} ReadLastGroup(n: nat, g: string, acc: int)
    requires |g| == 1 && UnitSeconds(g[0]) > 0
    ensures ReadGroups(NatToString(n) + g, acc) == Some(acc + Scaled(n, g[0]))
  {
    var d := NatToString(n);
    LeadingDigitsOf(n, g);
    ParseNatToString(n);
    assert (d + g)[|d|] == g[0];
  }

  lemma {:induction false} ReadMinutesText(minutes: nat, acc: int)
    ensures ReadGroups(MinutesText(minutes), acc) == Some(acc + 60 * minutes)
  {
    assert MinutesText(minutes) == NatToString(minutes) + "m";
    ReadLastGroup(minutes, "m", acc);
  }

  lemma {:induction false} ReadHoursText(hours: nat, minutes: nat, acc: int)
    ensures ReadGroups(HoursText(hours, minutes), acc) == Some(acc + 3600 * hours + 60 * minutes)
  {
    assert HoursText(hours, minutes) == NatToString(hours) + "h " + MinutesText(minutes);
    assert acc + Scaled(hours, 'h') == acc + 3600 * hours;
    ParseNatToString(hours);
    ReadDigitsThen(NatToString(hours), "h ", MinutesText(minutes), acc);
    ReadMinutesText(minutes, acc + 3600 * hours);
  }

  lemma {:induction false} ReadDaysText(days: nat, hours: nat, minutes: nat)
    ensures ReadGroups(DaysText(days, hours, minutes), 0) == Some(86400 * days + 3600 * hours + 60 * minutes)
  {
    calc {
      ReadGroups(DaysText(days, hours, minutes), 0);
      ReadGroups(NatToString(days) + "d " + HoursText(hours, minutes), 0);
      { ParseNatToString(days);
        ReadDigitsThen(NatToString(days), "d ", HoursText(hours, minutes), 0); }
      ReadGroups(HoursText(hours, minutes), 0 + Scaled(days, 'd'));
      ReadGroups(HoursText(hours, minutes), 86400 * days);
      { ReadHoursText(hours, minutes, 86400 * days); }
      Some(86400 * days + 3600 * hours + 60 * minutes);
    }
  }


  /** Each of the three shapes reads back as its days, hours and minutes. */
  lemma ReadShape(p: Parts)
    requires p.days >= 0
    ensures ReadDuration(Shape(p)) == Some(86400 * p.days + 3600 * p.hours + 60 * p.minutes)
  {
    if p.days > 0 {
      ReadDaysShape(p);
    } else if p.hours > 0 {
      ReadHoursShape(p);
    } else {
      ReadMinutesShape(p);
    }
  }

  lemma ReadDaysShape(p: Parts)
    requires p.days > 0
    ensures ReadDuration(Shape(p)) == Some(86400 * p.days + 3600 * p.hours + 60 * p.minutes)
  {
    assert Shape(p) == DaysText(p.days, p.hours, p.minutes);
    ReadDaysText(p.days, p.hours, p.minutes);
  }

  lemma ReadHoursShape(p: Parts)
    requires p.days == 0 && p.hours > 0
    ensures ReadDuration(Shape(p)) == Some(86400 * p.days + 3600 * p.hours + 60 * p.minutes)
  {
    assert Shape(p) == HoursText(p.hours, p.minutes);
    ReadHoursText(p.hours, p.minutes, 0);
  }

  lemma ReadMinutesShape(p: Parts)
    requires p.days == 0 && p.hours == 0
    ensures ReadDuration(Shape(p)) == Some(86400 * p.days + 3600 * p.hours + 60 * p.minutes)
  {
    assert Shape(p) == MinutesText(p.minutes);
    ReadMinutesText(p.minutes, 0);
  }

  /** Formatting then reading back yields the seconds rounded down to a
      whole minute: nothing but the sub-minute remainder is lost. */
  lemma ReadFmtDuration(seconds: int)
    requires seconds >= 0
    ensures ReadDuration(FmtDuration(seconds)) == Some(seconds - seconds % 60)
  {
    ReadShape(Breakdown(seconds));
  }
}
