/**
 * Text forms of dates and times: `date.isoformat()`, `strftime("%H:%M:%S")`,
 * `datetime.isoformat()`, and `datetime.strptime(s, "%Y-%m-%d")`.
 */
module DateText {
  import opened Common
  import opened Text
  import opened Calendar

  predicate AllDigits(s: string) {
    forall k :: 0 <= k < |s| ==> IsDigit(s[k])
  }

  /** Python's `int(s)` on a string of ASCII digits. */
  function DigitsValue(s: string): (n: nat)
    requires AllDigits(s)
  {
    if s == [] then 0 else DigitsValue(s[..|s| - 1]) * 10 + DigitValue(s[|s| - 1])
  }

  /** `"%02d" % n`. */
  function Pad2(n: int): (r: string)
    requires 0 <= n < 100
    ensures |r| == 2 && AllDigits(r) && DigitsValue(r) == n
  {
    var r := [DigitChar(n / 10), DigitChar(n % 10)];
    assert r[..1] == [DigitChar(n / 10)] && r[..1][..0] == [];
    DigitRoundTrip(n / 10);
    DigitRoundTrip(n % 10);
    assert DigitsValue(r[..1]) == n / 10;
    r
  }

  /** `"%04d" % n`. */
  function Pad4(n: int): (r: string)
    requires 0 <= n < 10000
    ensures |r| == 4 && AllDigits(r) && DigitsValue(r) == n
  {
    var r := Pad2(n / 100) + Pad2(n % 100);
    assert r[..3] == Pad2(n / 100) + [r[2]];
    assert r[..2] == Pad2(n / 100);
    r
  }

  /** `"%06d" % n`. */
  function Pad6(n: int): (r: string)
    requires 0 <= n < 1000000
    ensures |r| == 6 && AllDigits(r) && DigitsValue(r) == n
  {
    var r := Pad4(n / 100) + Pad2(n % 100);
    assert r[..5] == Pad4(n / 100) + [r[4]];
    assert r[..4] == Pad4(n / 100);
    r
  }

  /** `date.isoformat()`: `YYYY-MM-DD`, zero-padded. */
  function DateIso(d: Date): (r: string)
    requires ValidDate(d)
    ensures |r| == 10 && r[4] == '-' && r[7] == '-'
    ensures AllDigits(r[..4]) && DigitsValue(r[..4]) == d.year
    ensures AllDigits(r[5..7]) && DigitsValue(r[5..7]) == d.month
    ensures AllDigits(r[8..]) && DigitsValue(r[8..]) == d.day
  {
    var r := Pad4(d.year) + "-" + Pad2(d.month) + "-" + Pad2(d.day);
    assert r[..4] == Pad4(d.year);
    assert r[5..7] == Pad2(d.month);
    assert r[8..] == Pad2(d.day);
    r
  }

  /** `strftime("%H:%M:%S")`: zero-padded, fractional seconds dropped. */
  function TimeHms(t: TimeOfDay): (r: string)
    requires ValidTime(t)
    ensures |r| == 8 && r[2] == ':' && r[5] == ':'
    ensures AllDigits(r[..2]) && DigitsValue(r[..2]) == t.hour
    ensures AllDigits(r[3..5]) && DigitsValue(r[3..5]) == t.minute
    ensures AllDigits(r[6..]) && DigitsValue(r[6..]) == t.second
  {
    var r := Pad2(t.hour) + ":" + Pad2(t.minute) + ":" + Pad2(t.second);
    assert r[..2] == Pad2(t.hour);
    assert r[3..5] == Pad2(t.minute);
    assert r[6..] == Pad2(t.second);
    r
  }

  /** A UTC offset in whole minutes, as `datetime.isoformat()` appends it: `+HH:MM` or `-HH:MM`. */
  function OffsetText(offset: Option<int>): (r: string)
    requires offset.Some? ==> -1440 < offset.value < 1440
    ensures offset.None? ==> r == ""
    ensures offset.Some? ==>
      var a := if offset.value < 0 then -offset.value else offset.value;
      |r| == 6 && r[0] == (if offset.value < 0 then '-' else '+') && r[3] == ':' &&
      AllDigits(r[1..3]) && DigitsValue(r[1..3]) == a / 60 &&
      AllDigits(r[4..]) && DigitsValue(r[4..]) == a % 60
  {
    match offset
    case None => ""
    case Some(o) =>
      var a := if o < 0 then -o else o;
      var r := [if o < 0 then '-' else '+'] + Pad2(a / 60) + ":" + Pad2(a % 60);
      assert r[1..3] == Pad2(a / 60) && r[4..] == Pad2(a % 60);
      r
  }

  /** The `.ffffff` part of `datetime.isoformat()`: present only when the microseconds are not zero. */
  function MicroText(micro: int): (r: string)
    requires 0 <= micro < 1000000
    ensures micro == 0 ==> r == ""
    ensures micro != 0 ==> |r| == 7 && r[0] == '.' && AllDigits(r[1..]) && DigitsValue(r[1..]) == micro
  {
    if micro == 0 then "" else
      var r := "." + Pad6(micro);
      assert r[1..] == Pad6(micro);
      r
  }

  /**
   * `datetime.isoformat()`: date, `T`, time, `.ffffff` only when the
   * microseconds are not zero, then the UTC offset of an aware value.
   */
  function DateTimeIso(dt: DateTime, offset: Option<int>): (r: string)
    requires ValidDateTime(dt)
    requires offset.Some? ==> -1440 < offset.value < 1440
    ensures |r| >= 19 && r[..10] == DateIso(dt.date) && r[10] == 'T' && r[11..19] == TimeHms(dt.time)
    ensures var f := if dt.time.micro != 0 then 7 else 0;
      |r| == 19 + f + (if offset.Some? then 6 else 0) &&
      r[19..19 + f] == MicroText(dt.time.micro) && r[19 + f..] == OffsetText(offset)
  {
    var date, time := DateIso(dt.date), TimeHms(dt.time);
    var head := date + "T" + time;
    var micro := MicroText(dt.time.micro);
    var tail := micro + OffsetText(offset);
    assert head[..10] == date && head[11..] == time;
    var r := head + tail;
    assert r[..19] == head;
    assert r[19..] == tail;
    assert tail[..|micro|] == micro && tail[|micro|..] == OffsetText(offset);
    r
  }

  // ---------------------------------------------------------------------------
  // strptime(s, "%Y-%m-%d")

  /** One position of a regular-expression alternative: a literal or a character range. */
  datatype CharClass = Lit(c: char) | Span(lo: char, hi: char)

  predicate ClassHas(k: CharClass, c: char) {
    match k
    case Lit(l) => c == l
    case Span(lo, hi) => lo <= c <= hi
  }

  /** `%m` in strptime's regex: `1[0-2]|0[1-9]|[1-9]`, tried in this order. */
  const MonthAlts: seq<seq<CharClass>> :=
    [[Lit('1'), Span('0', '2')], [Lit('0'), Span('1', '9')], [Span('1', '9')]]

  /** `%d` in strptime's regex: `3[01]|[12]\d|0[1-9]|[1-9]| [1-9]`, tried in this order. */
  const DayAlts: seq<seq<CharClass>> :=
    [[Lit('3'), Span('0', '1')], [Span('1', '2'), Span('0', '9')], [Lit('0'), Span('1', '9')],
     [Span('1', '9')], [Lit(' '), Span('1', '9')]]

  predicate MatchesAt(p: seq<CharClass>, s: string, i: nat) {
    i + |p| <= |s| && forall k :: 0 <= k < |p| ==> ClassHas(p[k], s[i + k])
  }

  /** The first alternative from index `a` on that matches at `i`, as the regex engine picks it. */
  function FirstMatch(alts: seq<seq<CharClass>>, s: string, i: nat, a: nat): (r: Option<nat>)
    ensures r.Some? ==> a <= r.value < |alts| && MatchesAt(alts[r.value], s, i)
    ensures r.Some? ==> forall b :: a <= b < r.value ==> !MatchesAt(alts[b], s, i)
    ensures r.None? ==> forall b :: a <= b < |alts| ==> !MatchesAt(alts[b], s, i)
    decreases |alts| - a
  {
    if a >= |alts| then None
    else if MatchesAt(alts[a], s, i) then Some(a)
    else FirstMatch(alts, s, i, a + 1)
  }

  /**
   * The `(month, day)` alternatives that the regex `\d\d\d\d-(month)-(day)`
   * settles on for `s`: month alternatives in order, backtracking to the next
   * one when no `-` and day can follow.
   */
  function MonthDayMatch(s: string, a: nat): (r: Option<(nat, nat)>)
    ensures r.Some? ==> a <= r.value.0 < |MonthAlts|
    ensures r.Some? && r.value.0 < |MonthAlts| ==>
      var m := |MonthAlts[r.value.0]|;
      MatchesAt(MonthAlts[r.value.0], s, 5) && 5 + m < |s| && s[5 + m] == '-' &&
      FirstMatch(DayAlts, s, 6 + m, 0) == Some(r.value.1)
    decreases |MonthAlts| - a
  {
    if a >= |MonthAlts| then None
    else
      var m := |MonthAlts[a]|;
      if MatchesAt(MonthAlts[a], s, 5) && 5 + m < |s| && s[5 + m] == '-'
         && FirstMatch(DayAlts, s, 6 + m, 0).Some?
      then Some((a, FirstMatch(DayAlts, s, 6 + m, 0).value))
      else MonthDayMatch(s, a + 1)
  }

  /** Python's `int()` of a regex group: digits, possibly after one leading space. */
  function GroupValue(g: string): nat {
    if g != [] && g[0] == ' ' && AllDigits(g[1..]) then DigitsValue(g[1..])
    else if AllDigits(g) then DigitsValue(g)
    else 0
  }

  /**
   * `datetime.strptime(s, "%Y-%m-%d").date()`, or None where Python raises
   * ValueError: no regex match, unconverted text after the match, or a day
   * that does not exist (year 0, February 30, ...).
   */
  function ParseYmd(s: string): (r: Option<Date>)
    ensures r.Some? ==> ValidDate(r.value)
  {
    if |s| < 5 || !AllDigits(s[..4]) || s[4] != '-' then None
    else
      match MonthDayMatch(s, 0)
      case None => None
      case Some((ma, da)) =>
        var m := |MonthAlts[ma]|;
        var d := |DayAlts[da]|;
        if 6 + m + d != |s| then None
        else
          var date := Date(DigitsValue(s[..4]), GroupValue(s[5..5 + m]), GroupValue(s[6 + m..]));
          if ValidDate(date) then Some(date) else None
  }

  /** The month alternative a two-digit month settles on: `1[0-2]` or `0[1-9]`. */
  function IsoMonthAlt(d: Date): nat {
    if d.month >= 10 then 0 else 1
  }

  /** The day alternative a two-digit day settles on: `3[01]`, `[12]\d` or `0[1-9]`. */
  function IsoDayAlt(d: Date): nat {
    if d.day >= 30 then 0 else if d.day >= 10 then 1 else 2
  }

  lemma IsoDayMatch(d: Date)
    requires ValidDate(d)
    ensures FirstMatch(DayAlts, DateIso(d), 8, 0) == Some(IsoDayAlt(d))
  {
    var s := DateIso(d);
    var da := IsoDayAlt(d);
    assert s[8] == DigitChar(d.day / 10) && s[9] == DigitChar(d.day % 10);
    assert MatchesAt(DayAlts[da], s, 8);
    assert da >= 1 ==> !ClassHas(DayAlts[0][0], s[8]);
    assert da >= 2 ==> !ClassHas(DayAlts[1][0], s[8]);
    assert forall b :: 0 <= b < da ==> !MatchesAt(DayAlts[b], s, 8);
  }

  lemma IsoMonthDayMatch(d: Date)
    requires ValidDate(d)
    ensures MonthDayMatch(DateIso(d), 0) == Some((IsoMonthAlt(d), IsoDayAlt(d)))
  {
    var s := DateIso(d);
    var ma := IsoMonthAlt(d);
    assert s[5] == DigitChar(d.month / 10) && s[6] == DigitChar(d.month % 10);
    assert MatchesAt(MonthAlts[ma], s, 5);
    IsoDayMatch(d);
    if ma == 1 {
      assert !ClassHas(MonthAlts[0][0], s[5]);
      assert MonthDayMatch(s, 0) == MonthDayMatch(s, 1);
    }
  }

  /** Every `date.isoformat()` text parses back to its date. */
  lemma ParseIsoRoundTrip(d: Date)
    requires ValidDate(d)
    ensures ParseYmd(DateIso(d)) == Some(d)
  {
    var s := DateIso(d);
    IsoMonthDayMatch(d);
    assert |MonthAlts[IsoMonthAlt(d)]| == 2 && |DayAlts[IsoDayAlt(d)]| == 2;
    assert s[5..7] == s[5..5 + |MonthAlts[IsoMonthAlt(d)]|];
    assert s[8..] == s[6 + |MonthAlts[IsoMonthAlt(d)]|..];
  }

  // ---------------------------------------------------------------------------
  // Which texts strptime(s, "%Y-%m-%d") accepts, stated without the regex

  /** A month field `%m` accepts: two digits for 1..12, or one digit for 1..9. */
  predicate MonthText(t: string, n: int) {
    AllDigits(t) && ((|t| == 2 && 1 <= n <= 12) || (|t| == 1 && 1 <= n <= 9)) && DigitsValue(t) == n
  }

  /** A day field `%d` accepts: two digits for 1..31, one digit for 1..9, or a space and one digit for 1..9. */
  predicate DayText(t: string, n: int) {
    (AllDigits(t) && ((|t| == 2 && 1 <= n <= 31) || (|t| == 1 && 1 <= n <= 9)) && DigitsValue(t) == n) ||
    (|t| == 2 && t[0] == ' ' && IsDigit(t[1]) && 1 <= n <= 9 && DigitValue(t[1]) == n)
  }

  /** `s` spells `d` with a month field of `ml` characters: `YYYY-M-D` with nothing after the day. */
  predicate SpelledWith(s: string, d: Date, ml: nat) {
    6 + ml <= |s| && AllDigits(s[..4]) && DigitsValue(s[..4]) == d.year && s[4] == '-' &&
    s[5 + ml] == '-' && MonthText(s[5..5 + ml], d.month) && DayText(s[6 + ml..], d.day)
  }

  /** The spellings of `d` in the `%Y-%m-%d` format: four-digit year, then month and day fields. */
  predicate Spells(s: string, d: Date) {
    SpelledWith(s, d, 1) || SpelledWith(s, d, 2)
  }

  /** Every position of the alternative is a digit class. */
  predicate DigitClasses(p: seq<CharClass>) {
    forall k :: 0 <= k < |p| ==>
      (p[k].Lit? && IsDigit(p[k].c)) || (p[k].Span? && '0' <= p[k].lo && p[k].hi <= '9')
  }

  lemma MatchedDigits(p: seq<CharClass>, s: string, i: nat)
    requires DigitClasses(p) && MatchesAt(p, s, i)
    ensures AllDigits(s[i..i + |p|])
  {
    var t := s[i..i + |p|];
    forall k | 0 <= k < |t|
      ensures IsDigit(t[k])
    {
      assert t[k] == s[i + k] && ClassHas(p[k], s[i + k]);
    }
  }

  lemma OneDigit(t: string)
    requires |t| == 1 && AllDigits(t)
    ensures DigitsValue(t) == DigitValue(t[0])
  {
    assert t[..0] == [];
  }

  lemma TwoDigits(t: string)
    requires |t| == 2 && AllDigits(t)
    ensures DigitsValue(t) == 10 * DigitValue(t[0]) + DigitValue(t[1])
  {
    assert t[..|t| - 1] == t[..1] && t[..1][0] == t[0];
    OneDigit(t[..1]);
  }

  /** A day field of the format is matched, in full, by the alternative the regex picks, and `int()` reads `n`. */
  lemma DayTextMatch(s: string, i: nat, n: int)
    requires i <= |s| && DayText(s[i..], n)
    ensures var r := FirstMatch(DayAlts, s, i, 0);
      r.Some? && i + |DayAlts[r.value]| == |s| && GroupValue(s[i..]) == n
  {
    var t := s[i..];
    assert forall k :: 0 <= k < |t| ==> t[k] == s[i + k];
    var r := FirstMatch(DayAlts, s, i, 0);
    if |t| == 2 && t[0] == ' ' {
      assert MatchesAt(DayAlts[4], s, i);
      assert forall b :: 0 <= b < 4 ==> !ClassHas(DayAlts[b][0], s[i]);
      assert t[1..] == [t[1]];
      OneDigit(t[1..]);
    } else if |t| == 1 {
      OneDigit(t);
      assert MatchesAt(DayAlts[3], s, i);
      assert forall b :: 0 <= b < |DayAlts| && b != 3 ==> |DayAlts[b]| == 2;
    } else {
      TwoDigits(t);
      var j := if t[0] == '3' then 0 else if t[0] == '0' then 2 else 1;
      assert MatchesAt(DayAlts[j], s, i);
      assert !ClassHas(DayAlts[4][0], s[i]);
    }
  }

  /** The month alternative that reads a month field of `ml` characters with value `n`. */
  function MonthAltFor(ml: nat, n: int): nat {
    if ml == 1 then 2 else if n >= 10 then 0 else 1
  }

  /**
   * A month field followed by `-` is matched by its alternative, no earlier
   * alternative is followed by `-`, and `int()` reads `n`.
   */
  lemma MonthTextMatch(s: string, ml: nat, n: int)
    requires (ml == 1 || ml == 2) && 6 + ml <= |s| && s[5 + ml] == '-' && MonthText(s[5..5 + ml], n)
    ensures var a := MonthAltFor(ml, n);
      a < |MonthAlts| && |MonthAlts[a]| == ml && MatchesAt(MonthAlts[a], s, 5) &&
      GroupValue(s[5..5 + ml]) == n &&
      forall b :: 0 <= b < a ==>
        !(MatchesAt(MonthAlts[b], s, 5) && 5 + |MonthAlts[b]| < |s| && s[5 + |MonthAlts[b]|] == '-')
  {
    var t := s[5..5 + ml];
    assert forall k :: 0 <= k < ml ==> t[k] == s[5 + k];
    if ml == 1 {
      OneDigit(t);
      assert !ClassHas(MonthAlts[0][1], s[6]) && !ClassHas(MonthAlts[1][1], s[6]);
    } else {
      TwoDigits(t);
      if n < 10 {
        assert !ClassHas(MonthAlts[0][0], s[5]);
      }
    }
  }

  /** A `YYYY-M-D` spelling of a real day parses to that day. */
  lemma SpelledParses(s: string, d: Date, ml: nat)
    requires ValidDate(d) && (ml == 1 || ml == 2) && SpelledWith(s, d, ml)
    ensures ParseYmd(s) == Some(d)
  {
    MonthTextMatch(s, ml, d.month);
    DayTextMatch(s, 6 + ml, d.day);
    var a := MonthAltFor(ml, d.month);
    var da := FirstMatch(DayAlts, s, 6 + ml, 0).value;
    assert MonthDayMatch(s, a) == Some((a, da));
    if a >= 1 {
      assert MonthDayMatch(s, a - 1) == MonthDayMatch(s, a);
    }
    if a == 2 {
      assert MonthDayMatch(s, 0) == MonthDayMatch(s, 1);
    }
  }

  /** The text a month alternative matched is a month field for the value `int()` reads from it, if that is 1..12. */
  lemma MatchedMonthText(s: string, ma: nat, n: int)
    requires ma < |MonthAlts| && MatchesAt(MonthAlts[ma], s, 5)
    requires n == GroupValue(s[5..5 + |MonthAlts[ma]|]) && 1 <= n <= 12
    ensures MonthText(s[5..5 + |MonthAlts[ma]|], n)
  {
    var mt := s[5..5 + |MonthAlts[ma]|];
    assert DigitClasses(MonthAlts[ma]);
    MatchedDigits(MonthAlts[ma], s, 5);
    if |mt| == 1 { OneDigit(mt); }
  }

  /** The text a day alternative matched to the end is a day field for the value `int()` reads from it, if that is 1..31. */
  lemma MatchedDayText(s: string, i: nat, da: nat, n: int)
    requires da < |DayAlts| && MatchesAt(DayAlts[da], s, i) && i + |DayAlts[da]| == |s|
    requires n == GroupValue(s[i..]) && 1 <= n <= 31
    ensures DayText(s[i..], n)
  {
    var dt := s[i..];
    assert forall k :: 0 <= k < |dt| ==> dt[k] == s[i + k];
    if da == 4 {
      assert dt[1..] == [dt[1]];
      OneDigit(dt[1..]);
    } else {
      assert DigitClasses(DayAlts[da]);
      MatchedDigits(DayAlts[da], s, i);
      assert s[i..i + |DayAlts[da]|] == dt;
      if |dt| == 1 { OneDigit(dt); }
    }
  }

  /** A text that parses spells the day it parses to. */
  lemma ParsedIsSpelled(s: string)
    requires ParseYmd(s).Some?
    ensures Spells(s, ParseYmd(s).value)
  {
    var d := ParseYmd(s).value;
    var mr := MonthDayMatch(s, 0).value;
    var ma, da := mr.0, mr.1;
    var ml := |MonthAlts[ma]|;
    assert 6 + ml + |DayAlts[da]| == |s|;
    MatchedMonthText(s, ma, d.month);
    MatchedDayText(s, 6 + ml, da, d.day);
    assert SpelledWith(s, d, ml);
  }

  /**
   * `strptime(s, "%Y-%m-%d").date()` returns `d` exactly when `d` is a real
   * day and `s` spells it (four-digit year; month as two digits or one; day
   * as two digits, one, or a space and one), and raises for every other text.
   */
  lemma ParseYmdSpells(s: string, d: Date)
    ensures ParseYmd(s) == Some(d) <==> ValidDate(d) && Spells(s, d)
  {
    if ParseYmd(s) == Some(d) {
      ParsedIsSpelled(s);
    }
    if ValidDate(d) && SpelledWith(s, d, 1) {
      SpelledParses(s, d, 1);
    }
    if ValidDate(d) && SpelledWith(s, d, 2) {
      SpelledParses(s, d, 2);
    }
  }

  /** `strptime` raises exactly for the texts that spell no real day. */
  lemma ParseYmdRefuses(s: string)
    ensures ParseYmd(s).None? <==> forall d :: !(ValidDate(d) && Spells(s, d))
  {
    if ParseYmd(s).Some? {
      ParsedIsSpelled(s);
    } else {
      forall d | ValidDate(d) && Spells(s, d)
        ensures false
      {
        ParseYmdSpells(s, d);
      }
    }
  }

  /** Python's `str.__lt__` between two equally long digit strings is numeric order. */
  lemma {:induction false} DigitsOrder(a: string, b: string)
    requires |a| == |b| && AllDigits(a) && AllDigits(b)
    ensures StrLt(a, b) <==> DigitsValue(a) < DigitsValue(b)
    ensures a != b ==> DigitsValue(a) != DigitsValue(b)
    decreases |a|
  {
    if a != [] {
      var n := |a| - 1;
      var a', b' := a[..n], b[..n];
      DigitsOrder(a', b');
      DigitsOrder(b', a');
      PrefixOrder(a', b', [a[n]], [b[n]]);
      assert a == a' + [a[n]] && b == b' + [b[n]];
      if a' == b' {
        assert StrLt([a[n]], [b[n]]) <==> a[n] < b[n] by {
          assert [a[n]][1..] == [] && [b[n]][1..] == [];
        }
      } else {
        StrLtTotal(a', b');
      }
    }
  }

  /** Comparing `x + u` with `y + v` when `x` and `y` have the same length. */
  lemma {:induction false} PrefixOrder(x: string, y: string, u: string, v: string)
    requires |x| == |y|
    ensures x == y ==> (StrLt(x + u, y + v) <==> StrLt(u, v))
    ensures x != y ==> (StrLt(x + u, y + v) <==> StrLt(x, y))
    decreases |x|
  {
    if x != [] {
      assert (x + u)[1..] == x[1..] + u;
      assert (y + v)[1..] == y[1..] + v;
      PrefixOrder(x[1..], y[1..], u, v);
      if x[0] == y[0] && x != y {
        assert x == [x[0]] + x[1..] && y == [y[0]] + y[1..];
      }
    } else {
      assert x + u == u && y + v == v;
    }
  }

  /** Two-digit fields decide a comparison first, in numeric order. */
  lemma Pad2Order(x: int, y: int, u: string, v: string)
    requires 0 <= x < 100 && 0 <= y < 100
    ensures StrLt(Pad2(x) + u, Pad2(y) + v) <==> x < y || (x == y && StrLt(u, v))
  {
    PrefixOrder(Pad2(x), Pad2(y), u, v);
    DigitsOrder(Pad2(x), Pad2(y));
  }

  lemma ColonOrder(u: string, v: string)
    ensures StrLt(":" + u, ":" + v) <==> StrLt(u, v)
  {
    PrefixOrder(":", ":", u, v);
  }

  /**
   * Sorting `HH:MM:SS` texts as strings sorts the times chronologically, to
   * the second: the "today" list's string key gives clock order.
   */
  lemma TimeTextOrder(a: TimeOfDay, b: TimeOfDay)
    requires ValidTime(a) && ValidTime(b)
    ensures StrLt(TimeHms(a), TimeHms(b)) <==>
      a.hour * 3600 + a.minute * 60 + a.second < b.hour * 3600 + b.minute * 60 + b.second
  {
    var ta, tb := Pad2(a.second), Pad2(b.second);
    var ma, mb := Pad2(a.minute) + (":" + ta), Pad2(b.minute) + (":" + tb);
    assert TimeHms(a) == Pad2(a.hour) + (":" + ma);
    assert TimeHms(b) == Pad2(b.hour) + (":" + mb);
    Pad2Order(a.hour, b.hour, ":" + ma, ":" + mb);
    ColonOrder(ma, mb);
    Pad2Order(a.minute, b.minute, ":" + ta, ":" + tb);
    ColonOrder(ta, tb);
    Pad2Order(a.second, b.second, "", "");
    assert Pad2(a.second) + "" == ta && Pad2(b.second) + "" == tb;
  }
}
