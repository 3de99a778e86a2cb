/**
 * The two lists the form shows: the "today" list (the selected day's records
 * of the current user, sorted by `time`) and the history list (records in a
 * date period, optionally of one user).
 */
module Listing {
  import opened Common
  import opened Text
  import opened Calendar
  import opened DateText
  import opened Json

  /** Python's AttributeError from `r.get(...)` on a stored element that is not a dict. */
  datatype ListError = AttributeError

  predicate AllObjects(data: seq<JsonValue>) {
    forall i :: 0 <= i < |data| ==> data[i].JObject?
  }

  /** The "today" condition: `r.get("date") == dia_str and r.get("usuario") == usuario`. */
  predicate OnDayOf(r: JsonValue, dayText: string, user: string)
    requires r.JObject?
  {
    FieldIs(r, "date", dayText) && FieldIs(r, "usuario", user)
  }

  /** `[r for r in data if r.get("date") == dia_str and r.get("usuario") == usuario]`. */
  function DayRecords(data: seq<JsonValue>, dayText: string, user: string): (r: Result<seq<JsonValue>, ListError>)
    ensures r.Ok? <==> AllObjects(data)
    ensures r.Ok? ==> forall x: JsonValue {:trigger multiset(r.value)[x]} :: x.JObject? ==>
      multiset(r.value)[x] == (if OnDayOf(x, dayText, user) then multiset(data)[x] else 0)
    ensures r.Ok? ==> forall x :: x in r.value ==> x in data && x.JObject? && OnDayOf(x, dayText, user)
  {
    if data == [] then Ok([])
    else if !data[0].JObject? then Err(AttributeError)
    else
      var rest := DayRecords(data[1..], dayText, user);
      assert data == [data[0]] + data[1..];
      if rest.Err? then rest
      else if OnDayOf(data[0], dayText, user) then Ok([data[0]] + rest.value)
      else Ok(rest.value)
  }

  /** The comprehension on one element: raise on a non-dict, otherwise keep it or drop it. */
  lemma DayRecordsOne(x: JsonValue, dayText: string, user: string)
    ensures DayRecords([x], dayText, user) ==
      if !x.JObject? then Err(AttributeError)
      else if OnDayOf(x, dayText, user) then Ok([x]) else Ok([])
  {
    assert [x][1..] == [];
    assert DayRecords([], dayText, user) == Ok([]);
    assert [x] + [] == [x];
  }

  /**
   * The comprehension keeps stored order: filtering `a + b` raises exactly
   * when filtering `a` or `b` does, and otherwise is `a`'s kept elements
   * followed by `b`'s.
   */
  lemma {:induction false} DayRecordsAppend(a: seq<JsonValue>, b: seq<JsonValue>, dayText: string, user: string)
    ensures var ra, rb, r := DayRecords(a, dayText, user), DayRecords(b, dayText, user), DayRecords(a + b, dayText, user);
      (r.Ok? <==> ra.Ok? && rb.Ok?) && (r.Ok? ==> r.value == ra.value + rb.value)
  {
    if a == [] {
      assert a + b == b;
    } else {
      assert (a + b)[0] == a[0] && (a + b)[1..] == a[1..] + b;
      DayRecordsAppend(a[1..], b, dayText, user);
      var r := DayRecords(a + b, dayText, user);
      if r.Ok? && OnDayOf(a[0], dayText, user) {
        assert r.value == [a[0]] + DayRecords(a[1..] + b, dayText, user).value;
      }
    }
  }

  /** `_key_time`: the `time` text, or "00:00:00" when it is missing or not a string. */
  function KeyTime(r: JsonValue): (k: string)
    ensures r.JObject? && "time" in r.fields && r.fields["time"].JString? ==> k == r.fields["time"].s
    ensures !(r.JObject? && "time" in r.fields && r.fields["time"].JString?) ==> k == "00:00:00"
  {
    match Get(r, "time")
    case Found(JString(t)) => t
    case _ => "00:00:00"
  }

  /*
   * `list.sort(key=...)` with string keys, generic in the element type so
   * that the key function stays a black box in the sorting proofs.
   */

  /** Ascending by `key`, as Python orders strings. */
  predicate SortedBy<T>(s: seq<T>, key: T -> string) {
    forall i, j :: 0 <= i < j < |s| ==> !StrLt(key(s[j]), key(s[i]))
  }

  /** Insert `x` after every element whose key is not greater than its own, scanning from the right. */
  function Insert<T>(t: seq<T>, x: T, key: T -> string): seq<T> {
    if t == [] then [x]
    else if !StrLt(key(x), key(t[|t| - 1])) then t + [x]
    else Insert(t[..|t| - 1], x, key) + [t[|t| - 1]]
  }

  /** The stable sort by `key`, as insertion sort from the left. */
  function SortBy<T>(s: seq<T>, key: T -> string): seq<T> {
    if s == [] then [] else Insert(SortBy(s[..|s| - 1], key), s[|s| - 1], key)
  }

  lemma {:induction false} InsertPermutes<T>(t: seq<T>, x: T, key: T -> string)
    ensures multiset(Insert(t, x, key)) == multiset(t) + multiset{x}
  {
    if t != [] && StrLt(key(x), key(t[|t| - 1])) {
      InsertPermutes(t[..|t| - 1], x, key);
      assert t == t[..|t| - 1] + [t[|t| - 1]];
    }
  }

  /** `a <= b <= c` on keys gives `a <= c`, "<=" meaning "not greater". */
  lemma KeyLeTransitive(a: string, b: string, c: string)
    requires !StrLt(b, a) && !StrLt(c, b)
    ensures !StrLt(c, a)
  {
    if StrLt(c, a) {
      if a != b { StrLtTotal(a, b); StrLtTransitive(c, a, b); }
      if b != c { StrLtTotal(b, c); }
      if a != b && b != c { StrLtTransitive(a, b, c); StrLtTransitive(c, a, c); StrLtIrreflexive(c); }
      else if a == b { StrLtTransitive(c, a, c); StrLtIrreflexive(c); }
      else { StrLtIrreflexive(c); }
    }
  }

  lemma {:induction false} InsertSorted<T>(t: seq<T>, x: T, key: T -> string)
    requires SortedBy(t, key)
    ensures SortedBy(Insert(t, x, key), key)
  {
    if t == [] {
    } else if !StrLt(key(x), key(t[|t| - 1])) {
      var r := t + [x];
      forall i, j | 0 <= i < j < |r| ensures !StrLt(key(r[j]), key(r[i])) {
        if j == |t| && i < |t| - 1 {
          KeyLeTransitive(key(t[i]), key(t[|t| - 1]), key(x));
        }
      }
    } else {
      var t', last := t[..|t| - 1], t[|t| - 1];
      InsertSorted(t', x, key);
      InsertPermutes(t', x, key);
      var u := Insert(t', x, key);
      var r := u + [last];
      forall i, j | 0 <= i < j < |r| ensures !StrLt(key(r[j]), key(r[i])) {
        if j == |u| {
          assert r[i] in multiset(u);
          if r[i] == x {
            if StrLt(key(last), key(x)) { StrLtTransitive(key(x), key(last), key(x)); StrLtIrreflexive(key(x)); }
          } else {
            assert r[i] in multiset(t');
            var k :| 0 <= k < |t'| && t'[k] == r[i];
            assert t[k] == r[i];
          }
        }
      }
    }
  }

  /** The result of the sort is ordered by key and holds the same elements. */
  lemma {:induction false} SortBySortsAndPermutes<T>(s: seq<T>, key: T -> string)
    ensures SortedBy(SortBy(s, key), key)
    ensures multiset(SortBy(s, key)) == multiset(s)
  {
    if s != [] {
      SortBySortsAndPermutes(s[..|s| - 1], key);
      InsertSorted(SortBy(s[..|s| - 1], key), s[|s| - 1], key);
      InsertPermutes(SortBy(s[..|s| - 1], key), s[|s| - 1], key);
      assert s == s[..|s| - 1] + [s[|s| - 1]];
    }
  }

  /** The elements of `s` whose key is `k`, in their order. */
  function WithKey<T>(s: seq<T>, key: T -> string, k: string): seq<T> {
    if s == [] then []
    else WithKey(s[..|s| - 1], key, k) + (if key(s[|s| - 1]) == k then [s[|s| - 1]] else [])
  }

  lemma {:induction false} WithKeyAppend<T>(a: seq<T>, b: seq<T>, key: T -> string, k: string)
    ensures WithKey(a + b, key, k) == WithKey(a, key, k) + WithKey(b, key, k)
    decreases |b|
  {
    if b != [] {
      assert (a + b)[..|a + b| - 1] == a + b[..|b| - 1];
      WithKeyAppend(a, b[..|b| - 1], key, k);
    } else {
      assert a + b == a;
    }
  }

  /** Inserting never moves `x` past an element with the same key. */
  lemma {:induction false} InsertStable<T>(t: seq<T>, x: T, key: T -> string, k: string)
    ensures WithKey(Insert(t, x, key), key, k) == WithKey(t, key, k) + (if key(x) == k then [x] else [])
  {
    if t == [] {
    } else if !StrLt(key(x), key(t[|t| - 1])) {
      WithKeyAppend(t, [x], key, k);
    } else {
      var t', last := t[..|t| - 1], t[|t| - 1];
      InsertStable(t', x, key, k);
      WithKeyAppend(Insert(t', x, key), [last], key, k);
      if key(x) == k {
        StrLtIrreflexive(k);
      }
    }
  }

  /** Python's sort is stable: elements with equal keys keep their relative order. */
  lemma {:induction false} SortByStable<T>(s: seq<T>, key: T -> string, k: string)
    ensures WithKey(SortBy(s, key), key, k) == WithKey(s, key, k)
  {
    if s != [] {
      SortByStable(s[..|s| - 1], key, k);
      InsertStable(SortBy(s[..|s| - 1], key), s[|s| - 1], key, k);
    }
  }

  /**
   * `Insert` puts `x` right after the last element whose key is not greater
   * than `x`'s: at `j`, when every later key is greater and `t[j-1]`'s is not.
   */
  lemma {:induction false} InsertAt<T>(t: seq<T>, x: T, key: T -> string, j: nat)
    requires j <= |t|
    requires j == 0 || !StrLt(key(x), key(t[j - 1]))
    requires forall k :: j <= k < |t| ==> StrLt(key(x), key(t[k]))
    ensures Insert(t, x, key) == t[..j] + [x] + t[j..]
    decreases |t|
  {
    if j < |t| {
      var t' := t[..|t| - 1];
      assert t'[..j] == t[..j];
      if j > 0 { assert t'[j - 1] == t[j - 1]; }
      InsertAt(t', x, key, j);
      assert t[j..] == t'[j..] + [t[|t| - 1]];
    } else {
      assert t[..j] == t;
    }
  }

  /** A sequence that agrees with `t` before `j`, holds `x` at `j` and `t` shifted by one after it. */
  lemma Spliced<T>(b: seq<T>, t: seq<T>, x: T, j: nat)
    requires j <= |t| && |b| == |t| + 1 && b[j] == x
    requires forall k :: 0 <= k < j ==> b[k] == t[k]
    requires forall k :: j < k < |b| ==> b[k] == t[k - 1]
    ensures b == t[..j] + [x] + t[j..]
  {
  }

  /** One pass of insertion sort: `a[i]` moves left into the sorted prefix `a[..i]`. */
  method InsertLast<T>(a: array<T>, i: nat, key: T -> string)
    requires i < a.Length
    modifies a
    ensures a[..i + 1] == Insert(old(a[..i]), old(a[i]), key)
    ensures a[i + 1..] == old(a[i + 1..])
  {
    var x := a[i];
    ghost var prefix := a[..i];
    var j := i;
    while j > 0 && StrLt(key(x), key(a[j - 1]))
      invariant 0 <= j <= i
      invariant forall k :: 0 <= k < j ==> a[k] == prefix[k]
      invariant forall k :: j < k <= i ==> a[k] == prefix[k - 1]
      invariant forall k :: i < k < a.Length ==> a[k] == old(a[k])
      invariant forall k :: j <= k < i ==> StrLt(key(x), key(prefix[k]))
    {
      a[j] := a[j - 1];
      j := j - 1;
    }
    a[j] := x;
    InsertAt(prefix, x, key, j);
    Spliced(a[..i + 1], prefix, x, j);
  }

  /** `list.sort(key=key)` in place: the array ends up as `SortBy` of its old contents. */
  method SortInPlace<T>(a: array<T>, key: T -> string)
    modifies a
    ensures a[..] == SortBy(old(a[..]), key)
  {
    ghost var s := a[..];
    var i := 0;
    while i < a.Length
      invariant 0 <= i <= a.Length
      invariant a[..i] == SortBy(s[..i], key)
      invariant a[i..] == s[i..]
    {
      assert a[i] == s[i] && a[i + 1..] == s[i + 1..] by {
        assert a[i..] == [a[i]] + a[i + 1..] && s[i..] == [s[i]] + s[i + 1..];
      }
      InsertLast(a, i, key);
      assert s[..i + 1][..i] == s[..i];
      i := i + 1;
    }
    assert a[..] == a[..a.Length];
    assert s == s[..a.Length];
  }

  /** `registros_dia` after `.sort(key=_key_time)`. */
  function TimeSorted(s: seq<JsonValue>): (r: seq<JsonValue>)
    ensures SortedBy(r, KeyTime) && multiset(r) == multiset(s)
    ensures forall k :: WithKey(r, KeyTime, k) == WithKey(s, KeyTime, k)
  {
    SortBySortsAndPermutes(s, KeyTime);
    forall k ensures WithKey(SortBy(s, KeyTime), KeyTime, k) == WithKey(s, KeyTime, k) {
      SortByStable(s, KeyTime, k);
    }
    SortBy(s, KeyTime)
  }

  /** The "today" list: the day filter, then the in-place sort by time key. */
  method TodayList(data: seq<JsonValue>, day: Date, user: string) returns (r: Result<seq<JsonValue>, ListError>)
    requires ValidDate(day)
    ensures r.Ok? <==> AllObjects(data)
    ensures r.Ok? ==> (DayRecords(data, DateIso(day), user).Ok? &&
                       r.value == TimeSorted(DayRecords(data, DateIso(day), user).value))
  {
    var f := DayRecords(data, DateIso(day), user);
    if f.Err? {
      return Err(f.error);
    }
    var xs := f.value;
    var arr := new JsonValue[|xs|](k requires 0 <= k < |xs| => xs[k]);
    assert arr[..] == xs;
    SortInPlace(arr, KeyTime);
    r := Ok(arr[..]);
  }

  /**
   * `in_period`: keep a record whose `date` does not parse (not a dict, no
   * `date`, not a string, not a real `YYYY-MM-DD` day); otherwise keep it
   * when `dt_ini <= date <= dt_fim`.
   */
  predicate InPeriod(r: JsonValue, ini: Date, fim: Date) {
    match Get(r, "date")
    case Found(JString(s)) =>
      (match ParseYmd(s)
       case Some(d) => DateLe(ini, d) && DateLe(d, fim)
       case None => true)
    case _ => true
  }

  /** The history condition for one record that `in_period` keeps. */
  predicate UserMatches(r: JsonValue, userFilter: string)
    requires r.JObject?
  {
    userFilter == "" || FieldIs(r, "usuario", userFilter)
  }

  /** Elements the history comprehension reaches with a non-empty user filter and no dict to call `get` on. */
  predicate HistoryRaises(data: seq<JsonValue>, ini: Date, fim: Date, userFilter: string) {
    userFilter != "" && exists i :: 0 <= i < |data| && !data[i].JObject?
  }

  /** `[r for r in data if in_period(r) and (not usuario_f or r.get("usuario") == usuario_f)]`. */
  function HistoryRecords(data: seq<JsonValue>, ini: Date, fim: Date, userFilter: string): (r: Result<seq<JsonValue>, ListError>)
    ensures r.Err? <==> HistoryRaises(data, ini, fim, userFilter)
    ensures r.Ok? ==> forall x: JsonValue {:trigger multiset(r.value)[x]} ::
      multiset(r.value)[x] ==
        (if InPeriod(x, ini, fim) && (!x.JObject? || UserMatches(x, userFilter)) then multiset(data)[x] else 0)
  {
    if data == [] then Ok([])
    else
      var x := data[0];
      var rest := HistoryRecords(data[1..], ini, fim, userFilter);
      assert data == [x] + data[1..];
      assert !x.JObject? ==> InPeriod(x, ini, fim);
      if !x.JObject? && userFilter != "" then Err(AttributeError)
      else if rest.Err? then rest
      else if InPeriod(x, ini, fim) && (!x.JObject? || UserMatches(x, userFilter)) then Ok([x] + rest.value)
      else Ok(rest.value)
  }

  /** The history comprehension on one element. */
  lemma HistoryRecordsOne(x: JsonValue, ini: Date, fim: Date, userFilter: string)
    ensures HistoryRecords([x], ini, fim, userFilter) ==
      if !x.JObject? && userFilter != "" then Err(AttributeError)
      else if InPeriod(x, ini, fim) && (!x.JObject? || UserMatches(x, userFilter)) then Ok([x]) else Ok([])
  {
    assert [x][1..] == [];
    assert HistoryRecords([], ini, fim, userFilter) == Ok([]);
    assert [x] + [] == [x];
  }

  /**
   * The history comprehension keeps stored order: filtering `a + b` raises
   * exactly when filtering `a` or `b` does, and otherwise is `a`'s kept
   * records followed by `b`'s.
   */
  lemma {:induction false} HistoryRecordsAppend(a: seq<JsonValue>, b: seq<JsonValue>, ini: Date, fim: Date, userFilter: string)
    ensures var ra, rb := HistoryRecords(a, ini, fim, userFilter), HistoryRecords(b, ini, fim, userFilter);
      var r := HistoryRecords(a + b, ini, fim, userFilter);
      (r.Ok? <==> ra.Ok? && rb.Ok?) && (r.Ok? ==> r.value == ra.value + rb.value)
  {
    if a == [] {
      assert a + b == b;
    } else {
      assert (a + b)[0] == a[0] && (a + b)[1..] == a[1..] + b;
      HistoryRecordsAppend(a[1..], b, ini, fim, userFilter);
    }
  }

  /**
   * With a real `date`, `in_period` compares days in calendar order, which is
   * the order of their ordinals; with one that does not parse it keeps the record.
   */
  lemma InPeriodByOrdinal(r: JsonValue, ini: Date, fim: Date)
    requires ValidDate(ini) && ValidDate(fim)
    ensures var l := Get(r, "date");
      !(l.Found? && l.v.JString? && ParseYmd(l.v.s).Some?) ==> InPeriod(r, ini, fim)
    ensures var l := Get(r, "date");
      l.Found? && l.v.JString? && ParseYmd(l.v.s).Some? ==>
        (InPeriod(r, ini, fim) <==>
          Ordinal(ini) <= Ordinal(ParseYmd(l.v.s).value) <= Ordinal(fim))
  {
    var l := Get(r, "date");
    if l.Found? && l.v.JString? && ParseYmd(l.v.s).Some? {
      var d := ParseYmd(l.v.s).value;
      DateLeIffOrdinalLe(ini, d);
      DateLeIffOrdinalLe(d, fim);
    }
  }

  /**
   * The period `date_input` returned when it is a 2-tuple; otherwise the first
   * of the current month through today.
   */
  function PeriodBounds(selection: seq<Date>, today: Date): (r: (Date, Date))
    requires ValidDate(today)
    ensures |selection| == 2 ==> r == (selection[0], selection[1])
    ensures |selection| != 2 ==> r.1 == today && r.0 == Date(today.year, today.month, 1)
  {
    if |selection| == 2 then (selection[0], selection[1]) else (FirstOfMonth(today), today)
  }

  /** The fallback period holds exactly the days of the current month up to today. */
  lemma FallbackPeriodIsMonthToDate(selection: seq<Date>, today: Date, d: Date)
    requires ValidDate(today) && ValidDate(d) && |selection| != 2
    ensures var p := PeriodBounds(selection, today);
      DateLe(p.0, d) && DateLe(d, p.1) <==>
        d.year == today.year && d.month == today.month && d.day <= today.day
  {
  }
}
