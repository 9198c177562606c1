/** The in-process rate limiter: fixed windows in a map that drops expired ones
    once it is large, against one that never forgets. */
module Limiter {
  import opened Wrappers

  datatype Window = Window(count: nat, expires: int)

  type Windows<K> = map<K, Window>

  const Crowded := 4096

  predicate Expired(w: Window, now: int) { now > w.expires }

  function Evicted<K>(ws: Windows<K>, now: int): Windows<K> { map k | k in ws && !Expired(ws[k], now) :: ws[k] }

  function Swept<K>(ws: Windows<K>, now: int): Windows<K> { if |ws| > Crowded then Evicted(ws, now) else ws }

  /** The window a call is counted in: the key's own while it lasts, else a new one. */
  function Counted(w: Option<Window>, length: int, now: int): Window {
    if w.None? || Expired(w.value, now) then Window(1, now + length) else Window(w.value.count + 1, w.value.expires)
  }

  function Lookup<K>(ws: Windows<K>, key: K): Option<Window> { if key in ws then Some(ws[key]) else None }

  datatype Answer = Answer(ok: bool, left: int)

  function Judge(w: Window, limit: int): Answer {
    if w.count > limit then Answer(false, 0) else Answer(true, limit - w.count)
  }

  /** One call of the limiter. */
  datatype Call<K> = Call(key: K, limit: int, length: int, now: int)

  function Count<K>(ws: Windows<K>, c: Call<K>): Windows<K> {
    ws[c.key := Counted(Lookup(ws, c.key), c.length, c.now)]
  }

  /** Answers of the limiter that sweeps before it counts. */
  function Answers<K>(ws: Windows<K>, calls: seq<Call<K>>): (r: seq<Answer>)
    ensures |r| == |calls|
    decreases |calls|
  {
    if calls == [] then []
    else
      var now := Count(Swept(ws, calls[0].now), calls[0]);
      [Judge(now[calls[0].key], calls[0].limit)] + Answers(now, calls[1..])
  }

  /** Answers of one that never forgets a window. */
  function ForeverAnswers<K>(ws: Windows<K>, calls: seq<Call<K>>): (r: seq<Answer>)
    ensures |r| == |calls|
    decreases |calls|
  {
    if calls == [] then []
    else
      var now := Count(ws, calls[0]);
      [Judge(now[calls[0].key], calls[0].limit)] + ForeverAnswers(now, calls[1..])
  }

  predicate InOrder<K>(calls: seq<Call<K>>, from: int)
    decreases |calls|
  {
    calls == [] || (from <= calls[0].now && InOrder(calls[1..], calls[0].now))
  }

  // ------------------------------------------------------------------- the class

  class MemoryLimiter<K(==)> {
    var windows: Windows<K>

    constructor ()
      ensures windows == map[]
    {
      windows := map[];
    }

    /** Drops every window that has expired. */
    method Sweep(now: int)
      modifies this
      ensures windows == Evicted(old(windows), now)
    {
      var keys := windows.Keys;
      while keys != {}
        invariant keys <= windows.Keys <= old(windows).Keys
        invariant forall k :: k in windows ==> windows[k] == old(windows)[k]
        invariant forall k :: k in windows && k !in keys ==> !Expired(windows[k], now)
        invariant forall k :: k in old(windows) && k !in windows ==> Expired(old(windows)[k], now)
        decreases |keys|
      {
        var k :| k in keys;
        keys := keys - {k};
        if Expired(windows[k], now) { windows := windows - {k}; }
      }
    }

    /** Allow. */
    method Allow(c: Call<K>) returns (a: Answer)
      modifies this
      ensures windows == Count(Swept(old(windows), c.now), c) && a == Judge(windows[c.key], c.limit)
      ensures |old(windows)| > 4096 ==> forall k :: k in windows && k != c.key ==> windows[k].expires >= c.now
      ensures |old(windows)| <= 4096 ==> windows.Keys == old(windows).Keys + {c.key}
    {
      if |windows| > Crowded { Sweep(c.now); }
      if c.key !in windows || Expired(windows[c.key], c.now) {
        windows := windows[c.key := Window(0, c.now + c.length)];
      }
      windows := windows[c.key := windows[c.key].(count := windows[c.key].count + 1)];
      if windows[c.key].count > c.limit { return Answer(false, 0); }
      a := Answer(true, c.limit - windows[c.key].count);
    }
  }

  // ------------------------------------------------------------- forgetting is safe

  /** What was forgotten had expired by the last call. */
  ghost predicate Forgot<K(!new)>(ws: Windows<K>, all: Windows<K>, last: int) {
    && (forall k :: k in ws ==> k in all && ws[k] == all[k])
    && (forall k :: k in all && k !in ws ==> Expired(all[k], last))
  }

  lemma ForgotCounts<K(!new)>(ws: Windows<K>, all: Windows<K>, last: int, c: Call<K>)
    requires Forgot(ws, all, last) && last <= c.now
    ensures Forgot(Count(Swept(ws, c.now), c), Count(all, c), c.now)
    ensures Count(Swept(ws, c.now), c)[c.key] == Count(all, c)[c.key]
  {
    var swept := Swept(ws, c.now);
    assert Forgot(swept, all, c.now);
    assert Counted(Lookup(swept, c.key), c.length, c.now) == Counted(Lookup(all, c.key), c.length, c.now);
  }

  /** With calls in clock order, sweeping never changes an answer. */
  lemma {:induction false} SweepingIsInvisible<K(!new)>(ws: Windows<K>, all: Windows<K>, last: int, calls: seq<Call<K>>)
    requires Forgot(ws, all, last) && InOrder(calls, last)
    ensures Answers(ws, calls) == ForeverAnswers(all, calls)
    decreases |calls|
  {
    if calls != [] {
      var c := calls[0];
      ForgotCounts(ws, all, last, c);
      SweepingIsInvisible(Count(Swept(ws, c.now), c), Count(all, c), c.now, calls[1..]);
    }
  }

  predicate Refused<K>(ws: Windows<K>, c: Call<K>) { !Judge(Count(Swept(ws, c.now), c)[c.key], c.limit).ok }

  /** The call was counted in a window already there, whose end it left in place. */
  predicate KeptTheEnd<K>(ws: Windows<K>, c: Call<K>) {
    && c.key in ws && !Expired(ws[c.key], c.now)
    && Count(Swept(ws, c.now), c)[c.key].expires == ws[c.key].expires
  }

  /** Being refused never opens or extends a window, exactly when the limit admits a
      call at all: with a limit below one a refused call opens a window. */
  lemma RefusalKeepsTheEndIff<K(!new)>(c: Call<K>)
    ensures (forall ws: Windows<K> :: Refused(ws, c) ==> KeptTheEnd(ws, c)) <==> c.limit >= 1
  {
    if c.limit < 1 {
      var none: Windows<K> := map[];
      assert Refused(none, c) && !KeptTheEnd(none, c);
    }
  }

  // ------------------------------------------------------------------ one key alone

  /** The times at which key is called. */
  function Times<K(==)>(calls: seq<Call<K>>, key: K): seq<int>
    decreases |calls|
  {
    if calls == [] then []
    else (if calls[0].key == key then [calls[0].now] else []) + Times(calls[1..], key)
  }

  /** The times at which calls of key were allowed. */
  function AllowedOf<K(==)>(calls: seq<Call<K>>, answers: seq<Answer>, key: K): seq<int>
    requires |calls| == |answers|
    decreases |calls|
  {
    if calls == [] then []
    else (if calls[0].key == key && answers[0].ok then [calls[0].now] else [])
         + AllowedOf(calls[1..], answers[1..], key)
  }

  /** The times at which a lone key is allowed, from window w on. */
  function AllowedTimes(w: Option<Window>, limit: int, length: int, times: seq<int>): seq<int>
    decreases |times|
  {
    if times == [] then []
    else
      var now := Counted(w, length, times[0]);
      (if now.count <= limit then [times[0]] else []) + AllowedTimes(Some(now), limit, length, times[1..])
  }

  predicate Uniform<K(==)>(calls: seq<Call<K>>, key: K, limit: int, length: int) {
    forall i :: 0 <= i < |calls| && calls[i].key == key ==> calls[i].limit == limit && calls[i].length == length
  }

  /** Keys do not interfere: a key's allowances are those it would have alone. */
  lemma {:induction false} KeysAreIndependent<K(!new)>(all: Windows<K>, calls: seq<Call<K>>, key: K, limit: int,
                                                       length: int)
    requires Uniform(calls, key, limit, length)
    ensures AllowedOf(calls, ForeverAnswers(all, calls), key)
            == AllowedTimes(Lookup(all, key), limit, length, Times(calls, key))
    decreases |calls|
  {
    if calls != [] {
      var c, rest := calls[0], calls[1..];
      var now := Count(all, c);
      KeysAreIndependent(now, rest, key, limit, length);
      assert ForeverAnswers(all, calls)[1..] == ForeverAnswers(now, rest);
      var more := AllowedTimes(Lookup(now, key), limit, length, Times(rest, key));
      assert [] + more == more;
      if c.key == key {
        var times := [c.now] + Times(rest, key);
        assert times[0] == c.now && times[1..] == Times(rest, key);
      } else {
        assert [] + Times(rest, key) == Times(rest, key);
      }
    }
  }

  // -------------------------------------------------------------- bounds for one key

  predicate Rising(times: seq<int>, from: int)
    decreases |times|
  {
    times == [] || (from <= times[0] && Rising(times[1..], times[0]))
  }

  function Within(times: seq<int>, lo: int, hi: int): nat
    decreases |times|
  {
    if times == [] then 0 else (if lo <= times[0] <= hi then 1 else 0) + Within(times[1..], lo, hi)
  }

  function Left(w: Window, limit: nat): nat { if w.count >= limit then 0 else limit - w.count }

  /** Allowances still possible inside [lo, lo + length], by where the interval lies
      against the end of the current window. */
  function Room(w: Option<Window>, limit: nat, length: nat, lo: int): nat {
    if w.None? || lo > w.value.expires then 2 * limit
    else if lo + length <= w.value.expires then Left(w.value, limit)
    else Left(w.value, limit) + limit
  }

  lemma WithinSplit(x: seq<int>, rest: seq<int>, lo: int, hi: int)
    requires |x| <= 1
    ensures Within(x + rest, lo, hi) == (if |x| == 1 && lo <= x[0] <= hi then 1 else 0) + Within(rest, lo, hi)
  {
    if |x| == 1 { assert (x + rest)[1..] == rest; } else { assert x + rest == rest; }
  }

  lemma {:induction false} NoneBeyond(w: Option<Window>, limit: nat, length: nat, times: seq<int>, lo: int, hi: int,
                                      from: int)
    requires Rising(times, from) && from > hi
    ensures Within(AllowedTimes(w, limit, length, times), lo, hi) == 0
    decreases |times|
  {
    if times != [] {
      var now := Counted(w, length, times[0]);
      NoneBeyond(Some(now), limit, length, times[1..], lo, hi, times[0]);
      var first := if now.count <= limit then [times[0]] else [];
      WithinSplit(first, AllowedTimes(Some(now), limit, length, times[1..]), lo, hi);
    }
  }

  /** One call takes no more room than it leaves. */
  lemma RoomStep(w: Option<Window>, limit: nat, length: nat, lo: int, t: int)
    requires t <= lo + length
    ensures var now := Counted(w, length, t);
            (if now.count <= limit && lo <= t then 1 else 0) + Room(Some(now), limit, length, lo)
            <= Room(w, limit, length, lo)
  {
  }

  lemma {:induction false} RoomBounds(w: Option<Window>, limit: nat, length: nat, times: seq<int>, lo: int, from: int)
    requires Rising(times, from)
    ensures Within(AllowedTimes(w, limit, length, times), lo, lo + length) <= Room(w, limit, length, lo)
    decreases |times|
  {
    if times != [] {
      var t, now := times[0], Counted(w, length, times[0]);
      var x, rest := if now.count <= limit then [t] else [], AllowedTimes(Some(now), limit, length, times[1..]);
      WithinSplit(x, rest, lo, lo + length);
      if t > lo + length {
        NoneBeyond(Some(now), limit, length, times[1..], lo, lo + length, t);
      } else {
        RoomBounds(Some(now), limit, length, times[1..], lo, t);
        RoomStep(w, limit, length, lo, t);
      }
    }
  }

  /** Any interval of one window's length sees at most twice the limit allowed. */
  lemma AtMostTwiceTheLimit(limit: nat, length: nat, times: seq<int>, lo: int, from: int)
    requires Rising(times, from)
    ensures Within(AllowedTimes(None, limit, length, times), lo, lo + length) <= 2 * limit
  {
    RoomBounds(None, limit, length, times, lo, from);
  }

  predicate AllUpTo(times: seq<int>, last: int) { forall i :: 0 <= i < |times| ==> times[i] <= last }

  /** A run that ends within n windows of the current one's end opens at most n. */
  lemma {:induction false} WindowsBound(w: Window, limit: nat, length: nat, times: seq<int>, last: int, n: nat)
    requires AllUpTo(times, last) && last <= w.expires + n * length
    ensures |AllowedTimes(Some(w), limit, length, times)| <= Left(w, limit) + limit * n
    decreases |times|
  {
    if times != [] {
      var now := Counted(Some(w), length, times[0]);
      if Expired(w, times[0]) {
        assert n * length > 0;
        assert n >= 1;
        assert (n - 1) * length == n * length - length && limit * (n - 1) == limit * n - limit;
        WindowsBound(now, limit, length, times[1..], last, n - 1);
      } else {
        WindowsBound(now, limit, length, times[1..], last, n);
      }
    }
  }

  /** Over a run of length T at most limit * (T / window + 1) calls of a key are
      allowed. */
  lemma AllowedInRun(limit: nat, length: nat, times: seq<int>, first: int, last: int)
    requires length >= 1 && first <= last && AllUpTo(times, last) && forall i :: 0 <= i < |times| ==> first <= times[i]
    ensures |AllowedTimes(None, limit, length, times)| <= limit * ((last - first) / length + 1)
  {
    var n := (last - first) / length;
    assert last - first < n * length + length;
    if times != [] {
      WindowsBound(Counted(None, length, times[0]), limit, length, times[1..], last, n);
      assert limit * (n + 1) == limit * n + limit;
    }
  }

  // ----------------------------------------------------- the sweeping limiter, any run

  lemma {:induction false} TimesRise<K(!new)>(calls: seq<Call<K>>, key: K, from: int)
    requires InOrder(calls, from)
    ensures Rising(Times(calls, key), from)
    decreases |calls|
  {
    if calls != [] {
      var c, rest := calls[0], Times(calls[1..], key);
      TimesRise(calls[1..], key, c.now);
      if c.key == key {
        assert ([c.now] + rest)[1..] == rest;
      } else {
        assert [] + rest == rest;
        LaterStart(rest, c.now, from);
      }
    }
  }

  lemma LaterStart(times: seq<int>, from: int, earlier: int)
    requires Rising(times, from) && earlier <= from
    ensures Rising(times, earlier)
  {
  }

  lemma {:induction false} TimesWithin<K(!new)>(calls: seq<Call<K>>, key: K, first: int, last: int)
    requires forall i :: 0 <= i < |calls| ==> first <= calls[i].now <= last
    ensures forall i :: 0 <= i < |Times(calls, key)| ==> first <= Times(calls, key)[i] <= last
    decreases |calls|
  {
    if calls != [] { TimesWithin(calls[1..], key, first, last); }
  }

  lemma SweptKeyAlone<K(!new)>(calls: seq<Call<K>>, key: K, limit: int, length: int, from: int)
    requires InOrder(calls, from) && Uniform(calls, key, limit, length)
    ensures AllowedOf(calls, Answers(map[], calls), key) == AllowedTimes(None, limit, length, Times(calls, key))
  {
    SweepingIsInvisible(map[], map[], from, calls);
    KeysAreIndependent(map[], calls, key, limit, length);
  }

  /** Whatever the other keys do and whatever is swept, an interval as long as the
      window sees at most twice the limit allowed. */
  lemma IntervalBound<K(!new)>(calls: seq<Call<K>>, key: K, limit: nat, length: nat, from: int, lo: int)
    requires InOrder(calls, from) && Uniform(calls, key, limit, length)
    ensures Within(AllowedOf(calls, Answers(map[], calls), key), lo, lo + length) <= 2 * limit
  {
    SweptKeyAlone(calls, key, limit, length, from);
    TimesRise(calls, key, from);
    AtMostTwiceTheLimit(limit, length, Times(calls, key), lo, from);
  }

  /** And a whole run allows at most the limit for each window that fits it, and one
      more. */
  lemma RunBound<K(!new)>(calls: seq<Call<K>>, key: K, limit: nat, length: nat, first: int, last: int)
    requires InOrder(calls, first) && Uniform(calls, key, limit, length) && length >= 1 && first <= last
    requires forall i :: 0 <= i < |calls| ==> first <= calls[i].now <= last
    ensures |AllowedOf(calls, Answers(map[], calls), key)| <= limit * ((last - first) / length + 1)
  {
    SweptKeyAlone(calls, key, limit, length, first);
    TimesWithin(calls, key, first, last);
    AllowedInRun(limit, length, Times(calls, key), first, last);
  }

  // ------------------------------------------------------------- every answer exactly

  /** The last of the first n calls that opened a window for the key: the key's first,
      and each later one that comes after the end of the window opened last. */
  function Opener<K(==)>(calls: seq<Call<K>>, key: K, n: nat): (o: Option<nat>)
    requires n <= |calls|
    ensures o.Some? ==> o.value < n && calls[o.value].key == key
    decreases n, |calls|
  {
    if n == 0 then None
    else
      var o, c := Opener(calls, key, n - 1), calls[n - 1];
      if c.key == key && (o.None? || c.now > calls[o.value].now + calls[o.value].length) then Some(n - 1) else o
  }

  /** How many of the calls from i up to n are of the key. */
  function Calls<K(==)>(calls: seq<Call<K>>, key: K, i: nat, n: nat): (k: nat)
    requires i <= n <= |calls|
    ensures k <= n - i
    decreases n, |calls|
  {
    if n == i then 0 else Calls(calls, key, i, n - 1) + (if calls[n - 1].key == key then 1 else 0)
  }

  /** The windows of a limiter that never forgets, after the first n calls. */
  function WindowsAfter<K(==)>(calls: seq<Call<K>>, n: nat): Windows<K>
    requires n <= |calls|
    decreases n, |calls|
  {
    if n == 0 then map[] else Count(WindowsAfter(calls, n - 1), calls[n - 1])
  }

  lemma {:induction false} WindowIs<K(!new)>(calls: seq<Call<K>>, key: K, n: nat)
    requires n <= |calls|
    ensures var o := Opener(calls, key, n);
            Lookup(WindowsAfter(calls, n), key)
            == if o.None? then None
               else Some(Window(Calls(calls, key, o.value, n), calls[o.value].now + calls[o.value].length))
    decreases n
  {
    if n > 0 { WindowIs(calls, key, n - 1); }
  }

  lemma {:induction false} ForeverAnswer<K(!new)>(calls: seq<Call<K>>, n: nat, i: nat)
    requires n <= i < |calls|
    ensures ForeverAnswers(WindowsAfter(calls, n), calls[n..])[i - n]
            == Judge(WindowsAfter(calls, i + 1)[calls[i].key], calls[i].limit)
    decreases i - n
  {
    if n < i {
      ForeverAnswer(calls, n + 1, i);
      assert calls[n..][1..] == calls[n + 1..];
    }
  }

  /** What every call is answered, in terms of the calls alone: with the window its key
      opened last, the call is the k-th of its key since then; it is refused exactly
      when k exceeds its limit, and is otherwise told how many are left. */
  lemma ExactAnswer<K(!new)>(calls: seq<Call<K>>, from: int, i: nat)
    requires InOrder(calls, from) && i < |calls|
    ensures var c := calls[i];
            var o := Opener(calls, c.key, i + 1);
            && o.Some? && (o.value == i || c.now <= calls[o.value].now + calls[o.value].length)
            && var k := Calls(calls, c.key, o.value, i + 1);
               Answers(map[], calls)[i] == if k > c.limit then Answer(false, 0) else Answer(true, c.limit - k)
  {
    SweepingIsInvisible(map[], map[], from, calls);
    assert calls[0..] == calls;
    ForeverAnswer(calls, 0, i);
    WindowIs(calls, calls[i].key, i + 1);
  }

  lemma {:induction false} ClockRises<K(!new)>(calls: seq<Call<K>>, from: int, i: nat, j: nat)
    requires InOrder(calls, from) && i <= j < |calls|
    ensures from <= calls[i].now <= calls[j].now
    decreases |calls|
  {
    if i > 0 { ClockRises(calls[1..], calls[0].now, i - 1, j - 1); }
    else if j > 0 { ClockRises(calls[1..], calls[0].now, 0, j - 1); }
  }

  /** How many of the first n calls are of the key and not before lo. */
  function Recent<K(==)>(calls: seq<Call<K>>, key: K, n: nat, lo: int): nat
    requires n <= |calls|
    decreases n, |calls|
  {
    if n == 0 then 0
    else Recent(calls, key, n - 1, lo) + (if calls[n - 1].key == key && calls[n - 1].now >= lo then 1 else 0)
  }

  lemma {:induction false} CallsAreRecent<K(!new)>(calls: seq<Call<K>>, key: K, o: nat, n: nat, from: int, lo: int)
    requires InOrder(calls, from) && o <= n <= |calls| && (o < |calls| ==> lo <= calls[o].now)
    ensures Calls(calls, key, o, n) <= Recent(calls, key, n, lo)
    decreases n
  {
    if o < n {
      CallsAreRecent(calls, key, o, n - 1, from, lo);
      ClockRises(calls, from, o, n - 1);
    }
  }

  /** Nobody is refused without a crowd: at least as many earlier calls of the key as
      the limit allows lie within one window's length before the refused one. */
  lemma RefusedInACrowd<K(!new)>(calls: seq<Call<K>>, key: K, limit: nat, length: nat, from: int, i: nat)
    requires InOrder(calls, from) && Uniform(calls, key, limit, length) && limit >= 1
    requires i < |calls| && calls[i].key == key && !Answers(map[], calls)[i].ok
    ensures Recent(calls, key, i, calls[i].now - length) >= limit
  {
    ExactAnswer(calls, from, i);
    var o := Opener(calls, key, i + 1).value;
    CallsAreRecent(calls, key, o, i, from, calls[i].now - length);
  }

  lemma {:induction false} StaysOpen<K(!new)>(calls: seq<Call<K>>, key: K, length: nat, from: int, o: nat, n: nat)
    requires InOrder(calls, from) && o < n <= |calls| && Opener(calls, key, o + 1) == Some(o)
    requires calls[o].length == length && calls[n - 1].now <= calls[o].now + length
    ensures Opener(calls, key, n) == Some(o)
    decreases n
  {
    if o + 1 < n {
      ClockRises(calls, from, n - 2, n - 1);
      StaysOpen(calls, key, length, from, o, n - 1);
    }
  }

  /** From a call that opens a window, the first `limit` calls of the key are all allowed
      as long as they come within one window's length of it, and the later ones of
      those are not. */
  lemma AllowedWhileOpenIff<K(!new)>(calls: seq<Call<K>>, key: K, limit: nat, length: nat, from: int, o: nat, i: nat)
    requires InOrder(calls, from) && Uniform(calls, key, limit, length)
    requires o <= i < |calls| && calls[i].key == key && Opener(calls, key, o + 1) == Some(o)
    requires calls[i].now <= calls[o].now + length
    ensures Answers(map[], calls)[i].ok <==> Calls(calls, key, o, i + 1) <= limit
  {
    StaysOpen(calls, key, length, from, o, i + 1);
    ExactAnswer(calls, from, i);
  }

  /** A call opens a window when no call of its key came within one window's length
      before it. */
  lemma {:induction false} QuietOpens<K(!new)>(calls: seq<Call<K>>, key: K, limit: nat, length: nat, i: nat)
    requires Uniform(calls, key, limit, length) && i < |calls| && calls[i].key == key
    requires forall j :: 0 <= j < i && calls[j].key == key ==> calls[j].now + length < calls[i].now
    ensures Opener(calls, key, i + 1) == Some(i)
  {
    var o := Opener(calls, key, i);
    if o.Some? { assert calls[o.value].key == key; }
  }
}
