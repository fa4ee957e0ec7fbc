/** The bot's fixed-window rate limiter and its bounded, least-recently-used table (`bot/rate_limit.py`). */
module RateLimit {
  import opened Base

  datatype Key = Key(user: int, action: string)

  datatype Window = Window(start: real, used: nat)

  datatype Verdict = Accepted | Refused(retryAfter: int)

  function Allowance(burst: int): (a: nat)
    ensures a >= 1 && (burst >= 1 ==> a == burst)
  {
    if burst < 1 then 1 else burst
  }

  /** `max(1, int(retry_after))`. */
  function RetryAfter(left: real): (n: int)
    requires left > 0.0
    ensures n >= 1 && n as real <= (if left < 1.0 then 1.0 else left) && left < n as real + 1.0
  {
    if left.Floor < 1 then 1 else left.Floor
  }

  /** One check against one key's window: the window afterwards, and the answer. */
  function Decided(w: Option<Window>, cooldown: real, burst: int, now: real): (Window, Verdict) {
    if w.Some? && cooldown - (now - w.value.start) > 0.0 then
      if w.value.used >= Allowance(burst) then (w.value, Refused(RetryAfter(cooldown - (now - w.value.start))))
      else (w.value.(used := w.value.used + 1), Accepted)
    else (Window(now, 1), Accepted)
  }

  /** The table: keys from least to most recently checked, and their windows. */
  datatype Table = Table(order: seq<Key>, windows: map<Key, Window>)

  predicate TableOk(t: Table) {
    && (forall i, j :: 0 <= i < j < |t.order| ==> t.order[i] != t.order[j])
    && (forall k :: k in t.windows ==> k in t.order) && (forall k :: k in t.order ==> k in t.windows)
  }

  function Without(order: seq<Key>, key: Key): (r: seq<Key>)
    ensures key !in r && forall k :: k in r <==> k in order && k != key
  {
    if order == [] then [] else if order[0] == key then Without(order[1..], key)
    else [order[0]] + Without(order[1..], key)
  }

  function WindowOf(t: Table, key: Key): Option<Window> {
    if key in t.windows then Some(t.windows[key]) else None
  }

  /** The table after a check, before trimming: the key becomes the most recent one. */
  function Touched(t: Table, key: Key, w: Window): Table {
    Table(Without(t.order, key) + [key], t.windows[key := w])
  }

  /** Without its least recently used key. */
  function Popped(t: Table): Table
    requires t.order != []
  {
    Table(t.order[1..], t.windows - {t.order[0]})
  }

  /** Drops the least recently used keys beyond the limit. */
  function Trimmed(t: Table, limit: nat): Table
    decreases |t.order|
  {
    if |t.order| <= limit then t else Trimmed(Popped(t), limit)
  }

  lemma PoppedOk(t: Table)
    requires TableOk(t) && t.order != []
    ensures TableOk(Popped(t))
  {
    forall k | k in Popped(t).windows ensures k in Popped(t).order {
      var i :| 0 <= i < |t.order| && t.order[i] == k;
      assert t.order[1..][i - 1] == k;
    }
  }

  /** A call of `check` at a time of the monotone clock. */
  datatype Call = Call(key: Key, cooldown: real, burst: int, now: real)

  predicate OpensWindow(t: Table, c: Call) {
    var w := WindowOf(t, c.key);
    w.None? || c.cooldown - (c.now - w.value.start) <= 0.0
  }

  function Answer(t: Table, c: Call): Verdict {
    Decided(WindowOf(t, c.key), c.cooldown, c.burst, c.now).1
  }

  /** `check` on a table without a limit. */
  function Checked(t: Table, c: Call): Table {
    Touched(t, c.key, Decided(WindowOf(t, c.key), c.cooldown, c.burst, c.now).0)
  }

  /** `check` on the bounded table, which is trimmed only when a window opens. */
  function Bounded(t: Table, c: Call, limit: nat): Table {
    if OpensWindow(t, c) then Trimmed(Checked(t, c), limit) else Checked(t, c)
  }

  lemma {:induction false} WithoutDistinct(order: seq<Key>, key: Key)
    requires forall i, j :: 0 <= i < j < |order| ==> order[i] != order[j]
    ensures var r := Without(order, key);
            && (forall i, j :: 0 <= i < j < |r| ==> r[i] != r[j])
            && |r| == (if key in order then |order| - 1 else |order|)
  {
    if order != [] {
      WithoutDistinct(order[1..], key);
      assert order[0] !in order[1..];
      if order[0] == key {
        assert key !in order[1..];
      }
    }
  }

  lemma CheckedOk(t: Table, c: Call)
    requires TableOk(t)
    ensures TableOk(Checked(t, c))
  {
    WithoutDistinct(t.order, c.key);
    hide Without;
  }

  /** A check by cases: no window, a window that is over, a used-up one, and one with calls left. */
  lemma CheckCases(t: Table, c: Call, limit: nat)
    ensures var w := WindowOf(t, c.key);
            var order := Without(t.order, c.key) + [c.key];
            var started := Table(order, t.windows[c.key := Window(c.now, 1)]);
            && (w.None? ==>
                  && Answer(t, c) == Accepted
                  && Checked(t, c) == started && Bounded(t, c, limit) == Trimmed(started, limit))
            && (w.Some? ==>
                  var left := c.cooldown - (c.now - w.value.start);
                  var full := w.value.used >= Allowance(c.burst);
                  && (left <= 0.0 ==>
                        && Answer(t, c) == Accepted
                        && Checked(t, c) == started && Bounded(t, c, limit) == Trimmed(started, limit))
                  && (left > 0.0 && full ==>
                        && Answer(t, c) == Refused(RetryAfter(left))
                        && Bounded(t, c, limit) == Checked(t, c) == Table(order, t.windows[c.key := w.value]))
                  && (left > 0.0 && !full ==>
                        && Answer(t, c) == Accepted
                        && Bounded(t, c, limit) == Checked(t, c)
                        && Checked(t, c) == Table(order, t.windows[c.key := w.value.(used := w.value.used + 1)])))
  {
    hide Without, Allowance, RetryAfter, Trimmed;
  }

  /** Coming back after the seconds a refusal names is enough exactly when the rest of the window was a whole number of
      seconds or less than one: the number is rounded down. One second more is always enough. */
  lemma RetryIsEnoughIff(t: Table, c: Call, later: Call)
    requires Answer(t, c).Refused? && later == c.(now := later.now) && later.now >= c.now
    ensures var after := Checked(t, c);
            var left := c.cooldown - (c.now - WindowOf(t, c.key).value.start);
            && (later.now == c.now + Answer(t, c).retryAfter as real ==>
                  (Answer(after, later) == Accepted <==> left <= 1.0 || left.Floor as real == left))
            && (later.now >= c.now + Answer(t, c).retryAfter as real + 1.0 ==> Answer(after, later) == Accepted)
  {
    hide Without;
  }

  /** A window that ends in two and a half seconds: the refusal names two seconds, and a call after them is refused. */
  lemma RetryCanBeTooSoon(key: Key)
    ensures var w := Window(0.0, 1);
            var t := Table([key], map[key := w]);
            && Answer(t, Call(key, 2.5, 1, 0.0)) == Refused(2)
            && Answer(Checked(t, Call(key, 2.5, 1, 0.0)), Call(key, 2.5, 1, 2.0)) == Refused(1)
  {
    hide Without;
  }

  class RateLimiter {
    const maxEntries: nat
    var order: seq<Key>
    var windows: map<Key, Window>

    function Now(): Table
      reads this
    {
      Table(order, windows)
    }

    predicate Valid()
      reads this
    {
      TableOk(Now()) && |order| <= maxEntries
    }

    constructor (maxEntries: nat)
      ensures this.maxEntries == maxEntries && Valid() && Now() == Table([], map[])
    {
      this.maxEntries, order, windows := maxEntries, [], map[];
    }

    method MoveToEnd(key: Key)
      requires key in order
      modifies this`order
      ensures order == Without(old(order), key) + [key]
    {
      var rest: seq<Key> := [];
      assert order[0..] == order;
      for i := 0 to |order|
        invariant rest + Without(order[i..], key) == Without(order, key)
      {
        assert order[i..][0] == order[i] && order[i..][1..] == order[i + 1..];
        if order[i] != key {
          assert rest + ([order[i]] + Without(order[i + 1..], key))
                 == (rest + [order[i]]) + Without(order[i + 1..], key);
          rest := rest + [order[i]];
        }
      }
      assert rest + [] == rest;
      order := rest + [key];
    }

    /** `_trim`. */
    method Trim()
      requires TableOk(Now())
      modifies this
      ensures Now() == Trimmed(old(Now()), maxEntries)
      ensures Valid()
    {
      hide TableOk;
      while |order| > maxEntries
        invariant TableOk(Now()) && Trimmed(Now(), maxEntries) == Trimmed(old(Now()), maxEntries)
      {
        PoppedOk(Now());
        windows := windows - {order[0]};
        order := order[1..];
      }
    }

    /** `check`, at the clock reading `now`. */
    method Check(key: Key, cooldown: real, burst: int, now: real) returns (v: Verdict)
      requires Valid()
      modifies this
      ensures Valid()
      ensures v == Answer(old(Now()), Call(key, cooldown, burst, now))
      ensures Now() == Bounded(old(Now()), Call(key, cooldown, burst, now), maxEntries)
    {
      hide Without, TableOk, Trimmed, Allowance, RetryAfter, Answer, Checked, Bounded, Decided, Touched, OpensWindow;
      ghost var was := Now();
      ghost var c := Call(key, cooldown, burst, now);
      ghost var next := Checked(was, c);
      CheckedOk(was, c);
      CheckedSize(was, c);
      WithoutAbsentIn(was, key);
      CheckCases(was, c, maxEntries);
      var allowance := Allowance(burst);
      if key in windows {
        MoveToEnd(key);
        var window := windows[key];
        var retryAfter := cooldown - (now - window.start);
        if retryAfter > 0.0 {
          if window.used >= allowance {
            SameWindow(windows, key);
            assert Now() == next;
            return Refused(RetryAfter(retryAfter));
          }
          windows := windows[key := window.(used := window.used + 1)];
          assert Now() == next;
          return Accepted;
        }
        windows := windows[key := Window(now, 1)];
      } else {
        order := order + [key];
        windows := windows[key := Window(now, 1)];
      }
      assert Now() == next;
      Trim();
      return Accepted;
    }
  }

  lemma SameWindow(windows: map<Key, Window>, key: Key)
    requires key in windows
    ensures windows[key := windows[key]] == windows
  {
  }

  lemma CheckedSize(t: Table, c: Call)
    requires TableOk(t)
    ensures |Checked(t, c).order| == if c.key in t.windows then |t.order| else |t.order| + 1
    ensures c.key in t.windows <==> c.key in t.order
  {
    WithoutDistinct(t.order, c.key);
    hide Without;
  }

  lemma WithoutAbsentIn(t: Table, key: Key)
    requires TableOk(t)
    ensures key !in t.windows ==> Without(t.order, key) == t.order
  {
    if key !in t.windows {
      WithoutAbsent(t.order, key);
    }
  }

  lemma {:induction false} WithoutAbsent(order: seq<Key>, key: Key)
    requires key !in order
    ensures Without(order, key) == order
  {
    if order != [] {
      WithoutAbsent(order[1..], key);
    }
  }

  // ---------------------------------------------------------------- one key over time

  predicate Rising(ts: seq<real>) {
    forall i, j :: 0 <= i < j < |ts| ==> ts[i] <= ts[j]
  }

  /** The key's window after checks at these times. */
  function After(ts: seq<real>, cooldown: real, burst: int): Option<Window> {
    if ts == [] then None
    else Some(Decided(After(ts[..|ts| - 1], cooldown, burst), cooldown, burst, ts[|ts| - 1]).0)
  }

  /** Whether the last of these checks was accepted. */
  predicate LastAccepted(ts: seq<real>, cooldown: real, burst: int)
    requires ts != []
  {
    Decided(After(ts[..|ts| - 1], cooldown, burst), cooldown, burst, ts[|ts| - 1]).1 == Accepted
  }

  /** How many accepted checks lie in the closed interval. */
  function AcceptedIn(ts: seq<real>, cooldown: real, burst: int, lo: real, hi: real): nat {
    if ts == [] then 0
    else
      AcceptedIn(ts[..|ts| - 1], cooldown, burst, lo, hi)
      + (if lo <= ts[|ts| - 1] <= hi && LastAccepted(ts, cooldown, burst) then 1 else 0)
  }

  /** How many accepted checks lie at or after a time. */
  function AcceptedFrom(ts: seq<real>, cooldown: real, burst: int, lo: real): nat {
    if ts == [] then 0
    else
      AcceptedFrom(ts[..|ts| - 1], cooldown, burst, lo)
      + (if lo <= ts[|ts| - 1] && LastAccepted(ts, cooldown, burst) then 1 else 0)
  }

  /** The window a run ends in has started by then and has accepted `used` calls, at most the burst; the window
      before it accounts for at most a burst more, and every older accepted call lies further back than one cooldown. */
  lemma {:induction false} WindowLaw(ts: seq<real>, cooldown: real, burst: int, lo: real)
    requires ts != [] && Rising(ts) && cooldown > 0.0
    ensures var w := After(ts, cooldown, burst).value;
            && 1 <= w.used <= Allowance(burst) && w.start <= ts[|ts| - 1]
            && (lo >= w.start - cooldown ==> AcceptedFrom(ts, cooldown, burst, lo) <= Allowance(burst) + w.used)
            && (lo >= w.start ==> AcceptedFrom(ts, cooldown, burst, lo) <= w.used)
            && (lo >= w.start + cooldown ==> AcceptedFrom(ts, cooldown, burst, lo) == 0)
  {
    var before, now := ts[..|ts| - 1], ts[|ts| - 1];
    if before != [] {
      assert before[|before| - 1] == ts[|ts| - 2];
      WindowLaw(before, cooldown, burst, lo);
    }
  }

  /** No interval as long as one cooldown holds more than twice the burst of accepted calls. */
  lemma {:induction false} AtMostTwiceTheBurst(ts: seq<real>, cooldown: real, burst: int, lo: real)
    requires Rising(ts) && cooldown > 0.0
    ensures AcceptedIn(ts, cooldown, burst, lo, lo + cooldown) <= 2 * Allowance(burst)
  {
    if ts != [] {
      var now := ts[|ts| - 1];
      if now > lo + cooldown {
        AtMostTwiceTheBurst(ts[..|ts| - 1], cooldown, burst, lo);
      } else {
        WindowLaw(ts, cooldown, burst, lo);
        SameCount(ts, cooldown, burst, lo, lo + cooldown);
      }
    }
  }

  lemma {:induction false} SameCount(ts: seq<real>, cooldown: real, burst: int, lo: real, hi: real)
    requires Rising(ts) && (ts != [] ==> ts[|ts| - 1] <= hi)
    ensures AcceptedIn(ts, cooldown, burst, lo, hi) == AcceptedFrom(ts, cooldown, burst, lo)
  {
    if ts != [] {
      SameCount(ts[..|ts| - 1], cooldown, burst, lo, hi);
    }
  }

  /** The times of the accepted checks. */
  function AcceptedTimes(ts: seq<real>, cooldown: real, burst: int): seq<real> {
    if ts == [] then []
    else
      AcceptedTimes(ts[..|ts| - 1], cooldown, burst)
          + (if LastAccepted(ts, cooldown, burst) then [ts[|ts| - 1]] else [])
  }

  /** Refusals leave no trace: without them the run ends in the same window and accepts the same calls. */
  lemma {:induction false} RefusalsLeaveNoTrace(ts: seq<real>, cooldown: real, burst: int)
    ensures var kept := AcceptedTimes(ts, cooldown, burst);
            After(kept, cooldown, burst) == After(ts, cooldown, burst) && AcceptedTimes(kept, cooldown, burst) == kept
  {
    if ts != [] {
      var before, now := ts[..|ts| - 1], ts[|ts| - 1];
      RefusalsLeaveNoTrace(before, cooldown, burst);
      var kept := AcceptedTimes(before, cooldown, burst);
      if LastAccepted(ts, cooldown, burst) {
        assert (kept + [now])[..|kept + [now]| - 1] == kept;
        assert AcceptedTimes(ts, cooldown, burst) == kept + [now];
      } else {
        assert kept + [] == kept;
        assert After(before, cooldown, burst).Some?;
      }
    }
  }

  function Fewer(a: nat, b: nat): nat {
    if a <= b then a else b
  }

  /** The calls of one window, behind a window that is over: of those that come within the cooldown of the first one
      exactly the first `burst` are accepted. */
  lemma {:induction false} WindowGrants(before: seq<real>, during: seq<real>, cooldown: real, burst: int)
    requires during != [] && cooldown > 0.0 && forall i :: 0 <= i < |during| ==> during[i] < during[0] + cooldown
    requires After(before, cooldown, burst).Some? ==> After(before, cooldown, burst).value.start + cooldown <= during[0]
    ensures var n := if burst < 1 then Fewer(|during|, 1) else Fewer(|during|, burst);
            && After(before + during, cooldown, burst) == Some(Window(during[0], n))
            && AcceptedTimes(before + during, cooldown, burst) == AcceptedTimes(before, cooldown, burst) + during[..n]
    decreases |during|
  {
    hide After, AcceptedTimes;
    var n := |during| - 1;
    var front := during[..n];
    assert before + during == (before + front) + [during[n]];
    OneMore(before + front, during[n], cooldown, burst);
    if n == 0 {
      assert before + front == before && during[..1] == [during[0]];
    } else {
      WindowGrants(before, front, cooldown, burst);
      var m := if burst < 1 then Fewer(n, 1) else Fewer(n, burst);
      assert front[..m] == during[..m];
      GrantNext(AcceptedTimes(before, cooldown, burst), during, m, n);
    }
  }

  /** One check more. */
  lemma OneMore(ts: seq<real>, now: real, cooldown: real, burst: int)
    ensures var d := Decided(After(ts, cooldown, burst), cooldown, burst, now);
            && After(ts + [now], cooldown, burst) == Some(d.0)
            && AcceptedTimes(ts + [now], cooldown, burst)
               == AcceptedTimes(ts, cooldown, burst) + if d.1 == Accepted then [now] else []
  {
    assert (ts + [now])[..|ts + [now]| - 1] == ts;
  }

  lemma GrantNext(before: seq<real>, during: seq<real>, m: nat, n: nat)
    requires m <= n < |during|
    ensures m == n ==> (before + during[..m]) + [during[n]] == before + during[..n + 1]
    ensures (before + during[..m]) + [] == before + during[..m]
  {
  }

  // ---------------------------------------------------------------- the bounded table is as good as an unbounded one

  function Unlimited(calls: seq<Call>): Table {
    if calls == [] then Table([], map[]) else Checked(Unlimited(calls[..|calls| - 1]), calls[|calls| - 1])
  }

  function Limited(calls: seq<Call>, limit: nat): Table {
    if calls == [] then Table([], map[]) else Bounded(Limited(calls[..|calls| - 1], limit), calls[|calls| - 1], limit)
  }

  /** The keys checked since the key was last checked. */
  function Since(calls: seq<Call>, key: Key): set<Key> {
    if calls == [] || calls[|calls| - 1].key == key then {}
    else Since(calls[..|calls| - 1], key) + {calls[|calls| - 1].key}
  }

  predicate Seen(calls: seq<Call>, key: Key) {
    exists i :: 0 <= i < |calls| && calls[i].key == key
  }

  /** Between two checks of a key fewer than `limit` distinct other keys are checked. */
  predicate Local(calls: seq<Call>, limit: nat) {
    forall n :: 0 <= n < |calls| && Seen(calls[..n], calls[n].key) ==> |Since(calls[..n], calls[n].key)| < limit
  }

  predicate Distinct(order: seq<Key>) {
    forall i, j :: 0 <= i < j < |order| ==> order[i] != order[j]
  }

  function Keys(order: seq<Key>): (r: set<Key>)
    ensures forall k :: k in r <==> k in order
  {
    set k | k in order
  }

  lemma {:induction false} KeysCount(order: seq<Key>)
    requires Distinct(order)
    ensures |Keys(order)| == |order|
  {
    if order == [] {
      assert Keys(order) == {};
    } else {
      KeysCount(order[1..]);
      assert order[0] !in order[1..];
      assert Keys(order) == Keys(order[1..]) + {order[0]} by {
        assert order == [order[0]] + order[1..];
      }
    }
  }

  /** The keys behind a key in the recency order. */
  function Behind(order: seq<Key>, key: Key): set<Key> {
    if order == [] then {} else if order[0] == key then Keys(order[1..]) else Behind(order[1..], key)
  }

  lemma {:induction false} WithoutConcat(a: seq<Key>, b: seq<Key>, key: Key)
    ensures Without(a + b, key) == Without(a, key) + Without(b, key)
  {
    if a == [] {
      assert a + b == b;
    } else {
      assert (a + b)[1..] == a[1..] + b;
      WithoutConcat(a[1..], b, key);
    }
  }

  lemma {:induction false} BehindGrows(order: seq<Key>, key: Key, x: Key)
    requires Distinct(order) && key in order && x != key
    ensures Behind(Without(order, x) + [x], key) == Behind(order, key) + {x}
  {
    var rest := order[1..];
    if order[0] == key {
      var r := Without(rest, x) + [x];
      assert (Without(order, x) + [x]) == [key] + r;
      assert Keys(r) == Keys(rest) + {x};
    } else {
      BehindGrows(rest, key, x);
      if order[0] != x {
        assert Without(order, x) + [x] == [order[0]] + (Without(rest, x) + [x]);
      }
    }
  }

  lemma {:induction false} BehindLast(order: seq<Key>, key: Key)
    requires key !in order
    ensures Behind(order + [key], key) == {}
  {
    if order != [] {
      assert (order + [key])[1..] == order[1..] + [key];
      BehindLast(order[1..], key);
    } else {
      assert [key][1..] == [];
    }
  }

  lemma {:induction false} UnlimitedOk(calls: seq<Call>)
    ensures TableOk(Unlimited(calls))
  {
    if calls != [] {
      UnlimitedOk(calls[..|calls| - 1]);
      CheckedOk(Unlimited(calls[..|calls| - 1]), calls[|calls| - 1]);
    }
  }

  /** The recency order remembers exactly who was checked since. */
  lemma {:induction false} BehindIsSince(calls: seq<Call>, key: Key)
    ensures key in Unlimited(calls).order <==> Seen(calls, key)
    ensures Seen(calls, key) ==> Behind(Unlimited(calls).order, key) == Since(calls, key)
  {
    hide TableOk;
    if calls != [] {
      var n := |calls| - 1;
      var before, last := calls[..n], calls[n];
      BehindIsSince(before, key);
      UnlimitedOk(before);
      OrderDistinct(Unlimited(before));
      SeenSnoc(calls, key);
      var order := Unlimited(before).order;
      if last.key == key {
        BehindLast(Without(order, key), key);
      } else if key in order {
        BehindGrows(order, key, last.key);
      }
    }
  }

  lemma SeenSnoc(calls: seq<Call>, key: Key)
    requires calls != []
    ensures Seen(calls, key) <==> Seen(calls[..|calls| - 1], key) || calls[|calls| - 1].key == key
  {
    if Seen(calls[..|calls| - 1], key) {
      var i :| 0 <= i < |calls| - 1 && calls[..|calls| - 1][i].key == key;
      assert calls[i].key == key;
    }
    if Seen(calls, key) && calls[|calls| - 1].key != key {
      var i :| 0 <= i < |calls| && calls[i].key == key;
      assert calls[..|calls| - 1][i].key == key;
    }
  }

  lemma OrderDistinct(t: Table)
    requires TableOk(t)
    ensures Distinct(t.order)
  {
  }

  lemma {:induction false} BehindHolds(a: seq<Key>, b: seq<Key>, key: Key)
    requires key in a && Distinct(a + b)
    ensures Keys(b) <= Behind(a + b, key)
  {
    assert (a + b)[1..] == a[1..] + b && (a + b)[0] == a[0];
    if a[0] != key {
      BehindHolds(a[1..], b, key);
    }
  }

  /** `b` is the recent end of `u` behind the keys in `gone`, with the same windows. */
  predicate Tail(gone: seq<Key>, b: Table, u: Table, limit: nat) {
    && TableOk(b) && TableOk(u)
    && u.order == gone + b.order && |b.order| <= limit && (gone == [] || |b.order| == limit)
    && forall k :: k in b.order ==> b.windows[k] == u.windows[k]
  }

  /** A key with fewer than `limit` others behind it is still in the bounded table. */
  lemma StillThere(gone: seq<Key>, b: Table, u: Table, limit: nat, key: Key)
    requires Tail(gone, b, u, limit) && key in u.order && |Behind(u.order, key)| < limit
    ensures key in b.order
  {
    if key in gone {
      OrderDistinct(u);
      OrderDistinct(b);
      BehindHolds(gone, b.order, key);
      KeysCount(b.order);
      SubsetCount(Keys(b.order), Behind(u.order, key));
      assert false;
    }
  }

  lemma SubsetCount(a: set<Key>, b: set<Key>)
    requires a <= b
    ensures |a| <= |b|
  {
    assert b == a + (b - a);
  }

  lemma TrimOne(t: Table, limit: nat)
    requires |t.order| == limit + 1
    ensures Trimmed(t, limit) == Popped(t)
  {
  }

  lemma TailIs(gone: seq<Key>, b: Table, u: Table, limit: nat)
    requires Tail(gone, b, u, limit)
    ensures TableOk(b) && TableOk(u) && Distinct(gone + b.order) && Distinct(b.order)
    ensures forall k :: k in u.order <==> k in gone || k in b.order
    ensures forall k :: (k in b.windows <==> k in b.order) && (k in u.windows <==> k in u.order)
  {
  }

  lemma NotInFront(a: seq<Key>, b: seq<Key>, key: Key)
    requires Distinct(a + b) && key in b
    ensures key !in a
  {
    var j :| 0 <= j < |b| && b[j] == key;
    assert (a + b)[|a| + j] == key;
    forall i | 0 <= i < |a| ensures a[i] != key {
      assert (a + b)[i] == a[i];
    }
  }

  /** The recency orders after a check of a key the bounded table still has. */
  lemma PresentOrder(gone: seq<Key>, order: seq<Key>, key: Key)
    requires Distinct(gone + order) && key in order
    ensures Without(gone + order, key) + [key] == gone + (Without(order, key) + [key])
  {
    NotInFront(gone, order, key);
    WithoutAbsent(gone, key);
    WithoutConcat(gone, order, key);
  }

  lemma Reorder(gone: seq<Key>, order: seq<Key>, key: Key)
    ensures (gone + order) + [key] == gone + (order + [key])
    ensures order != [] ==> (gone + [order[0]]) + order[1..] == gone + order
  {
  }

  /** Both tables behind the same keys, before the bounded one is trimmed. */
  predicate Level(gone: seq<Key>, b: Table, u: Table) {
    TableOk(b) && TableOk(u) && u.order == gone + b.order && forall k :: k in b.order ==> b.windows[k] == u.windows[k]
  }

  lemma PresentLevel(gone: seq<Key>, b: Table, u: Table, limit: nat, c: Call)
    requires Tail(gone, b, u, limit) && c.key in b.order
    ensures Level(gone, Checked(b, c), Checked(u, c)) && |Checked(b, c).order| == |b.order|
    ensures Answer(b, c) == Answer(u, c)
  {
    TailIs(gone, b, u, limit);
    CheckedOk(b, c);
    CheckedOk(u, c);
    CheckedSize(b, c);
    hide TableOk, Distinct, Without;
    PresentOrder(gone, b.order, c.key);
    assert WindowOf(b, c.key) == WindowOf(u, c.key);
  }

  lemma PresentStep(gone: seq<Key>, b: Table, u: Table, limit: nat, c: Call)
    requires Tail(gone, b, u, limit) && c.key in b.order
    ensures Tail(gone, Bounded(b, c, limit), Checked(u, c), limit)
    ensures Answer(b, c) == Answer(u, c)
  {
    hide TableOk, Checked, OpensWindow, Answer;
    PresentLevel(gone, b, u, limit, c);
  }

  lemma NewLevel(gone: seq<Key>, b: Table, u: Table, limit: nat, c: Call)
    requires Tail(gone, b, u, limit) && c.key !in u.order
    ensures Level(gone, Checked(b, c), Checked(u, c)) && |Checked(b, c).order| == |b.order| + 1
    ensures Answer(b, c) == Answer(u, c) && OpensWindow(b, c)
  {
    TailIs(gone, b, u, limit);
    CheckedOk(b, c);
    CheckedOk(u, c);
    WithoutAbsent(b.order, c.key);
    WithoutAbsent(u.order, c.key);
    hide TableOk, Distinct, Without;
    Reorder(gone, b.order, c.key);
  }

  lemma PopLevel(gone: seq<Key>, b: Table, u: Table, limit: nat)
    requires Level(gone, b, u) && |b.order| == limit + 1
    ensures Tail(gone + [b.order[0]], Trimmed(b, limit), u, limit)
  {
    TrimOne(b, limit);
    PoppedOk(b);
    Reorder(gone, b.order, b.order[0]);
    KeptInOrder(b);
    hide TableOk, Trimmed;
  }

  lemma KeptInOrder(t: Table)
    requires TableOk(t) && t.order != []
    ensures forall k :: k in Popped(t).order ==>
            k in Popped(t).windows && k in t.order && Popped(t).windows[k] == t.windows[k]
  {
    PoppedOk(t);
    assert forall k :: k in t.order[1..] ==> k in t.order;
  }

  /** A key neither table has: both take it, and the bounded one may drop its oldest. */
  lemma NewStep(gone: seq<Key>, b: Table, u: Table, limit: nat, c: Call) returns (gone': seq<Key>)
    requires Tail(gone, b, u, limit) && c.key !in u.order
    ensures Tail(gone', Bounded(b, c, limit), Checked(u, c), limit)
    ensures Answer(b, c) == Answer(u, c)
  {
    NewLevel(gone, b, u, limit, c);
    hide TableOk, Checked, OpensWindow, Answer;
    if |b.order| == limit {
      gone' := gone + [Checked(b, c).order[0]];
      PopLevel(gone, Checked(b, c), Checked(u, c), limit);
    } else {
      gone' := gone;
    }
  }

  /** With calls that local, the bounded table keeps the recent end of the unbounded one. */
  lemma {:induction false} LimitedIsTail(calls: seq<Call>, limit: nat) returns (gone: seq<Key>)
    requires Local(calls, limit)
    ensures Tail(gone, Limited(calls, limit), Unlimited(calls), limit)
  {
    if calls == [] {
      gone := [];
    } else {
      hide Tail, TableOk, Checked, Bounded, Local;
      var n := |calls| - 1;
      LocalPrefix(calls, limit, n);
      var before := LimitedIsTail(calls[..n], limit);
      LocalStep(before, calls, limit, n);
      if calls[n].key in Unlimited(calls[..n]).order {
        gone := before;
        PresentStep(gone, Limited(calls[..n], limit), Unlimited(calls[..n]), limit, calls[n]);
      } else {
        gone := NewStep(before, Limited(calls[..n], limit), Unlimited(calls[..n]), limit, calls[n]);
      }
    }
  }

  lemma LocalPrefix(calls: seq<Call>, limit: nat, n: nat)
    requires Local(calls, limit) && n <= |calls|
    ensures Local(calls[..n], limit)
  {
    hide Since, Seen;
    assert forall i :: 0 <= i < n ==> calls[..n][..i] == calls[..i] && calls[..n][i] == calls[i];
  }

  lemma LocalStep(gone: seq<Key>, calls: seq<Call>, limit: nat, n: nat)
    requires Local(calls, limit) && n < |calls| && Tail(gone, Limited(calls[..n], limit), Unlimited(calls[..n]), limit)
    ensures calls[n].key in Unlimited(calls[..n]).order ==> calls[n].key in Limited(calls[..n], limit).order
  {
    hide Tail;
    BehindIsSince(calls[..n], calls[n].key);
    if calls[n].key in Unlimited(calls[..n]).order {
      StillThere(gone, Limited(calls[..n], limit), Unlimited(calls[..n]), limit, calls[n].key);
    }
  }

  /** Then it gives every call the unbounded table's answer. */
  lemma BoundedAnswersAlike(calls: seq<Call>, limit: nat, n: nat)
    requires Local(calls, limit) && n < |calls|
    ensures Answer(Limited(calls[..n], limit), calls[n]) == Answer(Unlimited(calls[..n]), calls[n])
  {
    hide Tail, Answer, Local;
    LocalPrefix(calls, limit, n);
    var gone := LimitedIsTail(calls[..n], limit);
    LocalStep(gone, calls, limit, n);
    if calls[n].key in Unlimited(calls[..n]).order {
      PresentStep(gone, Limited(calls[..n], limit), Unlimited(calls[..n]), limit, calls[n]);
    } else {
      var _ := NewStep(gone, Limited(calls[..n], limit), Unlimited(calls[..n]), limit, calls[n]);
    }
  }

  // ---------------------------------------------------------------- the table and the one-key law

  /** The times at which a key was checked. */
  function TimesOf(calls: seq<Call>, key: Key): seq<real> {
    if calls == [] then []
    else TimesOf(calls[..|calls| - 1], key) + (if calls[|calls| - 1].key == key then [calls[|calls| - 1].now] else [])
  }

  /** Other keys do not matter: with a fixed cooldown and burst, a key's window in the table is that of its own
      checks. */
  lemma {:induction false} TableIsPerKey(calls: seq<Call>, key: Key, cooldown: real, burst: int)
    requires forall i :: 0 <= i < |calls| && calls[i].key == key ==>
             calls[i].cooldown == cooldown && calls[i].burst == burst
    ensures WindowOf(Unlimited(calls), key) == After(TimesOf(calls, key), cooldown, burst)
  {
    hide Decided, Without;
    if calls != [] {
      var before, last := calls[..|calls| - 1], calls[|calls| - 1];
      TableIsPerKey(before, key, cooldown, burst);
      if last.key == key {
        var ts := TimesOf(before, key);
        assert (ts + [last.now])[..|ts + [last.now]| - 1] == ts;
      } else {
        assert TimesOf(before, key) + [] == TimesOf(before, key);
      }
    }
  }
}
