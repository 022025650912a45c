/** The sliding-window limiter: a bounded, least-recently-seen table of admission times.

    Each call runs under one lock, at nondecreasing times. Keys share the table; each has its own limit and window. */
module SlidingWindow {
  import opened Wrappers
  import opened Sums

  const SWEEP: nat := 32
  const MAX_KEYS: nat := 20000

  /** Keys from least to most recently seen, and each key's admission times. */
  datatype Table = Table(order: seq<string>, buckets: map<string, seq<real>>)

  function After(times: seq<real>, cutoff: real): seq<real>
  {
    if times == [] then []
    else After(times[..|times| - 1], cutoff) + if times[|times| - 1] > cutoff then [times[|times| - 1]] else []
  }

  function Remove(order: seq<string>, key: string): seq<string>
  {
    if order == [] then []
    else Remove(order[..|order| - 1], key) + if order[|order| - 1] == key then [] else [order[|order| - 1]]
  }

  function Drop(t: Table, key: string): Table
  {
    Table(Remove(t.order, key), t.buckets - {key})
  }

  predicate Expired(times: seq<real>, cutoff: real)
  {
    times == [] || times[|times| - 1] <= cutoff
  }

  function BucketOf(t: Table, key: string): seq<real>
  {
    if key in t.buckets then t.buckets[key] else []
  }

  /** The key's bucket cut down to the window, and the key moved to the recent end. */
  function Touched(t: Table, key: string, cutoff: real): Table
  {
    Table(Remove(t.order, key) + [key], t.buckets[key := After(BucketOf(t, key), cutoff)])
  }

  function Admit(t: Table, key: string, now: real): Table
  {
    t.(buckets := t.buckets[key := BucketOf(t, key) + [now]])
  }

  function Swept(t: Table, keys: seq<string>, key: string, cutoff: real): Table
  {
    if keys == [] then t
    else
      var before := Swept(t, keys[..|keys| - 1], key, cutoff);
      var stale := keys[|keys| - 1];
      if stale != key && stale in before.buckets && Expired(before.buckets[stale], cutoff) then Drop(before, stale) else before
  }

  function Evicted(t: Table): Table
    decreases |t.order|
  {
    if |t.order| <= MAX_KEYS then t else Evicted(Table(t.order[1..], t.buckets - {t.order[0]}))
  }

  function Oldest(t: Table): seq<string>
  {
    if |t.order| <= SWEEP then t.order else t.order[..SWEEP]
  }

  function Cleaned(t: Table, key: string, cutoff: real): Table
  {
    Evicted(Swept(t, Oldest(t), key, cutoff))
  }

  /** One call: the table after it, and whether the caller is admitted. */
  function Limited(t: Table, key: string, limit: int, window: real, now: real): (Table, bool)
  {
    var touched := Touched(t, key, now - window);
    if |BucketOf(touched, key)| >= limit then (touched, false)
    else (Cleaned(Admit(touched, key, now), key, now - window), true)
  }

  class RateState {
    var order: seq<string>
    var buckets: map<string, seq<real>>

    ghost function State(): Table
      reads this
    {
      Table(order, buckets)
    }

    constructor ()
      ensures State() == Table([], map[])
    {
      order, buckets := [], map[];
    }

    method Recent(times: seq<real>, cutoff: real) returns (recent: seq<real>)
      ensures recent == After(times, cutoff)
    {
      recent := [];
      for i := 0 to |times|
        invariant recent == After(times[..i], cutoff)
      {
        assert times[..i + 1][..i] == times[..i];
        if times[i] > cutoff {
          recent := recent + [times[i]];
        }
      }
      assert times[..|times|] == times;
    }

    /** Drop the expired among the least recently seen keys. */
    method Sweep(key: string, cutoff: real)
      modifies this
      ensures State() == Swept(old(State()), Oldest(old(State())), key, cutoff)
    {
      var keys := if |order| <= SWEEP then order else order[..SWEEP];
      for i := 0 to |keys|
        invariant State() == Swept(old(State()), keys[..i], key, cutoff)
      {
        assert keys[..i + 1][..i] == keys[..i];
        var stale := keys[i];
        if stale != key && stale in buckets && Expired(buckets[stale], cutoff) {
          order, buckets := Remove(order, stale), buckets - {stale};
        }
      }
      assert keys[..|keys|] == keys;
    }

    method Evict()
      modifies this
      ensures State() == Evicted(old(State()))
    {
      while |order| > MAX_KEYS
        invariant Evicted(State()) == Evicted(old(State()))
      {
        order, buckets := order[1..], buckets - {order[0]};
      }
    }

    method RateLimit(key: string, limit: int, window: real, now: real) returns (admitted: bool)
      modifies this
      ensures (State(), admitted) == Limited(old(State()), key, limit, window, now)
    {
      var bucket := if key in buckets then buckets[key] else [];
      bucket := Recent(bucket, now - window);
      order, buckets := Remove(order, key) + [key], buckets[key := bucket];
      if |bucket| >= limit {
        return false;
      }
      buckets := buckets[key := bucket + [now]];
      Sweep(key, now - window);
      Evict();
      admitted := true;
    }
  }

  // --- The table is bounded ---------------------------------------------------------------------------

  lemma {:induction false} RemoveMembers(order: seq<string>, key: string)
    requires Distinct(order)
    ensures Distinct(Remove(order, key))
    ensures forall k :: k in Remove(order, key) <==> k in order && k != key
    ensures |Remove(order, key)| == if key in order then |order| - 1 else |order|
  {
    if order != [] {
      var init, last := order[..|order| - 1], order[|order| - 1];
      RemoveMembers(init, key);
      assert order == init + [last];
      assert last !in init;
      assert last !in Remove(init, key);
    }
  }

  /** The order lists exactly the keys that have buckets, once each. */
  ghost predicate Consistent(t: Table)
  {
    Distinct(t.order) && forall k :: k in t.order <==> k in t.buckets
  }

  lemma TouchedIsConsistent(t: Table, key: string, cutoff: real)
    requires Consistent(t)
    ensures Consistent(Touched(t, key, cutoff))
  {
    RemoveMembers(t.order, key);
  }

  lemma DropIsConsistent(t: Table, key: string)
    requires Consistent(t)
    ensures Consistent(Drop(t, key))
  {
    RemoveMembers(t.order, key);
  }

  /** Sweeping drops only keys of the sweep that had fully expired. */
  lemma {:induction false} SweepDropsExpired(t: Table, keys: seq<string>, key: string, cutoff: real)
    requires Consistent(t)
    ensures Consistent(Swept(t, keys, key, cutoff))
    ensures forall k :: k in t.buckets && (k == key || !Expired(t.buckets[k], cutoff)) ==> k in Swept(t, keys, key, cutoff).buckets
    ensures forall k :: k in t.buckets && k !in keys ==> k in Swept(t, keys, key, cutoff).buckets
    ensures forall k :: k in Swept(t, keys, key, cutoff).buckets ==> k in t.buckets && Swept(t, keys, key, cutoff).buckets[k] == t.buckets[k]
  {
    if keys != [] {
      SweepDropsExpired(t, keys[..|keys| - 1], key, cutoff);
      DropIsConsistent(Swept(t, keys[..|keys| - 1], key, cutoff), keys[|keys| - 1]);
    }
  }

  /** Dropping the least recently seen key. */
  lemma TailIsConsistent(t: Table)
    requires Consistent(t) && t.order != []
    ensures Consistent(Table(t.order[1..], t.buckets - {t.order[0]}))
  {
    var u := Table(t.order[1..], t.buckets - {t.order[0]});
    forall k ensures k in u.order <==> k in u.buckets {
      if k in t.order {
        var i :| 0 <= i < |t.order| && t.order[i] == k;
        assert i > 0 ==> u.order[i - 1] == k;
      }
    }
  }

  /** Eviction keeps the most recently seen keys, as many as the bound allows, with their buckets. */
  lemma {:induction false} EvictedIsBounded(t: Table)
    requires Consistent(t)
    ensures Consistent(Evicted(t)) && |Evicted(t).order| <= MAX_KEYS
    ensures Evicted(t).order == if |t.order| <= MAX_KEYS then t.order else t.order[|t.order| - MAX_KEYS..]
    ensures |t.order| <= MAX_KEYS ==> Evicted(t) == t
    ensures forall k :: k in Evicted(t).buckets ==> k in t.buckets && Evicted(t).buckets[k] == t.buckets[k]
    decreases |t.order|
  {
    if |t.order| > MAX_KEYS {
      TailIsConsistent(t);
      EvictedIsBounded(Table(t.order[1..], t.buckets - {t.order[0]}));
    }
  }

  /** How many keys the table holds once the caller's has been touched. */
  function KeysTouched(t: Table, key: string): nat
  {
    |t.order| + if key in t.buckets then 0 else 1
  }

  /** A call ends within the bound exactly when it admits its caller or had room for it: a refused call returns before
      anything is evicted. With a positive limit only a key that is known already can be refused, so a table within its
      bound stays within it; with none, a table that was full ends with one key too many. */
  lemma TableIsBoundedExactly(t: Table, key: string, limit: int, window: real, now: real)
    requires Consistent(t)
    ensures Consistent(Limited(t, key, limit, window, now).0)
    ensures |Limited(t, key, limit, window, now).0.order| <= MAX_KEYS
       <==> |After(BucketOf(t, key), now - window)| < limit || KeysTouched(t, key) <= MAX_KEYS
    ensures limit > 0 && |t.order| <= MAX_KEYS ==> |Limited(t, key, limit, window, now).0.order| <= MAX_KEYS
    ensures limit <= 0 ==> |Limited(t, key, limit, window, now).0.order| == KeysTouched(t, key)
  {
    var touched := Touched(t, key, now - window);
    TouchedIsConsistent(t, key, now - window);
    RemoveMembers(t.order, key);
    assert |touched.order| == KeysTouched(t, key);
    if |BucketOf(touched, key)| < limit {
      AdmittedIsBounded(touched, key, window, now);
    }
  }

  lemma AdmittedIsBounded(t: Table, key: string, window: real, now: real)
    requires Consistent(t) && key in t.buckets
    ensures var c := Cleaned(Admit(t, key, now), key, now - window); Consistent(c) && |c.order| <= MAX_KEYS
  {
    var admitted := Admit(t, key, now);
    SweepDropsExpired(admitted, Oldest(admitted), key, now - window);
    EvictedIsBounded(Swept(admitted, Oldest(admitted), key, now - window));
  }

  /** One call to the limiter. */
  datatype Ask = Ask(key: string, limit: int, window: real, at: real)

  /** The table after a run of calls. */
  function TableAfterAll(t: Table, asks: seq<Ask>): Table
    decreases |asks|
  {
    if asks == [] then t
    else TableAfterAll(Limited(t, asks[0].key, asks[0].limit, asks[0].window, asks[0].at).0, asks[1..])
  }

  /** Whatever the keys, windows and times, a run of calls with positive limits never ends over the bound. */
  lemma {:induction false} RunStaysBounded(t: Table, asks: seq<Ask>)
    requires Consistent(t) && |t.order| <= MAX_KEYS && forall a :: a in asks ==> a.limit > 0
    ensures Consistent(TableAfterAll(t, asks)) && |TableAfterAll(t, asks).order| <= MAX_KEYS
    decreases |asks|
  {
    if asks != [] {
      assert asks[0] in asks;
      TableIsBoundedExactly(t, asks[0].key, asks[0].limit, asks[0].window, asks[0].at);
      RunStaysBounded(Limited(t, asks[0].key, asks[0].limit, asks[0].window, asks[0].at).0, asks[1..]);
    }
  }

  // --- No key exceeds its limit ------------------------------------------------------------------------

  datatype Hit = Hit(key: string, at: real)

  /** When a key was admitted, over the whole history. */
  function TimesOf(h: seq<Hit>, key: string): seq<real>
  {
    if h == [] then []
    else TimesOf(h[..|h| - 1], key) + if h[|h| - 1].key == key then [h[|h| - 1].at] else []
  }

  predicate Rising(times: seq<real>, until: real)
  {
    times == [] || (times[|times| - 1] <= until && Rising(times[..|times| - 1], times[|times| - 1]))
  }

  /** The table still knows every admission of the key that a window reaching back from `cutoff` can count. */
  predicate Knows(t: Table, h: seq<Hit>, cutoff: real, now: real, key: string)
  {
    After(BucketOf(t, key), cutoff) == After(TimesOf(h, key), cutoff) && Rising(BucketOf(t, key), now)
  }

  /** How far back a window reaches. */
  function Since(at: real, window: real): real
  {
    at - window
  }

  ghost predicate Remembers(t: Table, h: seq<Hit>, windows: string -> real, now: real)
  {
    Consistent(t) && forall key :: Knows(t, h, Since(now, windows(key)), now, key)
  }

  lemma {:induction false} AfterTwice(times: seq<real>, first: real, second: real)
    requires first <= second
    ensures After(After(times, first), second) == After(times, second)
  {
    if times != [] {
      var n := |times| - 1;
      AfterTwice(times[..n], first, second);
      if times[n] > first {
        AfterAppend(After(times[..n], first), times[n], second);
      } else {
        assert After(times, first) == After(times[..n], first);
      }
    }
  }

  lemma AfterAppend(times: seq<real>, x: real, cutoff: real)
    ensures After(times + [x], cutoff) == After(times, cutoff) + if x > cutoff then [x] else []
  {
    assert (times + [x])[..|times|] == times;
  }

  lemma RisingLater(times: seq<real>, now: real, later: real)
    requires Rising(times, now) && now <= later
    ensures Rising(times, later)
  {
  }

  lemma RisingAppend(times: seq<real>, x: real)
    requires Rising(times, x)
    ensures Rising(times + [x], x)
  {
    assert (times + [x])[..|times|] == times;
  }

  lemma {:induction false} AfterIsRising(times: seq<real>, cutoff: real, now: real)
    requires Rising(times, now)
    ensures Rising(After(times, cutoff), now)
  {
    if times != [] {
      var init, last := times[..|times| - 1], times[|times| - 1];
      AfterIsRising(init, cutoff, last);
      if last > cutoff {
        RisingAppend(After(init, cutoff), last);
      } else {
        assert After(times, cutoff) == After(init, cutoff);
      }
      RisingLater(After(times, cutoff), last, now);
    }
  }

  /** A bucket whose last time has expired has expired altogether. */
  lemma {:induction false} ExpiredIsEmpty(times: seq<real>, cutoff: real, now: real)
    requires Rising(times, now) && Expired(times, cutoff)
    ensures After(times, cutoff) == []
  {
    if times != [] {
      ExpiredIsEmpty(times[..|times| - 1], cutoff, times[|times| - 1]);
    }
  }

  lemma LaterRemembers(t: Table, h: seq<Hit>, windows: string -> real, now: real, later: real)
    requires Remembers(t, h, windows, now) && now <= later
    ensures Remembers(t, h, windows, later)
  {
    forall k ensures Knows(t, h, Since(later, windows(k)), later, k) {
      var first, second := Since(now, windows(k)), Since(later, windows(k));
      assert Knows(t, h, first, now, k);
      AfterTwice(BucketOf(t, k), first, second);
      AfterTwice(TimesOf(h, k), first, second);
      RisingLater(BucketOf(t, k), now, later);
    }
  }

  /** Cutting the caller's bucket to the window leaves exactly its admissions in the window. */
  lemma TouchedRemembers(t: Table, h: seq<Hit>, windows: string -> real, key: string, now: real)
    requires Remembers(t, h, windows, now)
    ensures Remembers(Touched(t, key, Since(now, windows(key))), h, windows, now)
    ensures BucketOf(Touched(t, key, Since(now, windows(key))), key) == After(TimesOf(h, key), Since(now, windows(key)))
  {
    var cutoff := Since(now, windows(key));
    var u := Touched(t, key, cutoff);
    TouchedIsConsistent(t, key, cutoff);
    AfterTwice(BucketOf(t, key), cutoff, cutoff);
    assert Knows(t, h, cutoff, now, key);
    AfterIsRising(BucketOf(t, key), cutoff, now);
    forall k ensures Knows(u, h, Since(now, windows(k)), now, k) {
      assert Knows(t, h, Since(now, windows(k)), now, k);
      if k != key {
        assert BucketOf(u, k) == BucketOf(t, k);
      }
    }
  }

  lemma TimesOfExtended(h: seq<Hit>, hit: Hit, key: string)
    ensures TimesOf(h + [hit], key) == TimesOf(h, key) + if hit.key == key then [hit.at] else []
  {
    assert (h + [hit])[..|h|] == h;
  }

  lemma AdmitRemembers(t: Table, h: seq<Hit>, windows: string -> real, key: string, now: real)
    requires Remembers(t, h, windows, now) && key in t.buckets
    ensures Remembers(Admit(t, key, now), h + [Hit(key, now)], windows, now)
  {
    var u, g := Admit(t, key, now), h + [Hit(key, now)];
    forall k ensures Knows(u, g, Since(now, windows(k)), now, k) {
      var cutoff := Since(now, windows(k));
      assert Knows(t, h, cutoff, now, k);
      TimesOfExtended(h, Hit(key, now), k);
      if k == key {
        AfterAppend(BucketOf(t, k), now, cutoff);
        AfterAppend(TimesOf(h, k), now, cutoff);
        RisingAppend(BucketOf(t, k), now);
      } else {
        assert TimesOf(g, k) == TimesOf(h, k) && BucketOf(u, k) == BucketOf(t, k);
      }
    }
  }

  lemma {:induction false} SweepDropsEveryExpired(t: Table, keys: seq<string>, key: string, cutoff: real, k: string)
    requires Consistent(t) && k in keys && k != key && k in t.buckets && Expired(t.buckets[k], cutoff)
    ensures k !in Swept(t, keys, key, cutoff).buckets
  {
    var init, last := keys[..|keys| - 1], keys[|keys| - 1];
    assert keys == init + [last];
    SweepDropsExpired(t, init, key, cutoff);
    if k in init {
      SweepDropsEveryExpired(t, init, key, cutoff, k);
    }
  }

  lemma {:induction false} LastCounts(times: seq<real>, since: real, now: real)
    requires Rising(times, now) && times != []
    ensures After(times, since) == [] <==> times[|times| - 1] <= since
  {
    if times[|times| - 1] <= since {
      ExpiredIsEmpty(times, since, now);
    }
  }

  /** The sweep measures every key by the caller's window. What it forgets of a key that another, longer window reaching
      back to `since` would count is nothing, exactly when the key's last admission is not between the two cutoffs. */
  lemma SweepForgetsExactly(t: Table, keys: seq<string>, key: string, cutoff: real, since: real, k: string, now: real)
    requires Consistent(t) && k in keys && k != key && k in t.buckets && t.buckets[k] != [] && Rising(t.buckets[k], now)
    ensures After(BucketOf(Swept(t, keys, key, cutoff), k), since) == After(BucketOf(t, k), since)
       <==> !(since < t.buckets[k][|t.buckets[k]| - 1] <= cutoff)
  {
    SweepDropsExpired(t, keys, key, cutoff);
    LastCounts(t.buckets[k], since, now);
    if Expired(t.buckets[k], cutoff) {
      SweepDropsEveryExpired(t, keys, key, cutoff, k);
    }
  }

  // --- What cleaning forgets ---------------------------------------------------------------------------

  /** The key has admissions that its own window still counts. */
  predicate Live(t: Table, windows: string -> real, now: real, k: string)
  {
    k in t.buckets && After(t.buckets[k], Since(now, windows(k))) != []
  }

  /** No live key is forgotten. */
  ghost predicate Spares(before: Table, after: Table, windows: string -> real, now: real)
  {
    forall k :: Live(before, windows, now, k) ==> k in after.buckets
  }

  /** The key's last admission has expired for the caller but not for the key itself. */
  predicate BetweenCutoffs(t: Table, windows: string -> real, now: real, cutoff: real, k: string)
  {
    k in t.buckets && t.buckets[k] != [] && Since(now, windows(k)) < t.buckets[k][|t.buckets[k]| - 1] <= cutoff
  }

  /** None of the keys about to be swept has its last admission between the caller's cutoff and its own. */
  predicate SweepsNoneLive(t: Table, windows: string -> real, key: string, cutoff: real, now: real)
  {
    forall k :: k in Oldest(t) && k != key ==> !BetweenCutoffs(t, windows, now, cutoff, k)
  }

  /** None of the keys over the bound, least recently seen first, is live. */
  predicate EvictsNoneLive(t: Table, windows: string -> real, now: real)
  {
    forall i :: 0 <= i < |t.order| - MAX_KEYS ==> !Live(t, windows, now, t.order[i])
  }

  ghost predicate RisingBuckets(t: Table, now: real)
  {
    forall k :: k in t.buckets ==> Rising(t.buckets[k], now)
  }

  lemma SweepSparesExactly(t: Table, windows: string -> real, key: string, cutoff: real, now: real)
    requires Consistent(t) && RisingBuckets(t, now)
    ensures Spares(t, Swept(t, Oldest(t), key, cutoff), windows, now) <==> SweepsNoneLive(t, windows, key, cutoff, now)
  {
    var u := Swept(t, Oldest(t), key, cutoff);
    SweepDropsExpired(t, Oldest(t), key, cutoff);
    forall k | Live(t, windows, now, k) ensures k in u.buckets || (k in Oldest(t) && k != key && BetweenCutoffs(t, windows, now, cutoff, k)) {
      LastCounts(t.buckets[k], Since(now, windows(k)), now);
    }
    forall k | k in Oldest(t) && k != key && BetweenCutoffs(t, windows, now, cutoff, k) ensures Live(t, windows, now, k) && k !in u.buckets {
      LastCounts(t.buckets[k], Since(now, windows(k)), now);
      SweepDropsEveryExpired(t, Oldest(t), key, cutoff, k);
    }
  }

  lemma EvictionSparesExactly(t: Table, windows: string -> real, now: real)
    requires Consistent(t)
    ensures Spares(t, Evicted(t), windows, now) <==> EvictsNoneLive(t, windows, now)
  {
    EvictedIsBounded(t);
    var c := Evicted(t);
    var over := |t.order| - MAX_KEYS;
    forall i | 0 <= i < over ensures t.order[i] in t.buckets && t.order[i] !in c.buckets {
      assert t.order[i] in t.order;
    }
    forall k | k in t.buckets ensures k in c.buckets || exists i :: 0 <= i < over && t.order[i] == k {
      var i :| 0 <= i < |t.order| && t.order[i] == k;
      if over <= i && over > 0 {
        assert c.order[i - over] == k;
      }
    }
  }

  /** What a call keeps once it admits its caller: every key still live in its own window, exactly when none that it sweeps
      has its last admission between the two cutoffs and none that it evicts is live. */
  lemma CleaningSparesExactly(t: Table, windows: string -> real, key: string, cutoff: real, now: real)
    requires Consistent(t) && RisingBuckets(t, now)
    ensures Spares(t, Cleaned(t, key, cutoff), windows, now)
       <==> SweepsNoneLive(t, windows, key, cutoff, now) && EvictsNoneLive(Swept(t, Oldest(t), key, cutoff), windows, now)
  {
    var u := Swept(t, Oldest(t), key, cutoff);
    SweepDropsExpired(t, Oldest(t), key, cutoff);
    SweepSparesExactly(t, windows, key, cutoff, now);
    EvictionSparesExactly(u, windows, now);
    EvictedIsBounded(u);
    forall k ensures Live(u, windows, now, k) <==> k in u.buckets && Live(t, windows, now, k) {
    }
    if Spares(t, Cleaned(t, key, cutoff), windows, now) {
      assert Spares(t, u, windows, now);
      assert Spares(u, Evicted(u), windows, now);
    }
  }

  lemma {:induction false} SweptShrinks(t: Table, keys: seq<string>, key: string, cutoff: real)
    requires Consistent(t)
    ensures Swept(t, keys, key, cutoff) == t || |Swept(t, keys, key, cutoff).order| < |t.order|
  {
    if keys != [] {
      var before := Swept(t, keys[..|keys| - 1], key, cutoff);
      SweptShrinks(t, keys[..|keys| - 1], key, cutoff);
      SweepDropsExpired(t, keys[..|keys| - 1], key, cutoff);
      RemoveMembers(before.order, keys[|keys| - 1]);
    }
  }

  /** With one window for every key, no bucket empty and at most one key over the bound, no live key is evicted exactly
      when none is evicted at all: a key that has to go was not swept, so it had not expired. */
  lemma OneWindowEvictsLiveExactly(t: Table, window: real, key: string, now: real)
    requires Consistent(t) && RisingBuckets(t, now) && (forall k :: k in t.buckets ==> t.buckets[k] != [])
    requires t.order != [] && t.order[|t.order| - 1] == key && |t.order| <= MAX_KEYS + 1
    ensures var u := Swept(t, Oldest(t), key, Since(now, window));
      EvictsNoneLive(u, _ => window, now) <==> |u.order| <= MAX_KEYS
  {
    var cutoff := Since(now, window);
    var u := Swept(t, Oldest(t), key, cutoff);
    SweptShrinks(t, Oldest(t), key, cutoff);
    if |u.order| > MAX_KEYS {
      var k := t.order[0];
      assert k in t.order && k in t.buckets && k == Oldest(t)[0] && k != key;
      if Expired(t.buckets[k], cutoff) {
        SweepDropsEveryExpired(t, Oldest(t), key, cutoff, k);
      }
      LastCounts(t.buckets[k], cutoff, now);
      assert Live(u, _ => window, now, u.order[0]);
    }
  }

  // --- Runs --------------------------------------------------------------------------------------------

  predicate Admits(t: Table, a: Ask, cutoff: real)
  {
    |BucketOf(Touched(t, a.key, cutoff), a.key)| < a.limit
  }

  function AdmittedTable(t: Table, a: Ask, cutoff: real): Table
  {
    Admit(Touched(t, a.key, cutoff), a.key, a.at)
  }

  function TableAfter(t: Table, a: Ask, cutoff: real): Table
  {
    if Admits(t, a, cutoff) then Cleaned(AdmittedTable(t, a, cutoff), a.key, cutoff) else Touched(t, a.key, cutoff)
  }

  lemma LimitedIs(t: Table, a: Ask)
    ensures Limited(t, a.key, a.limit, a.window, a.at) == (TableAfter(t, a, Since(a.at, a.window)), Admits(t, a, Since(a.at, a.window)))
  {
  }

  function Extended(h: seq<Hit>, a: Ask, admitted: bool): seq<Hit>
  {
    if admitted then h + [Hit(a.key, a.at)] else h
  }

  /** The call's decision is the true count of the key's admissions in its window. */
  lemma DecidesByHistory(t: Table, h: seq<Hit>, windows: string -> real, a: Ask)
    requires Remembers(t, h, windows, a.at) && a.window == windows(a.key)
    ensures Remembers(Touched(t, a.key, Since(a.at, a.window)), h, windows, a.at)
    ensures Admits(t, a, Since(a.at, a.window)) <==> |After(TimesOf(h, a.key), Since(a.at, a.window))| < a.limit
  {
    TouchedRemembers(t, h, windows, a.key, a.at);
  }

  /** What spares every live key forgets nothing that counts. */
  lemma CleanedRemembers(t: Table, h: seq<Hit>, windows: string -> real, key: string, cutoff: real, now: real)
    requires Remembers(t, h, windows, now) && Spares(t, Cleaned(t, key, cutoff), windows, now)
    ensures Remembers(Cleaned(t, key, cutoff), h, windows, now)
  {
    var u, c := Swept(t, Oldest(t), key, cutoff), Cleaned(t, key, cutoff);
    SweepDropsExpired(t, Oldest(t), key, cutoff);
    EvictedIsBounded(u);
    forall k ensures Knows(c, h, Since(now, windows(k)), now, k) {
      assert Knows(t, h, Since(now, windows(k)), now, k);
      if k in c.buckets {
        assert BucketOf(c, k) == BucketOf(t, k);
      } else {
        assert !Live(t, windows, now, k);
      }
    }
  }

  /** The call keeps every live key: as `CleaningSparesExactly` shows, a condition on what it is about to drop. */
  predicate DropsNoneLive(t: Table, windows: string -> real, a: Ask, cutoff: real)
  {
    Admits(t, a, cutoff) ==>
      && SweepsNoneLive(AdmittedTable(t, a, cutoff), windows, a.key, cutoff, a.at)
      && EvictsNoneLive(Swept(AdmittedTable(t, a, cutoff), Oldest(AdmittedTable(t, a, cutoff)), a.key, cutoff), windows, a.at)
  }

  lemma CallRemembers(t: Table, h: seq<Hit>, windows: string -> real, a: Ask, cutoff: real)
    requires Remembers(t, h, windows, a.at) && a.window == windows(a.key) && cutoff == Since(a.at, a.window)
    requires DropsNoneLive(t, windows, a, cutoff)
    ensures Remembers(TableAfter(t, a, cutoff), Extended(h, a, Admits(t, a, cutoff)), windows, a.at)
  {
    DecidesByHistory(t, h, windows, a);
    if Admits(t, a, cutoff) {
      var u, g := AdmittedTable(t, a, cutoff), h + [Hit(a.key, a.at)];
      AdmitRemembers(Touched(t, a.key, cutoff), h, windows, a.key, a.at);
      forall k | k in u.buckets ensures Rising(u.buckets[k], a.at) {
        assert Knows(u, g, Since(a.at, windows(k)), a.at, k);
      }
      CleaningSparesExactly(u, windows, a.key, cutoff, a.at);
      CleanedRemembers(u, g, windows, a.key, cutoff, a.at);
    }
  }

  /** The admissions of a run, after those already made. */
  function History(t: Table, h: seq<Hit>, asks: seq<Ask>): seq<Hit>
    decreases |asks|
  {
    if asks == [] then h
    else
      var (after, admitted) := Limited(t, asks[0].key, asks[0].limit, asks[0].window, asks[0].at);
      History(after, Extended(h, asks[0], admitted), asks[1..])
  }

  /** Calls at nondecreasing times, each key with its own limit and window, none of which drops a live key. */
  predicate Steady(t: Table, asks: seq<Ask>, limits: string -> int, windows: string -> real, before: real)
    decreases |asks|
  {
    asks == [] ||
    (var a := asks[0];
     && before <= a.at && a.limit == limits(a.key) && a.window == windows(a.key)
     && DropsNoneLive(t, windows, a, Since(a.at, a.window))
     && Steady(Limited(t, a.key, a.limit, a.window, a.at).0, asks[1..], limits, windows, a.at))
  }

  /** The i-th admission found fewer than the limit of the same key in the window before it. */
  predicate RoomAt(h: seq<Hit>, i: nat, limits: string -> int, windows: string -> real)
    requires i < |h|
  {
    |After(TimesOf(h[..i], h[i].key), Since(h[i].at, windows(h[i].key)))| < limits(h[i].key)
  }

  predicate WithinLimits(h: seq<Hit>, limits: string -> int, windows: string -> real)
  {
    forall i :: 0 <= i < |h| ==> RoomAt(h, i, limits, windows)
  }

  lemma ExtendedWithin(h: seq<Hit>, hit: Hit, limits: string -> int, windows: string -> real)
    requires WithinLimits(h, limits, windows) && |After(TimesOf(h, hit.key), Since(hit.at, windows(hit.key)))| < limits(hit.key)
    ensures WithinLimits(h + [hit], limits, windows)
  {
    var g := h + [hit];
    forall i | 0 <= i < |g| ensures RoomAt(g, i, limits, windows) {
      if i < |h| {
        assert g[..i] == h[..i];
        assert RoomAt(h, i, limits, windows);
      } else {
        assert g[..i] == h;
      }
    }
  }

  lemma CallStaysWithin(t: Table, h: seq<Hit>, a: Ask, limits: string -> int, windows: string -> real)
    requires Remembers(t, h, windows, a.at) && a.limit == limits(a.key) && a.window == windows(a.key) && WithinLimits(h, limits, windows)
    ensures WithinLimits(Extended(h, a, Admits(t, a, Since(a.at, a.window))), limits, windows)
  {
    DecidesByHistory(t, h, windows, a);
    if Admits(t, a, Since(a.at, a.window)) {
      ExtendedWithin(h, Hit(a.key, a.at), limits, windows);
    }
  }

  /** Over any run, every key gets at most its limit of admissions in any window of its own: each admission, together with
      those of the same key in the window before it, makes at most the limit. */
  lemma {:induction false} NoKeyExceedsItsLimit(t: Table, h: seq<Hit>, asks: seq<Ask>, limits: string -> int, windows: string -> real,
                                                before: real)
    requires Remembers(t, h, windows, before) && Steady(t, asks, limits, windows, before)
    requires WithinLimits(h, limits, windows)
    ensures WithinLimits(History(t, h, asks), limits, windows)
    decreases |asks|
  {
    if asks != [] {
      var a := asks[0];
      var cutoff := Since(a.at, a.window);
      LimitedIs(t, a);
      LaterRemembers(t, h, windows, before, a.at);
      CallRemembers(t, h, windows, a, cutoff);
      CallStaysWithin(t, h, a, limits, windows);
      NoKeyExceedsItsLimit(TableAfter(t, a, cutoff), Extended(h, a, Admits(t, a, cutoff)), asks[1..], limits, windows, a.at);
    }
  }

  const Empty: Table := Table([], map[])

  /** From a fresh limiter with positive limits: no key exceeds its limit, and the table stays within its bound. */
  lemma FreshLimiterIsSafe(asks: seq<Ask>, limits: string -> int, windows: string -> real, before: real)
    requires Steady(Empty, asks, limits, windows, before) && forall a :: a in asks ==> a.limit > 0
    ensures WithinLimits(History(Empty, [], asks), limits, windows)
    ensures |TableAfterAll(Empty, asks).order| <= MAX_KEYS
  {
    assert Remembers(Empty, [], windows, before);
    NoKeyExceedsItsLimit(Empty, [], asks, limits, windows, before);
    RunStaysBounded(Empty, asks);
  }

  lemma {:induction false} RemoveAbsent(order: seq<string>, key: string)
    requires key !in order
    ensures Remove(order, key) == order
  {
    if order != [] {
      RemoveAbsent(order[..|order| - 1], key);
    }
  }

  lemma NewKeyIsAdmitted(t: Table, a: Ask)
    requires a.key !in t.order && a.key !in t.buckets && a.limit > 0
    ensures var admitted := Table(t.order + [a.key], t.buckets[a.key := [a.at]]);
      Limited(t, a.key, a.limit, a.window, a.at) == (Cleaned(admitted, a.key, a.at - a.window), true)
  {
    RemoveAbsent(t.order, a.key);
    var touched := Touched(t, a.key, a.at - a.window);
    assert BucketOf(touched, a.key) == [];
    assert BucketOf(touched, a.key) + [a.at] == [a.at];
    assert touched.buckets[a.key := [a.at]] == t.buckets[a.key := [a.at]];
  }

  lemma SweptOneMore(t: Table, keys: seq<string>, stale: string, key: string, cutoff: real)
    ensures var before := Swept(t, keys, key, cutoff);
      Swept(t, keys + [stale], key, cutoff)
      == if stale != key && stale in before.buckets && Expired(before.buckets[stale], cutoff) then Drop(before, stale) else before
  {
    assert (keys + [stale])[..|keys|] == keys;
  }

  /** The table that holds one key, admitted once. */
  function Single(a: Ask): Table
  {
    Table([a.key], map[a.key := [a.at]])
  }

  lemma OwnKeyIsKept(t: Table, key: string, cutoff: real)
    requires t.order == [key]
    ensures Cleaned(t, key, cutoff) == t
  {
    SweptOneMore(t, [], key, key, cutoff);
    assert [] + [key] == t.order;
  }

  lemma FirstCall(t: Table, a: Ask)
    requires t.order == [] && t.buckets == map[] && a.limit > 0
    ensures Limited(t, a.key, a.limit, a.window, a.at) == (Single(a), true)
  {
    NewKeyIsAdmitted(t, a);
    var admitted := Table(t.order + [a.key], t.buckets[a.key := [a.at]]);
    assert admitted == Single(a);
    OwnKeyIsKept(admitted, a.key, a.at - a.window);
  }

  lemma SecondKeyIsAdmitted(x: Ask, a: Ask)
    requires a.key != x.key && a.limit > 0
    ensures Limited(Single(x), a.key, a.limit, a.window, a.at).1
  {
    NewKeyIsAdmitted(Single(x), a);
  }

  lemma RemoveFirst(first: string, second: string)
    requires first != second
    ensures Remove([first, second], first) == [second]
  {
    assert [first, second][..1] == [first] && [first][..0] == [];
    assert Remove([first], first) == [];
  }

  lemma SweptPair(t: Table, other: string, key: string, cutoff: real)
    requires t.order == [other, key] && other != key && other in t.buckets && Expired(t.buckets[other], cutoff)
    ensures Cleaned(t, key, cutoff) == Table([key], t.buckets - {other})
  {
    SweptOneMore(t, [], other, key, cutoff);
    SweptOneMore(t, [other], key, key, cutoff);
    assert [] + [other] == [other] && [other] + [key] == t.order;
    RemoveFirst(other, key);
  }

  /** A call from a second key sweeps the first, which has expired by the caller's window. */
  lemma SecondKeySweepsFirst(x: Ask, a: Ask)
    requires a.key != x.key && a.limit > 0 && x.at <= a.at - a.window
    ensures Limited(Single(x), a.key, a.limit, a.window, a.at) == (Single(a), true)
  {
    NewKeyIsAdmitted(Single(x), a);
    var admitted := Table([x.key] + [a.key], Single(x).buckets[a.key := [a.at]]);
    SweptPair(admitted, x.key, a.key, a.at - a.window);
    assert admitted.buckets - {x.key} == Single(a).buckets;
  }

  lemma NextCall(t: Table, h: seq<Hit>, asks: seq<Ask>, u: Table)
    requires asks != [] && Limited(t, asks[0].key, asks[0].limit, asks[0].window, asks[0].at) == (u, true)
    ensures History(t, h, asks) == History(u, h + [Hit(asks[0].key, asks[0].at)], asks[1..])
  {
  }

  /** A key is admitted again, whatever its window, once a caller with another window has swept it. */
  lemma AdmittedOnceSwept(a: Ask, b: Ask, c: Ask)
    requires a.key == c.key != b.key && a.limit > 0 && b.limit > 0 && c.limit > 0 && a.at <= b.at - b.window
    ensures History(Empty, [], [a, b, c]) == [Hit(a.key, a.at), Hit(b.key, b.at), Hit(c.key, c.at)]
  {
    FirstCall(Empty, a);
    SecondKeySweepsFirst(a, b);
    SecondKeyIsAdmitted(b, c);
    var asks, x, y := [a, b, c], Hit(a.key, a.at), Hit(b.key, b.at);
    NextCall(Empty, [], asks, Single(a));
    NextCall(Single(a), [x], asks[1..], Single(b));
    NextCall(Single(b), [x, y], asks[2..], Limited(Single(b), c.key, c.limit, c.window, c.at).0);
    assert [] + [x] == [x] && [x] + [y] == [x, y];
    assert asks[1..][1..] == asks[2..] && asks[2..][1..] == [];
  }

  /** Two admissions of a key inside its window are over a limit of one. */
  lemma SecondIsOverLimit(x: Hit, y: Hit, z: Hit, limits: string -> int, windows: string -> real)
    requires x.key == z.key != y.key && limits(z.key) == 1 && Since(z.at, windows(z.key)) < x.at
    ensures !WithinLimits([x, y, z], limits, windows)
  {
    var h := [x, y, z];
    TimesOfExtended([], x, z.key);
    TimesOfExtended([x], y, z.key);
    assert [] + [x] == [x] && [x] + [y] == h[..2];
    AfterAppend([], x.at, Since(z.at, windows(z.key)));
    assert [] + [x.at] == [x.at];
    assert TimesOf(h[..2], z.key) == [x.at];
    assert !RoomAt(h, 2, limits, windows);
  }

  /** A key allowed once an hour is admitted at 0 s and again at 101 s: at 100 s a caller with a one-minute window swept it. */
  lemma ShorterWindowForgets(hourly: string, minutely: string, limits: string -> int, windows: string -> real)
    requires hourly != minutely && limits(hourly) == 1 && windows(hourly) == 3600.0
    ensures var asks := [Ask(hourly, 1, 3600.0, 0.0), Ask(minutely, 1, 60.0, 100.0), Ask(hourly, 1, 3600.0, 101.0)];
      && History(Empty, [], asks) == [Hit(hourly, 0.0), Hit(minutely, 100.0), Hit(hourly, 101.0)]
      && !WithinLimits(History(Empty, [], asks), limits, windows)
  {
    AdmittedOnceSwept(Ask(hourly, 1, 3600.0, 0.0), Ask(minutely, 1, 60.0, 100.0), Ask(hourly, 1, 3600.0, 101.0));
    SecondIsOverLimit(Hit(hourly, 0.0), Hit(minutely, 100.0), Hit(hourly, 101.0), limits, windows);
  }
}
