/** Per-key token bucket with lazy refill. Times are nanoseconds of one monotonic clock. */
module RateLimit {
  const SECOND: nat := 1000000000

  datatype Tokens = Tokens(tokens: int, last: int)

  /** Whole seconds since the last refill buy rps tokens each, up to rps. */
  function Refill(rps: nat, b: Tokens, now: int): Tokens {
    if now - b.last >= SECOND then
      var t := b.tokens + (now - b.last) / SECOND * rps;
      Tokens(if t > rps then rps else t, now)
    else b
  }

  function Take(b: Tokens): Tokens {
    if b.tokens <= 0 then b else b.(tokens := b.tokens - 1)
  }

  function Touch(rps: nat, b: Tokens, now: int): Tokens {
    Take(Refill(rps, b, now))
  }

  predicate Admits(rps: nat, b: Tokens, now: int) {
    Refill(rps, b, now).tokens > 0
  }

  predicate Sound(rps: nat, b: Tokens) {
    rps >= 1 && 0 <= b.tokens <= rps
  }

  // --- One key over a sequence of request times ----------------------------------------------

  predicate Nondecreasing(start: int, times: seq<int>) {
    forall i, j :: 0 <= i <= j < |times| ==> start <= times[i] <= times[j]
  }

  function After(rps: nat, b: Tokens, times: seq<int>): Tokens
    decreases |times|
  {
    if times == [] then b else After(rps, Touch(rps, b, times[0]), times[1..])
  }

  function Admitted(rps: nat, b: Tokens, times: seq<int>): nat
    decreases |times|
  {
    if times == [] then 0
    else (if Admits(rps, b, times[0]) then 1 else 0) + Admitted(rps, Touch(rps, b, times[0]), times[1..])
  }

  /** A refill always fills the bucket: at least one whole second buys all rps tokens. */
  lemma RefillFills(rps: nat, b: Tokens, now: int)
    requires Sound(rps, b)
    ensures Refill(rps, b, now) == if now - b.last >= 1000000000 then Tokens(rps, now) else b
    ensures Sound(rps, Touch(rps, b, now))
  {
    if now - b.last >= SECOND {
      AtLeastOne((now - b.last) / SECOND, rps);
    }
  }

  lemma AtLeastOne(n: int, rps: nat)
    requires n >= 1
    ensures n * rps >= rps
  {
    var m: nat := (n - 1) * rps;
    assert n * rps == m + rps;
  }

  lemma {:induction false} AfterIsSound(rps: nat, b: Tokens, times: seq<int>)
    requires Sound(rps, b) && Nondecreasing(b.last, times)
    ensures var c := After(rps, b, times);
            && Sound(rps, c)
            && b.last <= c.last <= (if times == [] then b.last else times[|times| - 1])
    decreases |times|
  {
    if times != [] {
      RefillFills(rps, b, times[0]);
      AfterIsSound(rps, Touch(rps, b, times[0]), times[1..]);
    }
  }

  /** From any state, no more than the tokens held plus rps for every whole second since the last refill. */
  lemma {:induction false} AdmittedBound(rps: nat, b: Tokens, times: seq<int>, end: int)
    requires Sound(rps, b) && Nondecreasing(b.last, times)
    requires b.last <= end && (times != [] ==> times[|times| - 1] <= end)
    ensures Admitted(rps, b, times) <= b.tokens + rps * ((end - b.last) / 1000000000)
    decreases |times|
  {
    var whole: nat := (end - b.last) / SECOND;
    var bought: nat := rps * whole;
    if times != [] {
      var c := Touch(rps, b, times[0]);
      RefillFills(rps, b, times[0]);
      AdmittedBound(rps, c, times[1..], end);
      if times[0] - b.last >= SECOND {
        MoreSeconds(rps, (end - times[0]) / SECOND, whole);
      }
    }
  }

  lemma MoreSeconds(rps: nat, m: nat, n: nat)
    requires m + 1 <= n
    ensures rps + rps * m <= rps * n
  {
    var d: nat := n - m - 1;
    var rest: nat := rps * d;
    assert rps * (m + 1 + d) == rps * m + rps + rest;
  }

  /** In the first span nanoseconds of its bucket a key gets at most rps * (whole seconds + 1). */
  lemma FirstSeconds(rps: nat, created: int, times: seq<int>, span: nat)
    requires rps >= 1 && Nondecreasing(created, times)
    requires times != [] ==> times[|times| - 1] <= created + span
    ensures Admitted(rps, Tokens(rps, created), times) <= rps * (span / 1000000000 + 1)
  {
    AdmittedBound(rps, Tokens(rps, created), times, created + span);
    assert rps * (span / SECOND + 1) == rps * (span / SECOND) + rps;
  }

  function CeilSeconds(span: nat): (seconds: nat)
    ensures 1000000000 * seconds >= span && (seconds > 0 ==> 1000000000 * (seconds - 1) < span)
  {
    (span + SECOND - 1) / SECOND
  }

  /** In any window of span nanoseconds, whatever came before, at most rps * (seconds rounded up + 1). */
  lemma Window(rps: nat, created: int, times: seq<int>, i: nat, j: nat, span: nat)
    requires rps >= 1 && Nondecreasing(created, times) && i <= j <= |times|
    requires i < j ==> times[j - 1] <= times[i] + span
    ensures Admitted(rps, After(rps, Tokens(rps, created), times[..i]), times[i..j])
         <= rps * (CeilSeconds(span) + 1)
  {
    Earlier(created, times, i);
    var b := After(rps, Tokens(rps, created), times[..i]);
    AfterIsSound(rps, Tokens(rps, created), times[..i]);
    if i < j {
      Later(created, times, i, j, b.last);
      WindowFrom(rps, b, times[i..j], span);
    } else {
      NotNegative(rps, CeilSeconds(span) + 1);
    }
  }

  lemma NotNegative(m: nat, n: nat)
    ensures m * n >= 0
  {
  }

  lemma Earlier(created: int, times: seq<int>, i: nat)
    requires Nondecreasing(created, times) && i <= |times|
    ensures Nondecreasing(created, times[..i])
  {
  }

  lemma Later(created: int, times: seq<int>, i: nat, j: nat, last: int)
    requires Nondecreasing(created, times) && i <= j <= |times|
    requires last <= if i == 0 then created else times[i - 1]
    ensures Nondecreasing(last, times[i..j])
  {
    forall k, l | 0 <= k <= l < j - i
      ensures last <= times[i..j][k] <= times[i..j][l]
    {
      assert times[i + k] <= times[i + l];
      assert i > 0 ==> times[i - 1] <= times[i + k];
    }
  }

  lemma WindowFrom(rps: nat, b: Tokens, times: seq<int>, span: nat)
    requires Sound(rps, b) && times != [] && Nondecreasing(b.last, times)
    requires times[|times| - 1] <= times[0] + span
    ensures Admitted(rps, b, times) <= rps * (CeilSeconds(span) + 1)
  {
    var t := times[0];
    OneMore(rps, CeilSeconds(span));
    if t - b.last >= SECOND {
      // The first request refills, so the tokens left over are not spent on top.
      var c := Touch(rps, b, t);
      RefillFills(rps, b, t);
      AdmittedBound(rps, c, times[1..], t + span);
      Times(rps, span / SECOND, CeilSeconds(span));
    } else {
      AdmittedBound(rps, b, times, t + span);
      assert (t + span - b.last) / SECOND <= CeilSeconds(span);
      Times(rps, (t + span - b.last) / SECOND, CeilSeconds(span));
    }
  }

  lemma Times(rps: nat, m: nat, n: nat)
    requires m <= n
    ensures rps * m <= rps * n
  {
    if m < n {
      MoreSeconds(rps, m, n);
    }
  }

  // --- The window bound is reached ------------------------------------------------------------

  function Repeat(t: int, n: nat): (times: seq<int>)
    ensures |times| == n && forall i :: 0 <= i < n ==> times[i] == t
  {
    seq(n, i => t)
  }

  /** Bursts of rps requests, one burst a second. */
  function Bursts(rps: nat, t: int, n: nat): (times: seq<int>)
    ensures forall i :: 0 <= i < |times| ==> t <= times[i] <= t + SECOND * (n - 1)
    ensures Nondecreasing(t, times)
    ensures n > 0 && rps > 0 ==> |times| > 0
    decreases n
  {
    if n == 0 then [] else Repeat(t, rps) + Bursts(rps, t + SECOND, n - 1)
  }

  lemma {:induction false} Burst(rps: nat, b: Tokens, t: int, n: nat)
    requires Sound(rps, b) && t - b.last < SECOND && n <= b.tokens
    ensures Admitted(rps, b, Repeat(t, n)) == n
    ensures After(rps, b, Repeat(t, n)) == b.(tokens := b.tokens - n)
    decreases n
  {
    if n > 0 {
      assert Repeat(t, n)[1..] == Repeat(t, n - 1);
      Burst(rps, b.(tokens := b.tokens - 1), t, n - 1);
    }
  }

  lemma {:induction false} Concat(rps: nat, b: Tokens, xs: seq<int>, ys: seq<int>)
    ensures After(rps, b, xs + ys) == After(rps, After(rps, b, xs), ys)
    ensures Admitted(rps, b, xs + ys) == Admitted(rps, b, xs) + Admitted(rps, After(rps, b, xs), ys)
    decreases |xs|
  {
    if xs == [] {
      assert xs + ys == ys;
    } else {
      assert (xs + ys)[1..] == xs[1..] + ys;
      Concat(rps, Touch(rps, b, xs[0]), xs[1..], ys);
    }
  }

  /** A burst that finds the bucket due for a refill is admitted whole and leaves it empty. */
  lemma RefilledBurst(rps: nat, b: Tokens, t: int)
    requires Sound(rps, b) && t - b.last >= SECOND
    ensures Admitted(rps, b, Repeat(t, rps)) == rps
    ensures After(rps, b, Repeat(t, rps)) == Tokens(0, t)
  {
    RefillFills(rps, b, t);
    assert Repeat(t, rps)[1..] == Repeat(t, rps - 1);
    Burst(rps, Tokens(rps - 1, t), t, rps - 1);
  }

  lemma {:induction false} BurstsAdmitted(rps: nat, b: Tokens, t: int, n: nat)
    requires Sound(rps, b) && t - b.last >= SECOND
    ensures Admitted(rps, b, Bursts(rps, t, n)) == rps * n
    decreases n
  {
    if n > 0 {
      RefilledBurst(rps, b, t);
      Concat(rps, b, Repeat(t, rps), Bursts(rps, t + SECOND, n - 1));
      BurstsAdmitted(rps, Tokens(0, t), t + SECOND, n - 1);
      OneMore(rps, n - 1);
    }
  }

  lemma CeilSecondsFits(span: nat)
    ensures CeilSeconds(span) == 0 <==> span == 0
    ensures CeilSeconds(span) > 0 ==> SECOND * (CeilSeconds(span) - 1) < span
  {
  }

  lemma OneMore(rps: nat, n: nat)
    ensures rps * (n + 1) == rps + rps * n
  {
  }

  /** A burst just before the first refill is due, then one at every refill. */
  function Greedy(rps: nat, span: nat): seq<int> {
    Repeat(SECOND - 1, rps) + Bursts(rps, SECOND, CeilSeconds(span))
  }

  lemma GreedyFits(rps: nat, span: nat)
    requires rps >= 1
    ensures var times := Greedy(rps, span);
            times != [] && Nondecreasing(0, times) && times[|times| - 1] <= times[0] + span
  {
    CeilSecondsFits(span);
    var rest := Bursts(rps, SECOND, CeilSeconds(span));
    assert CeilSeconds(span) == 0 ==> rest == [];
  }

  /** For every rate and every window length some client gets the whole bound of Window. */
  lemma WindowIsTight(rps: nat, span: nat)
    requires rps >= 1
    ensures var times := Greedy(rps, span);
            && times != [] && Nondecreasing(0, times) && times[|times| - 1] <= times[0] + span
            && Admitted(rps, Tokens(rps, 0), times) == rps * (CeilSeconds(span) + 1)
  {
    var n := CeilSeconds(span);
    GreedyFits(rps, span);
    Burst(rps, Tokens(rps, 0), SECOND - 1, rps);
    Concat(rps, Tokens(rps, 0), Repeat(SECOND - 1, rps), Bursts(rps, SECOND, n));
    BurstsAdmitted(rps, Tokens(0, 0), SECOND, n);
    OneMore(rps, n);
  }

  // --- The whole limiter ----------------------------------------------------------------------

  /** created is the clock reading a new bucket would take, now the one used for the refill. */
  datatype Request = Request(key: string, created: int, now: int)

  function Entry(rps: nat, store: map<string, Tokens>, r: Request): Tokens {
    if r.key in store then store[r.key] else Tokens(rps, r.created)
  }

  function Serve(rps: nat, store: map<string, Tokens>, r: Request): map<string, Tokens> {
    store[r.key := Touch(rps, Entry(rps, store, r), r.now)]
  }

  function ServeAll(rps: nat, store: map<string, Tokens>, rs: seq<Request>): map<string, Tokens>
    decreases |rs|
  {
    if rs == [] then store else ServeAll(rps, Serve(rps, store, rs[0]), rs[1..])
  }

  function AdmittedTo(rps: nat, store: map<string, Tokens>, rs: seq<Request>, key: string): nat
    decreases |rs|
  {
    if rs == [] then 0
    else
      (if rs[0].key == key && Admits(rps, Entry(rps, store, rs[0]), rs[0].now) then 1 else 0)
      + AdmittedTo(rps, Serve(rps, store, rs[0]), rs[1..], key)
  }

  function TimesOf(key: string, rs: seq<Request>): seq<int> {
    if rs == [] then []
    else
      var rest := TimesOf(key, rs[1..]);
      if rs[0].key == key then [rs[0].now] + rest else rest
  }

  /** A known key fares as if it were alone, whatever other keys do in between. */
  lemma {:induction false} KeysAreIndependent(rps: nat, store: map<string, Tokens>, rs: seq<Request>, key: string)
    requires key in store
    ensures var end := ServeAll(rps, store, rs);
            key in end && end[key] == After(rps, store[key], TimesOf(key, rs))
    ensures AdmittedTo(rps, store, rs, key) == Admitted(rps, store[key], TimesOf(key, rs))
    decreases |rs|
  {
    if rs != [] {
      var next := Serve(rps, store, rs[0]);
      KeysAreIndependent(rps, next, rs[1..], key);
      var rest := TimesOf(key, rs[1..]);
      if rs[0].key == key {
        assert ([rs[0].now] + rest)[1..] == rest;
      }
    }
  }

  /** A new key starts with a full bucket at its first request. */
  lemma {:induction false} NewKey(rps: nat, store: map<string, Tokens>, rs: seq<Request>, key: string) returns (i: nat)
    requires key !in store
    ensures i <= |rs| && (forall j :: 0 <= j < i ==> rs[j].key != key)
    ensures i < |rs| ==> rs[i].key == key
    ensures AdmittedTo(rps, store, rs, key)
         == if i < |rs| then Admitted(rps, Tokens(rps, rs[i].created), TimesOf(key, rs)) else 0
    decreases |rs|
  {
    i := 0;
    if rs != [] {
      var next, rest := Serve(rps, store, rs[0]), TimesOf(key, rs[1..]);
      if rs[0].key == key {
        KeysAreIndependent(rps, next, rs[1..], key);
        assert ([rs[0].now] + rest)[1..] == rest;
      } else {
        i := NewKey(rps, next, rs[1..], key);
        i := i + 1;
        assert forall j :: 0 < j < i ==> rs[j] == rs[1..][j - 1];
      }
    }
  }

  // --- One key among others --------------------------------------------------------------------

  /** The readings of one clock, each request under the lock, none before at. */
  predicate Clock(at: int, rs: seq<Request>)
    decreases |rs|
  {
    rs == [] || (at <= rs[0].created <= rs[0].now && Clock(rs[0].now, rs[1..]))
  }

  function Latest(at: int, rs: seq<Request>): int
    decreases |rs|
  {
    if rs == [] then at else Latest(rs[0].now, rs[1..])
  }

  predicate StoreSound(rps: nat, store: map<string, Tokens>, at: int) {
    forall k :: k in store ==> Sound(rps, store[k]) && store[k].last <= at
  }

  lemma {:induction false} ServeAllSound(rps: nat, store: map<string, Tokens>, rs: seq<Request>, at: int)
    requires rps >= 1 && StoreSound(rps, store, at) && Clock(at, rs)
    ensures StoreSound(rps, ServeAll(rps, store, rs), Latest(at, rs))
    decreases |rs|
  {
    if rs != [] {
      RefillFills(rps, Entry(rps, store, rs[0]), rs[0].now);
      ServeAllSound(rps, Serve(rps, store, rs[0]), rs[1..], rs[0].now);
    }
  }

  lemma {:induction false} TimesFollowClock(key: string, rs: seq<Request>, at: int)
    requires Clock(at, rs)
    ensures Nondecreasing(at, TimesOf(key, rs))
    decreases |rs|
  {
    if rs != [] {
      TimesFollowClock(key, rs[1..], rs[0].now);
    }
  }

  /** A bucket is created no later than the first request of its key. */
  lemma {:induction false} TimesFollowCreation(key: string, rs: seq<Request>, at: int, i: nat)
    requires Clock(at, rs) && i < |rs| && rs[i].key == key && forall j :: 0 <= j < i ==> rs[j].key != key
    ensures Nondecreasing(rs[i].created, TimesOf(key, rs))
    decreases i
  {
    if i == 0 {
      TimesFollowClock(key, rs[1..], rs[0].now);
    } else {
      TimesFollowCreation(key, rs[1..], rs[0].now, i - 1);
    }
  }

  predicate Within(times: seq<int>, span: nat) {
    times != [] ==> times[|times| - 1] <= times[0] + span
  }

  lemma WindowOf(rps: nat, b: Tokens, times: seq<int>, span: nat)
    requires Sound(rps, b) && Nondecreasing(b.last, times) && Within(times, span)
    ensures Admitted(rps, b, times) <= rps * (CeilSeconds(span) + 1)
  {
    if times == [] {
      NotNegative(rps, CeilSeconds(span) + 1);
    } else {
      WindowFrom(rps, b, times, span);
    }
  }

  /** Whatever came before and whoever comes in between: a key's requests within span nanoseconds are admitted
      at most rps * (seconds rounded up + 1) times. */
  lemma KeyWindow(rps: nat, before: seq<Request>, window: seq<Request>, key: string, start: int, span: nat)
    requires rps >= 1 && Clock(start, before) && Clock(Latest(start, before), window)
    requires Within(TimesOf(key, window), span)
    ensures AdmittedTo(rps, ServeAll(rps, map[], before), window, key) <= rps * (CeilSeconds(span) + 1)
  {
    var store, at := ServeAll(rps, map[], before), Latest(start, before);
    ServeAllSound(rps, map[], before, start);
    if key in store {
      KeysAreIndependent(rps, store, window, key);
      TimesFollowClock(key, window, at);
      WindowOf(rps, store[key], TimesOf(key, window), span);
    } else {
      var i := NewKey(rps, store, window, key);
      if i < |window| {
        TimesFollowCreation(key, window, at, i);
        WindowOf(rps, Tokens(rps, window[i].created), TimesOf(key, window), span);
      } else {
        NotNegative(rps, CeilSeconds(span) + 1);
      }
    }
  }

  /** In the first span nanoseconds after its bucket was created a key gets at most rps * (whole seconds + 1),
      among any requests of others. */
  lemma KeyFirstSeconds(rps: nat, rs: seq<Request>, key: string, start: int, i: nat, span: nat)
    requires rps >= 1 && Clock(start, rs)
    requires i < |rs| && rs[i].key == key && forall j :: 0 <= j < i ==> rs[j].key != key
    requires var times := TimesOf(key, rs); times != [] ==> times[|times| - 1] <= rs[i].created + span
    ensures AdmittedTo(rps, map[], rs, key) <= rps * (span / 1000000000 + 1)
  {
    var k := NewKey(rps, map[], rs, key);
    assert k == i;
    TimesFollowCreation(key, rs, start, i);
    FirstSeconds(rps, rs[i].created, TimesOf(key, rs), span);
  }

  class Bucket {
    var tokens: int
    var last: int

    constructor (tokens: int, last: int)
      ensures Contents() == Tokens(tokens, last)
    {
      this.tokens, this.last := tokens, last;
    }

    ghost function Contents(): Tokens
      reads this
    {
      Tokens(tokens, last)
    }

    /** The refill and the take of one request. */
    method Spend(rps: nat, now: int) returns (ok: bool)
      requires Sound(rps, Contents())
      modifies this
      ensures Contents() == Touch(rps, old(Contents()), now) && Sound(rps, Contents())
      ensures ok == Admits(rps, old(Contents()), now)
    {
      RefillFills(rps, Contents(), now);
      var elapsed := now - last;
      if elapsed >= SECOND {
        var refill := elapsed / SECOND * rps;
        tokens := tokens + refill;
        if tokens > rps {
          tokens := rps;
        }
        last := now;
      }
      if tokens <= 0 {
        return false;
      }
      tokens := tokens - 1;
      return true;
    }
  }

  class RateLimiter {
    const rps: nat
    var store: map<string, Bucket>

    ghost predicate Valid()
      reads this, store.Values
    {
      && rps >= 1
      && (forall k, k' :: k in store && k' in store && k != k' ==> store[k] != store[k'])
      && (forall k :: k in store ==> Sound(rps, store[k].Contents()))
    }

    ghost function Buckets(): map<string, Tokens>
      reads this, store.Values
    {
      map k | k in store :: store[k].Contents()
    }

    constructor (rps: int)
      ensures Valid() && Buckets() == map[] && this.rps == if rps < 1 then 1 else rps
    {
      this.rps := if rps < 1 then 1 else rps;
      store := map[];
    }

    method Allow(key: string, created: int, now: int) returns (ok: bool)
      requires Valid()
      modifies this`store, store.Values
      ensures Valid() && fresh(store.Values - old(store.Values))
      ensures ok == Admits(rps, Entry(rps, old(Buckets()), Request(key, created, now)), now)
      ensures Buckets() == Serve(rps, old(Buckets()), Request(key, created, now))
    {
      if key !in store {
        var b := new Bucket(rps, created);
        store := store[key := b];
      }
      ok := store[key].Spend(rps, now);
    }
  }
}
