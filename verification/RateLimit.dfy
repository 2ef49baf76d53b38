/**
 The keyed token-bucket limiter of auth/ratelimit.go.

 Tokens are kept exactly: a bucket's `credit` is its tokens multiplied by the
 refill interval, so one token is worth `interval` nanoseconds of credit and an
 elapsed nanosecond is worth one nanosecond of credit. Every call reads the clock
 while it holds the limiter's mutex, so a call is one atomic step at one instant
 and a run is a sequence of calls with a non-decreasing clock.
 */
module RateLimit {

  import Maps

  type Key = string

  datatype Bucket = Bucket(credit: int, last: int)

  /**
   `interval` is the time to regain one token and `full` the credit of a full
   burst (see Configure).
   */
  datatype Config = Config(full: nat, interval: int, maxKeys: nat)

  function Configure(burst: nat, interval: int, maxKeys: nat): (c: Config)
    requires 0 < interval
    ensures c.full / interval == burst && c.full % interval == 0
  {
    WholeTokens(burst, interval);
    Config(burst * interval, interval, maxKeys)
  }

  lemma WholeTokens(burst: nat, interval: int)
    requires 0 < interval
    ensures 0 <= burst * interval
    ensures burst * interval / interval == burst && burst * interval % interval == 0
  {
  }

  datatype State = State(buckets: map<Key, Bucket>, lastPrune: int)

  datatype Decision = Decision(ok: bool, wait: int)

  // loginLimiterPruneEvery, one minute
  const PRUNE_EVERY := 60_000_000_000

  predicate ValidConfig(c: Config) {
    0 < c.interval
  }

  // ---------------------------------------------------------------- the limiter

  function Refill(c: Config, b: Bucket, now: int): Bucket {
    var elapsed := now - b.last;
    var topped := b.credit + elapsed;
    Bucket(if elapsed > 0 then (if topped > c.full then c.full else topped) else b.credit, now)
  }

  predicate PruneDue(c: Config, s: State, now: int) {
    |s.buckets| >= c.maxKeys || now - s.lastPrune >= PRUNE_EVERY
  }

  /** Refills every bucket and keeps the ones still short of a full burst. */
  ghost function Swept(c: Config, buckets: map<Key, Bucket>, now: int): (swept: map<Key, Bucket>)
    ensures forall k :: k in swept <==> k in buckets && Refill(c, buckets[k], now).credit < c.full
    ensures forall k :: k in swept ==> swept[k] == Refill(c, buckets[k], now)
    decreases |buckets|
  {
    if buckets == map[] then map[]
    else
      var k :| k in buckets;
      assert |buckets - {k}| < |buckets| by { Maps.FewerKeys(buckets, k); }
      var rest := Swept(c, buckets - {k}, now);
      var b := Refill(c, buckets[k], now);
      if b.credit < c.full then rest[k := b] else rest
  }

  ghost function Prune(c: Config, s: State, now: int): State {
    if PruneDue(c, s, now) then State(Swept(c, s.buckets, now), now) else s
  }

  /** The call finds the map full even after pruning and no bucket for its key. */
  ghost predicate TurnedAway(c: Config, s: State, key: Key, now: int) {
    var p := Prune(c, s, now);
    key !in p.buckets && |p.buckets| >= c.maxKeys
  }

  /** Spends one token of a bucket that has been refilled up to `now`. */
  function Spend(c: Config, b: Bucket): (Decision, Bucket)
  {
    if b.credit < c.interval
    then (Decision(false, c.interval - b.credit), b)
    else (Decision(true, 0), b.(credit := b.credit - c.interval))
  }

  ghost function Allow(c: Config, s: State, key: Key, now: int): (Decision, State) {
    var p := Prune(c, s, now);
    if TurnedAway(c, s, key, now) then
      (Decision(false, c.interval), p)
    else
      var b := if key in p.buckets then p.buckets[key] else Bucket(c.full, now);
      var (d, b') := Spend(c, Refill(c, b, now));
      (d, p.(buckets := p.buckets[key := b']))
  }

  function Reset(s: State, key: Key): State {
    s.(buckets := s.buckets - {key})
  }

  // ---------------------------------------------------------------- runs

  datatype Call = AllowAt(key: Key, now: int) | ResetKey(key: Key)

  datatype Event =
    | Asked(key: Key, now: int, decision: Decision, turnedAway: bool)
    | Forgot(key: Key)

  ghost function Next(c: Config, s: State, call: Call): State {
    match call
    case AllowAt(key, now) => Allow(c, s, key, now).1
    case ResetKey(key) => Reset(s, key)
  }

  ghost function Happened(c: Config, s: State, call: Call): Event {
    match call
    case AllowAt(key, now) => Asked(key, now, Allow(c, s, key, now).0, TurnedAway(c, s, key, now))
    case ResetKey(key) => Forgot(key)
  }

  ghost function Trace(c: Config, s: State, calls: seq<Call>): seq<Event>
    decreases calls
  {
    if calls == [] then []
    else [Happened(c, s, calls[0])] + Trace(c, Next(c, s, calls[0]), calls[1..])
  }

  ghost function Final(c: Config, s: State, calls: seq<Call>): State
    decreases calls
  {
    if calls == [] then s else Final(c, Next(c, s, calls[0]), calls[1..])
  }

  /** The clock never runs backwards and stays within [from, to]. */
  predicate Clocked(calls: seq<Call>, from: int, to: int) {
    if calls == [] then from <= to
    else
      match calls[0]
      case AllowAt(_, now) => from <= now && Clocked(calls[1..], now, to)
      case ResetKey(_) => Clocked(calls[1..], from, to)
  }

  function Later(call: Call, t: int): int {
    match call
    case AllowAt(_, now) => now
    case ResetKey(_) => t
  }

  // ---------------------------------------------------------------- the ideal limiter

  /**
   One bucket for every key ever used, never pruned and never refused for want of
   room. A key that is absent has a full bucket.
   */
  type Ideal = map<Key, Bucket>

  function IdealAllow(c: Config, i: Ideal, key: Key, now: int): (Decision, Ideal) {
    var b := if key in i then i[key] else Bucket(c.full, now);
    var (d, b') := Spend(c, Refill(c, b, now));
    (d, i[key := b'])
  }

  function IdealNext(c: Config, i: Ideal, call: Call): Ideal {
    match call
    case AllowAt(key, now) => IdealAllow(c, i, key, now).1
    case ResetKey(key) => i - {key}
  }

  function IdealTrace(c: Config, i: Ideal, calls: seq<Call>): seq<Event>
    decreases calls
  {
    if calls == [] then []
    else
      var event := match calls[0]
        case AllowAt(key, now) => Asked(key, now, IdealAllow(c, i, key, now).0, false)
        case ResetKey(key) => Forgot(key);
      [event] + IdealTrace(c, IdealNext(c, i, calls[0]), calls[1..])
  }

  /** A trace without the calls that found the map full. */
  function Admitted(trace: seq<Event>): seq<Event> {
    if trace == [] then []
    else if trace[0].Asked? && trace[0].turnedAway then Admitted(trace[1..])
    else [trace[0]] + Admitted(trace[1..])
  }

  function CallsOf(trace: seq<Event>): seq<Call> {
    if trace == [] then []
    else
      var call := match trace[0]
        case Asked(key, now, _, _) => AllowAt(key, now)
        case Forgot(key) => ResetKey(key);
      [call] + CallsOf(trace[1..])
  }

  // ---------------------------------------------------------------- invariants

  ghost predicate BucketOk(c: Config, b: Bucket, t: int) {
    0 <= b.credit <= c.full && b.last <= t
  }

  /** Every bucket holds between none and a full burst, last touched by time t. */
  ghost predicate Inv(c: Config, buckets: map<Key, Bucket>, t: int) {
    forall k :: k in buckets ==> BucketOk(c, buckets[k], t)
  }

  /** What a key could spend at time t. */
  function Level(c: Config, buckets: map<Key, Bucket>, k: Key, t: int): int {
    if k in buckets then Refill(c, buckets[k], t).credit else c.full
  }

  lemma NextKeepsInv(c: Config, s: State, call: Call, t: int)
    requires ValidConfig(c) && Inv(c, s.buckets, t) && t <= Later(call, t)
    ensures Inv(c, Next(c, s, call).buckets, Later(call, t))
  {
  }

  /** Whatever calls are made, no bucket ever leaves the range none to full. */
  lemma {:induction false} RunKeepsInv(c: Config, s: State, calls: seq<Call>, from: int, to: int)
    requires ValidConfig(c) && Inv(c, s.buckets, from) && Clocked(calls, from, to)
    ensures Inv(c, Final(c, s, calls).buckets, to)
    decreases calls
  {
    if calls != [] {
      NextKeepsInv(c, s, calls[0], from);
      RunKeepsInv(c, Next(c, s, calls[0]), calls[1..], Later(calls[0], from), to);
    } else {
      assert forall k :: k in s.buckets ==> BucketOk(c, s.buckets[k], from);
    }
  }

  /** The map never outgrows its bound. */
  lemma {:induction false} RunKeepsBound(c: Config, s: State, calls: seq<Call>)
    requires |s.buckets| <= c.maxKeys
    ensures |Final(c, s, calls).buckets| <= c.maxKeys
    decreases calls
  {
    if calls == [] {
    } else {
      NextKeepsBound(c, s, calls[0]);
      RunKeepsBound(c, Next(c, s, calls[0]), calls[1..]);
    }
  }

  lemma NextKeepsBound(c: Config, s: State, call: Call)
    requires |s.buckets| <= c.maxKeys
    ensures |Next(c, s, call).buckets| <= c.maxKeys
  {
    match call {
      case AllowAt(key, now) =>
        var p := Prune(c, s, now);
        Maps.SmallerMap(p.buckets, s.buckets);
        if !TurnedAway(c, s, key, now) {
          var next := Next(c, s, call).buckets;
          assert next.Keys == p.buckets.Keys + {key};
          if key in p.buckets {
            assert next.Keys == p.buckets.Keys;
          }
          assert |next| == |next.Keys| && |p.buckets| == |p.buckets.Keys|;
        }
      case ResetKey(key) =>
        Maps.SmallerMap(Next(c, s, call).buckets, s.buckets);
    }
  }

  // ---------------------------------------------------------------- pruning is invisible

  /** At time t and ever after, both limiters hold the same for every key. */
  ghost predicate Agree(c: Config, buckets: map<Key, Bucket>, i: Ideal, t: int) {
    && Inv(c, buckets, t)
    && Inv(c, i, t)
    && forall k :: Level(c, buckets, k, t) == Level(c, i, k, t)
  }

  lemma LevelLater(c: Config, buckets: map<Key, Bucket>, k: Key, t: int, u: int)
    requires ValidConfig(c) && Inv(c, buckets, t) && t <= u
    ensures Level(c, buckets, k, u) ==
            if Level(c, buckets, k, t) + (u - t) > c.full then c.full else Level(c, buckets, k, t) + (u - t)
    ensures 0 <= Level(c, buckets, k, t) <= c.full
  {
    if k in buckets {
      assert BucketOk(c, buckets[k], t);
    }
  }

  lemma AgreeLater(c: Config, buckets: map<Key, Bucket>, i: Ideal, t: int, u: int)
    requires ValidConfig(c) && Agree(c, buckets, i, t) && t <= u
    ensures Agree(c, buckets, i, u)
  {
    forall k ensures Level(c, buckets, k, u) == Level(c, i, k, u) {
      LevelLater(c, buckets, k, t, u);
      LevelLater(c, i, k, t, u);
    }
  }

  /** Pruning changes no key's level. */
  lemma PruneKeepsLevels(c: Config, s: State, t: int, now: int)
    requires ValidConfig(c) && Inv(c, s.buckets, t) && t <= now
    ensures Inv(c, Prune(c, s, now).buckets, now)
    ensures forall k :: Level(c, Prune(c, s, now).buckets, k, now) == Level(c, s.buckets, k, now)
  {
    var p := Prune(c, s, now).buckets;
    forall k ensures Level(c, p, k, now) == Level(c, s.buckets, k, now) {
      LevelLater(c, s.buckets, k, t, now);
      if k in s.buckets {
        assert BucketOk(c, s.buckets[k], t);
      }
    }
  }

  /** An admitted call spends from the level it finds, and touches no other key. */
  lemma AllowLevels(c: Config, s: State, key: Key, t: int, now: int)
    requires ValidConfig(c) && Inv(c, s.buckets, t) && t <= now
    ensures var (d, s') := Allow(c, s, key, now);
            && Inv(c, s'.buckets, now)
            && (forall k :: k != key ==> Level(c, s'.buckets, k, now) == Level(c, s.buckets, k, now))
            && (TurnedAway(c, s, key, now) ==>
                  !d.ok && d.wait == c.interval && Level(c, s'.buckets, key, now) == Level(c, s.buckets, key, now))
            && (!TurnedAway(c, s, key, now) ==>
                  var level := Level(c, s.buckets, key, now);
                  && d.ok == (level >= c.interval)
                  && d.wait == (if d.ok then 0 else c.interval - level)
                  && Level(c, s'.buckets, key, now) == (if d.ok then level - c.interval else level))
  {
    PruneKeepsLevels(c, s, t, now);
    NextKeepsInv(c, s, AllowAt(key, now), t);
    var p := Prune(c, s, now);
    assert Level(c, p.buckets, key, now) == Level(c, s.buckets, key, now);
    var (d, s') := Allow(c, s, key, now);
    forall k | k != key
      ensures Level(c, s'.buckets, k, now) == Level(c, s.buckets, k, now)
    {
      assert Level(c, s'.buckets, k, now) == Level(c, p.buckets, k, now);
    }
  }

  /** The keys whose buckets a sweep would keep. */
  ghost function ShortKeys(c: Config, buckets: map<Key, Bucket>, now: int): set<Key> {
    set k | k in buckets && Level(c, buckets, k, now) < c.full
  }

  /**
   A key is turned away exactly when it has a full burst and as many others as the map
   holds have not.
   */
  lemma TurnedAwayExactly(c: Config, s: State, key: Key, t: int, now: int)
    requires ValidConfig(c) && Inv(c, s.buckets, t) && t <= now
    ensures TurnedAway(c, s, key, now)
            <==> Level(c, s.buckets, key, now) == c.full && |ShortKeys(c, s.buckets, now)| >= c.maxKeys
  {
    var short, p := ShortKeys(c, s.buckets, now), Prune(c, s, now);
    LevelLater(c, s.buckets, key, t, now);
    assert short <= s.buckets.Keys;
    Maps.SmallerSet(short, s.buckets.Keys);
    assert |s.buckets| == |s.buckets.Keys| && |p.buckets| == |p.buckets.Keys|;
    if PruneDue(c, s, now) {
      assert p.buckets.Keys == short;
    }
  }

  /**
   A minute after the last sweep, and whenever the map is full, a call sweeps: of the
   other keys it keeps those short of a full burst. Otherwise it keeps them all.
   */
  lemma SweepsExactly(c: Config, s: State, key: Key, now: int)
    ensures var swept := now - s.lastPrune >= 60_000_000_000 || |s.buckets| >= c.maxKeys;
            var s' := Allow(c, s, key, now).1;
            && s'.buckets.Keys - {key} == (if swept then ShortKeys(c, s.buckets, now) else s.buckets.Keys) - {key}
            && s'.lastPrune == if swept then now else s.lastPrune
  {
  }

  lemma IdealAllowLevels(c: Config, i: Ideal, key: Key, t: int, now: int)
    requires ValidConfig(c) && Inv(c, i, t) && t <= now
    ensures var (d, i') := IdealAllow(c, i, key, now);
            var level := Level(c, i, key, now);
            && Inv(c, i', now)
            && (forall k :: k != key ==> Level(c, i', k, now) == Level(c, i, k, now))
            && d.ok == (level >= c.interval)
            && d.wait == (if d.ok then 0 else c.interval - level)
            && Level(c, i', key, now) == (if d.ok then level - c.interval else level)
  {
  }

  /**
   Over every run of calls with a non-decreasing clock, the bounded limiter that
   prunes answers exactly as the unbounded limiter that never prunes, once the
   calls refused for want of room are left out as no step of the ideal one.
   */
  lemma {:induction false} PruningIsInvisible(c: Config, s: State, i: Ideal, calls: seq<Call>, from: int, to: int)
    requires ValidConfig(c) && Agree(c, s.buckets, i, from) && Clocked(calls, from, to)
    ensures var admitted := Admitted(Trace(c, s, calls));
            admitted == IdealTrace(c, i, CallsOf(admitted))
    decreases calls
  {
    if calls == [] {
    } else {
      var s' := Next(c, s, calls[0]);
      var event := Happened(c, s, calls[0]);
      var rest := Trace(c, s', calls[1..]);
      var trace := Trace(c, s, calls);
      assert trace == [event] + rest;
      assert trace[0] == event && trace[1..] == rest;
      var t := Later(calls[0], from);
      NextAgrees(c, s, i, calls[0], from);
      if event.Asked? && event.turnedAway {
        PruningIsInvisible(c, s', i, calls[1..], t, to);
      } else {
        PruningIsInvisible(c, s', IdealNext(c, i, calls[0]), calls[1..], t, to);
        CallsOfCons(event, Admitted(rest));
        var was := CallsOf(Admitted(trace));
        assert was[0] == calls[0] && was[1..] == CallsOf(Admitted(rest));
      }
    }
  }

  /** One call keeps both limiters in agreement, and draws the same answer from both. */
  lemma NextAgrees(c: Config, s: State, i: Ideal, call: Call, t: int)
    requires ValidConfig(c) && Agree(c, s.buckets, i, t) && t <= Later(call, t)
    ensures var turnedAway := call.AllowAt? && TurnedAway(c, s, call.key, call.now);
            && Agree(c, Next(c, s, call).buckets, if turnedAway then i else IdealNext(c, i, call), Later(call, t))
            && (call.AllowAt? && !turnedAway ==>
                  Allow(c, s, call.key, call.now).0 == IdealAllow(c, i, call.key, call.now).0)
  {
    var s' := Next(c, s, call).buckets;
    match call {
      case AllowAt(key, now) =>
        AgreeLater(c, s.buckets, i, t, now);
        AllowLevels(c, s, key, t, now);
        IdealAllowLevels(c, i, key, t, now);
        var i' := if TurnedAway(c, s, key, now) then i else IdealNext(c, i, call);
        forall k ensures Level(c, s', k, now) == Level(c, i', k, now) {
          assert Level(c, s.buckets, k, now) == Level(c, i, k, now);
        }
      case ResetKey(key) =>
        forall k ensures Level(c, s', k, t) == Level(c, IdealNext(c, i, call), k, t) {
          assert Level(c, s.buckets, k, t) == Level(c, i, k, t);
        }
    }
  }

  lemma CallsOfCons(event: Event, rest: seq<Event>)
    ensures CallsOf([event] + rest) == [if event.Asked? then AllowAt(event.key, event.now) else ResetKey(event.key)] + CallsOf(rest)
  {
    assert ([event] + rest)[1..] == rest;
  }

  /** A new limiter starts out agreeing with a new ideal one. */
  lemma NewLimiterAgrees(c: Config, lastPrune: int, t: int)
    requires ValidConfig(c)
    ensures Agree(c, State(map[], lastPrune).buckets, map[], t)
  {
  }

  // ---------------------------------------------------------------- rate bound

  function Grants(event: Event, key: Key): nat {
    if event.Asked? && event.key == key && event.decision.ok then 1 else 0
  }

  function Granted(trace: seq<Event>, key: Key): nat {
    if trace == [] then 0 else Grants(trace[0], key) + Granted(trace[1..], key)
  }

  function Forgets(event: Event, key: Key): nat {
    if event == Forgot(key) then 1 else 0
  }

  function Resets(trace: seq<Event>, key: Key): nat {
    if trace == [] then 0 else Forgets(trace[0], key) + Resets(trace[1..], key)
  }

  /** One call pays for what it is granted out of the key's level and the time gone by. */
  lemma NextPays(c: Config, s: State, call: Call, key: Key, t: int)
    requires ValidConfig(c) && Inv(c, s.buckets, t) && t <= Later(call, t)
    ensures var event := Happened(c, s, call);
            Level(c, Next(c, s, call).buckets, key, Later(call, t)) + Grants(event, key) * c.interval <=
            Level(c, s.buckets, key, t) + Forgets(event, key) * c.full + (Later(call, t) - t)
    ensures 0 <= Level(c, s.buckets, key, t) <= c.full
  {
    LevelLater(c, s.buckets, key, t, Later(call, t));
    match call {
      case AllowAt(k, now) => AllowLevels(c, s, k, t, now);
      case ResetKey(k) =>
    }
  }

  lemma {:induction false} RunPays(c: Config, s: State, calls: seq<Call>, key: Key, from: int, to: int)
    requires ValidConfig(c) && Inv(c, s.buckets, from) && Clocked(calls, from, to)
    ensures var trace := Trace(c, s, calls);
            Granted(trace, key) * c.interval <=
            Level(c, s.buckets, key, from) + Resets(trace, key) * c.full + (to - from)
    decreases calls
  {
    if calls == [] {
      NextPays(c, s, ResetKey(key), key, from);
    } else {
      var s', t, event := Next(c, s, calls[0]), Later(calls[0], from), Happened(c, s, calls[0]);
      NextKeepsInv(c, s, calls[0], from);
      NextPays(c, s, calls[0], key, from);
      RunPays(c, s', calls[1..], key, t, to);
      var rest := Trace(c, s', calls[1..]);
      CountsCons(event, rest, key);
      var trace := Trace(c, s, calls);
      assert trace == [event] + rest;
      AddUp(Granted(trace, key), Grants(event, key), Granted(rest, key), c.interval,
            Level(c, s.buckets, key, from), Level(c, s'.buckets, key, t),
            Resets(trace, key), Forgets(event, key), Resets(rest, key), c.full, from, t, to);
    }
  }

  lemma CountsCons(event: Event, rest: seq<Event>, key: Key)
    ensures Granted([event] + rest, key) == Grants(event, key) + Granted(rest, key)
    ensures Resets([event] + rest, key) == Forgets(event, key) + Resets(rest, key)
  {
    assert ([event] + rest)[1..] == rest;
  }

  lemma AddUp(n: nat, g: nat, gs: nat, interval: int, level: int, level': int,
              m: nat, r: nat, rs: nat, full: nat, from: int, t: int, to: int)
    requires n == g + gs && m == r + rs
    requires level' + g * interval <= level + r * full + (t - from)
    requires gs * interval <= level' + rs * full + (to - t)
    ensures n * interval <= level + m * full + (to - from)
  {
    assert n * interval == g * interval + gs * interval;
    assert m * full == r * full + rs * full;
  }

  lemma DivideBound(n: int, m: int, interval: int, time: int)
    requires 0 < interval
    requires n * interval <= m * interval + time
    ensures n <= m + time / interval
  {
    var q := time / interval;
    assert time == q * interval + time % interval;
    assert (n - m - q) * interval == n * interval - m * interval - q * interval;
    LessThanOne(n - m - q, interval);
  }

  lemma LessThanOne(x: int, interval: int)
    requires 0 < interval && x * interval < interval
    ensures x <= 0
  {
    assert x >= 1 ==> x * interval >= interval;
  }

  /**
   In any stretch of a run, from time `from` to time `to`, whatever other keys do
   and however pruning interleaves, a key is granted at most a burst, another
   burst for every reset of it, and one call for every interval gone by.
   */
  lemma RateBound(c: Config, burst: nat, s: State, calls: seq<Call>, key: Key, from: int, to: int)
    requires ValidConfig(c) && c == Configure(burst, c.interval, c.maxKeys)
    requires Inv(c, s.buckets, from) && Clocked(calls, from, to)
    ensures var trace := Trace(c, s, calls);
            Granted(trace, key) <= (Resets(trace, key) + 1) * burst + (to - from) / c.interval
  {
    var trace := Trace(c, s, calls);
    RunPays(c, s, calls, key, from, to);
    NextPays(c, s, ResetKey(key), key, from);
    WholeBursts(Resets(trace, key), burst, c.interval);
    DivideBound(Granted(trace, key), (Resets(trace, key) + 1) * burst, c.interval, to - from);
  }

  lemma WholeBursts(r: nat, burst: nat, interval: int)
    ensures r * (burst * interval) + burst * interval == (r + 1) * burst * interval
  {
  }

  // ---------------------------------------------------------------- Retry-After

  const SECOND := 1_000_000_000

  /** Whole seconds, rounded up, at least one: the Retry-After header. */
  function RetryAfter(wait: int): int {
    var secs := (wait + SECOND - 1) / SECOND;
    if secs < 1 then 1 else secs
  }

  lemma RoundedUp(wait: int)
    ensures RetryAfter(wait) >= 1
    ensures 0 < wait ==> wait <= Pause(wait) < wait + SECOND
  {
  }

  /** The pause a client keeps when it obeys the header, in nanoseconds. */
  function Pause(wait: int): int {
    RetryAfter(wait) * SECOND
  }

  predicate NoReset(calls: seq<Call>, key: Key) {
    forall i :: 0 <= i < |calls| ==> calls[i] != ResetKey(key)
  }

  /** Every call for the key comes strictly before `deadline`. */
  predicate KeyBefore(calls: seq<Call>, key: Key, deadline: int) {
    forall i :: 0 <= i < |calls| && calls[i].AllowAt? && calls[i].key == key ==> calls[i].now < deadline
  }

  /** Every call for the key was refused, and told to wait exactly until `deadline`. */
  predicate RefusedUntil(trace: seq<Event>, key: Key, deadline: int) {
    forall i :: 0 <= i < |trace| && trace[i].Asked? && trace[i].key == key ==>
      trace[i].decision == Decision(false, deadline - trace[i].now) && !trace[i].turnedAway
  }

  /** The key holds one token exactly at `deadline`, and fills up from there on. */
  ghost predicate DueAt(c: Config, s: State, key: Key, deadline: int, t: int) {
    var level := c.interval + (t - deadline);
    Level(c, s.buckets, key, t) == if level > c.full then c.full else level
  }

  /** A key short of a full burst has a bucket, which no sweep takes away. */
  lemma ShortKeysStay(c: Config, s: State, key: Key, t: int, now: int)
    requires ValidConfig(c) && Inv(c, s.buckets, t) && t <= now && Level(c, s.buckets, key, now) < c.full
    ensures !TurnedAway(c, s, key, now)
  {
    PruneKeepsLevels(c, s, t, now);
    assert Level(c, Prune(c, s, now).buckets, key, now) < c.full;
  }

  lemma NextStaysDue(c: Config, s: State, call: Call, key: Key, deadline: int, t: int)
    requires ValidConfig(c) && c.full >= c.interval && Inv(c, s.buckets, t) && t <= Later(call, t)
    requires DueAt(c, s, key, deadline, t)
    requires call != ResetKey(key) && (call.AllowAt? && call.key == key ==> call.now < deadline)
    ensures DueAt(c, Next(c, s, call), key, deadline, Later(call, t))
    ensures call.AllowAt? && call.key == key ==>
              !TurnedAway(c, s, key, call.now) && Allow(c, s, key, call.now).0 == Decision(false, deadline - call.now)
  {
    if call.AllowAt? {
      LevelLater(c, s.buckets, key, t, call.now);
      AllowLevels(c, s, call.key, t, call.now);
      if call.key == key {
        ShortKeysStay(c, s, key, t, call.now);
      }
    }
  }

  lemma {:induction false} WaitingRun(
    c: Config, s: State, key: Key, deadline: int, calls: seq<Call>, from: int, to: int)
    requires ValidConfig(c) && c.full >= c.interval && Inv(c, s.buckets, from) && Clocked(calls, from, to)
    requires DueAt(c, s, key, deadline, from) && NoReset(calls, key) && KeyBefore(calls, key, deadline)
    ensures RefusedUntil(Trace(c, s, calls), key, deadline)
    ensures Inv(c, Final(c, s, calls).buckets, to) && DueAt(c, Final(c, s, calls), key, deadline, to)
    decreases calls
  {
    if calls == [] {
      RunKeepsInv(c, s, calls, from, to);
      LevelLater(c, s.buckets, key, from, to);
    } else {
      var call, rest := calls[0], calls[1..];
      var s', t := Next(c, s, call), Later(call, from);
      NextKeepsInv(c, s, call, from);
      NextStaysDue(c, s, call, key, deadline, from);
      assert forall i :: 0 <= i < |rest| ==> rest[i] == calls[i + 1];
      WaitingRun(c, s', key, deadline, rest, t, to);
      var trace := Trace(c, s, calls);
      assert forall i :: 1 <= i < |trace| ==> trace[i] == Trace(c, s', rest)[i - 1];
    }
  }

  lemma RefusalSetsDeadline(c: Config, s: State, key: Key, t: int, now: int)
    requires ValidConfig(c) && c.full >= c.interval && Inv(c, s.buckets, t) && t <= now
    requires !TurnedAway(c, s, key, now) && !Allow(c, s, key, now).0.ok
    ensures var (d, s') := Allow(c, s, key, now);
            0 < d.wait <= c.interval && DueAt(c, s', key, now + d.wait, now) && Inv(c, s'.buckets, now)
  {
    NextKeepsInv(c, s, AllowAt(key, now), t);
    AllowLevels(c, s, key, t, now);
    LevelLater(c, s.buckets, key, t, now);
  }

  /**
   A bucket refusal's wait is exact, for every burst of at least one: whatever other
   keys do meanwhile, every call on the key before now+wait is refused again and told
   the time that is left, and its first call from then on is granted exactly when the
   map still has room for it.
   */
  lemma RetryAfterIsExact(
    c: Config, s: State, key: Key, t: int, now: int, calls: seq<Call>, to: int)
    requires ValidConfig(c) && c.full >= c.interval && Inv(c, s.buckets, t) && t <= now
    requires !TurnedAway(c, s, key, now) && !Allow(c, s, key, now).0.ok
    requires var deadline := now + Allow(c, s, key, now).0.wait;
             Clocked(calls, now, to) && deadline <= to && NoReset(calls, key) && KeyBefore(calls, key, deadline)
    ensures var (d, s') := Allow(c, s, key, now);
            && RefusedUntil(Trace(c, s', calls), key, now + d.wait)
            && (Allow(c, Final(c, s', calls), key, to).0.ok <==> !TurnedAway(c, Final(c, s', calls), key, to))
  {
    var (d, s') := Allow(c, s, key, now);
    RefusalSetsDeadline(c, s, key, t, now);
    WaitingRun(c, s', key, now + d.wait, calls, now, to);
    AllowLevels(c, Final(c, s', calls), key, to, to);
  }

  lemma {:induction false} UnusedStaysFull(c: Config, s: State, key: Key, calls: seq<Call>, from: int, to: int)
    requires ValidConfig(c) && Inv(c, s.buckets, from) && Clocked(calls, from, to)
    requires Level(c, s.buckets, key, from) == c.full
    requires forall i :: 0 <= i < |calls| && calls[i].AllowAt? ==> calls[i].key != key
    ensures Inv(c, Final(c, s, calls).buckets, to) && Level(c, Final(c, s, calls).buckets, key, to) == c.full
    decreases calls
  {
    if calls == [] {
      RunKeepsInv(c, s, calls, from, to);
      LevelLater(c, s.buckets, key, from, to);
    } else {
      var call, rest := calls[0], calls[1..];
      assert forall i :: 0 <= i < |rest| ==> rest[i] == calls[i + 1];
      NextKeepsInv(c, s, call, from);
      if call.AllowAt? {
        LevelLater(c, s.buckets, key, from, call.now);
        AllowLevels(c, s, call.key, from, call.now);
      }
      UnusedStaysFull(c, Next(c, s, call), key, rest, Later(call, from), to);
    }
  }

  /**
   A key turned away for want of room has its whole burst still: its next call, whenever
   it comes and whatever other keys do meanwhile, is granted exactly when it is not
   turned away again. The interval it is told to wait promises nothing more.
   */
  lemma TurnedAwayKeepsItsBurst(
    c: Config, s: State, key: Key, t: int, now: int, calls: seq<Call>, to: int)
    requires ValidConfig(c) && c.full >= c.interval && Inv(c, s.buckets, t) && t <= now && TurnedAway(c, s, key, now)
    requires Clocked(calls, now, to)
    requires forall i :: 0 <= i < |calls| && calls[i].AllowAt? ==> calls[i].key != key
    ensures var (d, s') := Allow(c, s, key, now);
            && d == Decision(false, c.interval)
            && (Allow(c, Final(c, s', calls), key, to).0.ok <==> !TurnedAway(c, Final(c, s', calls), key, to))
  {
    var (d, s') := Allow(c, s, key, now);
    NextKeepsInv(c, s, AllowAt(key, now), t);
    assert key !in s'.buckets;
    UnusedStaysFull(c, s', key, calls, now, to);
    AllowLevels(c, Final(c, s', calls), key, to, to);
  }

  /**
   Nobody is turned away before the key's bucket would be full again. With a burst of
   one that is at once, with a larger one it is an interval later for each further
   token.
   */
  lemma RetryAfterIsKept(
    c: Config, s: State, key: Key, t: int, now: int, calls: seq<Call>, to: int)
    requires ValidConfig(c) && c.full >= c.interval && Inv(c, s.buckets, t) && t <= now
    requires !TurnedAway(c, s, key, now) && !Allow(c, s, key, now).0.ok
    requires var deadline := now + Allow(c, s, key, now).0.wait;
             && Clocked(calls, now, to) && deadline <= to < deadline + (c.full - c.interval)
             && NoReset(calls, key) && KeyBefore(calls, key, deadline)
    ensures Allow(c, Final(c, Allow(c, s, key, now).1, calls), key, to).0 == Decision(true, 0)
  {
    var (d, s') := Allow(c, s, key, now);
    RefusalSetsDeadline(c, s, key, t, now);
    WaitingRun(c, s', key, now + d.wait, calls, now, to);
    ShortKeysStay(c, Final(c, s', calls), key, to, to);
    RetryAfterIsExact(c, s, key, t, now, calls, to);
    AllowLevels(c, Final(c, s', calls), key, to, to);
  }

  /**
   Waiting the whole seconds of the Retry-After header is enough, when a token
   takes at least a second and nobody else uses the key meanwhile.
   */
  lemma RetryAfterHeaderSuffices(
    c: Config, s: State, key: Key, t: int, now: int, calls: seq<Call>, retry: int)
    requires ValidConfig(c) && Inv(c, s.buckets, t) && t <= now
    requires c.full >= 2 * c.interval && c.interval >= SECOND
    requires !TurnedAway(c, s, key, now) && !Allow(c, s, key, now).0.ok
    requires retry == now + Pause(Allow(c, s, key, now).0.wait)
    requires Clocked(calls, now, retry) && (forall i :: 0 <= i < |calls| ==> calls[i].key != key)
    ensures Allow(c, Final(c, Allow(c, s, key, now).1, calls), key, retry).0 == Decision(true, 0)
    ensures now + Allow(c, s, key, now).0.wait <= retry < now + Allow(c, s, key, now).0.wait + SECOND
  {
    var (d, s') := Allow(c, s, key, now);
    RefusalSetsDeadline(c, s, key, t, now);
    RoundedUp(d.wait);
    assert NoReset(calls, key) && KeyBefore(calls, key, now + d.wait) by {
      forall i | 0 <= i < |calls| ensures calls[i] != ResetKey(key) {
        assert calls[i].key != key;
      }
    }
    RetryAfterIsKept(c, s, key, t, now, calls, retry);
  }

  // ---------------------------------------------------------------- a refusal outlasted

  /** One call for each of the keys, all at the same instant. */
  function CallsAt(keys: seq<Key>, now: int): seq<Call> {
    if keys == [] then [] else [AllowAt(keys[0], now)] + CallsAt(keys[1..], now)
  }

  lemma {:induction false} CallsAtAreClocked(keys: seq<Key>, now: int, from: int)
    requires from <= now
    ensures Clocked(CallsAt(keys, now), from, now)
    ensures forall i :: 0 <= i < |CallsAt(keys, now)| ==> exists k :: k in keys && CallsAt(keys, now)[i] == AllowAt(k, now)
    decreases keys
  {
    if keys == [] {
    } else {
      CallsAtAreClocked(keys[1..], now, now);
      var calls, rest := CallsAt(keys, now), CallsAt(keys[1..], now);
      assert calls[1..] == rest;
      forall i | 0 <= i < |calls| ensures exists k :: k in keys && calls[i] == AllowAt(k, now) {
        if i == 0 {
          assert keys[0] in keys;
        } else {
          var k :| k in keys[1..] && rest[i - 1] == AllowAt(k, now);
          assert k in keys;
        }
      }
    }
  }

  function Repeat(key: Key, n: nat): seq<Key> {
    if n == 0 then [] else [key] + Repeat(key, n - 1)
  }

  /** Only this key has ever called, last at `now`. */
  ghost predicate Alone(s: State, key: Key, credit: int, now: int) {
    s.buckets == map[key := Bucket(credit, now)]
  }

  lemma AloneSpends(c: Config, s: State, key: Key, credit: int, now: int)
    requires ValidConfig(c) && Alone(s, key, credit, now) && 0 <= credit < c.full
    ensures !TurnedAway(c, s, key, now)
    ensures var (d, s') := Allow(c, s, key, now);
            if credit < c.interval then d == Decision(false, c.interval - credit) && Alone(s', key, credit, now)
            else d == Decision(true, 0) && Alone(s', key, credit - c.interval, now)
  {
    var b := Bucket(credit, now);
    assert Refill(c, b, now) == b;
    var p := Prune(c, s, now).buckets;
    assert p == map[key := b];
  }

  lemma OneLess(n: nat, interval: int)
    requires 0 < n && 0 < interval
    ensures (n - 1) * interval == n * interval - interval && 0 <= (n - 1) * interval
  {
  }

  /** A key alone in the limiter can spend its tokens all at once. */
  lemma {:induction false} Drains(c: Config, s: State, key: Key, n: nat, now: int)
    requires ValidConfig(c) && Alone(s, key, n * c.interval, now) && n * c.interval < c.full
    ensures Alone(Final(c, s, CallsAt(Repeat(key, n), now)), key, 0, now)
    decreases n
  {
    if n == 0 {
    } else {
      var calls, rest := CallsAt(Repeat(key, n), now), CallsAt(Repeat(key, n - 1), now);
      assert Repeat(key, n)[1..] == Repeat(key, n - 1) && calls[0] == AllowAt(key, now) && calls[1..] == rest;
      OneLess(n, c.interval);
      AloneSpends(c, s, key, n * c.interval, now);
      Drains(c, Next(c, s, calls[0]), key, n - 1, now);
    }
  }

  lemma NewcomerSpends(c: Config, epoch: int, key: Key, now: int)
    requires ValidConfig(c) && c.full >= c.interval && 0 < c.maxKeys
    ensures Alone(Allow(c, State(map[], epoch), key, now).1, key, c.full - c.interval, now)
  {
    var p := Prune(c, State(map[], epoch), now);
    assert p.buckets == map[];
    var b := Bucket(c.full, now);
    assert Refill(c, b, now) == b;
  }

  /** A burst of calls from an empty limiter leaves the key with nothing. */
  lemma BurstDrains(c: Config, burst: nat, epoch: int, key: Key, now: int)
    requires ValidConfig(c) && 0 < burst && 0 < c.maxKeys && c == Configure(burst, c.interval, c.maxKeys)
    ensures Alone(Final(c, State(map[], epoch), CallsAt(Repeat(key, burst), now)), key, 0, now)
  {
    var s := State(map[], epoch);
    var calls, rest := CallsAt(Repeat(key, burst), now), CallsAt(Repeat(key, burst - 1), now);
    assert Repeat(key, burst)[1..] == Repeat(key, burst - 1) && calls[0] == AllowAt(key, now) && calls[1..] == rest;
    OneLess(burst, c.interval);
    NewcomerSpends(c, epoch, key, now);
    Drains(c, Next(c, s, calls[0]), key, burst - 1, now);
  }

  /** The first n newcomers hold what a first call leaves; `key`, if still there, is full. */
  ghost predicate Arrived(c: Config, s: State, key: Key, newcomers: seq<Key>, n: nat, now: int)
    requires n <= |newcomers|
  {
    && (forall k :: k in s.buckets <==> k in newcomers[..n] || (k == key && key in s.buckets))
    && (forall k :: k in newcomers[..n] ==> s.buckets[k] == Bucket(c.full - c.interval, now))
    && (key in s.buckets ==> Refill(c, s.buckets[key], now).credit >= c.full)
  }

  ghost predicate Newcomers(c: Config, key: Key, newcomers: seq<Key>) {
    && |newcomers| == c.maxKeys && key !in newcomers
    && forall i, j :: 0 <= i < j < |newcomers| ==> newcomers[i] != newcomers[j]
  }

  lemma KeysOfPrefix(keys: seq<Key>, n: nat) returns (held: set<Key>)
    requires n <= |keys|
    requires forall i, j :: 0 <= i < j < |keys| ==> keys[i] != keys[j]
    ensures |held| == n && forall k :: k in held <==> k in keys[..n]
    decreases n
  {
    if n == 0 {
      held := {};
    } else {
      var rest := KeysOfPrefix(keys, n - 1);
      held := rest + {keys[n - 1]};
      assert keys[..n] == keys[..n - 1] + [keys[n - 1]];
      assert keys[n - 1] !in keys[..n - 1];
    }
  }

  /** Sweeping can only take `key` away. */
  lemma SweepKeepsNewcomers(c: Config, s: State, key: Key, newcomers: seq<Key>, n: nat, now: int)
    requires ValidConfig(c) && Newcomers(c, key, newcomers)
    requires n <= |newcomers| && Arrived(c, s, key, newcomers, n, now)
    ensures Arrived(c, Prune(c, s, now), key, newcomers, n, now)
    ensures PruneDue(c, s, now) ==> key !in Prune(c, s, now).buckets
  {
    var p := Prune(c, s, now).buckets;
    assert key !in newcomers[..n];
    forall k | k in newcomers[..n] ensures k in p && p[k] == s.buckets[k] {
      assert s.buckets[k] == Bucket(c.full - c.interval, now);
    }
  }

  /** How many there are in the map. */
  lemma ArrivedCount(c: Config, s: State, key: Key, newcomers: seq<Key>, n: nat, now: int)
    requires Newcomers(c, key, newcomers) && n <= |newcomers| && Arrived(c, s, key, newcomers, n, now)
    ensures |s.buckets| == if key in s.buckets then n + 1 else n
  {
    var held := KeysOfPrefix(newcomers, n);
    assert key !in newcomers[..n];
    assert s.buckets.Keys == if key in s.buckets then held + {key} else held;
    assert |s.buckets| == |s.buckets.Keys|;
  }

  /** A full map makes room by sweeping `key` away; once all have arrived there is none left. */
  lemma SweepMakesRoom(c: Config, s: State, key: Key, newcomers: seq<Key>, n: nat, now: int)
    requires ValidConfig(c) && Newcomers(c, key, newcomers)
    requires n <= |newcomers| && Arrived(c, s, key, newcomers, n, now)
    ensures Arrived(c, Prune(c, s, now), key, newcomers, n, now)
    ensures n == |newcomers| ==> key !in Prune(c, s, now).buckets && |Prune(c, s, now).buckets| == c.maxKeys
    ensures n < |newcomers| ==> |Prune(c, s, now).buckets| < c.maxKeys
  {
    SweepKeepsNewcomers(c, s, key, newcomers, n, now);
    ArrivedCount(c, s, key, newcomers, n, now);
    ArrivedCount(c, Prune(c, s, now), key, newcomers, n, now);
  }

  lemma NewcomerArrives(c: Config, s: State, key: Key, newcomers: seq<Key>, n: nat, now: int)
    requires ValidConfig(c) && c.full >= c.interval && Newcomers(c, key, newcomers)
    requires n < |newcomers| && Arrived(c, s, key, newcomers, n, now)
    ensures Arrived(c, Allow(c, s, newcomers[n], now).1, key, newcomers, n + 1, now)
  {
    SweepMakesRoom(c, s, key, newcomers, n, now);
    assert newcomers[..n + 1] == newcomers[..n] + [newcomers[n]];
    assert newcomers[n] !in newcomers[..n] && newcomers[n] != key;
    assert !TurnedAway(c, s, newcomers[n], now);
  }

  lemma {:induction false} NewcomersFill(c: Config, s: State, key: Key, newcomers: seq<Key>, n: nat, now: int)
    requires ValidConfig(c) && c.full >= c.interval && Newcomers(c, key, newcomers)
    requires n <= |newcomers| && Arrived(c, s, key, newcomers, n, now)
    ensures Arrived(c, Final(c, s, CallsAt(newcomers[n..], now)), key, newcomers, |newcomers|, now)
    decreases |newcomers| - n
  {
    if n == |newcomers| {
    } else {
      NewcomerArrives(c, s, key, newcomers, n, now);
      assert newcomers[n..][1..] == newcomers[n + 1..];
      var calls := CallsAt(newcomers[n..], now);
      assert calls[0] == AllowAt(newcomers[n], now) && calls[1..] == CallsAt(newcomers[n + 1..], now);
      NewcomersFill(c, Next(c, s, calls[0]), key, newcomers, n + 1, now);
    }
  }

  lemma NobodyArrived(c: Config, s: State, key: Key, newcomers: seq<Key>, start: int, to: int)
    requires ValidConfig(c) && Newcomers(c, key, newcomers) && Alone(s, key, 0, start) && to == start + c.full
    ensures Arrived(c, s, key, newcomers, 0, to)
  {
    assert newcomers[..0] == [];
  }

  lemma AllArrived(c: Config, s: State, key: Key, newcomers: seq<Key>, to: int)
    requires ValidConfig(c) && Newcomers(c, key, newcomers) && Arrived(c, s, key, newcomers, |newcomers|, to)
    ensures TurnedAway(c, s, key, to)
  {
    SweepMakesRoom(c, s, key, newcomers, |newcomers|, to);
  }

  /** Newcomers at the instant a drained key is full again take every slot. */
  lemma NewcomersUsurp(c: Config, s: State, key: Key, newcomers: seq<Key>, start: int, to: int)
    requires ValidConfig(c) && c.full >= c.interval && Newcomers(c, key, newcomers) && Alone(s, key, 0, start)
    requires to == start + c.full
    ensures TurnedAway(c, Final(c, s, CallsAt(newcomers, to)), key, to)
  {
    NobodyArrived(c, s, key, newcomers, start, to);
    assert newcomers[0..] == newcomers;
    NewcomersFill(c, s, key, newcomers, 0, to);
    AllArrived(c, Final(c, s, CallsAt(newcomers, to)), key, newcomers, to);
  }

  /** The state a burst of calls leaves a new limiter in. */
  ghost function Drained(c: Config, burst: nat, epoch: int, key: Key, now: int): State {
    Final(c, State(map[], epoch), CallsAt(Repeat(key, burst), now))
  }

  lemma WholeBurst(c: Config, burst: nat)
    requires ValidConfig(c) && 0 < burst && c == Configure(burst, c.interval, c.maxKeys)
    ensures c.full >= c.interval && (burst == 1 ==> c.full == c.interval)
  {
    assert c.full == burst * c.interval;
    if burst == 1 {
    } else {
      assert burst * c.interval == (burst - 1) * c.interval + c.interval && 0 <= (burst - 1) * c.interval;
    }
  }

  /** A refused key, and as many calls from others as the map has room for. */
  ghost predicate Outlasted(c: Config, s: State, key: Key, newcomers: seq<Key>, start: int, to: int) {
    var (d, s') := Allow(c, s, key, start);
    var calls := CallsAt(newcomers, to);
    && Inv(c, s.buckets, start) && !TurnedAway(c, s, key, start) && d == Decision(false, c.interval)
    && Clocked(calls, start, to) && (forall i :: 0 <= i < |calls| ==> calls[i].key != key)
    && TurnedAway(c, Final(c, s', calls), key, to)
  }

  lemma DrainedIsOutlasted(c: Config, s: State, key: Key, newcomers: seq<Key>, start: int, to: int)
    requires ValidConfig(c) && c.full >= c.interval && Newcomers(c, key, newcomers)
    requires Alone(s, key, 0, start) && to == start + c.full
    ensures Outlasted(c, s, key, newcomers, start, to)
  {
    AloneSpends(c, s, key, 0, start);
    CallsAtAreClocked(newcomers, to, start);
    NewcomersUsurp(c, Allow(c, s, key, start).1, key, newcomers, start, to);
  }

  /**
   The window of RetryAfterIsKept cannot be longer, whatever the burst, the interval
   and the size of the map. From an empty limiter a key spends its burst and is told
   to wait an interval; at the instant its bucket is full again, as many newcomers as
   the map has room for take every slot, and the key is turned away. With a burst of
   one that is the very instant the wait ends.
   */
  lemma RetryWindowIsTight(c: Config, burst: nat, epoch: int, key: Key, newcomers: seq<Key>, start: int, to: int)
    requires ValidConfig(c) && 0 < burst && 0 < c.maxKeys && c == Configure(burst, c.interval, c.maxKeys)
    requires Newcomers(c, key, newcomers) && to == start + c.interval + (c.full - c.interval)
    ensures Clocked(CallsAt(Repeat(key, burst), start), start, start)
    ensures Outlasted(c, Drained(c, burst, epoch, key, start), key, newcomers, start, to)
    ensures burst == 1 ==> to == start + c.interval
  {
    WholeBurst(c, burst);
    CallsAtAreClocked(Repeat(key, burst), start, start);
    BurstDrains(c, burst, epoch, key, start);
    DrainedIsOutlasted(c, Drained(c, burst, epoch, key, start), key, newcomers, start, to);
  }

  /** So a burst of one breaks the promise at the very instant the wait ends. */
  lemma RetryFailsForBurstOfOne(c: Config, epoch: int, key: Key, newcomers: seq<Key>, start: int, to: int)
    requires ValidConfig(c) && 0 < c.maxKeys && c == Configure(1, c.interval, c.maxKeys) && Newcomers(c, key, newcomers)
    requires to == start + c.interval
    ensures var (d, s') := Allow(c, Drained(c, 1, epoch, key, start), key, start);
            && d == Decision(false, to - start)
            && !Allow(c, Final(c, s', CallsAt(newcomers, to)), key, to).0.ok
  {
    WholeBurst(c, 1);
    RetryWindowIsTight(c, 1, epoch, key, newcomers, start, to);
  }

  // ---------------------------------------------------------------- the class

  /** A sweep under way: the keys in `todo` are as they were, the others are refilled or gone. */
  ghost predicate Sweeping(c: Config, before: map<Key, Bucket>, buckets: map<Key, Bucket>, todo: set<Key>, now: int) {
    && todo <= buckets.Keys <= before.Keys
    && (forall k :: k in todo ==> buckets[k] == before[k])
    && (forall k :: k in before && k !in todo ==> (k in buckets <==> Refill(c, before[k], now).credit < c.full))
    && (forall k :: k in buckets && k !in todo ==> buckets[k] == Refill(c, before[k], now))
  }

  lemma SweepEnds(c: Config, before: map<Key, Bucket>, buckets: map<Key, Bucket>, now: int)
    requires Sweeping(c, before, buckets, {}, now)
    ensures buckets == Swept(c, before, now)
  {
  }

  lemma SweepOne(c: Config, before: map<Key, Bucket>, buckets: map<Key, Bucket>, todo: set<Key>, k: Key, now: int)
    requires Sweeping(c, before, buckets, todo, now) && k in todo
    ensures var b := Refill(c, buckets[k], now);
            Sweeping(c, before, if b.credit < c.full then buckets[k := b] else buckets - {k}, todo - {k}, now)
  {
  }

  /** The limiter as the program holds it: buckets updated and deleted in place. */
  class KeyedLimiter {
    const burst: nat
    const interval: int
    const maxKeys: nat
    var buckets: map<Key, Bucket>
    var lastPrune: int

    function Configured(): Config
      requires 0 < interval
    {
      Configure(burst, interval, maxKeys)
    }

    function Snapshot(): State
      reads this
    {
      State(buckets, lastPrune)
    }

    /** `epoch` stands for the zero time a new limiter was last pruned at. */
    constructor (burst: nat, interval: int, maxKeys: nat, epoch: int)
      requires 0 < interval
      ensures this.interval == interval && Configured() == Configure(burst, interval, maxKeys)
      ensures Snapshot() == State(map[], epoch)
    {
      this.burst, this.interval, this.maxKeys := burst, interval, maxKeys;
      buckets, lastPrune := map[], epoch;
    }

    method AllowKey(key: Key, now: int) returns (ok: bool, wait: int)
      requires 0 < interval
      modifies this
      ensures (Decision(ok, wait), Snapshot()) == Allow(Configured(), old(Snapshot()), key, now)
    {
      PruneLocked(now);
      if key !in buckets {
        if |buckets| >= maxKeys {
          return false, interval;
        }
        buckets := buckets[key := Bucket(burst * interval, now)];
      }
      buckets := buckets[key := Refill(Configured(), buckets[key], now)];
      var b := buckets[key];
      assert Configured().full == burst * interval;
      ghost var spec := Allow(Configured(), old(Snapshot()), key, now).1;
      assert spec.lastPrune == lastPrune;
      if b.credit < interval {
        assert spec.buckets == buckets;
        return false, interval - b.credit;
      }
      buckets := buckets[key := b.(credit := b.credit - interval)];
      assert spec.buckets == buckets;
      return true, 0;
    }

    method ResetKey(key: Key)
      modifies this
      ensures Snapshot() == Reset(old(Snapshot()), key)
    {
      buckets := buckets - {key};
    }

    method PruneLocked(now: int)
      requires 0 < interval
      modifies this
      ensures Snapshot() == Prune(Configured(), old(Snapshot()), now)
    {
      if |buckets| < maxKeys && now - lastPrune < PRUNE_EVERY {
        return;
      }
      lastPrune := now;
      var todo := buckets.Keys;
      ghost var before := buckets;
      while todo != {}
        invariant Sweeping(Configured(), before, buckets, todo, now) && lastPrune == now
      {
        var k :| k in todo;
        SweepOne(Configured(), before, buckets, todo, k, now);
        var b := Refill(Configured(), buckets[k], now);
        ghost var swept := buckets - {k};
        buckets := buckets[k := b];
        if b.credit >= burst * interval {
          buckets := buckets - {k};
          assert buckets == swept;
        }
        todo := todo - {k};
      }
      SweepEnds(Configured(), before, buckets, now);
    }
  }
}
