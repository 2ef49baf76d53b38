/**
 The password login of auth/password.go: the order in which it spends tokens of the
 two limiters, compares passwords and forgives a username after a success.
 */
module Login {

  import opened Results
  import opened RateLimit
  import Text

  const IP_BURST: nat := 10
  const USER_BURST: nat := 5
  const IP_INTERVAL := 6_000_000_000
  const USER_INTERVAL := 12_000_000_000
  const MAX_KEYS: nat := 10_000

  function IPConfig(): Config {
    Configure(IP_BURST, IP_INTERVAL, MAX_KEYS)
  }

  function UserConfig(): Config {
    Configure(USER_BURST, USER_INTERVAL, MAX_KEYS)
  }

  // ---------------------------------------------------------------- concurrent logins

  /**
   Where a request stands between its steps: past the per-IP throttle with its body
   still to be read, or past both throttles with its password being compared.
   */
  datatype Phase = Reading(ip: Key) | Comparing(ip: Key, user: Key)

  datatype Sys = Sys(ips: State, users: State, requests: map<nat, Phase>)

  /**
   The atomic steps of credential posts, freely interleaved. A body that does not
   decode is None. A post finishes successfully when the password matched and the
   session was established.
   */
  datatype Step =
    | Arrive(id: nat, ip: Key, now: int)
    | Submit(id: nat, username: Option<string>, now: int)
    | Finish(id: nat, success: bool)

  ghost predicate Passes(s: Sys, step: Step) {
    match step
    case Arrive(id, ip, now) =>
      id !in s.requests && Allow(IPConfig(), s.ips, ip, now).0.ok
    case Submit(id, username, now) =>
      && id in s.requests && s.requests[id].Reading? && username.Some?
      && Allow(UserConfig(), s.users, Text.TrimSpace(username.value), now).0.ok
    case Finish(id, success) =>
      id in s.requests && s.requests[id].Comparing? && success
  }

  ghost function After(s: Sys, step: Step): Sys {
    match step
    case Arrive(id, ip, now) =>
      if id in s.requests then s
      else
        var ips := Allow(IPConfig(), s.ips, ip, now).1;
        Sys(ips, s.users, if Passes(s, step) then s.requests[id := Reading(ip)] else s.requests)
    case Submit(id, username, now) =>
      if id !in s.requests || !s.requests[id].Reading? then s
      else if username.None? then s.(requests := s.requests - {id})
      else
        var user := Text.TrimSpace(username.value);
        var users := Allow(UserConfig(), s.users, user, now).1;
        Sys(s.ips, users,
            if Passes(s, step) then s.requests[id := Comparing(s.requests[id].ip, user)] else s.requests - {id})
    case Finish(id, success) =>
      if id !in s.requests || !s.requests[id].Comparing? then s
      else
        Sys(s.ips, if success then Reset(s.users, s.requests[id].user) else s.users, s.requests - {id})
  }

  ghost function Run(s: Sys, steps: seq<Step>): Sys
    decreases steps
  {
    if steps == [] then s else Run(After(s, steps[0]), steps[1..])
  }

  predicate Timed(steps: seq<Step>, from: int, to: int) {
    if steps == [] then from <= to
    else if steps[0].Finish? then Timed(steps[1..], from, to)
    else from <= steps[0].now && Timed(steps[1..], steps[0].now, to)
  }

  function Time(step: Step, t: int): int {
    if step.Finish? then t else step.now
  }

  // ---------------------------------------------------------------- what a run counts

  function One(b: bool): nat {
    if b then 1 else 0
  }

  /** Posts from the address that reach the password comparison. */
  ghost function ComparedFrom(s: Sys, steps: seq<Step>, ip: Key): nat
    decreases steps
  {
    if steps == [] then 0
    else One(steps[0].Submit? && Passes(s, steps[0]) && s.requests[steps[0].id].ip == ip)
         + ComparedFrom(After(s, steps[0]), steps[1..], ip)
  }

  /** Posts for the username that reach the password comparison. */
  ghost function ComparedFor(s: Sys, steps: seq<Step>, user: Key): nat
    decreases steps
  {
    if steps == [] then 0
    else One(steps[0].Submit? && Passes(s, steps[0]) && Text.TrimSpace(steps[0].username.value) == user)
         + ComparedFor(After(s, steps[0]), steps[1..], user)
  }

  ghost function Successes(s: Sys, steps: seq<Step>, user: Key): nat
    decreases steps
  {
    if steps == [] then 0
    else One(steps[0].Finish? && Passes(s, steps[0]) && s.requests[steps[0].id].user == user)
         + Successes(After(s, steps[0]), steps[1..], user)
  }

  /** Requests from the address that are past its throttle but not yet compared. */
  ghost function ReadingFrom(requests: map<nat, Phase>, ip: Key): set<nat> {
    set id | id in requests && requests[id] == Reading(ip)
  }

  ghost function Admissions(s: Sys, steps: seq<Step>, ip: Key): nat
    decreases steps
  {
    if steps == [] then 0
    else One(steps[0].Arrive? && Passes(s, steps[0]) && steps[0].ip == ip)
         + Admissions(After(s, steps[0]), steps[1..], ip)
  }

  // ---------------------------------------------------------------- bounds

  /** Between steps no bucket leaves its range. */
  ghost predicate SysInv(s: Sys, t: int) {
    Inv(IPConfig(), s.ips.buckets, t) && Inv(UserConfig(), s.users.buckets, t)
  }

  lemma NextKeepsSysInv(s: Sys, step: Step, t: int)
    requires SysInv(s, t) && t <= Time(step, t)
    ensures SysInv(After(s, step), Time(step, t))
  {
    var u := Time(step, t);
    match step {
      case Arrive(id, ip, now) =>
        NextKeepsInv(IPConfig(), s.ips, AllowAt(ip, now), t);
      case Submit(id, username, now) =>
        if username.Some? {
          NextKeepsInv(UserConfig(), s.users, AllowAt(Text.TrimSpace(username.value), now), t);
        }
      case Finish(id, success) =>
        if id in s.requests && s.requests[id].Comparing? {
          NextKeepsInv(UserConfig(), s.users, ResetKey(s.requests[id].user), t);
        }
    }
  }

  lemma ReadingMoves(s: Sys, step: Step, ip: Key)
    ensures One(step.Submit? && Passes(s, step) && s.requests[step.id].ip == ip) + |ReadingFrom(After(s, step).requests, ip)|
            <= |ReadingFrom(s.requests, ip)| + One(step.Arrive? && Passes(s, step) && step.ip == ip)
  {
    var requests, requests', id := s.requests, After(s, step).requests, step.id;
    assert requests' - {id} == requests - {id};
    OthersStay(requests, requests', id, ip);
  }

  lemma OthersStay(requests: map<nat, Phase>, requests': map<nat, Phase>, id: nat, ip: Key)
    requires requests' - {id} == requests - {id}
    ensures |ReadingFrom(requests', ip)| - One(id in requests' && requests'[id] == Reading(ip))
            == |ReadingFrom(requests, ip)| - One(id in requests && requests[id] == Reading(ip))
  {
    var before, after := ReadingFrom(requests, ip), ReadingFrom(requests', ip);
    forall i | i != id ensures i in after <==> i in before {
      assert i in requests' <==> i in requests' - {id};
      assert i in requests <==> i in requests - {id};
      assert i in requests ==> requests[i] == (requests - {id})[i];
      assert i in requests' ==> requests'[i] == (requests' - {id})[i];
    }
    assert after - {id} == before - {id};
    Without(before, id);
    Without(after, id);
  }

  lemma Without(ids: set<nat>, id: nat)
    ensures |ids - {id}| == if id in ids then |ids| - 1 else |ids|
  {
    if id !in ids {
      assert ids - {id} == ids;
    }
  }

  /** Every comparison uses up a request admitted before, from the same address. */
  lemma {:induction false} ComparedAreAdmitted(s: Sys, steps: seq<Step>, ip: Key)
    ensures ComparedFrom(s, steps, ip) <= |ReadingFrom(s.requests, ip)| + Admissions(s, steps, ip)
    decreases steps
  {
    if steps == [] {
    } else {
      ComparedAreAdmitted(After(s, steps[0]), steps[1..], ip);
      ReadingMoves(s, steps[0], ip);
    }
  }

  /** A step pays for its admission out of the address's level and the time gone by. */
  lemma StepPaysIP(s: Sys, step: Step, ip: Key, t: int)
    requires SysInv(s, t) && t <= Time(step, t)
    ensures Level(IPConfig(), After(s, step).ips.buckets, ip, Time(step, t))
            + One(step.Arrive? && Passes(s, step) && step.ip == ip) * IPConfig().interval
            <= Level(IPConfig(), s.ips.buckets, ip, t) + (Time(step, t) - t)
    ensures 0 <= Level(IPConfig(), s.ips.buckets, ip, t) <= IPConfig().full
  {
    LevelLater(IPConfig(), s.ips.buckets, ip, t, Time(step, t));
    if step.Arrive? {
      NextPays(IPConfig(), s.ips, AllowAt(step.ip, step.now), ip, t);
    }
  }

  lemma StepPaysUser(s: Sys, step: Step, user: Key, t: int)
    requires SysInv(s, t) && t <= Time(step, t)
    ensures Level(UserConfig(), After(s, step).users.buckets, user, Time(step, t))
            + One(step.Submit? && Passes(s, step) && Text.TrimSpace(step.username.value) == user) * UserConfig().interval
            <= Level(UserConfig(), s.users.buckets, user, t)
            + One(step.Finish? && Passes(s, step) && s.requests[step.id].user == user) * UserConfig().full
            + (Time(step, t) - t)
    ensures 0 <= Level(UserConfig(), s.users.buckets, user, t) <= UserConfig().full
  {
    LevelLater(UserConfig(), s.users.buckets, user, t, Time(step, t));
    match step {
      case Arrive(_, _, _) =>
      case Submit(id, username, now) =>
        if username.Some? {
          NextPays(UserConfig(), s.users, AllowAt(Text.TrimSpace(username.value), now), user, t);
        }
      case Finish(id, success) =>
        if id in s.requests && s.requests[id].Comparing? && success {
          NextPays(UserConfig(), s.users, ResetKey(s.requests[id].user), user, t);
        }
    }
  }

  lemma {:induction false} RunPaysIP(s: Sys, steps: seq<Step>, ip: Key, from: int, to: int)
    requires SysInv(s, from) && Timed(steps, from, to)
    ensures Admissions(s, steps, ip) * IPConfig().interval
            <= Level(IPConfig(), s.ips.buckets, ip, from) + 0 * IPConfig().full + (to - from)
    decreases steps
  {
    StepPaysIP(s, Finish(0, false), ip, from);
    if steps == [] {
    } else {
      var s', t := After(s, steps[0]), Time(steps[0], from);
      NextKeepsSysInv(s, steps[0], from);
      StepPaysIP(s, steps[0], ip, from);
      RunPaysIP(s', steps[1..], ip, t, to);
      AddUp(Admissions(s, steps, ip),
            One(steps[0].Arrive? && Passes(s, steps[0]) && steps[0].ip == ip), Admissions(s', steps[1..], ip),
            IPConfig().interval, Level(IPConfig(), s.ips.buckets, ip, from), Level(IPConfig(), s'.ips.buckets, ip, t),
            0, 0, 0, IPConfig().full, from, t, to);
    }
  }

  lemma {:induction false} RunPaysUser(s: Sys, steps: seq<Step>, user: Key, from: int, to: int)
    requires SysInv(s, from) && Timed(steps, from, to)
    ensures ComparedFor(s, steps, user) * UserConfig().interval
            <= Level(UserConfig(), s.users.buckets, user, from)
            + Successes(s, steps, user) * UserConfig().full + (to - from)
    decreases steps
  {
    StepPaysUser(s, Finish(0, false), user, from);
    if steps == [] {
    } else {
      var s', t := After(s, steps[0]), Time(steps[0], from);
      NextKeepsSysInv(s, steps[0], from);
      StepPaysUser(s, steps[0], user, from);
      RunPaysUser(s', steps[1..], user, t, to);
      AddUp(ComparedFor(s, steps, user),
            One(steps[0].Submit? && Passes(s, steps[0]) && Text.TrimSpace(steps[0].username.value) == user),
            ComparedFor(s', steps[1..], user),
            UserConfig().interval, Level(UserConfig(), s.users.buckets, user, from),
            Level(UserConfig(), s'.users.buckets, user, t),
            Successes(s, steps, user),
            One(steps[0].Finish? && Passes(s, steps[0]) && s.requests[steps[0].id].user == user),
            Successes(s', steps[1..], user), UserConfig().full, from, t, to);
    }
  }

  /**
   Over every interleaving of logins, posts from one address reach the password
   comparison at most 10 times plus once every 6 seconds, however many of them
   succeed; requests already past the address throttle at the start come on top.
   */
  lemma AddressBound(s: Sys, steps: seq<Step>, ip: Key, from: int, to: int)
    requires SysInv(s, from) && Timed(steps, from, to)
    ensures ComparedFrom(s, steps, ip) <= |ReadingFrom(s.requests, ip)| + 10 + (to - from) / 6_000_000_000
  {
    ComparedAreAdmitted(s, steps, ip);
    RunPaysIP(s, steps, ip, from, to);
    StepPaysIP(s, Finish(0, false), ip, from);
    DivideBound(Admissions(s, steps, ip), 10, 6_000_000_000, to - from);
  }

  /**
   Over every interleaving of logins, posts for one username, from whatever
   addresses, reach the comparison at most 5 times, 5 more for every success, plus
   once every 12 seconds.
   */
  lemma UsernameBound(s: Sys, steps: seq<Step>, user: Key, from: int, to: int)
    requires SysInv(s, from) && Timed(steps, from, to)
    ensures ComparedFor(s, steps, user) <= 5 * (1 + Successes(s, steps, user)) + (to - from) / 12_000_000_000
  {
    RunPaysUser(s, steps, user, from, to);
    StepPaysUser(s, Finish(0, false), user, from);
    DivideBound(ComparedFor(s, steps, user), 5 * (1 + Successes(s, steps, user)), 12_000_000_000, to - from);
  }

  // ---------------------------------------------------------------- steps

  /** A new authenticator has the whole burst for every address and every username. */
  lemma NewcomersHaveABurst(ip: Key, user: Key, epoch: int, now: int)
    ensures var s := State(map[], epoch);
            && Level(IPConfig(), s.buckets, ip, now) == 10 * 6_000_000_000
            && Level(UserConfig(), s.buckets, user, now) == 5 * 12_000_000_000
            && IPConfig().maxKeys == 10_000 && UserConfig().maxKeys == 10_000
  {
  }

  /** An arrival costs its address a token, if it has one, and nobody else anything. */
  lemma ArrivalSpends(s: Sys, id: nat, ip: Key, t: int, now: int)
    requires SysInv(s, t) && t <= now && id !in s.requests
    ensures var s' := After(s, Arrive(id, ip, now));
            var level := Level(IPConfig(), s.ips.buckets, ip, now);
            var admitted := level >= 6_000_000_000 && !TurnedAway(IPConfig(), s.ips, ip, now);
            && s'.requests == (if admitted then s.requests[id := Reading(ip)] else s.requests)
            && Level(IPConfig(), s'.ips.buckets, ip, now) == level - (if admitted then 6_000_000_000 else 0)
            && (forall other :: other != ip ==>
                  Level(IPConfig(), s'.ips.buckets, other, now) == Level(IPConfig(), s.ips.buckets, other, now))
            && s'.users == s.users
  {
    AllowLevels(IPConfig(), s.ips, ip, t, now);
  }

  /** A body costs its username a token, if it has one, and nobody else anything; one that does not decode is free. */
  lemma SubmissionSpends(s: Sys, id: nat, username: string, t: int, now: int)
    requires SysInv(s, t) && t <= now && id in s.requests && s.requests[id].Reading?
    ensures After(s, Submit(id, None, now)) == s.(requests := s.requests - {id})
    ensures var s', user := After(s, Submit(id, Some(username), now)), Text.TrimSpace(username);
            var level := Level(UserConfig(), s.users.buckets, user, now);
            var admitted := level >= 12_000_000_000 && !TurnedAway(UserConfig(), s.users, user, now);
            && s'.requests == (if admitted then s.requests[id := Comparing(s.requests[id].ip, user)] else s.requests - {id})
            && Level(UserConfig(), s'.users.buckets, user, now) == level - (if admitted then 12_000_000_000 else 0)
            && (forall other :: other != user ==>
                  Level(UserConfig(), s'.users.buckets, other, now) == Level(UserConfig(), s.users.buckets, other, now))
            && s'.ips == s.ips
  {
    AllowLevels(UserConfig(), s.users, Text.TrimSpace(username), t, now);
  }

  /** A success gives the username its whole burst back, a failure nothing; everybody else keeps what they have. */
  lemma SuccessForgives(s: Sys, id: nat, success: bool, t: int)
    requires id in s.requests && s.requests[id].Comparing?
    ensures var s', user := After(s, Finish(id, success)), s.requests[id].user;
            && s'.requests == s.requests - {id} && s'.ips == s.ips
            && Level(UserConfig(), s'.users.buckets, user, t)
               == (if success then 5 * 12_000_000_000 else Level(UserConfig(), s.users.buckets, user, t))
            && forall other :: other != user ==>
                 Level(UserConfig(), s'.users.buckets, other, t) == Level(UserConfig(), s.users.buckets, other, t)
  {
  }

  /**
   A post gets to the comparison exactly when its address and its username each hold a
   token and are not turned away.
   */
  lemma PostIsCompared(s: Sys, id: nat, ip: Key, username: string, t: int, now1: int, now2: int)
    requires SysInv(s, t) && t <= now1 <= now2 && id !in s.requests
    ensures var s', user := After(After(s, Arrive(id, ip, now1)), Submit(id, Some(username), now2)), Text.TrimSpace(username);
            && (id in s'.requests <==>
                  && Level(IPConfig(), s.ips.buckets, ip, now1) >= 6_000_000_000 && !TurnedAway(IPConfig(), s.ips, ip, now1)
                  && Level(UserConfig(), s.users.buckets, user, now2) >= 12_000_000_000
                  && !TurnedAway(UserConfig(), s.users, user, now2))
            && (id in s'.requests ==> s'.requests[id] == Comparing(ip, user))
  {
    ArrivalSpends(s, id, ip, t, now1);
    var s1 := After(s, Arrive(id, ip, now1));
    if id in s1.requests {
      NextKeepsSysInv(s, Arrive(id, ip, now1), t);
      SubmissionSpends(s1, id, username, now1, now2);
    }
  }

  // ---------------------------------------------------------------- one login

  datatype Lookup = Known | Unknown | Failed

  /** What the environment contributes to one request. */
  datatype Attempt = Attempt(
    isPost: bool,
    ip: Key,
    username: Option<string>,
    lookup: Lookup,
    slotAcquired: bool,
    matches: bool,
    sessionEstablished: bool)

  datatype Response =
    | RedirectHome
    | TooManyRequests(retryAfter: int)
    | BadBody
    | Unavailable
    | Unauthorized
    | SessionError
    | NoContent

  predicate Succeeds(a: Attempt) {
    a.lookup.Known? && a.slotAcquired && a.matches && a.sessionEstablished
  }

  /** The steps one request takes when nothing comes in between. */
  function StepsOf(a: Attempt, now1: int, now2: int): seq<Step> {
    if a.isPost then [Arrive(0, a.ip, now1), Submit(0, a.username, now2), Finish(0, Succeeds(a))] else []
  }

  class PasswordAuthenticator {
    const ipLimiter: KeyedLimiter
    const userLimiter: KeyedLimiter

    ghost predicate Valid() {
      && ipLimiter != userLimiter
      && ipLimiter.interval == IP_INTERVAL && ipLimiter.Configured() == IPConfig()
      && userLimiter.interval == USER_INTERVAL && userLimiter.Configured() == UserConfig()
    }

    function Snapshot(): Sys
      reads ipLimiter, userLimiter
    {
      Sys(ipLimiter.Snapshot(), userLimiter.Snapshot(), map[])
    }

    constructor (epoch: int)
      ensures Valid() && fresh(ipLimiter) && fresh(userLimiter)
      ensures Snapshot() == Sys(State(map[], epoch), State(map[], epoch), map[])
    {
      ipLimiter := new KeyedLimiter(IP_BURST, IP_INTERVAL, MAX_KEYS, epoch);
      userLimiter := new KeyedLimiter(USER_BURST, USER_INTERVAL, MAX_KEYS, epoch);
    }

    /**
     Handles one request; `now1` and `now2` are what the limiters' clocks show.
     `compared` tells whether the request got through both throttles.
     */
    method Login(a: Attempt, now1: int, now2: int) returns (r: Response, compared: bool)
      requires Valid()
      modifies ipLimiter, userLimiter
      ensures Snapshot() == Run(old(Snapshot()), StepsOf(a, now1, now2))
      ensures compared <==> a.isPost && ComparedFrom(old(Snapshot()), StepsOf(a, now1, now2), a.ip) == 1
      ensures r.RedirectHome? <==> !a.isPost
      ensures r.NoContent? <==> compared && Succeeds(a)
      ensures r.Unauthorized? <==> compared && a.lookup != Failed && a.slotAcquired && (a.lookup.Unknown? || !a.matches)
      ensures r.SessionError? <==> compared && a.lookup.Known? && a.slotAcquired && a.matches && !a.sessionEstablished
      ensures r.BadBody? <==> a.isPost && Passes(old(Snapshot()), Arrive(0, a.ip, now1)) && a.username.None?
      ensures r.Unavailable? <==> compared && (a.lookup.Failed? || !a.slotAcquired)
      ensures r.TooManyRequests? && !Passes(old(Snapshot()), Arrive(0, a.ip, now1)) ==>
                r.retryAfter == RetryAfter(Allow(IPConfig(), old(Snapshot()).ips, a.ip, now1).0.wait)
      ensures r.TooManyRequests? && Passes(old(Snapshot()), Arrive(0, a.ip, now1)) ==>
                a.username.Some? && r.retryAfter ==
                  RetryAfter(Allow(UserConfig(), old(Snapshot()).users, Text.TrimSpace(a.username.value), now2).0.wait)
      ensures r.TooManyRequests? || r.BadBody? ==> !compared
    {
      ghost var s0 := Snapshot();
      compared := false;
      if !a.isPost {
        return RedirectHome, compared;
      }
      ghost var steps := StepsOf(a, now1, now2);
      ghost var s1 := After(s0, steps[0]);
      ghost var s2 := After(s1, steps[1]);
      ghost var s3 := After(s2, steps[2]);
      ThreeSteps(s0, steps, a.ip);

      var ok, wait := ipLimiter.AllowKey(a.ip, now1);
      if !ok {
        return TooManyRequests(RetryAfter(wait)), compared;
      }
      if a.username.None? {
        assert s2.requests == map[];
        return BadBody, compared;
      }
      var username := Text.TrimSpace(a.username.value);
      ok, wait := userLimiter.AllowKey(username, now2);
      if !ok {
        assert s2.requests == map[];
        return TooManyRequests(RetryAfter(wait)), compared;
      }
      compared := true;
      assert s3.requests == map[];
      if a.lookup.Failed? || !a.slotAcquired {
        return Unavailable, compared;
      }
      if a.lookup.Unknown? || !a.matches {
        return Unauthorized, compared;
      }
      if !a.sessionEstablished {
        return SessionError, compared;
      }
      userLimiter.ResetKey(username);
      return NoContent, compared;
    }
  }

  lemma ThreeSteps(s: Sys, steps: seq<Step>, ip: Key)
    requires |steps| == 3 && steps[0].Arrive? && steps[1].Submit? && steps[2].Finish?
    ensures var s1 := After(s, steps[0]);
            var s2 := After(s1, steps[1]);
            && Run(s, steps) == After(s2, steps[2])
            && ComparedFrom(s, steps, ip) == One(Passes(s1, steps[1]) && s1.requests[steps[1].id].ip == ip)
  {
    var s1 := After(s, steps[0]);
    var s2 := After(s1, steps[1]);
    var s3 := After(s2, steps[2]);
    assert steps[1..][1..] == [steps[2]];
    assert Run(s2, [steps[2]]) == Run(s3, []);
    assert ComparedFrom(s3, [], ip) == 0;
    assert ComparedFrom(s2, [steps[2]], ip) == 0;
  }
}
