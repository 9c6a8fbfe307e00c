/** The per-user command rate limiter: a 60 second sliding window and two cooldowns. Times
    are nanoseconds of a monotone clock; each call holds the one lock throughout. */
module RateLimiter {
  import opened Common

  const WINDOW: nat := 60_000_000_000

  datatype Config = Config(normalPerMinute: nat, refreshCooldown: nat, emergencyCooldown: nat)

  datatype Command = Command(refresh: bool, emergency: bool)

  datatype Request = Request(user: int, command: Command, time: nat)

  datatype Denial = TooMany | RefreshCooldown | EmergencyCooldown

  /** `Instant::duration_since`, which saturates at zero. */
  function Elapsed(now: nat, instant: nat): nat {
    if now >= instant then now - instant else 0
  }

  // ---------------------------------------------------------------- the policy over accepted requests

  /** The accepted times of a user, in order. */
  function TimesOf(accepted: seq<Request>, user: int): seq<nat> {
    if accepted == [] then []
    else
      var front, last := TimesOf(accepted[..|accepted| - 1], user), accepted[|accepted| - 1];
      if last.user == user then front + [last.time] else front
  }

  /** How many of the times lie less than a window before `now`. */
  function Recent(times: seq<nat>, now: nat): nat {
    if times == [] then 0
    else Recent(times[..|times| - 1], now) + if Elapsed(now, times[|times| - 1]) < WINDOW then 1 else 0
  }

  /** No earlier accepted refresh (or emergency) of the user is still cooling down. */
  predicate CooledDown(accepted: seq<Request>, r: Request, emergency: bool, cooldown: nat) {
    forall i :: 0 <= i < |accepted| && accepted[i].user == r.user
                && (if emergency then accepted[i].command.emergency else accepted[i].command.refresh)
      ==> Elapsed(r.time, accepted[i].time) >= cooldown
  }

  /** Whether a request may be accepted after the accepted requests so far. */
  predicate Admissible(config: Config, accepted: seq<Request>, r: Request) {
    && Recent(TimesOf(accepted, r.user), r.time) < config.normalPerMinute
    && (r.command.refresh ==> CooledDown(accepted, r, false, config.refreshCooldown))
    && (r.command.emergency ==> CooledDown(accepted, r, true, config.emergencyCooldown))
  }

  /** The first reason that speaks against a request. */
  function DenialOf(config: Config, accepted: seq<Request>, r: Request): Option<Denial> {
    if Recent(TimesOf(accepted, r.user), r.time) >= config.normalPerMinute then Some(TooMany)
    else CooldownDenial(config, accepted, r)
  }

  function CooldownDenial(config: Config, accepted: seq<Request>, r: Request): Option<Denial> {
    if r.command.refresh && !CooledDown(accepted, r, false, config.refreshCooldown) then Some(RefreshCooldown)
    else if r.command.emergency && !CooledDown(accepted, r, true, config.emergencyCooldown) then Some(EmergencyCooldown)
    else None
  }

  type Rule = (seq<Request>, Request) -> bool

  /** The requests a rule keeps out of a sequence, each judged against those kept before. */
  function Kept(rule: Rule, requests: seq<Request>): seq<Request> {
    if requests == [] then []
    else
      var front, last := Kept(rule, requests[..|requests| - 1]), requests[|requests| - 1];
      if rule(front, last) then front + [last] else front
  }

  function Policy(config: Config): Rule {
    (accepted, r) => Admissible(config, accepted, r)
  }

  /** The requests accepted out of a sequence. */
  function AcceptedOf(config: Config, requests: seq<Request>): seq<Request> {
    Kept(Policy(config), requests)
  }

  ghost predicate Monotone(requests: seq<Request>) {
    forall i, j :: 0 <= i < j < |requests| ==> requests[i].time <= requests[j].time
  }

  // ---------------------------------------------------------------- the limiter's own state

  /** The last accepted refresh (or emergency) of the user. */
  function LastOf(accepted: seq<Request>, user: int, emergency: bool): Option<nat> {
    if accepted == [] then None
    else
      var last := accepted[|accepted| - 1];
      if last.user == user && (if emergency then last.command.emergency else last.command.refresh) then Some(last.time)
      else LastOf(accepted[..|accepted| - 1], user, emergency)
  }

  ghost predicate Latest(accepted: seq<Request>, times: map<int, nat>, emergency: bool) {
    forall user :: LastOf(accepted, user, emergency) == if user in times then Some(times[user]) else None
  }

  /** `queue` is what remains of `times` once only expired entries have been popped. */
  ghost predicate Pruned(queue: seq<nat>, times: seq<nat>, clock: nat) {
    && |queue| <= |times|
    && queue == times[|times| - |queue|..]
    && forall i :: 0 <= i < |times| - |queue| ==> Elapsed(clock, times[i]) >= WINDOW
  }

  function QueueOf(normal: map<int, seq<nat>>, user: int): seq<nat> {
    if user in normal then normal[user] else []
  }

  class RateLimiter {
    const config: Config
    var normal: map<int, seq<nat>>
    var lastRefresh: map<int, nat>
    var lastEmergency: map<int, nat>
    ghost var accepted: seq<Request>
    ghost var clock: nat

    ghost predicate Valid()
      reads this
    {
      Tracks(normal, lastRefresh, lastEmergency, accepted, clock)
    }

    constructor (config: Config)
      ensures Valid() && accepted == [] && clock == 0 && this.config == config
    {
      this.config := config;
      normal, lastRefresh, lastEmergency := map[], map[], map[];
      accepted, clock := [], 0;
    }

    /** Expired entries of the user leave the queue; what remains is the recent count. */
    method Prune(user: int, now: nat)
      requires Valid() && clock <= now
      modifies `normal, `clock
      ensures Valid() && clock == now && accepted == old(accepted)
      ensures |QueueOf(normal, user)| == Recent(TimesOf(accepted, user), now)
    {
      ghost var times := TimesOf(accepted, user);
      assert Pruned(QueueOf(normal, user), times, clock);
      TimesAreSorted(accepted, user, clock);
      var queue := PopExpired(QueueOf(normal, user), now, times, clock);
      RecentIsQueueLength(times, queue, now);
      PrunedLater(normal, accepted, clock, now, user, queue);
      normal := normal[user := queue];
      clock := now;
    }

    method CheckCooldowns(user: int, command: Command, now: nat) returns (denied: Option<Denial>)
      requires Valid()
      ensures denied == CooldownDenial(config, accepted, Request(user, command, now))
    {
      LastDecides(accepted, Request(user, command, now), false, config.refreshCooldown);
      LastDecides(accepted, Request(user, command, now), true, config.emergencyCooldown);
      assert LastOf(accepted, user, false) == if user in lastRefresh then Some(lastRefresh[user]) else None;
      assert LastOf(accepted, user, true) == if user in lastEmergency then Some(lastEmergency[user]) else None;
      if command.refresh && user in lastRefresh && Elapsed(now, lastRefresh[user]) < config.refreshCooldown {
        return Some(RefreshCooldown);
      }
      if command.emergency && user in lastEmergency && Elapsed(now, lastEmergency[user]) < config.emergencyCooldown {
        return Some(EmergencyCooldown);
      }
      return None;
    }

    method Record(user: int, command: Command, now: nat)
      requires Valid() && now == clock
      modifies `normal, `lastRefresh, `lastEmergency, `accepted
      ensures Valid() && accepted == old(accepted) + [Request(user, command, clock)]
    {
      ghost var r := Request(user, command, clock);
      RecordedTracks(normal, lastRefresh, lastEmergency, accepted, r);
      if command.refresh {
        lastRefresh := lastRefresh[user := now];
      }
      if command.emergency {
        lastEmergency := lastEmergency[user := now];
      }
      normal := normal[user := QueueOf(normal, user) + [now]];
      accepted := accepted + [r];
    }

    /** The answer is the policy's, and only an accepted request leaves a trace. */
    method Allow(user: int, command: Command, now: nat) returns (denied: Option<Denial>)
      requires Valid() && clock <= now
      modifies this
      ensures Valid() && clock == now
      ensures denied.None? <==> Admissible(config, old(accepted), Request(user, command, now))
      ensures denied == DenialOf(config, old(accepted), Request(user, command, now))
      ensures accepted == if denied.None? then old(accepted) + [Request(user, command, now)] else old(accepted)
    {
      Prune(user, now);
      if |QueueOf(normal, user)| >= config.normalPerMinute {
        return Some(TooMany);
      }
      denied := CheckCooldowns(user, command, now);
      if denied.None? {
        Record(user, command, now);
      }
    }
  }

  /** The maps are what the accepted requests leave behind at time `clock`. */
  ghost predicate Tracks(normal: map<int, seq<nat>>, lastRefresh: map<int, nat>, lastEmergency: map<int, nat>,
                         accepted: seq<Request>, clock: nat) {
    && Monotone(accepted)
    && (forall i :: 0 <= i < |accepted| ==> accepted[i].time <= clock)
    && AllPruned(normal, accepted, clock)
    && Latest(accepted, lastRefresh, false)
    && Latest(accepted, lastEmergency, true)
  }

  lemma RecordedTracks(normal: map<int, seq<nat>>, lastRefresh: map<int, nat>, lastEmergency: map<int, nat>,
                       accepted: seq<Request>, r: Request)
    requires Tracks(normal, lastRefresh, lastEmergency, accepted, r.time)
    ensures Tracks(normal[r.user := QueueOf(normal, r.user) + [r.time]],
                   if r.command.refresh then lastRefresh[r.user := r.time] else lastRefresh,
                   if r.command.emergency then lastEmergency[r.user := r.time] else lastEmergency,
                   accepted + [r], r.time)
  {
    LatestStep(accepted, lastRefresh, r, false);
    LatestStep(accepted, lastEmergency, r, true);
    PrunedStep(normal, accepted, r, r.time);
    MonotoneStep(accepted, r);
  }

  lemma MonotoneStep(accepted: seq<Request>, r: Request)
    requires Monotone(accepted) && forall i :: 0 <= i < |accepted| ==> accepted[i].time <= r.time
    ensures Monotone(accepted + [r]) && forall i :: 0 <= i < |accepted + [r]| ==> (accepted + [r])[i].time <= r.time
  {
  }

  method PopExpired(queue0: seq<nat>, now: nat, ghost times: seq<nat>, ghost clock: nat) returns (queue: seq<nat>)
    requires Pruned(queue0, times, clock) && clock <= now
    ensures Pruned(queue, times, now)
    ensures queue == [] || Elapsed(now, queue[0]) < WINDOW
  {
    queue := queue0;
    while queue != [] && Elapsed(now, queue[0]) >= WINDOW
      invariant Pruned(queue, times, now)
      decreases |queue|
    {
      queue := queue[1..];
    }
  }

  ghost predicate Sorted(times: seq<nat>) {
    forall i, j :: 0 <= i < j < |times| ==> times[i] <= times[j]
  }

  ghost predicate AtMost(times: seq<nat>, bound: nat) {
    forall i :: 0 <= i < |times| ==> times[i] <= bound
  }

  lemma {:induction false} TimesAreSorted(accepted: seq<Request>, user: int, bound: nat)
    requires Monotone(accepted) && forall i :: 0 <= i < |accepted| ==> accepted[i].time <= bound
    ensures Sorted(TimesOf(accepted, user)) && AtMost(TimesOf(accepted, user), bound)
  {
    if accepted != [] {
      var n := |accepted| - 1;
      var front := accepted[..n];
      assert forall i :: 0 <= i < n ==> front[i] == accepted[i];
      TimesAreSorted(front, user, accepted[n].time);
    }
  }

  lemma PrunedStays(queue: seq<nat>, times: seq<nat>, clock: nat, now: nat)
    requires clock <= now && Pruned(queue, times, clock)
    ensures Pruned(queue, times, now)
  {
  }

  lemma PrunedSnoc(queue: seq<nat>, times: seq<nat>, clock: nat, time: nat)
    requires Pruned(queue, times, clock)
    ensures Pruned(queue + [time], times + [time], clock)
  {
    var d := |times| - |queue|;
    assert (times + [time])[d..] == times[d..] + [time];
  }

  ghost predicate AllPruned(normal: map<int, seq<nat>>, accepted: seq<Request>, clock: nat) {
    forall user :: Pruned(QueueOf(normal, user), TimesOf(accepted, user), clock)
  }

  lemma PrunedLater(normal: map<int, seq<nat>>, accepted: seq<Request>, clock: nat, now: nat, user: int, queue: seq<nat>)
    requires clock <= now && AllPruned(normal, accepted, clock)
    requires Pruned(queue, TimesOf(accepted, user), now)
    ensures AllPruned(normal[user := queue], accepted, now)
  {
    forall u
      ensures Pruned(QueueOf(normal[user := queue], u), TimesOf(accepted, u), now)
    {
      if u != user {
        PrunedStays(QueueOf(normal, u), TimesOf(accepted, u), clock, now);
      }
    }
  }

  lemma PrunedStep(normal: map<int, seq<nat>>, accepted: seq<Request>, r: Request, now: nat)
    requires AllPruned(normal, accepted, now)
    ensures AllPruned(normal[r.user := QueueOf(normal, r.user) + [r.time]], accepted + [r], now)
  {
    var next := normal[r.user := QueueOf(normal, r.user) + [r.time]];
    assert (accepted + [r])[..|accepted|] == accepted;
    forall user
      ensures Pruned(QueueOf(next, user), TimesOf(accepted + [r], user), now)
    {
      assert Pruned(QueueOf(normal, user), TimesOf(accepted, user), now);
      if user == r.user {
        PrunedSnoc(QueueOf(normal, user), TimesOf(accepted, user), now, r.time);
      }
    }
  }

  /** After popping, the queue length is the number of recent accepted requests. */
  lemma RecentIsQueueLength(times: seq<nat>, queue: seq<nat>, now: nat)
    requires Pruned(queue, times, now) && (queue == [] || Elapsed(now, queue[0]) < WINDOW)
    requires Sorted(times)
    ensures Recent(times, now) == |queue|
  {
    var d := |times| - |queue|;
    if queue != [] {
      assert queue[0] == times[d];
    }
    RecentSplit(times, d, now);
  }

  lemma {:induction false} RecentSplit(times: seq<nat>, d: nat, now: nat)
    requires d <= |times|
    requires forall i :: 0 <= i < d ==> Elapsed(now, times[i]) >= WINDOW
    requires forall i :: d <= i < |times| ==> Elapsed(now, times[i]) < WINDOW
    ensures Recent(times, now) == |times| - d
  {
    if times != [] {
      RecentSplit(times[..|times| - 1], if d == |times| then d - 1 else d, now);
    }
  }

  lemma LatestStep(accepted: seq<Request>, times: map<int, nat>, r: Request, emergency: bool)
    requires Latest(accepted, times, emergency)
    ensures var marked := if emergency then r.command.emergency else r.command.refresh;
            if marked then Latest(accepted + [r], times[r.user := r.time], emergency)
            else Latest(accepted + [r], times, emergency)
  {
    assert (accepted + [r])[..|accepted|] == accepted;
  }

  /** Under a monotone clock only the last one can still be cooling down. */
  lemma {:induction false} LastDecides(accepted: seq<Request>, r: Request, emergency: bool, cooldown: nat)
    requires Monotone(accepted)
    ensures var last := LastOf(accepted, r.user, emergency);
            CooledDown(accepted, r, emergency, cooldown) <==> last.None? || Elapsed(r.time, last.value) >= cooldown
  {
    if accepted != [] {
      var n := |accepted| - 1;
      var front := accepted[..n];
      assert forall i :: 0 <= i < n ==> front[i] == accepted[i];
      var marked := if emergency then accepted[n].command.emergency else accepted[n].command.refresh;
      if accepted[n].user == r.user && marked {
        assert forall i :: 0 <= i < n ==> Elapsed(r.time, accepted[i].time) >= Elapsed(r.time, accepted[n].time);
      } else {
        LastDecides(front, r, emergency, cooldown);
      }
    }
  }

  // ---------------------------------------------------------------- what the policy guarantees

  /** Accepted requests of the user in the half-open window starting at `t`. */
  function InWindow(accepted: seq<Request>, user: int, t: int): nat {
    if accepted == [] then 0
    else
      var last := accepted[|accepted| - 1];
      InWindow(accepted[..|accepted| - 1], user, t)
      + if last.user == user && t <= last.time < t + WINDOW then 1 else 0
  }

  lemma {:induction false} WindowIsRecent(accepted: seq<Request>, user: int, t: int, now: nat)
    requires t <= now < t + WINDOW
    ensures InWindow(accepted, user, t) <= Recent(TimesOf(accepted, user), now)
  {
    if accepted != [] {
      var n := |accepted| - 1;
      WindowIsRecent(accepted[..n], user, t, now);
      var front := TimesOf(accepted[..n], user);
      assert (front + [accepted[n].time])[..|front|] == front;
    }
  }

  /** Every half-open minute holds at most the configured number of accepted commands. */
  lemma {:induction false} EveryWindowIsBounded(config: Config, requests: seq<Request>, user: int, t: int)
    ensures InWindow(AcceptedOf(config, requests), user, t) <= config.normalPerMinute
  {
    if requests != [] {
      var n := |requests| - 1;
      var front, last := AcceptedOf(config, requests[..n]), requests[n];
      EveryWindowIsBounded(config, requests[..n], user, t);
      if Admissible(config, front, last) {
        assert (front + [last])[..|front|] == front;
        if last.user == user && t <= last.time < t + WINDOW {
          WindowIsRecent(front, user, t, last.time);
        }
      }
    }
  }

  lemma {:induction false} RecentIsWindow(accepted: seq<Request>, user: int, now: nat)
    requires forall i :: 0 <= i < |accepted| ==> accepted[i].time <= now
    ensures Recent(TimesOf(accepted, user), now) == InWindow(accepted, user, now + 1 - WINDOW)
  {
    if accepted != [] {
      var n := |accepted| - 1;
      RecentIsWindow(accepted[..n], user, now);
      var front := TimesOf(accepted[..n], user);
      assert (front + [accepted[n].time])[..|front|] == front;
    }
  }

  /** The user's previous accepted command of a kind was less than the cooldown ago. */
  ghost predicate Cooling(accepted: seq<Request>, user: int, emergency: bool, now: nat, cooldown: nat) {
    exists i :: 0 <= i < |accepted| && accepted[i].user == user && now < accepted[i].time + cooldown
                && (if emergency then accepted[i].command.emergency else accepted[i].command.refresh)
  }

  /** Under a monotone clock a request is refused only for cause: the last minute is full, or a
      refresh or an emergency comes within the cooldown of an accepted one of the same user. The
      first of these reasons is the answer. */
  lemma RefusedOnlyForCause(config: Config, accepted: seq<Request>, r: Request)
    requires forall i :: 0 <= i < |accepted| ==> accepted[i].time <= r.time
    ensures DenialOf(config, accepted, r) ==
      if InWindow(accepted, r.user, r.time + 1 - WINDOW) >= config.normalPerMinute then Some(TooMany)
      else if r.command.refresh && Cooling(accepted, r.user, false, r.time, config.refreshCooldown)
      then Some(RefreshCooldown)
      else if r.command.emergency && Cooling(accepted, r.user, true, r.time, config.emergencyCooldown)
      then Some(EmergencyCooldown) else None
    ensures DenialOf(config, accepted, r).None? <==> Admissible(config, accepted, r)
  {
    RecentIsWindow(accepted, r.user, r.time);
  }

  /** Accepted refreshes of one user are a cooldown apart, and so are accepted emergencies. */
  lemma {:induction false} CooldownsAreKept(config: Config, requests: seq<Request>, i: nat, j: nat)
    requires Monotone(requests) && i < j < |AcceptedOf(config, requests)|
    requires AcceptedOf(config, requests)[i].user == AcceptedOf(config, requests)[j].user
    ensures var accepted := AcceptedOf(config, requests);
            && (accepted[i].command.refresh && accepted[j].command.refresh ==>
                  Elapsed(accepted[j].time, accepted[i].time) >= config.refreshCooldown)
            && (accepted[i].command.emergency && accepted[j].command.emergency ==>
                  Elapsed(accepted[j].time, accepted[i].time) >= config.emergencyCooldown)
    decreases |requests|
  {
    var n := |requests| - 1;
    var front := AcceptedOf(config, requests[..n]);
    if j < |front| {
      CooldownsAreKept(config, requests[..n], i, j);
    }
  }

  /** A rule's answer to each request of a sequence. */
  function Verdicts(rule: Rule, requests: seq<Request>): (answers: seq<bool>)
    ensures |answers| == |requests|
  {
    if requests == [] then []
    else
      var front, last := requests[..|requests| - 1], requests[|requests| - 1];
      Verdicts(rule, front) + [rule(Kept(rule, front), last)]
  }

  /** The policy's answer to each request of a sequence. */
  function Answers(config: Config, requests: seq<Request>): seq<bool> {
    Verdicts(Policy(config), requests)
  }

  lemma KeptOfOneMore(rule: Rule, requests: seq<Request>, r: Request)
    ensures Kept(rule, requests + [r])
         == if rule(Kept(rule, requests), r) then Kept(rule, requests) + [r] else Kept(rule, requests)
    ensures Verdicts(rule, requests + [r]) == Verdicts(rule, requests) + [rule(Kept(rule, requests), r)]
  {
    assert (requests + [r])[..|requests|] == requests;
  }

  /** `w` is `v` without its `k`-th answer. */
  ghost predicate Without(v: seq<bool>, w: seq<bool>, k: nat) {
    k < |v| && w == v[..k] + v[k + 1..]
  }

  lemma WithoutSnoc(v: seq<bool>, w: seq<bool>, k: nat, x: bool)
    requires Without(v, w, k)
    ensures Without(v + [x], w + [x], k)
  {
    assert (v + [x])[k + 1..] == v[k + 1..] + [x];
  }

  /** `b` keeps the same requests as `a`, and its answers are those of `a` without the `k`-th. */
  ghost predicate SameWithout(rule: Rule, a: seq<Request>, b: seq<Request>, k: nat) {
    Kept(rule, b) == Kept(rule, a) && Without(Verdicts(rule, a), Verdicts(rule, b), k)
  }

  lemma OneMoreAnswer(rule: Rule, a: seq<Request>, b: seq<Request>, k: nat, r: Request)
    requires SameWithout(rule, a, b, k)
    ensures SameWithout(rule, a + [r], b + [r], k)
  {
    KeptOfOneMore(rule, a, r);
    KeptOfOneMore(rule, b, r);
    WithoutSnoc(Verdicts(rule, a), Verdicts(rule, b), k, rule(Kept(rule, a), r));
  }

  lemma RefusedAtTheEnd(rule: Rule, before: seq<Request>, r: Request)
    requires !rule(Kept(rule, before), r)
    ensures SameWithout(rule, before + [r], before, |before|)
  {
    KeptOfOneMore(rule, before, r);
  }

  lemma Regroup<T>(a: seq<T>, b: seq<T>)
    requires b != []
    ensures a + b[..|b| - 1] + [b[|b| - 1]] == a + b
  {
  }

  lemma NothingAfter<T>(a: seq<T>)
    ensures a + [] == a
  {
  }

  /** A refused request leaves no trace under any rule. */
  lemma {:induction false} RefusedLeavesNoTrace(rule: Rule, before: seq<Request>, r: Request, after: seq<Request>)
    requires !rule(Kept(rule, before), r)
    ensures SameWithout(rule, before + [r] + after, before + after, |before|)
  {
    if after == [] {
      RefusedAtTheEnd(rule, before, r);
      NothingAfter(before);
      NothingAfter(before + [r]);
    } else {
      var front := after[..|after| - 1];
      RefusedLeavesNoTrace(rule, before, r, front);
      OneMoreAnswer(rule, before + [r] + front, before + front, |before|, after[|after| - 1]);
      Regroup(before, after);
      Regroup(before + [r], after);
    }
  }

  /** Deleting a rejected request changes no answer to the others, earlier or later. */
  lemma RejectedRequestsLeaveNoTrace(config: Config, requests: seq<Request>, i: nat)
    requires i < |requests| && !Admissible(config, AcceptedOf(config, requests[..i]), requests[i])
    ensures AcceptedOf(config, requests[..i] + requests[i + 1..]) == AcceptedOf(config, requests)
    ensures Answers(config, requests[..i] + requests[i + 1..])
         == Answers(config, requests)[..i] + Answers(config, requests)[i + 1..]
  {
    RefusedLeavesNoTrace(Policy(config), requests[..i], requests[i], requests[i + 1..]);
    assert requests[..i] + [requests[i]] + requests[i + 1..] == requests;
  }

  lemma NextAnswer(config: Config, requests: seq<Request>, i: nat)
    requires i < |requests|
    ensures var before := AcceptedOf(config, requests[..i]);
            var allowed := Admissible(config, before, requests[i]);
            && AcceptedOf(config, requests[..i + 1]) == (if allowed then before + [requests[i]] else before)
            && Answers(config, requests[..i + 1]) == Answers(config, requests[..i]) + [allowed]
  {
    assert requests[..i + 1][..i] == requests[..i];
  }

  /** A whole sequence of calls under a monotone clock is answered exactly by the policy. */
  method Serve(limiter: RateLimiter, requests: seq<Request>) returns (answers: seq<bool>)
    requires limiter.Valid() && limiter.accepted == [] && limiter.clock == 0 && Monotone(requests)
    modifies limiter
    ensures limiter.accepted == AcceptedOf(limiter.config, requests)
    ensures answers == Answers(limiter.config, requests)
  {
    answers := [];
    for i := 0 to |requests|
      invariant limiter.Valid() && limiter.accepted == AcceptedOf(limiter.config, requests[..i])
      invariant limiter.clock == if i == 0 then 0 else requests[i - 1].time
      invariant answers == Answers(limiter.config, requests[..i])
    {
      NextAnswer(limiter.config, requests, i);
      var r := requests[i];
      var denied := limiter.Allow(r.user, r.command, r.time);
      assert r == Request(r.user, r.command, r.time);
      answers := answers + [denied.None?];
    }
    assert requests[..|requests|] == requests;
  }
}
