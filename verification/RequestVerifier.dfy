/**
 The miner's request verifier: policy checks on the signed request, the SDK's signature check, the
 per-hotkey limiter, and the cache that refuses replays.
 Clock readings, in nanoseconds, and the SDK's answer come with each request.
 */
module RequestVerifier {
  import opened Common
  import opened RateLimiter

  const MAX_AGE := 30_000_000_000
  const MAX_SKEW := 5_000_000_000
  const MAX_TIMEOUT := 30.0

  /** A field is `None` where the source's `int(...)` raises. */
  datatype Terminal = Terminal(hotkey: string, uuid: string, nonce: Option<int>, version: Option<int>)

  datatype Request = Request(terminal: Option<Terminal>, timeout: real)

  /** The wall clock, the SDK's verdict, the limiter's clock and the cache's clock, in reading order. */
  datatype Readings = Readings(wall: int, signed: bool, tick: real, clock: int)

  datatype Event = Event(request: Request, readings: Readings)

  datatype Policy = Policy(minimumVersion: int, limits: Limits)

  datatype Refusal =
    | MissingTerminal | InvalidMetadata | InvalidIdentity | UnsupportedVersion | TimeoutExceeded
    | Stale | TooFarAhead | BadSignature | RateExceeded | Replayed

  datatype Outcome = Accepted | Refused(why: Refusal)

  datatype Identity = Identity(hotkey: string, uuid: string, nonce: int)

  datatype State = State(buckets: Buckets, accepted: map<Identity, int>)

  predicate Fresh(nonce: int, wall: int) {
    -MAX_SKEW <= wall - nonce <= MAX_AGE
  }

  /** The checks made before the SDK is asked, in the order they are made. */
  function Screen(policy: Policy, request: Request, wall: int): Option<Refusal> {
    match request.terminal
    case None => Some(MissingTerminal)
    case Some(terminal) =>
      if terminal.nonce.None? || terminal.version.None? then Some(InvalidMetadata)
      else if terminal.hotkey == "" || terminal.uuid == "" || |terminal.uuid| > 128 then Some(InvalidIdentity)
      else if terminal.version.value < policy.minimumVersion then Some(UnsupportedVersion)
      else if !(0.0 < request.timeout <= MAX_TIMEOUT) then Some(TimeoutExceeded)
      else if wall - terminal.nonce.value > MAX_AGE then Some(Stale)
      else if wall - terminal.nonce.value < -MAX_SKEW then Some(TooFarAhead)
      else None
  }

  function IdentityOf(request: Request): Identity
    requires request.terminal.Some? && request.terminal.value.nonce.Some?
  {
    Identity(request.terminal.value.hotkey, request.terminal.value.uuid, request.terminal.value.nonce.value)
  }

  lemma ScreenedIsFresh(policy: Policy, request: Request, wall: int)
    requires Screen(policy, request, wall).None?
    ensures request.terminal.Some? && request.terminal.value.nonce.Some?
    ensures Fresh(IdentityOf(request).nonce, wall)
  {
  }

  function Pruned(accepted: map<Identity, int>, clock: int): map<Identity, int> {
    map id | id in accepted && accepted[id] >= clock - MAX_AGE :: accepted[id]
  }

  function Step(policy: Policy, s: State, event: Event): (Outcome, State) {
    var at := event.readings;
    var screened := Screen(policy, event.request, at.wall);
    if screened.Some? then (Refused(screened.value), s)
    else if !at.signed then (Refused(BadSignature), s)
    else
      var id := IdentityOf(event.request);
      var bucket := Lookup(s.buckets, id.hotkey);
      var buckets := s.buckets[id.hotkey := Charged(policy.limits, bucket, at.tick)];
      if !Admits(policy.limits, bucket, at.tick) then (Refused(RateExceeded), s.(buckets := buckets))
      else
        var kept := Pruned(s.accepted, at.clock);
        if id in kept then (Refused(Replayed), State(buckets, kept))
        else (Accepted, State(buckets, kept[id := at.clock]))
  }

  /******* What one step is *******/

  ghost predicate Readable(request: Request) {
    request.terminal.Some? && request.terminal.value.nonce.Some? && request.terminal.value.version.Some?
  }

  ghost predicate Named(request: Request) {
    Readable(request) && 1 <= |request.terminal.value.hotkey| && 1 <= |request.terminal.value.uuid| <= 128
  }

  ghost predicate Current(policy: Policy, request: Request) {
    Named(request) && policy.minimumVersion <= request.terminal.value.version.value
  }

  ghost predicate Bounded(policy: Policy, request: Request) {
    Current(policy, request) && 0.0 < request.timeout <= 30.0
  }

  /** All that a request must be before its signature is looked at. */
  ghost predicate Sound(policy: Policy, request: Request, wall: int) {
    Bounded(policy, request) && -5_000_000_000 <= wall - request.terminal.value.nonce.value <= 30_000_000_000
  }

  /** The hotkey has a token left. */
  ghost predicate HasToken(policy: Policy, s: State, event: Event)
    requires event.request.terminal.Some?
  {
    Admits(policy.limits, Lookup(s.buckets, event.request.terminal.value.hotkey), event.readings.tick)
  }

  /** Each refusal before the limiter names the first condition that fails, and leaves everything as it was. */
  lemma RefusedBecause(policy: Policy, s: State, event: Event)
    ensures var (outcome, after), q, at := Step(policy, s, event), event.request, event.readings;
      && (outcome == Refused(MissingTerminal) <==> q.terminal.None?)
      && (outcome == Refused(InvalidMetadata) <==> q.terminal.Some? && !Readable(q))
      && (outcome == Refused(InvalidIdentity) <==> Readable(q) && !Named(q))
      && (outcome == Refused(UnsupportedVersion) <==> Named(q) && !Current(policy, q))
      && (outcome == Refused(TimeoutExceeded) <==> Current(policy, q) && !Bounded(policy, q))
      && (outcome == Refused(Stale) <==>
            Bounded(policy, q) && at.wall - q.terminal.value.nonce.value > 30_000_000_000)
      && (outcome == Refused(TooFarAhead) <==>
            Bounded(policy, q) && q.terminal.value.nonce.value - at.wall > 5_000_000_000)
      && (outcome == Refused(BadSignature) <==> Sound(policy, q, at.wall) && !at.signed)
      && (outcome == Refused(RateExceeded) <==> Sound(policy, q, at.wall) && at.signed && !HasToken(policy, s, event))
      && (!Sound(policy, q, at.wall) || !at.signed ==> after == s)
      && (outcome == Refused(RateExceeded) ==> after.accepted == s.accepted)
  {
  }

  /** The cache is asked exactly by sound, signed requests with a token. */
  lemma ReachesCacheIff(policy: Policy, s: State, events: seq<Event>, j: nat)
    requires j < |events|
    ensures ReachesCache(policy, s, events, j) <==>
      && Sound(policy, events[j].request, events[j].readings.wall) && events[j].readings.signed
      && HasToken(policy, After(policy, s, events[..j]), events[j])
  {
    RefusedBecause(policy, After(policy, s, events[..j]), events[j]);
  }

  class RequestVerifier {
    const policy: Policy
    const limiter: TokenBucketLimiter
    var accepted: map<Identity, int>

    ghost predicate Valid()
      reads this, limiter
    {
      limiter.Valid() && limiter.limits == policy.limits
    }

    ghost function Contents(): State
      reads this, limiter
    {
      State(limiter.buckets, accepted)
    }

    constructor (policy: Policy)
      requires policy.limits.Valid()
      ensures Valid() && fresh(limiter) && this.policy == policy && Contents() == State(map[], map[])
    {
      this.policy := policy;
      limiter := new TokenBucketLimiter(policy.limits);
      accepted := map[];
    }

    /** Drops what was accepted more than the maximal age ago. */
    method Prune(clock: int)
      modifies this`accepted
      ensures accepted == Pruned(old(accepted), clock)
    {
      var cutoff := clock - MAX_AGE;
      ghost var kept := Pruned(accepted, clock);
      var stale := set id | id in accepted && accepted[id] < cutoff;
      while stale != {}
        invariant Pruned(accepted, clock) == kept
        invariant forall id :: id in stale <==> id in accepted && accepted[id] < cutoff
        decreases |stale|
      {
        var id :| id in stale;
        accepted := accepted - {id};
        stale := stale - {id};
      }
      assert forall id :: id in accepted ==> id !in stale;
    }

    method Verify(event: Event) returns (outcome: Outcome)
      requires Valid()
      modifies this`accepted, limiter
      ensures Valid()
      ensures (outcome, Contents()) == Step(policy, old(Contents()), event)
    {
      var request, at := event.request, event.readings;
      if request.terminal.None? { return Refused(MissingTerminal); }
      var terminal := request.terminal.value;
      if terminal.nonce.None? || terminal.version.None? { return Refused(InvalidMetadata); }
      var nonce, version := terminal.nonce.value, terminal.version.value;
      if terminal.hotkey == "" || terminal.uuid == "" || |terminal.uuid| > 128 { return Refused(InvalidIdentity); }
      if version < policy.minimumVersion { return Refused(UnsupportedVersion); }
      if !(0.0 < request.timeout <= MAX_TIMEOUT) { return Refused(TimeoutExceeded); }
      var age := at.wall - nonce;
      if age > MAX_AGE { return Refused(Stale); }
      if age < -MAX_SKEW { return Refused(TooFarAhead); }
      if !at.signed { return Refused(BadSignature); }
      var allowed := limiter.Allow(terminal.hotkey, at.tick);
      if !allowed { return Refused(RateExceeded); }
      var id := Identity(terminal.hotkey, terminal.uuid, nonce);
      Prune(at.clock);
      if id in accepted { return Refused(Replayed); }
      accepted := accepted[id := at.clock];
      outcome := Accepted;
    }
  }

  /******* Runs *******/

  function After(policy: Policy, s: State, events: seq<Event>): State {
    if events == [] then s
    else Step(policy, After(policy, s, events[..|events| - 1]), events[|events| - 1]).1
  }

  /** The answer to request number `i`. */
  function Answer(policy: Policy, s: State, events: seq<Event>, i: nat): Outcome
    requires i < |events|
  {
    Step(policy, After(policy, s, events[..i]), events[i]).0
  }

  /** Request `i` of the run was accepted, under this identity. */
  predicate AcceptedAs(policy: Policy, s: State, events: seq<Event>, i: nat, id: Identity)
    requires i < |events|
  {
    Answer(policy, s, events, i) == Accepted && IdentityOfEvent(events[i]) == Some(id)
  }

  function IdentityOfEvent(event: Event): Option<Identity> {
    if event.request.terminal.Some? && event.request.terminal.value.nonce.Some?
    then Some(IdentityOf(event.request))
    else None
  }

  ghost predicate ClockNeverGoesBack(events: seq<Event>) {
    forall i, j :: 0 <= i < j < |events| ==> events[i].readings.clock <= events[j].readings.clock
  }

  /** Every cache entry is an acceptance of the run. */
  ghost predicate EntriesAreAcceptances(policy: Policy, s: State, events: seq<Event>) {
    forall id :: id in After(policy, s, events).accepted ==>
      exists i :: 0 <= i < |events| && AcceptedAs(policy, s, events, i, id)
               && events[i].readings.clock == After(policy, s, events).accepted[id]
  }

  /** Every acceptance young enough at the last reading is still in the cache. */
  ghost predicate YoungAreCached(policy: Policy, s: State, events: seq<Event>) {
    forall i, id ::
      (0 <= i < |events| && AcceptedAs(policy, s, events, i, id)
       && events[|events| - 1].readings.clock <= events[i].readings.clock + MAX_AGE)
      ==> id in After(policy, s, events).accepted
          && events[i].readings.clock <= After(policy, s, events).accepted[id]
  }

  lemma AnswerOfPrefix(policy: Policy, s: State, events: seq<Event>, n: nat, i: nat)
    requires i < n <= |events|
    ensures Answer(policy, s, events[..n], i) == Answer(policy, s, events, i)
    ensures events[..n][i] == events[i]
  {
    assert events[..n][..i] == events[..i];
  }

  lemma {:induction false} EntriesHold(policy: Policy, s: State, events: seq<Event>)
    requires s.accepted == map[]
    ensures EntriesAreAcceptances(policy, s, events)
  {
    if events != [] {
      var n := |events| - 1;
      var before, after := After(policy, s, events[..n]), After(policy, s, events);
      EntriesHold(policy, s, events[..n]);
      forall id | id in after.accepted
        ensures exists i :: 0 <= i < |events| && AcceptedAs(policy, s, events, i, id)
                         && events[i].readings.clock == after.accepted[id]
      {
        if Answer(policy, s, events, n) == Accepted && IdentityOfEvent(events[n]) == Some(id) {
          assert AcceptedAs(policy, s, events, n, id);
        } else {
          assert id in before.accepted && before.accepted[id] == after.accepted[id];
          var i :| 0 <= i < n && AcceptedAs(policy, s, events[..n], i, id)
                && events[..n][i].readings.clock == before.accepted[id];
          AnswerOfPrefix(policy, s, events, n, i);
          assert AcceptedAs(policy, s, events, i, id);
        }
      }
    }
  }

  lemma {:induction false} YoungHold(policy: Policy, s: State, events: seq<Event>)
    requires ClockNeverGoesBack(events)
    ensures YoungAreCached(policy, s, events)
  {
    if events != [] {
      var n := |events| - 1;
      var before, after := After(policy, s, events[..n]), After(policy, s, events);
      YoungHold(policy, s, events[..n]);
      forall i, id | 0 <= i < |events| && AcceptedAs(policy, s, events, i, id)
          && events[n].readings.clock <= events[i].readings.clock + MAX_AGE
        ensures id in after.accepted && events[i].readings.clock <= after.accepted[id]
      {
        if i < n {
          AnswerOfPrefix(policy, s, events, n, i);
          assert AcceptedAs(policy, s, events[..n], i, id);
          assert events[..n][n - 1].readings.clock <= events[n].readings.clock;
          assert id in before.accepted;
        }
      }
    }
  }

  /** What the cache is asked about: requests that pass every earlier check. */
  predicate ReachesCache(policy: Policy, s: State, events: seq<Event>, i: nat)
    requires i < |events|
  {
    Answer(policy, s, events, i) in {Accepted, Refused(Replayed)}
  }

  /**
   A request that reaches the cache is refused as a replay if and only if the same identity was
   accepted at most thirty seconds before, in a run from an empty cache whose clock never goes back.
   */
  lemma ReplayRefusedIff(policy: Policy, s: State, events: seq<Event>, j: nat)
    requires s.accepted == map[] && ClockNeverGoesBack(events)
    requires j < |events| && ReachesCache(policy, s, events, j)
    ensures Answer(policy, s, events, j) == Refused(Replayed) <==>
            exists i :: 0 <= i < j && AcceptedAs(policy, s, events, i, IdentityOf(events[j].request))
                     && events[j].readings.clock - events[i].readings.clock <= MAX_AGE
  {
    var id, clock := IdentityOf(events[j].request), events[j].readings.clock;
    var before := After(policy, s, events[..j]);
    if Answer(policy, s, events, j) == Refused(Replayed) {
      EntriesHold(policy, s, events[..j]);
      var i :| 0 <= i < j && AcceptedAs(policy, s, events[..j], i, id)
            && events[..j][i].readings.clock == before.accepted[id];
      AnswerOfPrefix(policy, s, events, j, i);
      assert AcceptedAs(policy, s, events, i, id);
    }
    if i :| 0 <= i < j && AcceptedAs(policy, s, events, i, id) && clock - events[i].readings.clock <= MAX_AGE {
      YoungHold(policy, s, events[..j]);
      AnswerOfPrefix(policy, s, events, j, i);
      assert AcceptedAs(policy, s, events[..j], i, id);
      assert events[..j][j - 1].readings.clock <= clock;
    }
  }

  /**
   What is accepted: in a run from an empty cache whose clock never goes back, exactly the sound and
   signed requests whose hotkey has a token and whose identity was not accepted in the last thirty seconds.
   */
  lemma AcceptedIff(policy: Policy, s: State, events: seq<Event>, j: nat)
    requires s.accepted == map[] && ClockNeverGoesBack(events) && j < |events|
    ensures Answer(policy, s, events, j) == Accepted <==>
      && Sound(policy, events[j].request, events[j].readings.wall) && events[j].readings.signed
      && HasToken(policy, After(policy, s, events[..j]), events[j])
      && !exists i :: 0 <= i < j && AcceptedAs(policy, s, events, i, IdentityOf(events[j].request))
                   && events[j].readings.clock - events[i].readings.clock <= 30_000_000_000
  {
    ReachesCacheIff(policy, s, events, j);
    if ReachesCache(policy, s, events, j) {
      ReplayRefusedIff(policy, s, events, j);
    }
  }

  /** The limiter's clock readings of the sound, signed requests of one hotkey. */
  ghost function TicksOf(policy: Policy, events: seq<Event>, hotkey: string): seq<real> {
    if events == [] then []
    else
      var front, last := TicksOf(policy, events[..|events| - 1], hotkey), events[|events| - 1];
      if Sound(policy, last.request, last.readings.wall) && last.readings.signed
         && last.request.terminal.value.hotkey == hotkey
      then front + [last.readings.tick]
      else front
  }

  /** Each hotkey's bucket is charged once for each of those, and for nothing else. */
  lemma {:induction false} BucketsFollowSoundRequests(policy: Policy, s: State, events: seq<Event>, hotkey: string)
    ensures Lookup(After(policy, s, events).buckets, hotkey)
         == AfterCalls(policy.limits, Lookup(s.buckets, hotkey), TicksOf(policy, events, hotkey))
  {
    if events != [] {
      var n := |events| - 1;
      BucketsFollowSoundRequests(policy, s, events[..n], hotkey);
      RefusedBecause(policy, After(policy, s, events[..n]), events[n]);
    }
  }

  /** Two acceptances of one identity are more than thirty seconds apart on the cache's clock. */
  lemma AcceptancesAreSpaced(policy: Policy, s: State, events: seq<Event>, i: nat, j: nat, id: Identity)
    requires s.accepted == map[] && ClockNeverGoesBack(events)
    requires i < j < |events| && AcceptedAs(policy, s, events, i, id) && AcceptedAs(policy, s, events, j, id)
    ensures events[j].readings.clock - events[i].readings.clock > MAX_AGE
  {
    ReplayRefusedIff(policy, s, events, j);
  }

  /** On one clock, an identity accepted twice carried a nonce that was in the future the first time. */
  lemma ReacceptedOnlyFromTheFuture(policy: Policy, s: State, events: seq<Event>, i: nat, j: nat, id: Identity)
    requires s.accepted == map[] && ClockNeverGoesBack(events)
    requires forall k :: 0 <= k < |events| ==> events[k].readings.wall == events[k].readings.clock
    requires i < j < |events| && AcceptedAs(policy, s, events, i, id) && AcceptedAs(policy, s, events, j, id)
    ensures id.nonce > events[i].readings.clock
  {
    AcceptancesAreSpaced(policy, s, events, i, j, id);
    ScreenedIsFresh(policy, events[j].request, events[j].readings.wall);
  }

  /**
   And each such nonce does let its identity in again: on one clock a request just accepted can be
   accepted once more, later, if and only if its nonce lay ahead of the clock.
   */
  lemma ReacceptanceIff(policy: Policy, s: State, event: Event)
    requires policy.limits.Valid() && forall key :: key in s.buckets ==> BucketValid(policy.limits, s.buckets[key])
    requires event.readings.wall == event.readings.clock
    requires Step(policy, s, event).0 == Accepted
    ensures (exists at: Readings :: at.wall == at.clock >= event.readings.clock
                                 && Step(policy, Step(policy, s, event).1, Event(event.request, at)).0 == Accepted)
       <==> IdentityOf(event.request).nonce > event.readings.clock
  {
    var id, clock, next := IdentityOf(event.request), event.readings.clock, Step(policy, s, event).1;
    if at: Readings :| at.wall == at.clock >= clock && Step(policy, next, Event(event.request, at)).0 == Accepted {
      ScreenedIsFresh(policy, event.request, at.wall);
      assert id !in Pruned(next.accepted, at.clock);
    }
    if id.nonce > clock {
      ScreenedIsFresh(policy, event.request, clock);
      var tick := event.readings.tick + 1.0 / policy.limits.rate;
      var later := clock + MAX_AGE + 1;
      EarnedToken(policy.limits, Lookup(s.buckets, id.hotkey), event.readings.tick, tick);
      assert Step(policy, next, Event(event.request, Readings(later, true, tick, later))).0 == Accepted;
    }
  }

  lemma EarnedToken(limits: Limits, bucket: Option<Bucket>, before: real, now: real)
    requires limits.Valid() && (bucket.Some? ==> BucketValid(limits, bucket.value))
    requires now == before + 1.0 / limits.rate
    ensures Admits(limits, Some(Charged(limits, bucket, before)), now)
  {
    ChargedIsValid(limits, bucket, before);
    assert 1.0 / limits.rate > 0.0;
    assert limits.rate * (1.0 / limits.rate) == 1.0;
    assert Scaled(limits.rate, now - before) == 1.0;
  }
}
