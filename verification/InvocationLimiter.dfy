/**
 The per-grant limiter for external invocations: a sliding one-minute window of admission
 times and a count of running calls, both purged for idle grants on every acquire.

 `log` is the history that never forgets. The clock is read before the lock is taken, so
 readings may arrive out of order; `skew` bounds by how much.
 */
module InvocationLimiter {
  import opened Common

  const MINUTE: real := 60.0

  /** The credential behind a call, with its own limits. */
  datatype Caller =
    | TokenCaller(tokenId: string, tokenRate: int, tokenConcurrency: int)
    | OAuthCaller(oauthGrant: string, oauthRate: int, oauthConcurrency: int)
    | OtherCaller

  datatype Limits = Limits(grant: string, rate: int, concurrency: int)

  datatype Outcome = Unlimited | Admitted(grant: string) | LimitsUnavailable | RateExceeded | ConcurrencyExceeded

  /** `None` for callers that are not limited at all. */
  function LimitsOf(caller: Caller): Option<Limits> {
    match caller
    case TokenCaller(id, rate, concurrency) =>
      if rate == 0 && concurrency == 0 then None else Some(Limits("api-token:" + id, rate, concurrency))
    case OAuthCaller(grant, rate, concurrency) => Some(Limits(grant, rate, concurrency))
    case OtherCaller => None
  }

  predicate Usable(l: Limits) { l.grant != "" && l.rate >= 1 && l.concurrency >= 1 }

  // ---------------------------------------------------------------------------
  // The history
  // ---------------------------------------------------------------------------

  /** One admission: its clock reading and the limits it was checked against. */
  datatype Entry = Entry(at: real, rate: int, concurrency: int)

  datatype Event = Admission(grant: string, entry: Entry) | Release(grant: string)

  /** The admissions of one grant, in the order in which the lock was held. */
  function Admissions(log: seq<Event>, g: string): seq<Entry> {
    if log == [] then []
    else
      var last := log[|log| - 1];
      Admissions(log[..|log| - 1], g) + if last.Admission? && last.grant == g then [last.entry] else []
  }

  function Outstanding(log: seq<Event>, g: string): int {
    if log == [] then 0
    else
      var last := log[|log| - 1];
      Outstanding(log[..|log| - 1], g) + if last.grant != g then 0 else if last.Admission? then 1 else -1
  }

  /** How many of these admissions happened after `bound`. */
  function CountAfter(s: seq<Entry>, bound: real): nat {
    if s == [] then 0
    else CountAfter(s[..|s| - 1], bound) + if s[|s| - 1].at > bound then 1 else 0
  }

  /** The decision by the complete history: how many calls in the last minute, how many running. */
  function Decide(log: seq<Event>, caller: Caller, now: real): Outcome {
    match LimitsOf(caller)
    case None => Unlimited
    case Some(l) => if !Usable(l) then LimitsUnavailable else DecideWithin(log, l, now)
  }

  function DecideWithin(log: seq<Event>, l: Limits, now: real): Outcome {
    if CountAfter(Admissions(log, l.grant), now - MINUTE) >= l.rate then RateExceeded
    else if Outstanding(log, l.grant) >= l.concurrency then ConcurrencyExceeded
    else Admitted(l.grant)
  }

  /**
   The decision by the complete history when readings may lag by the skew: a refusal for the rate is
   about a minute and the skew, an admission about a minute less the skew; the rest is exact.
   */
  predicate Justified(log: seq<Event>, caller: Caller, now: real, skew: real, outcome: Outcome) {
    match LimitsOf(caller)
    case None => outcome == Unlimited
    case Some(l) => if !Usable(l) then outcome == LimitsUnavailable else JustifiedWithin(log, l, now, skew, outcome)
  }

  predicate JustifiedWithin(log: seq<Event>, l: Limits, now: real, skew: real, outcome: Outcome) {
    var history, running := Admissions(log, l.grant), Outstanding(log, l.grant);
    match outcome
    case RateExceeded => CountAfter(history, now - MINUTE - skew) >= l.rate
    case ConcurrencyExceeded => CountAfter(history, now - MINUTE + skew) < l.rate && running >= l.concurrency
    case Admitted(g) =>
      g == l.grant && CountAfter(history, now - MINUTE + skew) < l.rate && running < l.concurrency
    case _ => false
  }

  /** Without lag there is one justified outcome. */
  lemma JustifiedExactly(log: seq<Event>, caller: Caller, now: real, outcome: Outcome)
    ensures Justified(log, caller, now, 0.0, outcome) <==> outcome == Decide(log, caller, now)
  {
    assert now - MINUTE - 0.0 == now - MINUTE && now - MINUTE + 0.0 == now - MINUTE;
  }

  // ---------------------------------------------------------------------------
  // Purging
  // ---------------------------------------------------------------------------

  /** Drop expired times from the front. */
  function Unexpired(window: seq<real>, now: real): seq<real> {
    if window != [] && window[0] <= now - MINUTE then Unexpired(window[1..], now) else window
  }

  lemma {:induction false} UnexpiredIsSuffix(window: seq<real>, now: real)
    ensures |Unexpired(window, now)| <= |window|
    ensures var k := |window| - |Unexpired(window, now)|;
            Unexpired(window, now) == window[k..] && forall i :: 0 <= i < k ==> window[i] <= now - MINUTE
    ensures Unexpired(window, now) != [] ==> Unexpired(window, now)[0] > now - MINUTE
  {
    if window != [] && window[0] <= now - MINUTE {
      UnexpiredIsSuffix(window[1..], now);
    }
  }

  function RunningIn(active: map<string, int>, g: string): int {
    if g in active then active[g] else 0
  }

  predicate Idle(windows: map<string, seq<real>>, active: map<string, int>, now: real, g: string)
    requires g in windows
  {
    Unexpired(windows[g], now) == [] && RunningIn(active, g) == 0
  }

  datatype Tables = Tables(windows: map<string, seq<real>>, active: map<string, int>)

  predicate SameAt(a: Tables, b: Tables, g: string) {
    && (g in a.windows <==> g in b.windows) && (g in a.windows ==> a.windows[g] == b.windows[g])
    && (g in a.active <==> g in b.active) && (g in a.active ==> a.active[g] == b.active[g])
  }

  /** What a purge does to one grant. */
  predicate PurgedAt(before: Tables, after: Tables, now: real, g: string) {
    if g !in before.windows then SameAt(before, after, g)
    else if Idle(before.windows, before.active, now, g) then g !in after.windows && g !in after.active
    else SameAt(Tables(before.windows[g := Unexpired(before.windows[g], now)], before.active), after, g)
  }

  method PopExpired(window: seq<real>, now: real) returns (rest: seq<real>)
    ensures rest == Unexpired(window, now)
  {
    rest := window;
    while rest != [] && rest[0] <= now - MINUTE
      invariant Unexpired(rest, now) == Unexpired(window, now)
    {
      rest := rest[1..];
    }
  }

  function TimesOf(s: seq<Entry>): (times: seq<real>)
    ensures |times| == |s| && forall i :: 0 <= i < |s| ==> times[i] == s[i].at
  {
    seq(|s|, i requires 0 <= i < |s| => s[i].at)
  }

  /** A window holds the latest admissions; what it no longer holds lies a minute back. */
  ghost predicate Tracks(window: seq<real>, history: seq<Entry>, clock: real) {
    && |window| <= |history|
    && var k := |history| - |window|;
       && window == TimesOf(history)[k..]
       && (forall i :: 0 <= i < k ==> history[i].at <= clock - MINUTE)
  }

  lemma UnexpiredTracks(window: seq<real>, history: seq<Entry>, clock: real, now: real, later: real)
    requires Tracks(window, history, clock) && clock <= later && now <= later
    ensures Tracks(Unexpired(window, now), history, later)
  {
    UnexpiredIsSuffix(window, now);
    var rest := Unexpired(window, now);
    var k, m := |history| - |window|, |history| - |rest|;
    assert rest == TimesOf(history)[m..];
    forall i | k <= i < m
      ensures history[i].at <= later - MINUTE
    {
      assert window[i - k] == TimesOf(history)[i];
    }
  }

  lemma {:induction false} CountConcat(s: seq<Entry>, t: seq<Entry>, bound: real)
    ensures CountAfter(s + t, bound) == CountAfter(s, bound) + CountAfter(t, bound)
    decreases |t|
  {
    if t == [] {
      assert s + t == s;
    } else {
      assert (s + t)[..|s + t| - 1] == s + t[..|t| - 1];
      CountConcat(s, t[..|t| - 1], bound);
    }
  }

  /** Every recent admission is still in a tracked window. */
  lemma TrackedCount(window: seq<real>, history: seq<Entry>, clock: real, bound: real)
    requires Tracks(window, history, clock) && bound >= clock - MINUTE
    ensures CountAfter(history, bound) <= |window|
    ensures (forall i :: 0 <= i < |window| ==> window[i] > bound) ==> CountAfter(history, bound) == |window|
  {
    var k := |history| - |window|;
    var lost, kept := history[..k], history[k..];
    assert history == lost + kept;
    CountConcat(lost, kept, bound);
    CountNone(lost, bound);
    TimesSuffix(history, k);
    CountKept(window, kept, bound);
  }

  lemma TimesSuffix(s: seq<Entry>, k: nat)
    requires k <= |s|
    ensures TimesOf(s[k..]) == TimesOf(s)[k..]
  {
  }

  lemma CountNone(s: seq<Entry>, bound: real)
    requires forall i :: 0 <= i < |s| ==> s[i].at <= bound
    ensures CountAfter(s, bound) == 0
  {
  }

  lemma CountKept(window: seq<real>, s: seq<Entry>, bound: real)
    requires window == TimesOf(s)
    ensures CountAfter(s, bound) <= |window|
    ensures (forall i :: 0 <= i < |window| ==> window[i] > bound) ==> CountAfter(s, bound) == |window|
  {
    if s != [] {
      CountKept(window[..|window| - 1], s[..|s| - 1], bound);
    }
  }

  // ---------------------------------------------------------------------------
  // The limiter
  // ---------------------------------------------------------------------------

  /** No reading in the window lags behind an earlier one by more than the skew, or is ahead of the clock. */
  predicate Steady(window: seq<real>, clock: real, skew: real) {
    && (forall i, j :: 0 <= i < j < |window| ==> window[i] - skew <= window[j])
    && (forall i :: 0 <= i < |window| ==> window[i] <= clock)
  }

  function AdmissionOf(l: Limits, now: real): Event { Admission(l.grant, Entry(now, l.rate, l.concurrency)) }

  /** Each admission came when fewer than its rate had been admitted in the last minute less the skew. */
  ghost predicate RateKept(s: seq<Entry>, skew: real) {
    forall i :: 0 <= i < |s| ==> RateKeptAt(s, i, skew)
  }

  ghost predicate RateKeptAt(s: seq<Entry>, i: nat, skew: real)
    requires i < |s|
  {
    CountAfter(s[..i + 1], s[i].at - MINUTE + skew) <= s[i].rate
  }

  /** Each admission came when fewer than its concurrency were running. */
  ghost predicate ConcurrencyKept(log: seq<Event>) {
    forall i :: 0 <= i < |log| ==> ConcurrencyKeptAt(log, i)
  }

  ghost predicate ConcurrencyKeptAt(log: seq<Event>, i: nat)
    requires i < |log|
  {
    log[i].Admission? ==> Outstanding(log[..i + 1], log[i].grant) <= log[i].entry.concurrency
  }

  /** What a tracked window holds, the history holds at least. */
  lemma CountAtLeast(window: seq<real>, history: seq<Entry>, clock: real, bound: real)
    requires Tracks(window, history, clock) && forall i :: 0 <= i < |window| ==> window[i] > bound
    ensures CountAfter(history, bound) >= |window|
  {
    var k := |history| - |window|;
    var lost, kept := history[..k], history[k..];
    assert history == lost + kept;
    CountConcat(lost, kept, bound);
    TimesSuffix(history, k);
    CountKept(window, kept, bound);
  }

  /** The window after a purge lies between the admissions of a minute less the skew and of a minute and the skew. */
  lemma WindowCounts(window: seq<real>, history: seq<Entry>, clock: real, now: real, skew: real)
    requires Tracks(window, history, clock) && skew >= 0.0 && clock - skew <= now <= clock
    requires Steady(window, clock, skew) && (window != [] ==> window[0] > now - MINUTE)
    ensures CountAfter(history, now - MINUTE + skew) <= |window| <= CountAfter(history, now - MINUTE - skew)
  {
    TrackedCount(window, history, clock, now - MINUTE + skew);
    CountAtLeast(window, history, clock, now - MINUTE - skew);
  }

  lemma TracksGrows(window: seq<real>, history: seq<Entry>, clock: real, e: Entry)
    requires Tracks(window, history, clock)
    ensures Tracks(window + [e.at], history + [e], clock)
  {
  }

  lemma RateGrows(history: seq<Entry>, skew: real, e: Entry)
    requires RateKept(history, skew)
    requires CountAfter(history, e.at - MINUTE + skew) < e.rate
    ensures RateKept(history + [e], skew)
  {
    var longer := history + [e];
    assert longer[..|history|] == history;
    forall i | 0 <= i < |longer|
      ensures RateKeptAt(longer, i, skew)
    {
      if i < |history| {
        assert RateKeptAt(history, i, skew);
        assert longer[..i + 1] == history[..i + 1];
      } else {
        assert longer[..i + 1] == longer;
      }
    }
  }

  lemma ConcurrencyGrows(log: seq<Event>, e: Event)
    requires ConcurrencyKept(log)
    requires e.Admission? ==> Outstanding(log, e.grant) < e.entry.concurrency
    ensures ConcurrencyKept(log + [e])
  {
    var longer := log + [e];
    assert longer[..|log|] == log;
    forall i | 0 <= i < |longer|
      ensures ConcurrencyKeptAt(longer, i)
    {
      if i < |log| {
        assert ConcurrencyKeptAt(log, i);
        assert longer[..i + 1] == log[..i + 1];
      } else {
        assert longer[..i + 1] == longer;
      }
    }
  }

  function WindowIn(t: Tables, g: string): seq<real> {
    if g in t.windows then t.windows[g] else []
  }

  /** The tables hold, for one grant, what the history says. */
  ghost predicate Consistent(t: Tables, log: seq<Event>, clock: real, skew: real, g: string) {
    && Healthy(WindowIn(t, g), Admissions(log, g), clock, skew)
    && RunningIn(t.active, g) == Outstanding(log, g)
    && (g in t.active ==> g in t.windows)
  }

  ghost predicate AllConsistent(t: Tables, log: seq<Event>, clock: real, skew: real) {
    forall g: string :: Consistent(t, log, clock, skew, g)
  }

  ghost predicate Healthy(window: seq<real>, history: seq<Entry>, clock: real, skew: real) {
    && Tracks(window, history, clock)
    && RateKept(history, skew)
    && Steady(window, clock, skew)
  }

  lemma HealthyPurged(window: seq<real>, history: seq<Entry>, clock: real, skew: real, now: real, later: real)
    requires Healthy(window, history, clock, skew) && clock <= later && now <= later
    ensures Healthy(Unexpired(window, now), history, later, skew)
  {
    UnexpiredTracks(window, history, clock, now, later);
    UnexpiredIsSuffix(window, now);
  }

  lemma HealthyGrows(window: seq<real>, history: seq<Entry>, clock: real, skew: real, e: Entry)
    requires Healthy(window, history, clock, skew) && skew >= 0.0 && clock - skew <= e.at <= clock
    requires CountAfter(history, e.at - MINUTE + skew) < e.rate
    ensures Healthy(window + [e.at], history + [e], clock, skew)
  {
    TracksGrows(window, history, clock, e);
    RateGrows(history, skew, e);
  }

  lemma PurgeConsistent(t: Tables, u: Tables, log: seq<Event>, clock: real, skew: real, now: real, later: real,
                        g: string)
    requires Consistent(t, log, clock, skew, g) && PurgedAt(t, u, now, g)
    requires clock <= later && now <= later
    ensures Consistent(u, log, later, skew, g)
    ensures WindowIn(u, g) == Unexpired(WindowIn(t, g), now)
    ensures RunningIn(u.active, g) == RunningIn(t.active, g)
  {
    HealthyPurged(WindowIn(t, g), Admissions(log, g), clock, skew, now, later);
  }

  function Booked(t: Tables, l: Limits, now: real): Tables {
    Tables(t.windows[l.grant := WindowIn(t, l.grant) + [now]], t.active[l.grant := RunningIn(t.active, l.grant) + 1])
  }

  lemma BookedTables(t: Tables, l: Limits, now: real, g: string)
    ensures var u := Booked(t, l, now);
      if g == l.grant
      then WindowIn(u, g) == WindowIn(t, g) + [now] && RunningIn(u.active, g) == RunningIn(t.active, g) + 1
        && g in u.windows
      else SameAt(t, u, g)
  {
  }

  lemma BookedConsistent(t: Tables, log: seq<Event>, clock: real, skew: real, l: Limits, now: real, g: string)
    requires Consistent(t, log, clock, skew, g) && skew >= 0.0 && clock - skew <= now <= clock
    requires g == l.grant ==> CountAfter(Admissions(log, g), now - MINUTE + skew) < l.rate
    ensures Consistent(Booked(t, l, now), log + [AdmissionOf(l, now)], clock, skew, g)
  {
    var e := AdmissionOf(l, now);
    BookedTables(t, l, now, g);
    LogGrows(log, e, g);
    if g == l.grant {
      GrownConsistent(t, Booked(t, l, now), log, log + [e], clock, skew, g, e.entry);
    } else {
      SameConsistent(t, Booked(t, l, now), log, log + [e], clock, skew, g);
    }
  }

  lemma GrownConsistent(t: Tables, u: Tables, log: seq<Event>, longer: seq<Event>, clock: real, skew: real, g: string,
                        e: Entry)
    requires Consistent(t, log, clock, skew, g) && skew >= 0.0 && clock - skew <= e.at <= clock
    requires CountAfter(Admissions(log, g), e.at - MINUTE + skew) < e.rate
    requires WindowIn(u, g) == WindowIn(t, g) + [e.at] && g in u.windows
    requires RunningIn(u.active, g) == RunningIn(t.active, g) + 1 && Outstanding(longer, g) == Outstanding(log, g) + 1
    requires Admissions(longer, g) == Admissions(log, g) + [e]
    ensures Consistent(u, longer, clock, skew, g)
  {
    HealthyGrows(WindowIn(t, g), Admissions(log, g), clock, skew, e);
  }

  lemma SameConsistent(t: Tables, u: Tables, log: seq<Event>, longer: seq<Event>, clock: real, skew: real, g: string)
    requires Consistent(t, log, clock, skew, g) && SameAt(t, u, g)
    requires Admissions(longer, g) == Admissions(log, g) && Outstanding(longer, g) == Outstanding(log, g)
    ensures Consistent(u, longer, clock, skew, g)
  {
    assert WindowIn(u, g) == WindowIn(t, g);
  }

  lemma LogGrows(log: seq<Event>, e: Event, g: string)
    ensures e.Admission? && e.grant == g ==> Admissions(log + [e], g) == Admissions(log, g) + [e.entry]
    ensures e.Release? || e.grant != g ==> Admissions(log + [e], g) == Admissions(log, g)
    ensures Outstanding(log + [e], g) == Outstanding(log, g) + if e.grant != g then 0 else if e.Admission? then 1
      else -1
  {
  }

  lemma ReleasedConsistent(t: Tables, log: seq<Event>, clock: real, skew: real, released: string, g: string)
    requires Consistent(t, log, clock, skew, g) && released in t.active
    ensures Consistent(t.(active := t.active[released := t.active[released] - 1]), log + [Release(released)], clock,
      skew, g)
  {
    LogGrows(log, Release(released), g);
  }

  lemma PurgeAll(t: Tables, u: Tables, log: seq<Event>, clock: real, skew: real, now: real, later: real)
    requires AllConsistent(t, log, clock, skew) && clock <= later && now <= later
    requires forall g: string :: PurgedAt(t, u, now, g)
    ensures AllConsistent(u, log, later, skew)
    ensures forall g: string :: WindowIn(u, g) == Unexpired(WindowIn(t, g), now)
    ensures forall g: string :: RunningIn(u.active, g) == RunningIn(t.active, g)
  {
    forall g: string
      ensures Consistent(u, log, later, skew, g)
      ensures WindowIn(u, g) == Unexpired(WindowIn(t, g), now)
      ensures RunningIn(u.active, g) == RunningIn(t.active, g)
    {
      PurgeConsistent(t, u, log, clock, skew, now, later, g);
    }
  }

  lemma EnsureAll(t: Tables, log: seq<Event>, clock: real, skew: real, g: string)
    requires AllConsistent(t, log, clock, skew) && g !in t.windows
    ensures AllConsistent(t.(windows := t.windows[g := []]), log, clock, skew)
    ensures forall h: string :: WindowIn(t.(windows := t.windows[g := []]), h) == WindowIn(t, h)
  {
    var u := t.(windows := t.windows[g := []]);
    forall h: string ensures Consistent(u, log, clock, skew, h) {
      assert Consistent(t, log, clock, skew, h) && WindowIn(u, h) == WindowIn(t, h);
    }
  }

  lemma BookAll(t: Tables, log: seq<Event>, clock: real, skew: real, l: Limits, now: real)
    requires AllConsistent(t, log, clock, skew) && skew >= 0.0 && clock - skew <= now <= clock
    requires CountAfter(Admissions(log, l.grant), now - MINUTE + skew) < l.rate
    ensures AllConsistent(Booked(t, l, now), log + [AdmissionOf(l, now)], clock, skew)
  {
    forall g: string ensures Consistent(Booked(t, l, now), log + [AdmissionOf(l, now)], clock, skew, g) {
      BookedConsistent(t, log, clock, skew, l, now, g);
    }
  }

  lemma ReleaseAll(t: Tables, log: seq<Event>, clock: real, skew: real, released: string)
    requires AllConsistent(t, log, clock, skew) && released in t.active
    ensures AllConsistent(t.(active := t.active[released := t.active[released] - 1]), log + [Release(released)],
      clock, skew)
  {
    var u, longer := t.(active := t.active[released := t.active[released] - 1]), log + [Release(released)];
    forall g: string ensures Consistent(u, longer, clock, skew, g) {
      ReleasedConsistent(t, log, clock, skew, released, g);
    }
  }

  lemma ConsistentAt(t: Tables, log: seq<Event>, clock: real, skew: real, g: string)
    requires AllConsistent(t, log, clock, skew)
    ensures Tracks(WindowIn(t, g), Admissions(log, g), clock)
    ensures Steady(WindowIn(t, g), clock, skew)
    ensures RateKept(Admissions(log, g), skew)
    ensures RunningIn(t.active, g) == Outstanding(log, g)
  {
    assert Consistent(t, log, clock, skew, g);
  }

  /** The decision by the tables alone. */
  function TableDecision(t: Tables, l: Limits, now: real): Outcome {
    if |Unexpired(WindowIn(t, l.grant), now)| >= l.rate then RateExceeded
    else if RunningIn(t.active, l.grant) >= l.concurrency then ConcurrencyExceeded
    else Admitted(l.grant)
  }

  /** The decision on purged tables. */
  function PurgedDecision(t: Tables, l: Limits): Outcome {
    if |WindowIn(t, l.grant)| >= l.rate then RateExceeded
    else if RunningIn(t.active, l.grant) >= l.concurrency then ConcurrencyExceeded
    else Admitted(l.grant)
  }

  /** The decision on purged tables is one that the complete history justifies. */
  lemma PurgedIsJustified(t: Tables, log: seq<Event>, clock: real, skew: real, l: Limits, now: real)
    requires AllConsistent(t, log, clock, skew) && skew >= 0.0 && clock - skew <= now <= clock
    requires WindowIn(t, l.grant) != [] ==> WindowIn(t, l.grant)[0] > now - MINUTE
    ensures JustifiedWithin(log, l, now, skew, PurgedDecision(t, l))
  {
    ConsistentAt(t, log, clock, skew, l.grant);
    WindowCounts(WindowIn(t, l.grant), Admissions(log, l.grant), clock, now, skew);
  }

  /** What one decision does to one grant: expired readings leave, and an admission is added. */
  predicate AcquiredAt(t: Tables, u: Tables, now: real, outcome: Outcome, g: string) {
    && WindowIn(u, g) == Unexpired(WindowIn(t, g), now) + (if outcome == Admitted(g) then [now] else [])
    && RunningIn(u.active, g) == RunningIn(t.active, g) + if outcome == Admitted(g) then 1 else 0
  }

  /** Only expired readings differ. */
  ghost predicate Expires(t: Tables, mid: Tables, now: real) {
    && (forall g: string :: WindowIn(mid, g) == Unexpired(WindowIn(t, g), now))
    && (forall g: string :: RunningIn(mid.active, g) == RunningIn(t.active, g))
  }

  ghost predicate Acquired(t: Tables, u: Tables, now: real, outcome: Outcome) {
    forall g: string :: AcquiredAt(t, u, now, outcome, g)
  }

  lemma ExpiredFront(t: Tables, mid: Tables, now: real, g: string)
    requires Expires(t, mid, now)
    ensures WindowIn(mid, g) != [] ==> WindowIn(mid, g)[0] > now - MINUTE
  {
    UnexpiredIsSuffix(WindowIn(t, g), now);
  }

  lemma AcquiredAll(t: Tables, mid: Tables, u: Tables, l: Limits, now: real, outcome: Outcome)
    requires Expires(t, mid, now) && outcome == PurgedDecision(mid, l)
    requires u == if outcome.Admitted? then Booked(mid, l, now) else mid
    ensures Acquired(t, u, now, outcome) && outcome == TableDecision(t, l, now)
  {
    assert RunningIn(mid.active, l.grant) == RunningIn(t.active, l.grant);
    forall g: string ensures AcquiredAt(t, u, now, outcome, g) {
      BookedTables(mid, l, now, g);
      assert WindowIn(mid, g) + [] == WindowIn(mid, g);
    }
  }

  class Limiter {
    var windows: map<string, seq<real>>
    var active: map<string, int>
    ghost var log: seq<Event>
    ghost var clock: real
    ghost const skew: real

    function State(): Tables reads this { Tables(windows, active) }

    ghost predicate Valid()
      reads this
    {
      && skew >= 0.0
      && AllConsistent(State(), log, clock, skew)
      && ConcurrencyKept(log)
    }

    constructor (ghost skew: real, ghost clock: real)
      requires skew >= 0.0
      ensures Valid() && log == [] && this.skew == skew && this.clock == clock
      ensures State() == Tables(map[], map[])
    {
      windows, active := map[], map[];
      this.log, this.clock, this.skew := [], clock, skew;
    }

    /** Expired times leave every window, idle grants leave both tables. */
    method Purge(now: real)
      modifies this`windows, this`active
      ensures forall g: string :: PurgedAt(old(State()), State(), now, g)
    {
      var pending := windows.Keys;
      while pending != {}
        invariant pending <= old(windows).Keys
        invariant forall g: string :: g in pending ==> SameAt(old(State()), State(), g)
        invariant forall g: string :: g !in pending ==> PurgedAt(old(State()), State(), now, g)
        decreases pending
      {
        var key :| key in pending;
        pending := pending - {key};
        ghost var before := State();
        var window := PopExpired(windows[key], now);
        if window == [] && RunningIn(active, key) == 0 {
          windows := windows - {key};
          active := active - {key};
        } else {
          windows := windows[key := window];
        }
        assert forall g: string :: g != key ==> SameAt(before, State(), g);
      }
    }

    /** A purge loses nothing the history needs, as long as the clock lags by at most the skew. */
    method PurgeAt(now: real)
      requires Valid() && now >= clock - skew
      modifies this`windows, this`active, this`clock
      ensures Valid()
      ensures clock == if now > old(clock) then now else old(clock)
      ensures forall g: string :: WindowIn(State(), g) == Unexpired(WindowIn(old(State()), g), now)
      ensures forall g: string :: RunningIn(active, g) == RunningIn(old(active), g)
    {
      Purge(now);
      ghost var after := State();
      clock := if now > clock then now else clock;
      PurgeAll(old(State()), after, log, old(clock), skew, now, clock);
    }

    /** `setdefault`: an absent window and an empty one are the same to the limiter. */
    method EnsureWindow(g: string)
      requires Valid()
      modifies this`windows
      ensures Valid() && g in windows
      ensures forall h: string :: WindowIn(State(), h) == WindowIn(old(State()), h)
    {
      if g !in windows {
        EnsureAll(State(), log, clock, skew, g);
        windows := windows[g := []];
      }
    }

    method Acquire(caller: Caller, now: real) returns (outcome: Outcome)
      requires Valid() && now >= clock - skew
      modifies this
      ensures Valid()
      ensures clock == old(clock) || clock == now
      ensures clock >= old(clock)
      ensures Justified(old(log), caller, now, skew, outcome)
      ensures log == if outcome.Admitted? then old(log) + [AdmissionOf(LimitsOf(caller).value, now)] else old(log)
      ensures if LimitsOf(caller).Some? && Usable(LimitsOf(caller).value)
        then
          && outcome == TableDecision(old(State()), LimitsOf(caller).value, now)
          && Acquired(old(State()), State(), now, outcome)
        else State() == old(State())
    {
      if LimitsOf(caller).None? {
        return Unlimited;
      }
      if !Usable(LimitsOf(caller).value) {
        return LimitsUnavailable;
      }
      outcome := AcquireWithin(LimitsOf(caller).value, now);
    }

    /** The part under the lock: purge, then the two checks. */
    method AcquireWithin(limits: Limits, now: real) returns (outcome: Outcome)
      requires Valid() && now >= clock - skew && Usable(limits)
      modifies this
      ensures Valid() && clock >= old(clock) && (clock == old(clock) || clock == now)
      ensures JustifiedWithin(old(log), limits, now, skew, outcome)
      ensures log == if outcome.Admitted? then old(log) + [AdmissionOf(limits, now)] else old(log)
      ensures outcome == TableDecision(old(State()), limits, now)
      ensures Acquired(old(State()), State(), now, outcome)
    {
      PrepareWindow(limits.grant, now);
      ghost var mid := State();
      outcome := Admit(limits, now);
      AcquiredAll(old(State()), mid, State(), limits, now, outcome);
    }

    /** Purge, and make sure that the grant has a window. */
    method PrepareWindow(g: string, now: real)
      requires Valid() && now >= clock - skew
      modifies this`windows, this`active, this`clock
      ensures Valid() && g in windows && Expires(old(State()), State(), now)
      ensures clock == if now > old(clock) then now else old(clock)
      ensures windows[g] != [] ==> windows[g][0] > now - MINUTE
    {
      PurgeAt(now);
      EnsureWindow(g);
      assert Expires(old(State()), State(), now);
      ExpiredFront(old(State()), State(), now, g);
    }

    /** The two checks on a purged window. */
    method Admit(limits: Limits, now: real) returns (outcome: Outcome)
      requires Valid() && limits.grant in windows && clock - skew <= now <= clock
      requires windows[limits.grant] != [] ==> windows[limits.grant][0] > now - MINUTE
      modifies this`windows, this`active, this`log
      ensures Valid()
      ensures outcome == PurgedDecision(old(State()), limits)
      ensures log == if outcome.Admitted? then old(log) + [AdmissionOf(limits, now)] else old(log)
      ensures State() == if outcome.Admitted? then Booked(old(State()), limits, now) else old(State())
      ensures JustifiedWithin(old(log), limits, now, skew, outcome)
    {
      var g := limits.grant;
      PurgedIsJustified(State(), log, clock, skew, limits, now);
      if |windows[g]| >= limits.rate {
        return RateExceeded;
      }
      if RunningIn(active, g) >= limits.concurrency {
        return ConcurrencyExceeded;
      }
      Book(limits, now);
      return Admitted(g);
    }

    /** Record one admission in the window, the running count and the history. */
    method Book(limits: Limits, now: real)
      requires Valid() && limits.grant in windows && clock - skew <= now <= clock
      requires CountAfter(Admissions(log, limits.grant), now - MINUTE + skew) < limits.rate
      requires Outstanding(log, limits.grant) < limits.concurrency
      modifies this`windows, this`active, this`log
      ensures Valid()
      ensures log == old(log) + [AdmissionOf(limits, now)]
      ensures State() == Booked(old(State()), limits, now)
    {
      var g := limits.grant;
      ConcurrencyGrows(log, AdmissionOf(limits, now));
      BookAll(State(), log, clock, skew, limits, now);
      windows := windows[g := windows[g] + [now]];
      active := active[g := RunningIn(active, g) + 1];
      log := log + [AdmissionOf(limits, now)];
    }

    /** Give a lease back. A held lease always finds its counter. */
    method Release(g: string)
      requires Valid() && Outstanding(log, g) > 0
      modifies this
      ensures Valid() && clock == old(clock)
      ensures log == old(log) + [Event.Release(g)]
    {
      ConsistentAt(State(), log, clock, skew, g);
      ConcurrencyGrows(log, Event.Release(g));
      ReleaseAll(State(), log, clock, skew, g);
      active := active[g := active[g] - 1];
      log := log + [Event.Release(g)];
    }
  }

  // ---------------------------------------------------------------------------
  // Every interleaving
  // ---------------------------------------------------------------------------

  /** In lock order: a call is checked, or a finished call gives its lease back. */
  datatype Op = Call(caller: Caller, now: real) | Return(grant: string)

  /** No reading lags behind an earlier one by more than the skew. */
  ghost predicate Lagging(ops: seq<Op>, skew: real) {
    forall i, j :: 0 <= i < j < |ops| && ops[i].Call? && ops[j].Call? ==> ops[i].now - skew <= ops[j].now
  }

  /** The history after one operation; a lease that is not held cannot be given back. */
  function Extended(log: seq<Event>, op: Op, outcome: Outcome): seq<Event> {
    match op
    case Call(caller, now) =>
      if outcome.Admitted? && LimitsOf(caller).Some? then log + [AdmissionOf(LimitsOf(caller).value, now)] else log
    case Return(grant) => if Outstanding(log, grant) > 0 then log + [Release(grant)] else log
  }

  function LogOf(ops: seq<Op>, outcomes: seq<Outcome>): seq<Event>
    requires |ops| == |outcomes|
  {
    if ops == [] then []
    else
      var n := |ops| - 1;
      Extended(LogOf(ops[..n], outcomes[..n]), ops[n], outcomes[n])
  }

  /** What the complete history answers; giving a lease back has no answer of its own. */
  function Answer(log: seq<Event>, op: Op): Outcome {
    match op case Call(caller, now) => Decide(log, caller, now) case Return(_) => Unlimited
  }

  /** An answer that the complete history justifies when readings may lag by the skew. */
  predicate Justifies(log: seq<Event>, op: Op, skew: real, outcome: Outcome) {
    match op
    case Call(caller, now) => Justified(log, caller, now, skew, outcome)
    case Return(_) => outcome == Unlimited
  }

  method Play(limiter: Limiter, op: Op) returns (outcome: Outcome)
    requires limiter.Valid() && (op.Call? ==> op.now >= limiter.clock - limiter.skew)
    modifies limiter
    ensures limiter.Valid()
    ensures limiter.log == Extended(old(limiter.log), op, outcome)
    ensures limiter.clock == old(limiter.clock) || (op.Call? && limiter.clock == op.now)
    ensures Justifies(old(limiter.log), op, limiter.skew, outcome)
  {
    outcome := Unlimited;
    match op
    case Call(caller, now) => outcome := limiter.Acquire(caller, now);
    case Return(grant) =>
      ConsistentAt(limiter.State(), limiter.log, limiter.clock, limiter.skew, grant);
      if RunningIn(limiter.active, grant) > 0 {
        limiter.Release(grant);
      }
  }

  /** The answer to operation `i`, against the history of the operations before it. */
  ghost predicate AnsweredAt(ops: seq<Op>, outcomes: seq<Outcome>, i: nat, skew: real)
    requires i < |ops| == |outcomes|
  {
    var log := LogOf(ops[..i], outcomes[..i]);
    Justifies(log, ops[i], skew, outcomes[i]) && (skew == 0.0 ==> outcomes[i] == Answer(log, ops[i]))
  }

  lemma AnswerIs(log: seq<Event>, op: Op, skew: real, outcome: Outcome)
    requires Justifies(log, op, skew, outcome) && skew == 0.0
    ensures outcome == Answer(log, op)
  {
    if op.Call? {
      JustifiedExactly(log, op.caller, op.now, outcome);
    }
  }

  lemma AnsweredMore(ops: seq<Op>, outcomes: seq<Outcome>, op: Op, outcome: Outcome, skew: real)
    requires |ops| == |outcomes| && forall i :: 0 <= i < |ops| ==> AnsweredAt(ops, outcomes, i, skew)
    requires Justifies(LogOf(ops, outcomes), op, skew, outcome)
    ensures forall i :: 0 <= i < |ops| + 1 ==> AnsweredAt(ops + [op], outcomes + [outcome], i, skew)
  {
    var longer, more := ops + [op], outcomes + [outcome];
    forall i | 0 <= i < |longer| ensures AnsweredAt(longer, more, i, skew) {
      if i < |ops| {
        assert AnsweredAt(ops, outcomes, i, skew);
        assert longer[..i] == ops[..i] && more[..i] == outcomes[..i];
      } else {
        assert longer[..i] == ops && more[..i] == outcomes;
        if skew == 0.0 {
          AnswerIs(LogOf(ops, outcomes), op, skew, outcome);
        }
      }
    }
  }

  /** What a whole run promises. */
  ghost predicate Served(ops: seq<Op>, outcomes: seq<Outcome>, skew: real) {
    && |outcomes| == |ops|
    && (forall i :: 0 <= i < |ops| ==> AnsweredAt(ops, outcomes, i, skew))
    && (forall g: string :: RateKept(Admissions(LogOf(ops, outcomes), g), skew))
    && ConcurrencyKept(LogOf(ops, outcomes))
  }

  /**
   A whole run. With readings in lock order the limiter answers exactly as the history that never
   forgets; with late readings every answer is still justified by it up to the skew, and every
   admission respects its limits up to the skew.
   */
  method Serve(ops: seq<Op>, ghost skew: real) returns (outcomes: seq<Outcome>)
    requires skew >= 0.0 && Lagging(ops, skew)
    ensures |outcomes| == |ops| && Served(ops, outcomes, skew)
  {
    var limiter := new Limiter(skew, if exists i :: 0 <= i < |ops| && ops[i].Call? then EarliestCall(ops) else 0.0);
    outcomes := [];
    for i := 0 to |ops|
      invariant |outcomes| == i
      invariant limiter.Valid() && fresh(limiter) && limiter.skew == skew
      invariant limiter.log == LogOf(ops[..i], outcomes)
      invariant forall j :: i <= j < |ops| && ops[j].Call? ==> limiter.clock - skew <= ops[j].now
      invariant forall j :: 0 <= j < i ==> AnsweredAt(ops[..i], outcomes, j, skew)
    {
      var outcome := Play(limiter, ops[i]);
      AnsweredMore(ops[..i], outcomes, ops[i], outcome, skew);
      assert ops[..i + 1] == ops[..i] + [ops[i]];
      assert ops[..i + 1][..i] == ops[..i] && (outcomes + [outcome])[..i] == outcomes;
      outcomes := outcomes + [outcome];
    }
    assert ops[..|ops|] == ops;
    forall g: string
      ensures RateKept(Admissions(LogOf(ops, outcomes), g), skew)
    {
      ConsistentAt(limiter.State(), limiter.log, limiter.clock, limiter.skew, g);
    }
  }

  /** A reading that no call of the run lags behind. */
  ghost function EarliestCall(ops: seq<Op>): (first: real)
    requires exists i :: 0 <= i < |ops| && ops[i].Call?
    ensures forall i :: 0 <= i < |ops| && ops[i].Call? ==> first <= ops[i].now
  {
    var last := ops[|ops| - 1];
    var init := ops[..|ops| - 1];
    if exists i :: 0 <= i < |init| && init[i].Call? then
      var earlier := EarliestCall(init);
      if last.Call? && last.now < earlier then last.now else earlier
    else last.now
  }

  predicate InSpan(t: real, lo: real, hi: real, closedLow: bool) {
    if closedLow then lo <= t < hi else lo < t <= hi
  }

  function CountInSpan(s: seq<Entry>, lo: real, hi: real, closedLow: bool): nat {
    if s == [] then 0
    else CountInSpan(s[..|s| - 1], lo, hi, closedLow) + if InSpan(s[|s| - 1].at, lo, hi, closedLow) then 1 else 0
  }

  /** However a half-open minute (less the skew) is laid over the run, it holds at most `rate` admissions. */
  lemma {:induction false} AdmissionsPerMinute(s: seq<Entry>, skew: real, rate: nat, lo: real, hi: real,
                                               closedLow: bool)
    requires RateKept(s, skew) && hi - lo <= MINUTE - skew
    requires forall e :: e in s ==> e.rate <= rate
    ensures CountInSpan(s, lo, hi, closedLow) <= rate
    decreases |s|
  {
    if s != [] {
      var n := |s| - 1;
      if InSpan(s[n].at, lo, hi, closedLow) {
        assert RateKeptAt(s, n, skew);
        assert s[..n + 1] == s;
        SpanWithin(s, lo, hi, closedLow, s[n].at - MINUTE + skew);
        assert s[n] in s;
      } else {
        RateKeptPrefix(s, skew);
        AdmissionsPerMinute(s[..n], skew, rate, lo, hi, closedLow);
      }
    }
  }

  lemma RateKeptPrefix(s: seq<Entry>, skew: real)
    requires s != [] && RateKept(s, skew)
    ensures RateKept(s[..|s| - 1], skew)
  {
    var init := s[..|s| - 1];
    forall i | 0 <= i < |init|
      ensures RateKeptAt(init, i, skew)
    {
      assert RateKeptAt(s, i, skew);
      assert init[..i + 1] == s[..i + 1];
    }
  }

  lemma {:induction s} SpanWithin(s: seq<Entry>, lo: real, hi: real, closedLow: bool, bound: real)
    requires forall t: real {:trigger InSpan(t, lo, hi, closedLow)} :: InSpan(t, lo, hi, closedLow) ==> t > bound
    ensures CountInSpan(s, lo, hi, closedLow) <= CountAfter(s, bound)
  {
  }

  /** At no point of the run are more calls running than the grant allows. */
  lemma {:induction false} NeverTooManyRunning(log: seq<Event>, g: string, concurrency: nat, n: nat)
    requires ConcurrencyKept(log) && n <= |log|
    requires forall e :: e in log && e.Admission? && e.grant == g ==> e.entry.concurrency <= concurrency
    ensures Outstanding(log[..n], g) <= concurrency
  {
    if n > 0 {
      NeverTooManyRunning(log, g, concurrency, n - 1);
      assert log[..n][..n - 1] == log[..n - 1];
      assert ConcurrencyKeptAt(log, n - 1);
    }
  }

  // ---------------------------------------------------------------------------
  // The run told by its calls and answers alone
  // ---------------------------------------------------------------------------

  /** The name under which a caller is counted. */
  function NameOf(caller: Caller): string {
    match caller
    case TokenCaller(id, _, _) => "api-token:" + id
    case OAuthCaller(grant, _, _) => grant
    case OtherCaller => ""
  }

  function RateOf(caller: Caller): int {
    match caller case TokenCaller(_, rate, _) => rate case OAuthCaller(_, rate, _) => rate case OtherCaller => 0
  }

  function ConcurrencyOf(caller: Caller): int {
    match caller case TokenCaller(_, _, n) => n case OAuthCaller(_, _, n) => n case OtherCaller => 0
  }

  /** Callers without limits: neither kind of credential, or a token with both limits 0. */
  predicate Free(caller: Caller) {
    caller == OtherCaller || (caller.TokenCaller? && caller.tokenRate == 0 && caller.tokenConcurrency == 0)
  }

  predicate AdmittedAs(op: Op, outcome: Outcome, name: string) {
    op.Call? && outcome.Admitted? && !Free(op.caller) && NameOf(op.caller) == name
  }

  function Later(bound: real): real -> bool { t => t > bound }

  /** A half-open span of readings. */
  function Between(lo: real, hi: real, closedLow: bool): real -> bool {
    t => if closedLow then lo <= t < hi else lo < t <= hi
  }

  /** How many calls under this name were admitted with such a reading. */
  function CallsAdmitted(ops: seq<Op>, outcomes: seq<Outcome>, name: string, when: real -> bool): nat
    requires |ops| == |outcomes|
  {
    if ops == [] then 0
    else
      var n := |ops| - 1;
      CallsAdmitted(ops[..n], outcomes[..n], name, when)
      + if AdmittedAs(ops[n], outcomes[n], name) && when(ops[n].now) then 1 else 0
  }

  /** How many calls under this name have been admitted and not given back. */
  function CallsRunning(ops: seq<Op>, outcomes: seq<Outcome>, name: string): nat
    requires |ops| == |outcomes|
  {
    if ops == [] then 0
    else
      var n := |ops| - 1;
      var before := CallsRunning(ops[..n], outcomes[..n], name);
      if AdmittedAs(ops[n], outcomes[n], name) then before + 1
      else if ops[n] == Return(name) && before > 0 then before - 1
      else before
  }

  /**
   The answer to a call: unlimited for free callers; otherwise by the limits that the caller carries,
   the calls admitted in the last minute and the calls running. When readings may lag, `most` counts
   a longer and `least` a shorter minute.
   */
  predicate Fair(caller: Caller, most: nat, least: nat, running: int, outcome: Outcome) {
    if Free(caller) then outcome == Unlimited
    else if NameOf(caller) == "" || RateOf(caller) < 1 || ConcurrencyOf(caller) < 1 then outcome == LimitsUnavailable
    else if outcome == RateExceeded then most >= RateOf(caller)
    else
      && least < RateOf(caller)
      && outcome == if running >= ConcurrencyOf(caller) then ConcurrencyExceeded else Admitted(NameOf(caller))
  }

  lemma LimitsAre(caller: Caller)
    ensures LimitsOf(caller) ==
      if Free(caller) then None else Some(Limits(NameOf(caller), RateOf(caller), ConcurrencyOf(caller)))
  {
  }

  /** An admission is logged under the caller's name with the caller's own limits. */
  lemma LoggedAs(log: seq<Event>, op: Op, outcome: Outcome)
    requires op.Call?
    ensures Extended(log, op, outcome) ==
      if AdmittedAs(op, outcome, NameOf(op.caller))
      then log + [Admission(NameOf(op.caller), Entry(op.now, RateOf(op.caller), ConcurrencyOf(op.caller)))] else log
  {
    LimitsAre(op.caller);
  }

  lemma {:induction false} RunningIs(ops: seq<Op>, outcomes: seq<Outcome>, name: string)
    requires |ops| == |outcomes|
    ensures Outstanding(LogOf(ops, outcomes), name) == CallsRunning(ops, outcomes, name)
    decreases |ops|
  {
    if ops != [] {
      var n := |ops| - 1;
      var log := LogOf(ops[..n], outcomes[..n]);
      RunningIs(ops[..n], outcomes[..n], name);
      if ops[n].Call? {
        LoggedAs(log, ops[n], outcomes[n]);
        LogGrows(log, Admission(NameOf(ops[n].caller),
          Entry(ops[n].now, RateOf(ops[n].caller), ConcurrencyOf(ops[n].caller))), name);
      } else {
        LogGrows(log, Release(ops[n].grant), name);
      }
    }
  }

  function CountWhere(s: seq<Entry>, when: real -> bool): nat {
    if s == [] then 0 else CountWhere(s[..|s| - 1], when) + if when(s[|s| - 1].at) then 1 else 0
  }

  lemma CountMore(s: seq<Entry>, e: Entry, when: real -> bool)
    ensures CountWhere(s + [e], when) == CountWhere(s, when) + if when(e.at) then 1 else 0
  {
    assert (s + [e])[..|s|] == s;
  }

  lemma {:induction false} AdmittedIs(ops: seq<Op>, outcomes: seq<Outcome>, name: string, when: real -> bool)
    requires |ops| == |outcomes|
    ensures CountWhere(Admissions(LogOf(ops, outcomes), name), when) == CallsAdmitted(ops, outcomes, name, when)
    decreases |ops|
  {
    if ops != [] {
      var n := |ops| - 1;
      var log := LogOf(ops[..n], outcomes[..n]);
      AdmittedIs(ops[..n], outcomes[..n], name, when);
      if ops[n].Call? {
        var entry := Entry(ops[n].now, RateOf(ops[n].caller), ConcurrencyOf(ops[n].caller));
        LoggedAs(log, ops[n], outcomes[n]);
        LogGrows(log, Admission(NameOf(ops[n].caller), entry), name);
        CountMore(Admissions(log, name), entry, when);
      } else {
        LogGrows(log, Release(ops[n].grant), name);
      }
    }
  }

  lemma {:induction false} AfterIs(s: seq<Entry>, bound: real, when: real -> bool)
    requires forall t: real {:trigger when(t)} :: when(t) <==> t > bound
    ensures CountWhere(s, when) == CountAfter(s, bound)
    decreases |s|
  {
    if s != [] {
      AfterIs(s[..|s| - 1], bound, when);
    }
  }

  lemma {:induction false} SpanIs(s: seq<Entry>, lo: real, hi: real, closedLow: bool, when: real -> bool)
    requires forall t: real {:trigger when(t)} :: when(t) <==> InSpan(t, lo, hi, closedLow)
    ensures CountWhere(s, when) == CountInSpan(s, lo, hi, closedLow)
    decreases |s|
  {
    if s != [] {
      SpanIs(s[..|s| - 1], lo, hi, closedLow, when);
    }
  }

  /** What the history counts after a reading is what the calls and answers say. */
  lemma AdmittedAfter(ops: seq<Op>, outcomes: seq<Outcome>, name: string, bound: real)
    requires |ops| == |outcomes|
    ensures CountAfter(Admissions(LogOf(ops, outcomes), name), bound)
         == CallsAdmitted(ops, outcomes, name, Later(bound))
  {
    AfterIs(Admissions(LogOf(ops, outcomes), name), bound, Later(bound));
    AdmittedIs(ops, outcomes, name, Later(bound));
  }

  lemma JustifiedIsFair(log: seq<Event>, caller: Caller, now: real, skew: real, outcome: Outcome)
    requires Justified(log, caller, now, skew, outcome)
    ensures var history := Admissions(log, NameOf(caller));
      Fair(caller, CountAfter(history, now - 60.0 - skew), CountAfter(history, now - 60.0 + skew),
        Outstanding(log, NameOf(caller)), outcome)
  {
    var l := Limits(NameOf(caller), RateOf(caller), ConcurrencyOf(caller));
    LimitsAre(caller);
    if !Free(caller) && Usable(l) {
      assert JustifiedWithin(log, l, now, skew, outcome);
      WithinIsFair(log, caller, l, now, skew, outcome);
    }
  }

  lemma WithinIsFair(log: seq<Event>, caller: Caller, l: Limits, now: real, skew: real, outcome: Outcome)
    requires l == Limits(NameOf(caller), RateOf(caller), ConcurrencyOf(caller)) && !Free(caller) && Usable(l)
    requires JustifiedWithin(log, l, now, skew, outcome)
    ensures var history := Admissions(log, l.grant);
      Fair(caller, CountAfter(history, now - 60.0 - skew), CountAfter(history, now - 60.0 + skew),
        Outstanding(log, l.grant), outcome)
  {
  }

  /**
   Every answer follows from the calls and answers before it, up to the skew: counted are the calls
   under the caller's name that were admitted, by their own readings.
   */
  lemma AnswersFromCalls(ops: seq<Op>, outcomes: seq<Outcome>, i: nat, skew: real)
    requires i < |ops| == |outcomes| && ops[i].Call? && AnsweredAt(ops, outcomes, i, skew)
    ensures var name, now := NameOf(ops[i].caller), ops[i].now;
      Fair(ops[i].caller,
        CallsAdmitted(ops[..i], outcomes[..i], name, Later(now - 60.0 - skew)),
        CallsAdmitted(ops[..i], outcomes[..i], name, Later(now - 60.0 + skew)),
        CallsRunning(ops[..i], outcomes[..i], name), outcomes[i])
  {
    var name, now := NameOf(ops[i].caller), ops[i].now;
    JustifiedIsFair(LogOf(ops[..i], outcomes[..i]), ops[i].caller, now, skew, outcomes[i]);
    RunningIs(ops[..i], outcomes[..i], name);
    AdmittedAfter(ops[..i], outcomes[..i], name, now - 60.0 - skew);
    AdmittedAfter(ops[..i], outcomes[..i], name, now - 60.0 + skew);
  }

  /** With readings in lock order there is one fair answer. */
  lemma FairIsUnique(caller: Caller, count: nat, running: int, a: Outcome, b: Outcome)
    requires Fair(caller, count, count, running, a) && Fair(caller, count, count, running, b)
    ensures a == b
  {
  }

  /** Every admission under this name came with limits within these. */
  ghost predicate Carry(ops: seq<Op>, outcomes: seq<Outcome>, name: string, rate: nat, concurrency: nat)
    requires |ops| == |outcomes|
  {
    forall i :: 0 <= i < |ops| && AdmittedAs(ops[i], outcomes[i], name) ==>
      RateOf(ops[i].caller) <= rate && ConcurrencyOf(ops[i].caller) <= concurrency
  }

  /** The same of the history. */
  ghost predicate Within(log: seq<Event>, name: string, rate: nat, concurrency: nat) {
    && (forall e :: e in log && e.Admission? && e.grant == name ==> e.entry.concurrency <= concurrency)
    && (forall e :: e in Admissions(log, name) ==> e.rate <= rate)
  }

  lemma WithinMore(log: seq<Event>, e: Event, name: string, rate: nat, concurrency: nat)
    requires Within(log, name, rate, concurrency)
    requires e.Admission? && e.grant == name ==> e.entry.rate <= rate && e.entry.concurrency <= concurrency
    ensures Within(log + [e], name, rate, concurrency)
  {
    LogGrows(log, e, name);
  }

  lemma {:induction false} WithinIs(ops: seq<Op>, outcomes: seq<Outcome>, name: string, rate: nat, concurrency: nat)
    requires |ops| == |outcomes| && Carry(ops, outcomes, name, rate, concurrency)
    ensures Within(LogOf(ops, outcomes), name, rate, concurrency)
    decreases |ops|
  {
    if ops != [] {
      var n := |ops| - 1;
      var log := LogOf(ops[..n], outcomes[..n]);
      WithinIs(ops[..n], outcomes[..n], name, rate, concurrency);
      if ops[n].Call? && AdmittedAs(ops[n], outcomes[n], NameOf(ops[n].caller)) {
        WithinMore(log, Admission(NameOf(ops[n].caller),
          Entry(ops[n].now, RateOf(ops[n].caller), ConcurrencyOf(ops[n].caller))), name, rate, concurrency);
        LoggedAs(log, ops[n], outcomes[n]);
      } else if ops[n].Call? {
        LoggedAs(log, ops[n], outcomes[n]);
      } else {
        WithinMore(log, Release(ops[n].grant), name, rate, concurrency);
      }
    }
  }

  lemma {:induction false} LogPrefix(ops: seq<Op>, outcomes: seq<Outcome>, n: nat)
    requires n <= |ops| == |outcomes|
    ensures LogOf(ops[..n], outcomes[..n]) <= LogOf(ops, outcomes)
    decreases |ops|
  {
    if n == |ops| {
      assert ops[..n] == ops && outcomes[..n] == outcomes;
    } else {
      var m := |ops| - 1;
      assert ops[..m][..n] == ops[..n] && outcomes[..m][..n] == outcomes[..n];
      LogPrefix(ops[..m], outcomes[..m], n);
    }
  }

  lemma AdmittedBetween(ops: seq<Op>, outcomes: seq<Outcome>, name: string, lo: real, hi: real, closedLow: bool)
    requires |ops| == |outcomes|
    ensures CountInSpan(Admissions(LogOf(ops, outcomes), name), lo, hi, closedLow)
         == CallsAdmitted(ops, outcomes, name, Between(lo, hi, closedLow))
  {
    SpanIs(Admissions(LogOf(ops, outcomes), name), lo, hi, closedLow, Between(lo, hi, closedLow));
    AdmittedIs(ops, outcomes, name, Between(lo, hi, closedLow));
  }

  /**
   However a half-open minute (less the skew) is laid over the run, no more calls under one name are
   admitted in it than the rate that its callers carry, and no more ever run at once than their
   concurrency.
   */
  lemma CallersWithinLimits(ops: seq<Op>, outcomes: seq<Outcome>, skew: real, name: string, rate: nat,
                            concurrency: nat, lo: real, hi: real, closedLow: bool, n: nat)
    requires Served(ops, outcomes, skew) && Carry(ops, outcomes, name, rate, concurrency)
    requires hi - lo <= 60.0 - skew && n <= |ops|
    ensures CallsAdmitted(ops, outcomes, name, Between(lo, hi, closedLow)) <= rate
    ensures CallsRunning(ops[..n], outcomes[..n], name) <= concurrency
  {
    var log := LogOf(ops, outcomes);
    WithinIs(ops, outcomes, name, rate, concurrency);
    AdmissionsPerMinute(Admissions(log, name), skew, rate, lo, hi, closedLow);
    AdmittedBetween(ops, outcomes, name, lo, hi, closedLow);
    RunningIs(ops[..n], outcomes[..n], name);
    LogPrefix(ops, outcomes, n);
    var k := |LogOf(ops[..n], outcomes[..n])|;
    assert log[..k] == LogOf(ops[..n], outcomes[..n]);
    NeverTooManyRunning(log, name, concurrency, k);
  }

  /**
   Readings out of order do cost something, however small the lag: a call of another grant purges at
   60, then a call read before 60 no longer finds the admission at 0. Two admissions of one grant
   fall into one half-open minute at rate 1, so the rate holds exactly when no reading lags.
   */
  method LateReadingExceedsRate(lag: real, a: string, b: string)
      returns (outcomes: seq<Outcome>, at: real, ghost log: seq<Event>)
    requires lag > 0.0 && a != b && a != "" && b != ""
    ensures 0.0 < at < MINUTE && at >= MINUTE - lag
    ensures outcomes == [Admitted(a), Admitted(b), Admitted(a)]
    ensures log == LateLog(a, b, at) && CountInSpan(Admissions(log, a), 0.0, MINUTE, true) == 2
  {
    at := if lag < 30.0 then MINUTE - lag else 30.0;
    var limiter := new Limiter(lag, 0.0);
    ZeroExpires(at);
    var first := AdmitAtRateOne(limiter, a, 2, 0.0, b);
    var other := AdmitAtRateOne(limiter, b, 1, MINUTE, a);
    var late := AdmitAtRateOne(limiter, a, 2, at, b);
    outcomes, log := [first, other, late], limiter.log;
    assert log == LateLog(a, b, at);
    LateLogExceeds(a, b, at);
  }

  /** A call that finds an empty window and a free slot is admitted; `h` is some other grant. */
  method AdmitAtRateOne(limiter: Limiter, g: string, concurrency: int, now: real, h: string)
      returns (outcome: Outcome)
    requires limiter.Valid() && now >= limiter.clock - limiter.skew && g != "" && h != g && concurrency >= 1
    requires Unexpired(WindowIn(limiter.State(), g), now) == [] && RunningIn(limiter.active, g) < concurrency
    modifies limiter
    ensures limiter.Valid() && (limiter.clock == old(limiter.clock) || limiter.clock == now)
    ensures outcome == Admitted(g)
    ensures limiter.log == old(limiter.log) + [Admission(g, Entry(now, 1, concurrency))]
    ensures WindowIn(limiter.State(), g) == [now]
      && RunningIn(limiter.active, g) == RunningIn(old(limiter.active), g) + 1
    ensures WindowIn(limiter.State(), h) == Unexpired(WindowIn(old(limiter.State()), h), now)
    ensures RunningIn(limiter.active, h) == RunningIn(old(limiter.active), h)
  {
    outcome := limiter.Acquire(OAuthCaller(g, 1, concurrency), now);
    assert outcome == TableDecision(old(limiter.State()), Limits(g, 1, concurrency), now);
    assert AcquiredAt(old(limiter.State()), limiter.State(), now, outcome, g);
    assert AcquiredAt(old(limiter.State()), limiter.State(), now, outcome, h);
    assert [] + [now] == [now];
    ghost var others := Unexpired(WindowIn(old(limiter.State()), h), now);
    assert others + [] == others;
  }

  lemma ZeroExpires(at: real)
    ensures Unexpired([0.0], MINUTE) == [] && Unexpired([], at) == []
  {
    assert [0.0][1..] == [];
  }

  /** The first call of `a`, a call of `b` a minute later, and a call of `a` read before that. */
  function LateLog(a: string, b: string, at: real): seq<Event> {
    [Admission(a, Entry(0.0, 1, 2)), Admission(b, Entry(MINUTE, 1, 1)), Admission(a, Entry(at, 1, 2))]
  }

  lemma LateLogExceeds(a: string, b: string, at: real)
    requires 0.0 < at < MINUTE && a != b
    ensures CountInSpan(Admissions(LateLog(a, b, at), a), 0.0, MINUTE, true) == 2
  {
    var log := LateLog(a, b, at);
    LogGrows(log[..2], log[2], a);
    LogGrows(log[..1], log[1], a);
    LogGrows([], log[0], a);
    assert log == log[..2] + [log[2]] && log[..2] == log[..1] + [log[1]] && log[..1] == [] + [log[0]];
    var one := [] + [log[0].entry];
    SpanGrows(one, log[2].entry);
    SpanGrows([], log[0].entry);
  }

  lemma SpanGrows(s: seq<Entry>, e: Entry)
    requires InSpan(e.at, 0.0, MINUTE, true)
    ensures CountInSpan(s + [e], 0.0, MINUTE, true) == CountInSpan(s, 0.0, MINUTE, true) + 1
  {
    assert (s + [e])[..|s|] == s;
  }
}
