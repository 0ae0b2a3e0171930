/**
 The two in-process rate limiters: pruned, swept deques against the naive rule
 over the full history of what was admitted.
 */
module RateLimit {
  import opened Prelude

  datatype Answer = Allowed | RetryAfter(seconds: real)

  datatype Limiter = Limiter(hits: map<string, seq<real>>, lastSweep: real)

  const IDLE: Limiter := Limiter(map[], 0.0)

  datatype Request = Request(key: string, now: real)

  /** A limit and a window length, as one limiter is configured. */
  datatype Config = Config(limit: nat, window: real)

  ghost predicate ValidConfig(c: Config) {
    c.limit > 0 && c.window > 0.0
  }

  /** `while window and window[0] <= cutoff: window.popleft()` */
  function Pruned(window: seq<real>, cutoff: real): seq<real> {
    if window != [] && window[0] <= cutoff then Pruned(window[1..], cutoff) else window
  }

  function WindowOf(l: Limiter, key: string): seq<real> {
    if key in l.hits then l.hits[key] else []
  }

  /** `_sweep`: at most once per window, drop the keys whose last hit is stale. */
  function Swept(c: Config, l: Limiter, now: real): Limiter {
    if now - l.lastSweep < c.window then l
    else Limiter(map key | key in l.hits && l.hits[key] != []
                 && l.hits[key][|l.hits[key]| - 1] > now - c.window :: l.hits[key], now)
  }

  datatype Reply = Reply(limiter: Limiter, answer: Answer)

  /** `hit` for a limiter that is switched on. */
  function Hit(c: Config, l: Limiter, r: Request): Reply
    requires c.limit > 0
  {
    var swept := Swept(c, l, r.now);
    var window := Pruned(WindowOf(swept, r.key), r.now - c.window);
    if |window| >= c.limit then
      Reply(swept.(hits := swept.hits[r.key := window]), RetryAfter(window[0] + c.window - r.now))
    else
      Reply(swept.(hits := swept.hits[r.key := window + [r.now]]), Allowed)
  }

  function Run(c: Config, requests: seq<Request>): Limiter
    requires c.limit > 0
  {
    if requests == [] then IDLE else
      Hit(c, Run(c, requests[..|requests| - 1]), requests[|requests| - 1]).limiter
  }

  /** Admitted hits later than the cutoff, counted over the whole history. */
  function CountAfter(admitted: seq<real>, cutoff: real): nat {
    if admitted == [] then 0 else
      CountAfter(admitted[..|admitted| - 1], cutoff) + (if admitted[|admitted| - 1] > cutoff then 1 else 0)
  }

  /** The naive rule: admit when fewer than `limit` admitted hits lie within the last window. */
  predicate NaiveAdmits(c: Config, admitted: seq<real>, now: real) {
    CountAfter(admitted, now - c.window) < c.limit
  }

  /** Everything the naive rule has admitted for one key, oldest first. */
  function NaiveAdmitted(c: Config, requests: seq<Request>, key: string): seq<real> {
    if requests == [] then [] else
      var before, r := NaiveAdmitted(c, requests[..|requests| - 1], key), requests[|requests| - 1];
      if r.key == key && NaiveAdmits(c, before, r.now) then before + [r.now] else before
  }

  /** Requests are timed by a clock that starts at zero and never runs backwards. */
  ghost predicate Clocked(requests: seq<Request>) {
    && (forall i :: 0 <= i < |requests| ==> requests[i].now >= 0.0)
    && (forall i, j :: 0 <= i < j < |requests| ==> requests[i].now <= requests[j].now)
  }

  function LastTime(requests: seq<Request>): real {
    if requests == [] then 0.0 else requests[|requests| - 1].now
  }

  ghost predicate Ascending(s: seq<real>) {
    forall i, j :: 0 <= i < j < |s| ==> s[i] <= s[j]
  }

  /** `window` is the history without some front part that had left the window by `now`. */
  ghost predicate Retains(history: seq<real>, window: seq<real>, cutoff: real) {
    && |window| <= |history|
    && window == history[|history| - |window|..]
    && forall i :: 0 <= i < |history| - |window| ==> history[i] <= cutoff
  }

  /** Pruning drops a front part at or before the cutoff, and stops at the first hit after it. */
  lemma {:induction false} PrunedRetains(s: seq<real>, cutoff: real)
    ensures Retains(s, Pruned(s, cutoff), cutoff)
    ensures Pruned(s, cutoff) != [] ==> Pruned(s, cutoff)[0] > cutoff
  {
    if s != [] && s[0] <= cutoff {
      var rest := s[1..];
      PrunedRetains(rest, cutoff);
      var p := Pruned(rest, cutoff);
      assert rest[|rest| - |p|..] == s[|s| - |p|..];
      assert forall i :: 1 <= i < |s| - |p| ==> s[i] == rest[i - 1];
    } else {
      assert s[|s| - |s|..] == s;
    }
  }

  /** In an ascending history, pruning keeps exactly the hits after the cutoff. */
  lemma {:induction false} PrunedCounts(s: seq<real>, cutoff: real)
    requires Ascending(s)
    ensures |Pruned(s, cutoff)| == CountAfter(s, cutoff)
  {
    if s != [] && s[0] <= cutoff {
      AscendingSuffix(s, 1);
      PrunedCounts(s[1..], cutoff);
      assert s == [s[0]] + s[1..];
      CountAfterSplit([s[0]], s[1..], cutoff);
      CountAfterNone([s[0]], cutoff);
    } else {
      assert forall i :: 0 < i < |s| ==> s[0] <= s[i];
      CountAfterAll(s, cutoff);
    }
  }

  lemma {:induction false} CountAfterSplit(a: seq<real>, b: seq<real>, cutoff: real)
    ensures CountAfter(a + b, cutoff) == CountAfter(a, cutoff) + CountAfter(b, cutoff)
  {
    if b == [] {
      assert a + b == a;
    } else {
      assert (a + b)[..|a + b| - 1] == a + b[..|b| - 1];
      CountAfterSplit(a, b[..|b| - 1], cutoff);
    }
  }

  lemma {:induction false} CountAfterAll(s: seq<real>, cutoff: real)
    requires forall i :: 0 <= i < |s| ==> s[i] > cutoff
    ensures CountAfter(s, cutoff) == |s|
  {
    if s != [] {
      CountAfterAll(s[..|s| - 1], cutoff);
    }
  }

  lemma {:induction false} CountAfterNone(s: seq<real>, cutoff: real)
    requires forall i :: 0 <= i < |s| ==> s[i] <= cutoff
    ensures CountAfter(s, cutoff) == 0
  {
    if s != [] {
      CountAfterNone(s[..|s| - 1], cutoff);
    }
  }

  /** A window of a window still misses only hits at or before the later cutoff. */
  lemma {:induction false} RetainsAgain(history: seq<real>, window: seq<real>, kept: seq<real>, earlier: real,
                                        cutoff: real)
    requires Retains(history, window, earlier) && earlier <= cutoff && Retains(window, kept, cutoff)
    ensures Retains(history, kept, cutoff)
  {
    var dropped := |history| - |window|;
    assert window[|window| - |kept|..] == history[|history| - |kept|..];
    forall i | 0 <= i < |history| - |kept|
      ensures history[i] <= cutoff
    {
      if i >= dropped { assert history[i] == window[i - dropped]; }
    }
  }

  /** What was dropped earlier does not count later, so window and history give the same count. */
  lemma {:induction false} RetainedCounts(history: seq<real>, window: seq<real>, earlier: real, cutoff: real)
    requires Retains(history, window, earlier) && earlier <= cutoff && Ascending(history)
    ensures |Pruned(window, cutoff)| == CountAfter(history, cutoff)
    ensures Retains(history, Pruned(window, cutoff), cutoff)
    ensures Pruned(window, cutoff) != [] ==> Pruned(window, cutoff)[0] > cutoff
  {
    var dropped := history[..|history| - |window|];
    assert history == dropped + window;
    CountAfterNone(dropped, cutoff);
    CountAfterSplit(dropped, window, cutoff);
    AscendingSuffix(history, |dropped|);
    PrunedCounts(window, cutoff);
    PrunedRetains(window, cutoff);
    RetainsAgain(history, window, Pruned(window, cutoff), earlier, cutoff);
  }

  lemma {:induction false} AscendingSuffix(s: seq<real>, from: nat)
    requires Ascending(s) && from <= |s|
    ensures Ascending(s[from..])
  {
    forall i, j | 0 <= i < j < |s[from..]|
      ensures s[from..][i] <= s[from..][j]
    {
      assert s[from + i] <= s[from + j];
    }
  }

  /** The limiter's invariant against the naive history of one key. */
  ghost predicate Tracks(c: Config, l: Limiter, history: seq<real>, key: string, now: real) {
    && Ascending(history)
    && (forall i :: 0 <= i < |history| ==> history[i] <= now)
    && Retains(history, WindowOf(l, key), now - c.window)
    && |WindowOf(l, key)| <= c.limit
  }

  /** Retained keys were hit after the last sweep's cutoff; the sweep is less than a window old. */
  ghost predicate SweptInTime(c: Config, l: Limiter, now: real) {
    && l.lastSweep <= now && now - l.lastSweep < c.window
    && forall key :: key in l.hits ==> l.hits[key] != [] && l.hits[key][|l.hits[key]| - 1] > l.lastSweep - c.window
  }

  lemma {:induction false} SweepKeepsTracking(c: Config, l: Limiter, history: seq<real>, key: string, before: real,
                                              now: real)
    requires ValidConfig(c) && before <= now && Tracks(c, l, history, key, before)
    ensures Tracks(c, Swept(c, l, now), history, key, now)
  {
    var swept := Swept(c, l, now);
    if key in l.hits && key !in swept.hits {
      var w := l.hits[key];
      forall i | 0 <= i < |history|
        ensures history[i] <= now - c.window
      {
        if w != [] { assert history[|history| - 1] == w[|w| - 1]; }
      }
      assert history[|history|..] == [];
    }
  }

  /** The window a request finds once the sweep and the pruning are done. */
  function Found(c: Config, l: Limiter, r: Request): seq<real> {
    Pruned(WindowOf(Swept(c, l, r.now), r.key), r.now - c.window)
  }

  lemma {:induction false} FoundCounts(c: Config, l: Limiter, r: Request, history: seq<real>, before: real)
    requires ValidConfig(c) && before <= r.now && Tracks(c, l, history, r.key, before)
    ensures |Found(c, l, r)| == CountAfter(history, r.now - c.window)
    ensures |Found(c, l, r)| <= c.limit
    ensures Retains(history, Found(c, l, r), r.now - c.window)
    ensures Found(c, l, r) != [] ==> Found(c, l, r)[0] > r.now - c.window
  {
    SweepKeepsTracking(c, l, history, r.key, before, r.now);
    var window := WindowOf(Swept(c, l, r.now), r.key);
    RetainedCounts(history, window, r.now - c.window, r.now - c.window);
    PrunedShrinks(window, r.now - c.window);
  }

  lemma {:induction false} GrownRetains(history: seq<real>, window: seq<real>, cutoff: real, now: real)
    requires Retains(history, window, cutoff) && Ascending(history)
    requires forall i :: 0 <= i < |history| ==> history[i] <= now
    ensures Retains(history + [now], window + [now], cutoff) && Ascending(history + [now])
    ensures forall i :: 0 <= i < |history + [now]| ==> (history + [now])[i] <= now
  {
    var grown := history + [now];
    assert grown[|grown| - |window| - 1..] == window + [now];
  }

  /** What one request leaves in its own window. */
  lemma {:induction false} HitWindow(c: Config, l: Limiter, r: Request)
    requires c.limit > 0
    ensures Hit(c, l, r).answer.Allowed? <==> |Found(c, l, r)| < c.limit
    ensures WindowOf(Hit(c, l, r).limiter, r.key) ==
            if |Found(c, l, r)| < c.limit then Found(c, l, r) + [r.now] else Found(c, l, r)
  {
  }

  lemma {:induction false} WindowTracks(c: Config, l: Limiter, history: seq<real>, window: seq<real>, key: string,
                                        now: real)
    requires Ascending(history) && (forall i :: 0 <= i < |history| ==> history[i] <= now)
    requires Retains(history, window, now - c.window) && |window| <= c.limit && WindowOf(l, key) == window
    ensures Tracks(c, l, history, key, now)
  {
  }

  lemma {:induction false} GrownWindowTracks(c: Config, l: Limiter, history: seq<real>, found: seq<real>, key: string,
                                             now: real)
    requires Ascending(history) && (forall i :: 0 <= i < |history| ==> history[i] <= now)
    requires Retains(history, found, now - c.window) && |found| < c.limit && WindowOf(l, key) == found + [now]
    ensures Tracks(c, l, history + [now], key, now)
  {
    GrownRetains(history, found, now - c.window, now);
    WindowTracks(c, l, history + [now], found + [now], key, now);
  }

  lemma {:induction false} HitAnswersNaively(c: Config, l: Limiter, r: Request, history: seq<real>, before: real)
    requires ValidConfig(c) && before <= r.now && Tracks(c, l, history, r.key, before)
    ensures Hit(c, l, r).answer.Allowed? <==> NaiveAdmits(c, history, r.now)
  {
    FoundCounts(c, l, r, history, before);
    HitWindow(c, l, r);
  }

  lemma {:induction false} AdmittedHitTracks(c: Config, l: Limiter, r: Request, history: seq<real>, before: real)
    requires ValidConfig(c) && before <= r.now && Tracks(c, l, history, r.key, before)
    requires NaiveAdmits(c, history, r.now)
    ensures Tracks(c, Hit(c, l, r).limiter, history + [r.now], r.key, r.now)
  {
    FoundCounts(c, l, r, history, before);
    HitWindow(c, l, r);
    GrownWindowTracks(c, Hit(c, l, r).limiter, history, Found(c, l, r), r.key, r.now);
  }

  lemma {:induction false} RefusedHitTracks(c: Config, l: Limiter, r: Request, history: seq<real>, before: real)
    requires ValidConfig(c) && before <= r.now && Tracks(c, l, history, r.key, before)
    requires !NaiveAdmits(c, history, r.now)
    ensures Tracks(c, Hit(c, l, r).limiter, history, r.key, r.now)
  {
    FoundCounts(c, l, r, history, before);
    HitWindow(c, l, r);
    WindowTracks(c, Hit(c, l, r).limiter, history, Found(c, l, r), r.key, r.now);
  }

  /** One request: the limiter answers as the naive rule does, and keeps tracking it. */
  lemma {:induction false} HitTracks(c: Config, l: Limiter, r: Request, history: seq<real>, before: real)
    requires ValidConfig(c) && before <= r.now && Tracks(c, l, history, r.key, before)
    ensures Hit(c, l, r).answer.Allowed? <==> NaiveAdmits(c, history, r.now)
    ensures Tracks(c, Hit(c, l, r).limiter, if NaiveAdmits(c, history, r.now) then history + [r.now]
                   else history, r.key, r.now)
  {
    HitAnswersNaively(c, l, r, history, before);
    if NaiveAdmits(c, history, r.now) {
      AdmittedHitTracks(c, l, r, history, before);
    } else {
      RefusedHitTracks(c, l, r, history, before);
    }
  }

  lemma {:induction false} HitTracksOthers(c: Config, l: Limiter, r: Request, history: seq<real>, key: string,
                                           before: real)
    requires ValidConfig(c) && before <= r.now && key != r.key && Tracks(c, l, history, key, before)
    ensures Tracks(c, Hit(c, l, r).limiter, history, key, r.now)
  {
    SweepKeepsTracking(c, l, history, key, before, r.now);
    assert WindowOf(Hit(c, l, r).limiter, key) == WindowOf(Swept(c, l, r.now), key);
  }

  lemma {:induction false} RunTracks(c: Config, requests: seq<Request>, key: string)
    requires ValidConfig(c) && Clocked(requests)
    ensures Tracks(c, Run(c, requests), NaiveAdmitted(c, requests, key), key, LastTime(requests))
  {
    if requests != [] {
      var init, r := requests[..|requests| - 1], requests[|requests| - 1];
      RunTracks(c, init, key);
      assert LastTime(init) <= r.now;
      if r.key == key {
        HitTracks(c, Run(c, init), r, NaiveAdmitted(c, init, key), LastTime(init));
      } else {
        HitTracksOthers(c, Run(c, init), r, NaiveAdmitted(c, init, key), key, LastTime(init));
      }
    }
  }

  /**
   For any limit, window and history, pruned and swept as it is, the limiter
   admits a request exactly when the naive rule over everything it ever admitted
   does.
   */
  lemma {:induction false} LimiterIsNaive(c: Config, requests: seq<Request>, next: Request)
    requires ValidConfig(c) && Clocked(requests + [next])
    ensures Hit(c, Run(c, requests), next).answer.Allowed? <==>
            NaiveAdmits(c, NaiveAdmitted(c, requests, next.key), next.now)
  {
    var all := requests + [next];
    assert all[|requests|] == next && forall i :: 0 <= i < |requests| ==> all[i] == requests[i];
    RunTracks(c, requests, next.key);
    HitTracks(c, Run(c, requests), next, NaiveAdmitted(c, requests, next.key), LastTime(requests));
  }

  /** A full window frees up at the instant its oldest hit leaves it, and not before. */
  lemma {:induction false} FullWindowFreesUp(history: seq<real>, window: seq<real>, cutoff: real, later: real)
    requires Ascending(history) && Retains(history, window, cutoff) && window != [] && cutoff <= later
    ensures CountAfter(history, later) < |window| <==> window[0] <= later
  {
    RetainedCounts(history, window, cutoff, later);
    if window[0] <= later {
      PrunedShrinks(window[1..], later);
    }
  }

  /**
   The wait handed back is exact: the limiter refuses a retry at every instant before it
   and admits one from it on.
   */
  lemma {:induction false} WaitIsExact(c: Config, requests: seq<Request>, next: Request, later: real)
    requires ValidConfig(c) && Clocked(requests + [next]) && later >= next.now
    requires Hit(c, Run(c, requests), next).answer.RetryAfter?
    ensures var wait := Hit(c, Run(c, requests), next).answer.seconds;
            && wait > 0.0
            && (Hit(c, Run(c, requests + [next]), Request(next.key, later)).answer.Allowed? <==>
                later >= next.now + wait)
  {
    var all := requests + [next];
    assert all[|requests|] == next && forall i :: 0 <= i < |requests| ==> all[i] == requests[i];
    RunTracks(c, requests, next.key);
    WaitFromHistory(c, Run(c, requests), next, NaiveAdmitted(c, requests, next.key), LastTime(requests), later);
    RefusalKeepsHistory(c, requests, next);
    ClockedMore(all, Request(next.key, later));
    LimiterIsNaive(c, all, Request(next.key, later));
  }

  lemma {:induction false} RefusalKeepsHistory(c: Config, requests: seq<Request>, next: Request)
    requires ValidConfig(c) && Clocked(requests + [next])
    requires Hit(c, Run(c, requests), next).answer.RetryAfter?
    ensures NaiveAdmitted(c, requests + [next], next.key) == NaiveAdmitted(c, requests, next.key)
  {
    LimiterIsNaive(c, requests, next);
    assert (requests + [next])[..|requests|] == requests;
  }

  lemma {:induction false} ClockedMore(requests: seq<Request>, next: Request)
    requires Clocked(requests) && requests != [] && requests[|requests| - 1].now <= next.now
    ensures Clocked(requests + [next])
  {
  }

  lemma {:induction false} WaitFromHistory(c: Config, l: Limiter, next: Request, history: seq<real>, before: real,
                                           later: real)
    requires ValidConfig(c) && before <= next.now <= later && Tracks(c, l, history, next.key, before)
    requires Hit(c, l, next).answer.RetryAfter?
    ensures var wait := Hit(c, l, next).answer.seconds;
            wait > 0.0 && (NaiveAdmits(c, history, later) <==> later >= next.now + wait)
  {
    FoundCounts(c, l, next, history, before);
    FullWindowFreesUp(history, Found(c, l, next), next.now - c.window, later - c.window);
  }

  lemma {:induction false} PrunedShrinks(s: seq<real>, cutoff: real)
    ensures |Pruned(s, cutoff)| <= |s|
  {
    if s != [] && s[0] <= cutoff {
      PrunedShrinks(s[1..], cutoff);
    }
  }

  lemma {:induction false} HitSweepsInTime(c: Config, l: Limiter, r: Request, before: real)
    requires ValidConfig(c) && before <= r.now
    requires l.lastSweep <= before
    requires forall key :: key in l.hits ==>
               l.hits[key] != [] && l.hits[key][|l.hits[key]| - 1] > l.lastSweep - c.window
    requires l == IDLE || SweptInTime(c, l, before)
    ensures SweptInTime(c, Hit(c, l, r).limiter, r.now)
  {
    var swept := Swept(c, l, r.now);
    var after := Hit(c, l, r).limiter;
    var window := Pruned(WindowOf(swept, r.key), r.now - c.window);
    PrunedLast(WindowOf(swept, r.key), r.now - c.window);
    forall key | key in after.hits
      ensures after.hits[key] != [] && after.hits[key][|after.hits[key]| - 1] > after.lastSweep - c.window
    {
      if key != r.key { assert key in swept.hits && after.hits[key] == swept.hits[key]; }
    }
  }

  lemma {:induction false} PrunedLast(s: seq<real>, cutoff: real)
    ensures Pruned(s, cutoff) != [] ==> s != [] && Pruned(s, cutoff)[|Pruned(s, cutoff)| - 1] == s[|s| - 1]
  {
    if s != [] && s[0] <= cutoff {
      PrunedLast(s[1..], cutoff);
    }
  }

  lemma {:induction false} RunSweepsInTime(c: Config, requests: seq<Request>)
    requires ValidConfig(c) && Clocked(requests)
    ensures requests != [] ==> SweptInTime(c, Run(c, requests), LastTime(requests))
  {
    if requests != [] {
      var init := requests[..|requests| - 1];
      RunSweepsInTime(c, init);
      HitSweepsInTime(c, Run(c, init), requests[|requests| - 1], LastTime(init));
    }
  }

  /** Idle keys do not pile up: after any request, every key still held was hit within the last two windows. */
  lemma {:induction false} HeldKeysAreRecent(c: Config, requests: seq<Request>, key: string)
    requires ValidConfig(c) && Clocked(requests) && requests != []
    requires key in Run(c, requests).hits
    ensures var window := Run(c, requests).hits[key];
            window != [] && window[|window| - 1] > LastTime(requests) - 2.0 * c.window
  {
    RunSweepsInTime(c, requests);
  }

  // ---------- requests that enter out of the order of their times ----------

  /** Requests of one key, entering in this order. */
  function RequestsAt(times: seq<real>): (requests: seq<Request>)
    ensures |requests| == |times|
  {
    seq(|times|, i requires 0 <= i < |times| => Request("k", times[i]))
  }

  predicate Agree(c: Config, l: Limiter, history: seq<real>, t: real)
    requires c.limit > 0
  {
    Hit(c, l, Request("k", t)).answer.Allowed? <==> NaiveAdmits(c, history, t)
  }

  predicate NotBefore(times: seq<real>, t: real) {
    forall i :: 0 <= i < |times| ==> times[i] <= t
  }

  /** Limiter and naive rule answer alike at every time after all of the hits. */
  ghost predicate AgreeLater(c: Config, l: Limiter, history: seq<real>)
    requires c.limit > 0
  {
    forall t :: NotBefore(history, t) ==> Agree(c, l, history, t)
  }

  predicate FirstIsEarliest(times: seq<real>) {
    forall i :: 0 <= i < |times| ==> times[0] <= times[i]
  }

  /** Hits that fit the limit, all within a window of the first, which comes a window or more after the start. */
  ghost predicate OneWindow(c: Config, times: seq<real>) {
    && times != [] && |times| <= c.limit && 0.0 < c.window <= times[0]
    && forall i :: 0 <= i < |times| ==> times[i] < times[0] + c.window
  }

  lemma {:induction false} CountAfterAtMost(s: seq<real>, cutoff: real)
    ensures CountAfter(s, cutoff) <= |s|
    ensures CountAfter(s, cutoff) < |s| <==> exists i :: 0 <= i < |s| && s[i] <= cutoff
  {
    if s != [] {
      var init := s[..|s| - 1];
      CountAfterAtMost(init, cutoff);
      assert forall i :: 0 <= i < |init| ==> init[i] == s[i];
      assert s[|s| - 1] <= cutoff ==> CountAfter(s, cutoff) < |s|;
    }
  }

  /** One more such hit goes to the back of the deque, unswept and unpruned. */
  lemma {:induction false} OneWindowStep(c: Config, times: seq<real>, now: real)
    requires OneWindow(c, times) && |times| < c.limit && now < times[0] + c.window
    ensures Hit(c, Limiter(map["k" := times], times[0]), Request("k", now)).limiter ==
            Limiter(map["k" := times + [now]], times[0])
    ensures NaiveAdmits(c, times, now)
  {
    var l := Limiter(map["k" := times], times[0]);
    CountAfterAtMost(times, now - c.window);
    assert Swept(c, l, now) == l && WindowOf(l, "k") == times;
    assert Pruned(times, now - c.window) == times;
    assert map["k" := times]["k" := times + [now]] == map["k" := times + [now]];
  }

  lemma {:induction false} FirstHit(c: Config, now: real)
    requires c.limit > 0 && 0.0 < c.window <= now
    ensures Hit(c, IDLE, Request("k", now)).limiter == Limiter(map["k" := [now]], now)
    ensures NaiveAdmits(c, [], now)
  {
    assert Swept(c, IDLE, now) == Limiter(map[], now);
    assert [] + [now] == [now];
  }

  /** Such hits are all admitted, and the limiter holds them in the order they entered. */
  lemma {:induction false} OneWindowIsAdmitted(c: Config, times: seq<real>)
    requires OneWindow(c, times)
    ensures Run(c, RequestsAt(times)) == Limiter(map["k" := times], times[0])
    ensures NaiveAdmitted(c, RequestsAt(times), "k") == times
  {
    var init, now := times[..|times| - 1], times[|times| - 1];
    assert RequestsAt(times)[..|times| - 1] == RequestsAt(init);
    assert times == init + [now];
    if init == [] {
      assert RequestsAt(init) == [];
      FirstHit(c, now);
    } else {
      OneWindowIsAdmitted(c, init);
      OneWindowStep(c, init, now);
    }
  }

  /**
   A full limiter lets the next request in once the hit at its front has left the window,
   whatever stands behind it.
   */
  lemma {:induction false} FrontDecides(c: Config, times: seq<real>, t: real)
    requires OneWindow(c, times) && |times| == c.limit && NotBefore(times, t)
    ensures Hit(c, Limiter(map["k" := times], times[0]), Request("k", t)).answer.Allowed? <==> times[0] <= t - c.window
  {
    var l := Limiter(map["k" := times], times[0]);
    var swept := Swept(c, l, t);
    if times[0] <= t - c.window {
      PrunedShrinks(times[1..], t - c.window);
      assert WindowOf(swept, "k") == times || WindowOf(swept, "k") == [];
    } else {
      assert swept == l && WindowOf(l, "k") == times;
      assert Pruned(times, t - c.window) == times;
    }
  }

  function Latest(times: seq<real>): (latest: real)
    requires times != []
    ensures NotBefore(times, latest)
    ensures exists i :: 0 <= i < |times| && times[i] == latest
  {
    if |times| == 1 then times[0] else
      var init := times[..|times| - 1];
      var rest := Latest(init);
      assert forall i :: 0 <= i < |init| ==> init[i] == times[i];
      MaxReal(rest, times[|times| - 1])
  }

  lemma {:induction false} EarliestFirstAgrees(c: Config, times: seq<real>, t: real)
    requires OneWindow(c, times) && |times| == c.limit && FirstIsEarliest(times) && NotBefore(times, t)
    ensures Agree(c, Limiter(map["k" := times], times[0]), times, t)
  {
    FrontDecides(c, times, t);
    CountAfterAtMost(times, t - c.window);
  }

  /** Once an earlier hit behind the front is stale, the limiter still counts it and the naive rule does not. */
  lemma {:induction false} StaleHitIsStillHeld(c: Config, times: seq<real>, i: nat) returns (t: real)
    requires OneWindow(c, times) && |times| == c.limit && i < |times| && times[i] < times[0]
    ensures NotBefore(times, t) && !Agree(c, Limiter(map["k" := times], times[0]), times, t)
  {
    t := MaxReal(times[i] + c.window, Latest(times));
    FrontDecides(c, times, t);
    CountAfterAtMost(times, t - c.window);
    assert times[i] <= t - c.window < times[0];
  }

  /**
   The clock is read before the lock is taken, so requests can enter in another
   order than that of their times. For any limit, once a window is full of hits
   that all lie within a window of the first, limiter and naive rule answer the
   next request alike, whenever it comes, exactly when the first to enter was the
   earliest.
   */
  lemma {:induction false} AgreementNeedsEarliestFirst(c: Config, times: seq<real>)
    requires OneWindow(c, times) && |times| == c.limit
    ensures Run(c, RequestsAt(times)) == Limiter(map["k" := times], times[0])
    ensures NaiveAdmitted(c, RequestsAt(times), "k") == times
    ensures AgreeLater(c, Run(c, RequestsAt(times)), times) <==> FirstIsEarliest(times)
  {
    OneWindowIsAdmitted(c, times);
    if FirstIsEarliest(times) {
      forall t | NotBefore(times, t)
        ensures Agree(c, Run(c, RequestsAt(times)), times, t)
      {
        EarliestFirstAgrees(c, times, t);
      }
    } else {
      var i :| 0 <= i < |times| && times[i] < times[0];
      var t := StaleHitIsStillHeld(c, times, i);
    }
  }

  /** The naive rule's history after a request at `now`. */
  function WithAdmitted(c: Config, history: seq<real>, now: real): seq<real> {
    if NaiveAdmits(c, history, now) then history + [now] else history
  }

  /**
   Limiter and naive rule answer the client alike through all of these requests, each with
   the history it has admitted itself; other clients' requests may come in between.
   */
  ghost predicate AgreesThrough(c: Config, l: Limiter, history: seq<real>, later: seq<Request>)
    requires c.limit > 0
    decreases |later|
  {
    if later == [] then true
    else if later[0].key != "k" then AgreesThrough(c, Hit(c, l, later[0]).limiter, history, later[1..])
    else
      && Agree(c, l, history, later[0].now)
      && AgreesThrough(c, Hit(c, l, later[0]).limiter, WithAdmitted(c, history, later[0].now), later[1..])
  }

  /** Requests on an ordered clock, none before any of the hits. */
  ghost predicate Continues(times: seq<real>, later: seq<Request>) {
    Clocked(later) && forall i :: 0 <= i < |later| ==> NotBefore(times, later[i].now)
  }

  lemma {:induction false} TrackedAgrees(c: Config, l: Limiter, history: seq<real>, before: real, later: seq<Request>)
    requires ValidConfig(c) && Tracks(c, l, history, "k", before)
    requires Clocked(later) && (later != [] ==> before <= later[0].now)
    ensures AgreesThrough(c, l, history, later)
    decreases |later|
  {
    if later != [] {
      var r, rest := later[0], later[1..];
      LaterIsLater(later);
      if r.key == "k" {
        HitTracks(c, l, r, history, before);
        assert r == Request("k", r.now);
        TrackedAgrees(c, Hit(c, l, r).limiter, WithAdmitted(c, history, r.now), r.now, rest);
      } else {
        HitTracksOthers(c, l, r, history, "k", before);
        TrackedAgrees(c, Hit(c, l, r).limiter, history, r.now, rest);
      }
    }
  }

  lemma {:induction false} LaterIsLater(later: seq<Request>)
    requires Clocked(later) && later != []
    ensures Clocked(later[1..]) && (later[1..] != [] ==> later[0].now <= later[1..][0].now)
  {
    assert forall i :: 0 <= i < |later| - 1 ==> later[1..][i] == later[i + 1];
  }

  /** An ascending window is its own history, so the limiter tracks it. */
  lemma {:induction false} AscendingIsTracked(c: Config, times: seq<real>)
    requires OneWindow(c, times) && Ascending(times)
    ensures Tracks(c, Limiter(map["k" := times], times[0]), times, "k", times[|times| - 1])
  {
    assert times[|times| - |times|..] == times;
  }

  /** The first hit that a later one precedes in time; everything before it is at most that later one. */
  lemma {:induction false} FirstDescent(times: seq<real>) returns (p: nat, q: nat)
    requires !Ascending(times)
    ensures p < q < |times| && times[p] > times[q]
    ensures forall i :: 0 <= i < p ==> times[i] <= times[q]
    decreases |times|
  {
    if j :| 0 < j < |times| && times[j] < times[0] {
      p, q := 0, j;
    } else {
      var rest := times[1..];
      assert !Ascending(rest) by {
        var i, j :| 0 <= i < j < |times| && times[i] > times[j];
        assert rest[i - 1] == times[i] && rest[j - 1] == times[j];
      }
      p, q := FirstDescent(rest);
      p, q := p + 1, q + 1;
      assert times[p] == rest[p - 1] && times[q] == rest[q - 1];
      forall i | 0 <= i < p
        ensures times[i] <= times[q]
      {
        if i > 0 { assert times[i] == rest[i - 1]; }
      }
    }
  }

  lemma {:induction false} PrunedFrom(s: seq<real>, from: nat, cutoff: real)
    requires from < |s| && s[from] > cutoff && forall i :: 0 <= i < from ==> s[i] <= cutoff
    ensures Pruned(s, cutoff) == s[from..]
  {
    if from > 0 {
      PrunedFrom(s[1..], from - 1, cutoff);
      assert s[1..][from - 1..] == s[from..];
    }
  }

  /**
   Cut between the two, limiter and history no longer count the same: the limiter holds the
   stale hit, or has swept the live one.
   */
  lemma {:induction false} DescentIsMiscounted(c: Config, times: seq<real>, p: nat, q: nat, t: real)
    requires OneWindow(c, times) && p < q < |times| && NotBefore(times, t)
    requires times[q] <= t - c.window < times[p] && forall i :: 0 <= i < p ==> times[i] <= t - c.window
    ensures var found := Found(c, Limiter(map["k" := times], times[0]), Request("k", t));
            |found| <= c.limit && |found| != CountAfter(times, t - c.window) <= c.limit
  {
    var l := Limiter(map["k" := times], times[0]);
    CountFromDescent(times, p, q, t - c.window);
    PrunedFrom(times, p, t - c.window);
    var held := WindowOf(Swept(c, l, t), "k");
    assert held == times || held == [];
  }

  lemma {:induction false} CountFromDescent(times: seq<real>, p: nat, q: nat, cutoff: real)
    requires p < q < |times| && times[q] <= cutoff < times[p] && forall i :: 0 <= i < p ==> times[i] <= cutoff
    ensures 0 < CountAfter(times, cutoff) < |times| - p
  {
    var front, live, back := times[..p], [times[p]], times[p + 1..];
    assert times == front + (live + back);
    CountAfterSplit(front, live + back, cutoff);
    CountAfterSplit(live, back, cutoff);
    CountAfterNone(front, cutoff);
    CountAfterAll(live, cutoff);
    assert back[q - p - 1] == times[q];
    CountAfterAtMost(back, cutoff);
  }

  /** At one and the same instant, an admitted request is all that a second one finds more of. */
  lemma {:induction false} FoundAgain(c: Config, l: Limiter, t: real)
    requires ValidConfig(c) && |Found(c, l, Request("k", t))| < c.limit
    ensures var r := Request("k", t);
            Found(c, Hit(c, l, r).limiter, r) == Found(c, l, r) + [t]
  {
    var r := Request("k", t);
    var after, found := Hit(c, l, r).limiter, Found(c, l, r);
    HitWindow(c, l, r);
    PrunedRetains(WindowOf(Swept(c, l, t), "k"), t - c.window);
    var window := found + [t];
    assert Swept(c, after, t).hits == after.hits || t - after.lastSweep >= c.window;
    assert window[0] > t - c.window;
    assert window[|window| - 1] == t;
    assert WindowOf(Swept(c, after, t), "k") == window;
  }

  /** Where the counts differ, enough requests at that instant make the answers differ. */
  lemma {:induction false} MiscountShows(c: Config, l: Limiter, history: seq<real>, t: real)
    returns (later: seq<Request>)
    requires ValidConfig(c)
    requires |Found(c, l, Request("k", t))| != CountAfter(history, t - c.window)
    requires |Found(c, l, Request("k", t))| <= c.limit && CountAfter(history, t - c.window) <= c.limit
    ensures forall i :: 0 <= i < |later| ==> later[i] == Request("k", t)
    ensures !AgreesThrough(c, l, history, later)
    decreases c.limit - |Found(c, l, Request("k", t))|
  {
    var r := Request("k", t);
    HitWindow(c, l, r);
    if Agree(c, l, history, t) {
      FoundAgain(c, l, t);
      assert (history + [t])[..|history|] == history;
      var rest := MiscountShows(c, Hit(c, l, r).limiter, history + [t], t);
      later := [r] + rest;
      assert later[1..] == rest;
    } else {
      later := [r];
    }
  }

  lemma {:induction false} DescentShows(c: Config, times: seq<real>) returns (later: seq<Request>)
    requires OneWindow(c, times) && !Ascending(times)
    ensures Continues(times, later) && !AgreesThrough(c, Limiter(map["k" := times], times[0]), times, later)
  {
    var p, q := FirstDescent(times);
    var t := MaxReal(times[q] + c.window, Latest(times));
    DescentIsMiscounted(c, times, p, q, t);
    later := MiscountShows(c, Limiter(map["k" := times], times[0]), times, t);
  }

  /**
   Over everything that may follow: after hits within a window of the first, at
   most as many as the limit, limiter and naive rule answer every later run of
   requests alike, whatever other clients send in between, exactly when the hits
   entered in the order of their times.
   */
  lemma {:induction false} AgreementNeedsOrder(c: Config, times: seq<real>)
    requires OneWindow(c, times)
    ensures Run(c, RequestsAt(times)) == Limiter(map["k" := times], times[0])
    ensures NaiveAdmitted(c, RequestsAt(times), "k") == times
    ensures (forall later: seq<Request> ::
              Continues(times, later) ==> AgreesThrough(c, Run(c, RequestsAt(times)), times, later))
       <==> Ascending(times)
  {
    OneWindowIsAdmitted(c, times);
    if Ascending(times) {
      forall later: seq<Request> | Continues(times, later)
        ensures AgreesThrough(c, Run(c, RequestsAt(times)), times, later)
      {
        AscendingIsTracked(c, times);
        assert later != [] ==> NotBefore(times, later[0].now);
        TrackedAgrees(c, Run(c, RequestsAt(times)), times, times[|times| - 1], later);
      }
    } else {
      var later := DescentShows(c, times);
    }
  }

  /**
   For instance, with a limit of three: the first to enter was the earliest, so
   the next request is always answered alike, but not the two after it.
   */
  lemma {:induction false} OneRequestIsNotEnough()
    ensures var c, times := Config(3, 10.0), [100.0, 105.0, 102.0];
      && AgreeLater(c, Run(c, RequestsAt(times)), times)
      && exists later :: Continues(times, later) && !AgreesThrough(c, Run(c, RequestsAt(times)), times, later)
  {
    var c, times := Config(3, 10.0), [100.0, 105.0, 102.0];
    assert times[1] > times[2] && OneWindow(c, times) && FirstIsEarliest(times);
    AgreementNeedsEarliestFirst(c, times);
    AgreementNeedsOrder(c, times);
    assert !Ascending(times);
  }

  /**
   With a limit of two, agreement on the next request after two hits less than a window
   apart takes exactly that they came in order.
   */
  lemma {:induction false} AgreementNeedsOrderedClock(window: real, a: real, b: real)
    requires 0.0 < window <= a && b < a + window
    ensures var c := Config(2, window);
      AgreeLater(c, Run(c, [Request("k", a), Request("k", b)]), [a, b]) <==> a <= b
  {
    assert RequestsAt([a, b]) == [Request("k", a), Request("k", b)];
    AgreementNeedsEarliestFirst(Config(2, window), [a, b]);
    assert FirstIsEarliest([a, b]) <==> a <= b;
  }

  class SlidingWindowLimiter {
    const limit: int
    const window: real
    var hits: map<string, seq<real>>
    var lastSweep: real

    function Contents(): Limiter
      reads this
    {
      Limiter(hits, lastSweep)
    }

    function Configuration(): Config
      requires limit > 0
    {
      Config(limit, window)
    }

    constructor (limit: int, window: real)
      ensures this.limit == limit && this.window == window && Contents() == IDLE
    {
      this.limit, this.window := limit, window;
      hits, lastSweep := map[], 0.0;
    }

    /** `_sweep` */
    method Sweep(now: real)
      requires limit > 0
      modifies this
      ensures Contents() == Swept(Configuration(), old(Contents()), now)
    {
      if now - lastSweep < window {
        return;
      }
      var cutoff := now - window;
      lastSweep := now;
      var stale, rest: set<string> := {}, hits.Keys;
      while rest != {}
        invariant rest <= hits.Keys
        invariant forall key :: key in stale <==>
                  key in hits.Keys - rest && (hits[key] == [] || hits[key][|hits[key]| - 1] <= cutoff)
        decreases rest
      {
        var key :| key in rest;
        if hits[key] == [] || hits[key][|hits[key]| - 1] <= cutoff {
          stale := stale + {key};
        }
        rest := rest - {key};
      }
      hits := hits - stale;
    }

    /** `hit`: record one request, or say how long to wait. A limit of zero switches the limiter off. */
    method Record(key: string, now: real) returns (answer: Answer)
      modifies this
      ensures limit <= 0 ==> answer == Allowed && Contents() == old(Contents())
      ensures limit > 0 ==>
                Reply(Contents(), answer) == Hit(Configuration(), old(Contents()), Request(key, now))
    {
      if limit <= 0 {
        return Allowed;
      }
      Sweep(now);
      var cutoff := now - window;
      var deque := if key in hits then hits[key] else [];
      ghost var full := deque;
      while deque != [] && deque[0] <= cutoff
        invariant Pruned(deque, cutoff) == Pruned(full, cutoff)
        decreases |deque|
      {
        deque := deque[1..];
      }
      if |deque| >= limit {
        hits := hits[key := deque];
        return RetryAfter(deque[0] + window - now);
      }
      hits := hits[key := deque + [now]];
      answer := Allowed;
    }
  }

  /** `while calls and now - calls[0] >= period: calls.popleft()` */
  function Expired(calls: seq<real>, period: real, now: real): seq<real> {
    if calls != [] && now - calls[0] >= period then Expired(calls[1..], period, now) else calls
  }

  /** One attempt of `acquire`: the calls kept, and whether the slot was granted. */
  function Acquired(calls: seq<real>, max: nat, period: real, now: real): (seq<real>, bool) {
    var kept := Expired(calls, period, now);
    if |kept| < max then (kept + [now], true) else (kept, false)
  }

  /** The deque after attempts at the given clock readings. */
  function Calls(readings: seq<real>, max: nat, period: real): seq<real> {
    if readings == [] then [] else
      Acquired(Calls(readings[..|readings| - 1], max, period), max, period, readings[|readings| - 1]).0
  }

  /** The readings at which a slot was granted. */
  function Granted(readings: seq<real>, max: nat, period: real): seq<real> {
    if readings == [] then [] else
      var init, now := readings[..|readings| - 1], readings[|readings| - 1];
      Granted(init, max, period) + (if Acquired(Calls(init, max, period), max, period, now).1 then [now] else [])
  }

  /** Any `max + 1` grants in a row span at least one period. */
  ghost predicate Spaced(grants: seq<real>, max: nat, period: real) {
    forall i :: 0 <= i && i + max < |grants| ==> grants[i + max] - grants[i] >= period
  }

  lemma {:induction false} ExpiredRetains(calls: seq<real>, period: real, now: real)
    ensures var kept := Expired(calls, period, now);
            && |kept| <= |calls| && kept == calls[|calls| - |kept|..]
            && (forall i :: 0 <= i < |calls| - |kept| ==> now - calls[i] >= period)
            && (kept != [] ==> now - kept[0] < period)
  {
    if calls != [] && now - calls[0] >= period {
      ExpiredRetains(calls[1..], period, now);
      var kept := Expired(calls[1..], period, now);
      assert calls[1..][|calls[1..]| - |kept|..] == calls[|calls| - |kept|..];
      assert forall i :: 1 <= i < |calls| - |kept| ==> calls[i] == calls[1..][i - 1];
    }
  }

  /** The deque is the recent end of the grants: what left it is a full period old. */
  ghost predicate HoldsRecent(grants: seq<real>, calls: seq<real>, max: nat, period: real, now: real) {
    && |calls| <= max && |calls| <= |grants|
    && calls == grants[|grants| - |calls|..]
    && forall i :: 0 <= i < |grants| - |calls| ==> now - grants[i] >= period
  }

  /** Expiring calls keeps the deque at the recent end of the grants. */
  lemma {:induction false} ExpiredHoldsRecent(grants: seq<real>, calls: seq<real>, max: nat, period: real, before: real,
                                              now: real)
    requires before <= now && HoldsRecent(grants, calls, max, period, before)
    ensures HoldsRecent(grants, Expired(calls, period, now), max, period, now)
  {
    ExpiredRetains(calls, period, now);
    var kept := Expired(calls, period, now);
    assert kept == grants[|grants| - |kept|..];
    forall i | 0 <= i < |grants| - |kept|
      ensures now - grants[i] >= period
    {
      if i >= |grants| - |calls| { assert grants[i] == calls[i - (|grants| - |calls|)]; }
    }
  }

  /** A slot granted next to fewer than `max` recent calls is a period away from the one `max` before it. */
  lemma {:induction false} GrantKeepsSpacing(grants: seq<real>, kept: seq<real>, max: nat, period: real, now: real)
    requires Spaced(grants, max, period) && HoldsRecent(grants, kept, max, period, now) && |kept| < max
    ensures Spaced(grants + [now], max, period) && HoldsRecent(grants + [now], kept + [now], max, period, now)
  {
    var grown := grants + [now];
    assert grown[|grown| - |kept| - 1..] == kept + [now];
  }

  lemma {:induction false} AcquireKeepsSpacing(grants: seq<real>, calls: seq<real>, max: nat, period: real,
                                               before: real, now: real)
    requires max > 0 && before <= now && Spaced(grants, max, period) && HoldsRecent(grants, calls, max, period, before)
    ensures var (kept, granted) := Acquired(calls, max, period, now);
            var after := if granted then grants + [now] else grants;
            Spaced(after, max, period) && HoldsRecent(after, kept, max, period, now)
  {
    var kept := Expired(calls, period, now);
    ExpiredHoldsRecent(grants, calls, max, period, before, now);
    if |kept| < max {
      GrantKeepsSpacing(grants, kept, max, period, now);
    }
  }

  /**
   Over any sequence of attempts on a clock that never runs backwards, the limiter
   grants at most `max` slots in any half-open period.
   */
  lemma {:induction false} GrantsAreSpaced(readings: seq<real>, max: nat, period: real)
    requires max > 0 && forall i, j :: 0 <= i < j < |readings| ==> readings[i] <= readings[j]
    ensures Spaced(Granted(readings, max, period), max, period)
    ensures readings != [] ==>
              HoldsRecent(Granted(readings, max, period), Calls(readings, max, period), max, period,
                          readings[|readings| - 1])
  {
    if readings != [] {
      var init, now := readings[..|readings| - 1], readings[|readings| - 1];
      GrantsAreSpaced(init, max, period);
      AcquireKeepsSpacing(Granted(init, max, period), Calls(init, max, period), max, period,
                          if init == [] then now else init[|init| - 1], now);
    }
  }

  /**
   A slot is granted exactly when fewer than `max` grants lie within the last period:
   the deque of recent calls answers for the whole history.
   */
  lemma {:induction false} GrantIsNaive(readings: seq<real>, max: nat, period: real, now: real)
    requires max > 0 && forall i, j :: 0 <= i < j < |readings| ==> readings[i] <= readings[j]
    requires readings != [] ==> readings[|readings| - 1] <= now
    ensures var grants := Granted(readings, max, period);
            Acquired(Calls(readings, max, period), max, period, now).1 <==>
              |grants| < max || now - grants[|grants| - max] >= period
  {
    GrantsAreSpaced(readings, max, period);
    RecentDecides(Granted(readings, max, period), Calls(readings, max, period), max, period,
                  if readings == [] then now else readings[|readings| - 1], now);
  }

  lemma {:induction false} RecentDecides(grants: seq<real>, calls: seq<real>, max: nat, period: real, before: real,
                                         now: real)
    requires max > 0 && before <= now && HoldsRecent(grants, calls, max, period, before)
    ensures Acquired(calls, max, period, now).1 <==> |grants| < max || now - grants[|grants| - max] >= period
  {
    ExpiredHoldsRecent(grants, calls, max, period, before, now);
    ExpiredRetains(calls, period, now);
    var kept := Expired(calls, period, now);
    if |kept| == max {
      assert kept[0] == grants[|grants| - max];
    } else if |grants| >= max {
      assert 0 <= |grants| - max < |grants| - |kept|;
    }
  }

  /** The wait handed to `sleep` is exact: an undisturbed retry is refused before it and granted at it. */
  lemma {:induction false} AcquireWaitIsExact(calls: seq<real>, max: nat, period: real, now: real, later: real)
    requires max > 0 && later >= now
    requires |Expired(calls, period, now)| == max
    ensures var kept := Expired(calls, period, now);
            Acquired(kept, max, period, later).1 <==> later >= now + (period - (now - kept[0]))
  {
    var kept := Expired(calls, period, now);
    ExpiredRetains(kept[1..], period, later);
  }

  class AsyncRateLimiter {
    const maxCalls: nat
    const period: real
    var calls: seq<real>

    constructor (maxCalls: nat, period: real)
      ensures this.maxCalls == maxCalls && this.period == period && calls == []
    {
      this.maxCalls, this.period, calls := maxCalls, period, [];
    }

    /** One turn of the loop in `acquire`, under the lock: a slot, or how long to sleep. */
    method TryAcquire(now: real) returns (granted: bool, waitFor: real)
      requires maxCalls > 0
      modifies this
      ensures (calls, granted) == Acquired(old(calls), maxCalls, period, now)
      ensures !granted ==> calls != [] && waitFor == period - (now - calls[0])
    {
      while calls != [] && now - calls[0] >= period
        invariant Expired(calls, period, now) == Expired(old(calls), period, now)
        decreases |calls|
      {
        calls := calls[1..];
      }
      if |calls| < maxCalls {
        calls := calls + [now];
        return true, 0.0;
      }
      granted, waitFor := false, period - (now - calls[0]);
    }
  }
}
