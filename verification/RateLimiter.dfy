/**
 The sliding-window rate limiter (src/api/routes.py): per client, the times of the requests accepted lately;
 clients gone stale are evicted when there are too many. Times are reals.
 */
module RateLimiter {
  import opened Collections

  type Table = map<string, seq<real>>

  /** The source's `RATE_LIMIT` and `RATE_WINDOW`, and the number of clients above which it evicts. */
  datatype Settings = Settings(limit: int, window: real, capacity: nat)

  // ------------------------------------------------------------------
  // One request
  // ------------------------------------------------------------------

  /** The times less than a window before `now`, in order. */
  function Recent(times: seq<real>, now: real, window: real): seq<real> {
    if times == [] then []
    else
      var n := |times| - 1;
      Recent(times[..n], now, window) + if now - times[n] < window then [times[n]] else []
  }

  function Latest(times: seq<real>): (t: real)
    requires times != []
    ensures t in times && forall k :: 0 <= k < |times| ==> times[k] <= t
  {
    var n := |times| - 1;
    if n == 0 then times[0]
    else
      var t := Latest(times[..n]);
      if times[n] > t then times[n] else t
  }

  predicate Stale(times: seq<real>, now: real, window: real) {
    times == [] || now - Latest(times) > window
  }

  function Evicted(table: Table, now: real, s: Settings): Table {
    if |table| > s.capacity then map c | c in table && !Stale(table[c], now, s.window) :: table[c] else table
  }

  function TimesOf(table: Table, client: string): seq<real> {
    if client in table then table[client] else []
  }

  predicate Accepts(table: Table, client: string, now: real, s: Settings) {
    |Recent(TimesOf(Evicted(table, now, s), client), now, s.window)| < s.limit
  }

  /** The table after a request: stale clients out, the client's old times out, its time in if accepted. */
  function Next(table: Table, client: string, now: real, s: Settings): Table {
    var kept := Evicted(table, now, s);
    var recent := Recent(TimesOf(kept, client), now, s.window);
    kept[client := if |recent| < s.limit then recent + [now] else recent]
  }

  class Limiter {
    const settings: Settings
    var limits: Table

    constructor (settings: Settings)
      ensures this.settings == settings && limits == map[]
    {
      this.settings := settings;
      limits := map[];
    }

    /** False is the source's status 429. An exempt client is let through and leaves no trace. */
    method Admit(client: string, exempt: bool, now: real) returns (ok: bool)
      modifies this
      ensures exempt ==> ok && limits == old(limits)
      ensures !exempt ==> ok == Accepts(old(limits), client, now, settings)
      ensures !exempt ==> limits == Next(old(limits), client, now, settings)
    {
      if exempt {
        return true;
      }
      if |limits| > settings.capacity {
        limits := map c | c in limits && !Stale(limits[c], now, settings.window) :: limits[c];
      }
      ghost var kept := limits;
      if client !in limits {
        limits := limits[client := []];
        Overwritten(kept, client, [], Recent([], now, settings.window));
      }
      var recent := Recent(limits[client], now, settings.window);
      limits := limits[client := recent];
      if |recent| >= settings.limit {
        return false;
      }
      Overwritten(kept, client, recent, recent + [now]);
      limits := limits[client := limits[client] + [now]];
      ok := true;
    }
  }

  // ------------------------------------------------------------------
  // Runs
  // ------------------------------------------------------------------

  datatype Request = Request(client: string, at: real)

  /** The clock does not go back. */
  predicate Ordered(run: seq<Request>) {
    forall i, j :: 0 <= i < j < |run| ==> run[i].at <= run[j].at
  }

  function TableAfter(run: seq<Request>, s: Settings): Table {
    if run == [] then map[]
    else
      var n := |run| - 1;
      Next(TableAfter(run[..n], s), run[n].client, run[n].at, s)
  }

  /** The requests of a run that the limiter accepts, in order. */
  function Accepted(run: seq<Request>, s: Settings): seq<Request> {
    if run == [] then []
    else
      var n := |run| - 1;
      var r := run[n];
      Accepted(run[..n], s) + if Accepts(TableAfter(run[..n], s), r.client, r.at, s) then [r] else []
  }

  /** The times of one client's requests. */
  function ClientTimes(log: seq<Request>, client: string): seq<real> {
    if log == [] then []
    else
      var n := |log| - 1;
      ClientTimes(log[..n], client) + if log[n].client == client then [log[n].at] else []
  }

  /** The limiter that forgets nothing: it decides from the whole log of accepted requests. */
  predicate Fits(log: seq<Request>, r: Request, s: Settings) {
    |Recent(ClientTimes(log, r.client), r.at, s.window)| < s.limit
  }

  // ------------------------------------------------------------------
  // Forgetting changes nothing
  // ------------------------------------------------------------------

  lemma {:induction false} RecentAppend(a: seq<real>, b: seq<real>, now: real, window: real)
    ensures Recent(a + b, now, window) == Recent(a, now, window) + Recent(b, now, window)
    decreases |b|
  {
    if b != [] {
      var n := |b| - 1;
      assert (a + b)[..|a + b| - 1] == a + b[..n];
      RecentAppend(a, b[..n], now, window);
    } else {
      assert a + b == a;
    }
  }

  /** Looking back from a later time sees a part of what was seen before. */
  lemma {:induction false} RecentLater(times: seq<real>, now: real, later: real, window: real)
    requires now <= later
    ensures Recent(Recent(times, now, window), later, window) == Recent(times, later, window)
    decreases |times|
  {
    if times != [] {
      var n := |times| - 1;
      RecentLater(times[..n], now, later, window);
      var last := if now - times[n] < window then [times[n]] else [];
      RecentAppend(Recent(times[..n], now, window), last, later, window);
    }
  }

  lemma {:induction false} NothingRecent(times: seq<real>, now: real, window: real)
    requires forall k :: 0 <= k < |times| ==> now - times[k] >= window
    ensures Recent(times, now, window) == []
    decreases |times|
  {
    if times != [] {
      NothingRecent(times[..|times| - 1], now, window);
    }
  }

  /** The table remembers, of every client, whatever can still matter at `now` or later. */
  ghost predicate Remembers(table: Table, log: seq<Request>, now: real, window: real) {
    forall client, later ::
      later >= now ==> Recent(TimesOf(table, client), later, window) == Recent(ClientTimes(log, client), later, window)
  }

  lemma {:induction false} EvictionForgetsNothing(table: Table, log: seq<Request>, now: real, s: Settings)
    requires Remembers(table, log, now, s.window)
    ensures Remembers(Evicted(table, now, s), log, now, s.window)
  {
    forall client, later | later >= now
      ensures Recent(TimesOf(Evicted(table, now, s), client), later, s.window) ==
              Recent(ClientTimes(log, client), later, s.window)
    {
      assert Recent(TimesOf(table, client), later, s.window) == Recent(ClientTimes(log, client), later, s.window);
      if client in table && client !in Evicted(table, now, s) {
        NothingRecent(table[client], later, s.window);
      }
    }
  }

  lemma {:induction false} ClientTimesMore(log: seq<Request>, r: Request, client: string)
    ensures ClientTimes(log + [r], client) ==
            if r.client == client then ClientTimes(log, client) + [r.at] else ClientTimes(log, client)
  {
    assert (log + [r])[..|log|] == log;
  }

  /** What is remembered of the requesting client: its recent times, and the new one if accepted. */
  lemma {:induction false} ClientIsRemembered(
    times: seq<real>, logged: seq<real>, at: real, later: real, window: real, accepted: bool)
    requires at <= later
    requires Recent(times, at, window) == Recent(logged, at, window)
    requires Recent(times, later, window) == Recent(logged, later, window)
    ensures var recent := Recent(times, at, window);
            Recent(if accepted then recent + [at] else recent, later, window) ==
            Recent(if accepted then logged + [at] else logged, later, window)
  {
    RecentLater(times, at, later, window);
    RecentAppend(Recent(times, at, window), [at], later, window);
    RecentAppend(logged, [at], later, window);
  }

  lemma {:induction false} RequestIsRemembered(table: Table, log: seq<Request>, r: Request, s: Settings)
    requires Remembers(table, log, r.at, s.window)
    ensures Accepts(table, r.client, r.at, s) <==> Fits(log, r, s)
    ensures Remembers(Next(table, r.client, r.at, s), if Fits(log, r, s) then log + [r] else log, r.at, s.window)
  {
    var kept := Evicted(table, r.at, s);
    EvictionForgetsNothing(table, log, r.at, s);
    assert Recent(TimesOf(kept, r.client), r.at, s.window) == Recent(ClientTimes(log, r.client), r.at, s.window);
    var fits := Fits(log, r, s);
    var more := if fits then log + [r] else log;
    var next := Next(table, r.client, r.at, s);
    forall client, later | later >= r.at
      ensures Recent(TimesOf(next, client), later, s.window) == Recent(ClientTimes(more, client), later, s.window)
    {
      ClientTimesMore(log, r, client);
      assert Recent(TimesOf(kept, client), later, s.window) == Recent(ClientTimes(log, client), later, s.window);
      if client == r.client {
        ClientIsRemembered(TimesOf(kept, client), ClientTimes(log, client), r.at, later, s.window, fits);
      }
    }
  }

  lemma {:induction false} OrderedPrefix(run: seq<Request>, n: nat)
    requires Ordered(run) && n <= |run|
    ensures Ordered(run[..n])
  {
  }

  lemma {:induction false} RunIsRemembered(run: seq<Request>, s: Settings, now: real)
    requires Ordered(run) && (run != [] ==> run[|run| - 1].at <= now)
    ensures Remembers(TableAfter(run, s), Accepted(run, s), now, s.window)
    decreases |run|
  {
    if run != [] {
      var n := |run| - 1;
      OrderedPrefix(run, n);
      RunIsRemembered(run[..n], s, run[n].at);
      RequestIsRemembered(TableAfter(run[..n], s), Accepted(run[..n], s), run[n], s);
      assert Accepted(run, s) ==
             if Fits(Accepted(run[..n], s), run[n], s) then Accepted(run[..n], s) + [run[n]] else Accepted(run[..n], s);
    } else {
      assert forall client :: TimesOf(map[], client) == ClientTimes([], client) == [];
    }
  }

  /**
   Pruning and eviction never change a decision: in any run on a clock that does not go back, every request
   is decided as a limiter that keeps all accepted requests for ever would decide it.
   */
  lemma {:induction false} DecisionsNeedNoMemoryLost(run: seq<Request>, k: nat, s: Settings)
    requires Ordered(run) && k < |run|
    ensures Accepts(TableAfter(run[..k], s), run[k].client, run[k].at, s) <==> Fits(Accepted(run[..k], s), run[k], s)
  {
    OrderedPrefix(run, k);
    RunIsRemembered(run[..k], s, run[k].at);
    RequestIsRemembered(TableAfter(run[..k], s), Accepted(run[..k], s), run[k], s);
  }

  /** In particular the eviction threshold does not matter: no eviction at all gives the same decisions. */
  lemma {:induction false} EvictionChangesNothing(run: seq<Request>, s: Settings, capacity: nat)
    requires Ordered(run)
    ensures Accepted(run, s) == Accepted(run, s.(capacity := capacity))
    decreases |run|
  {
    if run != [] {
      var n := |run| - 1;
      OrderedPrefix(run, n);
      EvictionChangesNothing(run[..n], s, capacity);
      DecisionsNeedNoMemoryLost(run, n, s);
      DecisionsNeedNoMemoryLost(run, n, s.(capacity := capacity));
    }
  }

  // ------------------------------------------------------------------
  // The bound
  // ------------------------------------------------------------------

  /** How many times lie in the window that ends at `end`, its start excluded. */
  function InWindow(times: seq<real>, end: real, window: real): nat {
    if times == [] then 0
    else
      var n := |times| - 1;
      InWindow(times[..n], end, window) + if end - window < times[n] <= end then 1 else 0
  }

  /** Times in a window that ends no earlier than `now` are recent at `now`, if none is after `now`. */
  lemma {:induction false} WindowIsRecent(times: seq<real>, now: real, end: real, window: real)
    requires now <= end && forall k :: 0 <= k < |times| ==> times[k] <= now
    ensures InWindow(times, end, window) <= |Recent(times, now, window)|
    decreases |times|
  {
    if times != [] {
      WindowIsRecent(times[..|times| - 1], now, end, window);
    }
  }

  /** Of times none of which is later than `now`, the recent ones are those in the window that ends then. */
  lemma {:induction false} RecentIsInWindow(times: seq<real>, now: real, window: real)
    requires forall k :: 0 <= k < |times| ==> times[k] <= now
    ensures |Recent(times, now, window)| == InWindow(times, now, window)
    decreases |times|
  {
    if times != [] {
      RecentIsInWindow(times[..|times| - 1], now, window);
    }
  }

  lemma {:induction false} AcceptedAreRequests(run: seq<Request>, s: Settings, r: Request)
    requires r in Accepted(run, s)
    ensures r in run
    decreases |run|
  {
    var n := |run| - 1;
    assert run == run[..n] + [run[n]];
    if r in Accepted(run[..n], s) {
      AcceptedAreRequests(run[..n], s, r);
    }
  }

  lemma {:induction false} ClientTimesAreInLog(log: seq<Request>, client: string, t: real)
    requires t in ClientTimes(log, client)
    ensures Request(client, t) in log
    decreases |log|
  {
    var n := |log| - 1;
    assert log == log[..n] + [log[n]];
    if t in ClientTimes(log[..n], client) {
      ClientTimesAreInLog(log[..n], client, t);
    } else {
      assert log[n] == Request(client, t);
    }
  }

  /**
   The bound the limiter is for: on a clock that does not go back, in every window, wherever it ends, at
   most `limit` requests of a client are accepted.
   */
  lemma {:induction false} WindowBound(run: seq<Request>, s: Settings, client: string, end: real)
    requires Ordered(run) && s.limit >= 0
    ensures InWindow(ClientTimes(Accepted(run, s), client), end, s.window) <= s.limit
    decreases |run|
  {
    if run != [] {
      var n := |run| - 1;
      OrderedPrefix(run, n);
      WindowBound(run[..n], s, client, end);
      AcceptedMore(run, s);
      if Fits(Accepted(run[..n], s), run[n], s) {
        OneMoreFits(run, s, client, end);
      }
    }
  }

  lemma {:induction false} AcceptedMore(run: seq<Request>, s: Settings)
    requires Ordered(run) && run != []
    ensures var n := |run| - 1; var log := Accepted(run[..n], s);
            Accepted(run, s) == if Fits(log, run[n], s) then log + [run[n]] else log
  {
    DecisionsNeedNoMemoryLost(run, |run| - 1, s);
  }

  lemma {:induction false} OneMoreFits(run: seq<Request>, s: Settings, client: string, end: real)
    requires Ordered(run) && run != []
    requires var n := |run| - 1; var log := Accepted(run[..n], s);
             Fits(log, run[n], s) && InWindow(ClientTimes(log, client), end, s.window) <= s.limit
    ensures InWindow(ClientTimes(Accepted(run[..|run| - 1], s) + [run[|run| - 1]], client), end, s.window) <= s.limit
  {
    var n := |run| - 1;
    var log, r := Accepted(run[..n], s), run[n];
    ClientTimesMore(log, r, client);
    if r.client == client {
      var times := ClientTimes(log, client);
      TimesAreEarlier(run, |run| - 1, s, client, times);
      OneMoreInWindow(times, r.at, end, s.window, s.limit);
    }
  }

  /** On such a clock nothing accepted before is later than the newest request. */
  lemma {:induction false} TimesAreEarlier(
    run: seq<Request>, k: nat, s: Settings, client: string, times: seq<real>)
    requires Ordered(run) && k < |run| && times == ClientTimes(Accepted(run[..k], s), client)
    ensures forall j :: 0 <= j < |times| ==> times[j] <= run[k].at
  {
    var log := Accepted(run[..k], s);
    forall j | 0 <= j < |times| ensures times[j] <= run[k].at {
      ClientTimesAreInLog(log, client, times[j]);
      AcceptedAreRequests(run[..k], s, Request(client, times[j]));
    }
  }

  lemma {:induction false} RecentAreInWindow(run: seq<Request>, k: nat, s: Settings, client: string)
    requires Ordered(run) && k < |run|
    ensures var times := ClientTimes(Accepted(run[..k], s), client);
            |Recent(times, run[k].at, s.window)| == InWindow(times, run[k].at, s.window)
  {
    var times := ClientTimes(Accepted(run[..k], s), client);
    TimesAreEarlier(run, k, s, client, times);
    RecentIsInWindow(times, run[k].at, s.window);
  }

  /**
   On a clock that does not go back a request is accepted exactly when fewer than the limit of its client's were
   accepted in the window that ends with it: nobody is turned away without cause.
   */
  lemma {:induction false} AcceptedExactly(run: seq<Request>, k: nat, s: Settings)
    requires Ordered(run) && k < |run|
    ensures Accepts(TableAfter(run[..k], s), run[k].client, run[k].at, s) <==>
            InWindow(ClientTimes(Accepted(run[..k], s), run[k].client), run[k].at, s.window) < s.limit
  {
    DecisionsNeedNoMemoryLost(run, k, s);
    RecentAreInWindow(run, k, s, run[k].client);
  }

  /** Above the threshold exactly the clients with a time no older than a window are kept, with all their times. */
  lemma {:induction false} EvictedExactly(table: Table, now: real, s: Settings, client: string)
    requires |table| > s.capacity
    ensures client in Evicted(table, now, s) <==>
              client in table && exists k :: 0 <= k < |table[client]| && now - table[client][k] <= s.window
    ensures client in Evicted(table, now, s) ==> Evicted(table, now, s)[client] == table[client]
  {
    if client in table && table[client] != [] {
      var t := Latest(table[client]);
      var k :| 0 <= k < |table[client]| && table[client][k] == t;
    }
  }

  lemma {:induction false} OneMoreInWindow(times: seq<real>, t: real, end: real, window: real, limit: int)
    requires InWindow(times, end, window) <= limit && |Recent(times, t, window)| < limit
    requires forall k :: 0 <= k < |times| ==> times[k] <= t
    ensures InWindow(times + [t], end, window) <= limit
  {
    assert (times + [t])[..|times|] == times;
    if t <= end {
      WindowIsRecent(times, t, end, window);
    }
  }

  // ------------------------------------------------------------------
  // A clock that goes back
  // ------------------------------------------------------------------

  lemma {:induction false} RunMore(run: seq<Request>, r: Request, s: Settings)
    ensures TableAfter(run + [r], s) == Next(TableAfter(run, s), r.client, r.at, s)
    ensures Accepted(run + [r], s) ==
            if Accepts(TableAfter(run, s), r.client, r.at, s) then Accepted(run, s) + [r] else Accepted(run, s)
  {
    assert (run + [r])[..|run|] == run;
  }

  /** The limiter accepted everything so far, all of one client, of which it has these times. */
  predicate Knows(run: seq<Request>, s: Settings, client: string, times: seq<real>) {
    Accepted(run, s) == run && TableAfter(run, s) == map[client := times]
  }

  lemma {:induction false} OnlyClient(client: string, times: seq<real>, now: real, s: Settings)
    requires !Stale(times, now, s.window) && |Recent(times, now, s.window)| < s.limit
    ensures var table := map[client := times];
            && Accepts(table, client, now, s)
            && Next(table, client, now, s) == map[client := Recent(times, now, s.window) + [now]]
  {
    var table := map[client := times];
    assert Evicted(table, now, s) == table;
    Overwritten(map[], client, times, Recent(times, now, s.window) + [now]);
  }

  lemma {:induction false} OneMoreKnown(run: seq<Request>, s: Settings, r: Request, times: seq<real>, recent: seq<real>)
    requires Knows(run, s, r.client, times) && !Stale(times, r.at, s.window)
    requires recent == Recent(times, r.at, s.window) && |recent| < s.limit
    ensures Knows(run + [r], s, r.client, recent + [r.at])
  {
    RunMore(run, r, s);
    OnlyClient(r.client, times, r.at, s);
  }

  lemma {:induction false} FirstKnown(r: Request, s: Settings)
    requires s.limit > 0
    ensures Knows([] + [r], s, r.client, [r.at])
  {
    var table: Table := map[];
    assert Evicted(table, r.at, s) == table;
    assert Recent([], r.at, s.window) == [] && [] + [r.at] == [r.at];
    assert Next(table, r.client, r.at, s) == map[r.client := [r.at]];
    RunMore([], r, s);
  }

  lemma {:induction false} RecentOne(t: real, now: real, window: real)
    ensures Recent([t], now, window) == if now - t < window then [t] else []
  {
    assert [t][..0] == [];
  }

  lemma {:induction false} RecentTwo(t: real, u: real, now: real, window: real)
    ensures Recent([t, u], now, window) == Recent([t], now, window) + Recent([u], now, window)
  {
    assert [t, u] == [t] + [u];
    RecentAppend([t], [u], now, window);
  }

  /**
   Why the clock must not go back: with a limit of two and any window, the clock jumping one window ahead and
   back lets three requests of one client through in one instant, whatever the eviction threshold.
   */
  lemma {:induction false} ClockGoingBackBreaksBound(client: string, s: Settings, now: Request, later: Request)
    requires s.limit == 2 && s.window > 0.0
    requires now == Request(client, 0.0) && later == Request(client, s.window)
    ensures var run := [] + [now] + [now] + [later] + [now];
            && Accepted(run, s) == run
            && InWindow(ClientTimes(Accepted(run, s), client), 0.0, s.window) == 3
  {
    FirstKnown(now, s);
    SecondKnown([] + [now], s, now);
    JumpKnown([] + [now] + [now], s, later);
    BackKnown([] + [now] + [now] + [later], s, now);
    FourTimes(client, now, later);
    CountInstant(s.window);
  }

  lemma {:induction false} SecondKnown(run: seq<Request>, s: Settings, r: Request)
    requires s.limit == 2 && s.window > 0.0 && r.at == 0.0 && Knows(run, s, r.client, [0.0])
    ensures Knows(run + [r], s, r.client, [0.0, 0.0])
  {
    RecentOne(0.0, 0.0, s.window);
    OneMoreKnown(run, s, r, [0.0], [0.0]);
    assert [0.0] + [0.0] == [0.0, 0.0];
  }

  /** A window later the two are forgotten. */
  lemma {:induction false} JumpKnown(run: seq<Request>, s: Settings, r: Request)
    requires s.limit == 2 && s.window > 0.0 && r.at == s.window && Knows(run, s, r.client, [0.0, 0.0])
    ensures Knows(run + [r], s, r.client, [s.window])
  {
    RecentTwo(0.0, 0.0, s.window, s.window);
    RecentOne(0.0, s.window, s.window);
    assert Latest([0.0, 0.0]) in [0.0, 0.0];
    OneMoreKnown(run, s, r, [0.0, 0.0], []);
    assert [] + [s.window] == [s.window];
  }

  /** Back again, only the one from ahead counts. */
  lemma {:induction false} BackKnown(run: seq<Request>, s: Settings, r: Request)
    requires s.limit == 2 && s.window > 0.0 && r.at == 0.0 && Knows(run, s, r.client, [s.window])
    ensures Knows(run + [r], s, r.client, [s.window] + [0.0])
  {
    RecentOne(s.window, 0.0, s.window);
    OneMoreKnown(run, s, r, [s.window], [s.window]);
  }

  lemma {:induction false} FourTimes(client: string, now: Request, later: Request)
    requires now.client == later.client == client
    ensures ClientTimes([] + [now] + [now] + [later] + [now], client) ==
            [] + [now.at] + [now.at] + [later.at] + [now.at]
  {
    ClientTimesMore([], now, client);
    ClientTimesMore([] + [now], now, client);
    ClientTimesMore([] + [now] + [now], later, client);
    ClientTimesMore([] + [now] + [now] + [later], now, client);
  }

  lemma {:induction false} InWindowMore(times: seq<real>, t: real, end: real, window: real)
    ensures InWindow(times + [t], end, window) ==
            InWindow(times, end, window) + if end - window < t <= end then 1 else 0
  {
    assert (times + [t])[..|times|] == times;
  }

  lemma {:induction false} CountInstant(window: real)
    requires window > 0.0
    ensures InWindow([] + [0.0] + [0.0] + [window] + [0.0], 0.0, window) == 3
  {
    InWindowMore([], 0.0, 0.0, window);
    InWindowMore([] + [0.0], 0.0, 0.0, window);
    InWindowMore([] + [0.0] + [0.0], window, 0.0, window);
    InWindowMore([] + [0.0] + [0.0] + [window], 0.0, 0.0, window);
  }
}
