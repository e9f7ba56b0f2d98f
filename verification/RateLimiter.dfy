/**
The in-memory sliding-window rate limiter (common/rate-limit.go): per key a bounded queue of
acceptance times, purged in the background. It is compared with an ideal limiter that keeps
every acceptance of every key for ever.
*/
module RateLimiter {

  /** At most `max` acceptances in any `duration` seconds. */
  datatype Limit = Limit(max: nat, duration: int)

  /** The limit each key is used with, the expiration in whole seconds after which the background
      task drops an idle key, and whether there is such a task: not for an expiration of zero. */
  datatype Policy = Policy(limit: string -> Limit, expiration: nat, sweeps: bool)

  datatype Event = Request(key: string, now: int) | Cleanup(now: int)

  type Store = map<string, seq<int>>

  // ----- the limiter as a function of its store -----

  predicate NoEmptyQueue(store: Store) {
    forall key :: key in store ==> store[key] != []
  }

  function Queue(store: Store, key: string): seq<int> {
    if key in store then store[key] else []
  }

  predicate Admits(queue: seq<int>, limit: Limit, now: int) {
    queue == [] || |queue| < limit.max || now - queue[0] >= limit.duration
  }

  function Admit(store: Store, key: string, limit: Limit, now: int): (r: Store)
    requires NoEmptyQueue(store)
    ensures NoEmptyQueue(r)
  {
    var q := Queue(store, key);
    if !Admits(q, limit, now) then store
    else if q == [] || |q| < limit.max then store[key := q + [now]]
    else store[key := q[1..] + [now]]
  }

  predicate Idle(queue: seq<int>, expiration: nat, now: int)
    requires queue != []
  {
    now - queue[|queue| - 1] > expiration
  }

  function Purge(store: Store, expiration: nat, now: int): (r: Store)
    requires NoEmptyQueue(store)
    ensures NoEmptyQueue(r)
  {
    map key | key in store && !Idle(store[key], expiration, now) :: store[key]
  }

  // ----- the ideal limiter -----

  /** How many acceptances lie less than `duration` seconds before `now`. */
  function Recent(history: seq<int>, now: int, duration: int): (n: nat)
    ensures n <= |history|
  {
    if history == [] then 0
    else
      var k := |history| - 1;
      Recent(history[..k], now, duration) + if now - history[k] < duration then 1 else 0
  }

  predicate Allows(history: seq<int>, limit: Limit, now: int) {
    Recent(history, now, limit.duration) < limit.max
  }

  // ----- runs -----

  datatype Code = Code(store: Store, ok: seq<bool>)
  datatype Ideal = Ideal(history: Store, ok: seq<bool>)

  function CodeRun(p: Policy, events: seq<Event>): (r: Code)
    ensures NoEmptyQueue(r.store)
  {
    if events == [] then Code(map[], [])
    else
      var s := CodeRun(p, events[..|events| - 1]);
      match events[|events| - 1]
      case Cleanup(now) => if p.sweeps then s.(store := Purge(s.store, p.expiration, now)) else s
      case Request(key, now) =>
        Code(Admit(s.store, key, p.limit(key), now), s.ok + [Admits(Queue(s.store, key), p.limit(key), now)])
  }

  function IdealStep(p: Policy, s: Ideal, key: string, now: int): Ideal {
    var h := Queue(s.history, key);
    if Allows(h, p.limit(key), now) then Ideal(s.history[key := h + [now]], s.ok + [true])
    else s.(ok := s.ok + [false])
  }

  function IdealRun(p: Policy, events: seq<Event>): Ideal {
    if events == [] then Ideal(map[], [])
    else
      var s := IdealRun(p, events[..|events| - 1]);
      match events[|events| - 1]
      case Cleanup(_) => s
      case Request(key, now) => IdealStep(p, s, key, now)
  }

  predicate Monotone(events: seq<Event>) {
    forall i, j :: 0 <= i <= j < |events| ==> events[i].now <= events[j].now
  }

  /** The limits the limiter can keep: at least one request, and an idle key is dropped only
      when all its acceptances have left the window. */
  predicate Keepable(limit: Limit, p: Policy) {
    limit.max >= 1 && (p.sweeps ==> limit.duration <= p.expiration + 1)
  }

  // ----- one key -----

  ghost predicate Sorted(h: seq<int>) {
    forall i, j :: 0 <= i <= j < |h| ==> h[i] <= h[j]
  }

  ghost predicate Stale(h: seq<int>, now: int, duration: int) {
    forall i :: 0 <= i < |h| ==> now - h[i] >= duration
  }

  /** The history is what the queue forgot followed by the queue, and what was forgotten
      cannot matter any more unless the queue is full. */
  ghost predicate Linked(forgotten: seq<int>, queue: seq<int>, limit: Limit, clock: int) {
    && Sorted(forgotten + queue)
    && (forall i :: 0 <= i < |forgotten + queue| ==> (forgotten + queue)[i] <= clock)
    && |queue| <= limit.max
    && (|queue| < limit.max ==> Stale(forgotten, clock, limit.duration))
  }

  lemma {:induction false} RecentConcat(a: seq<int>, b: seq<int>, now: int, duration: int)
    ensures Recent(a + b, now, duration) == Recent(a, now, duration) + Recent(b, now, duration)
  {
    if b == [] {
      assert a + b == a;
    } else {
      var k := |b| - 1;
      assert (a + b)[..|a| + k] == a + b[..k];
      RecentConcat(a, b[..k], now, duration);
    }
  }

  lemma {:induction false} RecentStale(h: seq<int>, now: int, duration: int)
    requires Stale(h, now, duration)
    ensures Recent(h, now, duration) == 0
  {
    if h != [] {
      RecentStale(h[..|h| - 1], now, duration);
    }
  }

  lemma {:induction false} RecentFresh(h: seq<int>, now: int, duration: int)
    requires forall i :: 0 <= i < |h| ==> now - h[i] < duration
    ensures Recent(h, now, duration) == |h|
  {
    if h != [] {
      RecentFresh(h[..|h| - 1], now, duration);
    }
  }

  /** The bounded queue decides as the full history does. */
  lemma SameDecision(forgotten: seq<int>, queue: seq<int>, limit: Limit, clock: int, now: int)
    requires Linked(forgotten, queue, limit, clock) && limit.max >= 1 && clock <= now
    ensures Admits(queue, limit, now) <==> Allows(forgotten + queue, limit, now)
  {
    RecentConcat(forgotten, queue, now, limit.duration);
    if |queue| < limit.max {
      RecentStale(forgotten, now, limit.duration);
    } else if now - queue[0] >= limit.duration {
      ForgottenStale(forgotten, queue, limit, clock, now);
      RecentStale(forgotten, now, limit.duration);
      RecentButFirst(queue, now, limit.duration);
    } else {
      assert forall i :: 0 <= i < |queue| ==> (forgotten + queue)[|forgotten| + i] == queue[i];
      RecentFresh(queue, now, limit.duration);
    }
  }

  lemma ForgottenStale(forgotten: seq<int>, queue: seq<int>, limit: Limit, clock: int, now: int)
    requires Linked(forgotten, queue, limit, clock) && queue != [] && now - queue[0] >= limit.duration
    ensures Stale(forgotten, now, limit.duration)
  {
    var h := forgotten + queue;
    forall i | 0 <= i < |forgotten|
      ensures now - forgotten[i] >= limit.duration
    {
      assert h[i] <= h[|forgotten|];
    }
  }

  lemma RecentButFirst(queue: seq<int>, now: int, duration: int)
    requires queue != [] && now - queue[0] >= duration
    ensures Recent(queue, now, duration) < |queue|
  {
    assert queue == [queue[0]] + queue[1..];
    RecentConcat([queue[0]], queue[1..], now, duration);
    RecentStale([queue[0]], now, duration);
  }

  lemma LinkedLater(forgotten: seq<int>, queue: seq<int>, limit: Limit, clock: int, now: int)
    requires Linked(forgotten, queue, limit, clock) && clock <= now
    ensures Linked(forgotten, queue, limit, now)
  {
  }

  lemma LinkedAppend(forgotten: seq<int>, queue: seq<int>, limit: Limit, now: int)
    requires Linked(forgotten, queue, limit, now) && |queue| < limit.max
    ensures Linked(forgotten, queue + [now], limit, now)
  {
    assert forgotten + (queue + [now]) == (forgotten + queue) + [now];
  }

  lemma LinkedShift(forgotten: seq<int>, queue: seq<int>, limit: Limit, now: int)
    requires Linked(forgotten, queue, limit, now) && |queue| == limit.max && queue != []
    ensures Linked(forgotten + [queue[0]], queue[1..] + [now], limit, now)
    ensures (forgotten + [queue[0]]) + (queue[1..] + [now]) == (forgotten + queue) + [now]
  {
    assert (forgotten + [queue[0]]) + (queue[1..] + [now]) == (forgotten + queue) + [now];
  }

  lemma LinkedDrop(forgotten: seq<int>, queue: seq<int>, limit: Limit, p: Policy, now: int)
    requires Linked(forgotten, queue, limit, now) && queue != []
    requires Keepable(limit, p) && p.sweeps && Idle(queue, p.expiration, now)
    ensures Linked(forgotten + queue, [], limit, now)
  {
    var h := forgotten + queue;
    assert h + [] == h;
    forall i | 0 <= i < |h|
      ensures now - h[i] >= limit.duration
    {
      assert h[i] <= h[|h| - 1] == queue[|queue| - 1];
    }
  }

  // ----- all keys, all runs -----

  /** What a run has forgotten about a key. */
  ghost function Forgotten(p: Policy, events: seq<Event>, key: string): seq<int> {
    if events == [] then []
    else
      var k := |events| - 1;
      var f, store := Forgotten(p, events[..k], key), CodeRun(p, events[..k]).store;
      match events[k]
      case Cleanup(now) => if p.sweeps && key in store && Idle(store[key], p.expiration, now) then f + store[key] else f
      case Request(asked, now) =>
        var q := Queue(store, key);
        if asked == key && q != [] && |q| >= p.limit(key).max && Admits(q, p.limit(key), now) then f + [q[0]] else f
  }

  ghost predicate Mirrors(p: Policy, events: seq<Event>, key: string, clock: int) {
    var f, q := Forgotten(p, events, key), Queue(CodeRun(p, events).store, key);
    Linked(f, q, p.limit(key), clock) && Queue(IdealRun(p, events).history, key) == f + q
  }

  lemma MirrorsCleanup(p: Policy, events: seq<Event>, key: string, now: int)
    requires Mirrors(p, events, key, now) && Keepable(p.limit(key), p)
    ensures Mirrors(p, events + [Cleanup(now)], key, now)
  {
    var next := events + [Cleanup(now)];
    assert next[..|events|] == events;
    var f, store := Forgotten(p, events, key), CodeRun(p, events).store;
    if p.sweeps && key in store && Idle(store[key], p.expiration, now) {
      LinkedDrop(f, store[key], p.limit(key), p, now);
      assert (f + store[key]) + [] == f + store[key];
    }
  }

  lemma MirrorsRequest(p: Policy, events: seq<Event>, key: string, now: int)
    requires Mirrors(p, events, key, now) && Keepable(p.limit(key), p)
    ensures Mirrors(p, events + [Request(key, now)], key, now)
    ensures Admits(Queue(CodeRun(p, events).store, key), p.limit(key), now)
       <==> Allows(Queue(IdealRun(p, events).history, key), p.limit(key), now)
  {
    var next := events + [Request(key, now)];
    assert next[..|events|] == events;
    var f, store := Forgotten(p, events, key), CodeRun(p, events).store;
    var q := Queue(store, key);
    SameDecision(f, q, p.limit(key), now, now);
    if Admits(q, p.limit(key), now) {
      if |q| < p.limit(key).max {
        LinkedAppend(f, q, p.limit(key), now);
        assert f + (q + [now]) == (f + q) + [now];
      } else {
        LinkedShift(f, q, p.limit(key), now);
      }
    }
  }

  lemma MirrorsOther(p: Policy, events: seq<Event>, key: string, asked: string, now: int)
    requires Mirrors(p, events, key, now) && asked != key
    ensures Mirrors(p, events + [Request(asked, now)], key, now)
  {
    var next := events + [Request(asked, now)];
    assert next[..|events|] == events;
  }

  lemma {:induction false} MirrorsRun(p: Policy, events: seq<Event>, key: string, clock: int)
    requires Monotone(events) && forall k :: Keepable(p.limit(k), p)
    requires events != [] ==> events[|events| - 1].now <= clock
    ensures Mirrors(p, events, key, clock)
  {
    if events != [] {
      var k := |events| - 1;
      var now := events[k].now;
      assert events == events[..k] + [events[k]];
      MirrorsRun(p, events[..k], key, now);
      match events[k] {
        case Cleanup(_) => MirrorsCleanup(p, events[..k], key, now);
        case Request(asked, _) =>
          if asked == key {
            MirrorsRequest(p, events[..k], key, now);
          } else {
            MirrorsOther(p, events[..k], key, asked, now);
          }
      }
      LinkedLater(Forgotten(p, events, key), Queue(CodeRun(p, events).store, key), p.limit(key), now, clock);
    }
  }

  /** Every decision of every run equals that of the ideal limiter. */
  lemma {:induction false} Exact(p: Policy, events: seq<Event>)
    requires Monotone(events) && forall k :: Keepable(p.limit(k), p)
    ensures CodeRun(p, events).ok == IdealRun(p, events).ok
  {
    if events != [] {
      var k := |events| - 1;
      Exact(p, events[..k]);
      if events[k].Request? {
        MirrorsRun(p, events[..k], events[k].key, events[k].now);
        MirrorsRequest(p, events[..k], events[k].key, events[k].now);
      }
    }
  }

  // ----- when the limiter is exact -----

  function Burst(key: string, n: nat): (events: seq<Event>)
    ensures |events| == n && Monotone(events)
  {
    seq(n, _ => Request(key, 0))
  }

  function Zeros(n: nat): seq<int> {
    seq(n, _ => 0)
  }

  lemma BurstSnoc(key: string, n: nat)
    requires n > 0
    ensures Burst(key, n)[..n - 1] == Burst(key, n - 1) && Burst(key, n)[n - 1] == Request(key, 0)
    ensures Zeros(n - 1) + [0] == Zeros(n)
  {
  }

  lemma {:induction false} BurstQueued(p: Policy, key: string, n: nat)
    requires n <= p.limit(key).max
    ensures Queue(CodeRun(p, Burst(key, n)).store, key) == Zeros(n) && |CodeRun(p, Burst(key, n)).ok| == n
  {
    if n > 0 {
      BurstQueued(p, key, n - 1);
      BurstSnoc(key, n);
    }
  }

  lemma {:induction false} BurstRecorded(p: Policy, key: string, n: nat)
    requires n <= p.limit(key).max && p.limit(key).duration > 0
    ensures Queue(IdealRun(p, Burst(key, n)).history, key) == Zeros(n) && |IdealRun(p, Burst(key, n)).ok| == n
  {
    if n > 0 {
      BurstRecorded(p, key, n - 1);
      BurstSnoc(key, n);
      RecentFresh(Zeros(n - 1), 0, p.limit(key).duration);
    }
  }

  lemma BurstAccepted(p: Policy, key: string, n: nat)
    requires n <= p.limit(key).max && p.limit(key).duration > 0
    ensures Queue(CodeRun(p, Burst(key, n)).store, key) == Zeros(n)
    ensures Queue(IdealRun(p, Burst(key, n)).history, key) == Zeros(n)
    ensures |CodeRun(p, Burst(key, n)).ok| == |IdealRun(p, Burst(key, n)).ok| == n
  {
    BurstQueued(p, key, n);
    BurstRecorded(p, key, n);
  }

  /** A full window is forgotten when the key expires too early. */
  lemma TooShortExpiration(p: Policy, key: string) returns (events: seq<Event>)
    requires p.limit(key).max >= 1 && p.sweeps && p.limit(key).duration > p.expiration + 1
    ensures Monotone(events) && CodeRun(p, events).ok != IdealRun(p, events).ok
  {
    var n, now := p.limit(key).max, p.expiration + 1;
    BurstAccepted(p, key, n);
    var idle := Burst(key, n) + [Cleanup(now)];
    events := idle + [Request(key, now)];
    assert events[..n + 1] == idle && idle[..n] == Burst(key, n);
    assert Queue(CodeRun(p, idle).store, key) == [];
    assert Queue(IdealRun(p, idle).history, key) == Zeros(n);
    RecentFresh(Zeros(n), now, p.limit(key).duration);
    assert CodeRun(p, events).ok[n] && !IdealRun(p, events).ok[n];
  }

  lemma NothingAllowed(p: Policy, key: string) returns (events: seq<Event>)
    requires p.limit(key).max == 0
    ensures Monotone(events) && CodeRun(p, events).ok != IdealRun(p, events).ok
  {
    events := [Request(key, 0)];
    assert events[..0] == [];
    assert CodeRun(p, events).ok == [true] && IdealRun(p, events).ok == [false];
  }

  /** Over all runs the limiter is exact just when every limit in use is keepable. */
  lemma ExactIff(p: Policy)
    ensures (forall events :: Monotone(events) ==> CodeRun(p, events).ok == IdealRun(p, events).ok)
       <==> (forall key :: Keepable(p.limit(key), p))
  {
    if key :| !Keepable(p.limit(key), p) {
      var events;
      if p.limit(key).max == 0 {
        events := NothingAllowed(p, key);
      } else {
        events := TooShortExpiration(p, key);
      }
    } else {
      forall events | Monotone(events)
        ensures CodeRun(p, events).ok == IdealRun(p, events).ok
      {
        Exact(p, events);
      }
    }
  }

  // ----- no window is overfull -----

  /** How many acceptances lie in the `duration` seconds from `start` on. */
  function InWindow(history: seq<int>, start: int, duration: int): nat {
    if history == [] then 0
    else
      var k := |history| - 1;
      InWindow(history[..k], start, duration) + if start <= history[k] < start + duration then 1 else 0
  }

  ghost predicate Paced(history: seq<int>, limit: Limit) {
    forall i :: 0 <= i < |history| ==> Allows(history[..i], limit, history[i])
  }

  lemma {:induction false} WindowWithinRecent(history: seq<int>, start: int, duration: int, now: int)
    requires now < start + duration
    ensures InWindow(history, start, duration) <= Recent(history, now, duration)
  {
    if history != [] {
      WindowWithinRecent(history[..|history| - 1], start, duration, now);
    }
  }

  lemma {:induction false} PacedWindow(history: seq<int>, limit: Limit, start: int)
    requires Paced(history, limit)
    ensures InWindow(history, start, limit.duration) <= limit.max
  {
    if history != [] {
      var k := |history| - 1;
      forall i | 0 <= i < k
        ensures Allows(history[..k][..i], limit, history[..k][i])
      {
        assert history[..k][..i] == history[..i];
      }
      PacedWindow(history[..k], limit, start);
      if start <= history[k] < start + limit.duration {
        WindowWithinRecent(history[..k], start, limit.duration, history[k]);
      }
    }
  }

  lemma {:induction false} IdealPaced(p: Policy, events: seq<Event>, key: string)
    ensures Paced(Queue(IdealRun(p, events).history, key), p.limit(key))
  {
    if events != [] {
      var k := |events| - 1;
      IdealPaced(p, events[..k], key);
      var h, h' := Queue(IdealRun(p, events[..k]).history, key), Queue(IdealRun(p, events).history, key);
      if h != h' {
        assert h' == h + [events[k].now];
        forall i | 0 <= i < |h'|
          ensures Allows(h'[..i], p.limit(key), h'[i])
        {
          assert h'[..i] == h[..i];
        }
      }
    }
  }

  /** The acceptance times of a key, read off a run's decisions. */
  function Accepted(events: seq<Event>, ok: seq<bool>, key: string): seq<int> {
    if events == [] || ok == [] then []
    else
      var k, r := |events| - 1, |ok| - 1;
      match events[k]
      case Cleanup(_) => Accepted(events[..k], ok, key)
      case Request(asked, now) =>
        Accepted(events[..k], ok[..r], key) + if asked == key && ok[r] then [now] else []
  }

  lemma {:induction false} AcceptedIsHistory(p: Policy, events: seq<Event>, key: string)
    ensures Accepted(events, IdealRun(p, events).ok, key) == Queue(IdealRun(p, events).history, key)
  {
    if events != [] {
      var k := |events| - 1;
      AcceptedIsHistory(p, events[..k], key);
      var s, s' := IdealRun(p, events[..k]), IdealRun(p, events);
      if events[k].Request? {
        assert s'.ok[..|s'.ok| - 1] == s.ok;
      } else if s'.ok == [] {
        NoDecisions(p, events, key);
      }
    }
  }

  lemma {:induction false} NoDecisions(p: Policy, events: seq<Event>, key: string)
    requires IdealRun(p, events).ok == []
    ensures Queue(IdealRun(p, events).history, key) == []
  {
    if events != [] {
      NoDecisions(p, events[..|events| - 1], key);
    }
  }

  /** In every run no `duration` seconds hold more than `max` acceptances of a key. */
  lemma NoOverfullWindow(p: Policy, events: seq<Event>, key: string, start: int)
    requires Monotone(events) && forall k :: Keepable(p.limit(k), p)
    ensures InWindow(Accepted(events, CodeRun(p, events).ok, key), start, p.limit(key).duration) <= p.limit(key).max
  {
    Exact(p, events);
    AcceptedIsHistory(p, events, key);
    IdealPaced(p, events, key);
    PacedWindow(Queue(IdealRun(p, events).history, key), p.limit(key), start);
  }

  // ----- a refusal means a full window -----

  lemma {:induction false} RecentIsWindow(h: seq<int>, now: int, duration: int)
    requires forall i :: 0 <= i < |h| ==> h[i] <= now
    ensures Recent(h, now, duration) == InWindow(h, now - duration + 1, duration)
  {
    if h != [] {
      RecentIsWindow(h[..|h| - 1], now, duration);
    }
  }

  lemma HistoryBefore(p: Policy, events: seq<Event>, key: string, now: int)
    requires Monotone(events) && forall k :: Keepable(p.limit(k), p)
    requires events != [] ==> events[|events| - 1].now <= now
    ensures var h := Queue(IdealRun(p, events).history, key); forall i :: 0 <= i < |h| ==> h[i] <= now
  {
    MirrorsRun(p, events, key, now);
  }

  lemma RequestSnoc(p: Policy, events: seq<Event>, key: string, now: int)
    ensures CodeRun(p, events + [Request(key, now)]).ok
         == CodeRun(p, events).ok + [Admits(Queue(CodeRun(p, events).store, key), p.limit(key), now)]
  {
    assert (events + [Request(key, now)])[..|events|] == events;
  }

  lemma AllowsIff(h: seq<int>, limit: Limit, now: int)
    requires forall i :: 0 <= i < |h| ==> h[i] <= now
    ensures Allows(h, limit, now) <==> InWindow(h, now - limit.duration + 1, limit.duration) < limit.max
  {
    RecentIsWindow(h, now, limit.duration);
  }

  lemma AcceptedByCode(p: Policy, events: seq<Event>, key: string)
    requires Monotone(events) && forall k :: Keepable(p.limit(k), p)
    ensures Accepted(events, CodeRun(p, events).ok, key) == Queue(IdealRun(p, events).history, key)
  {
    Exact(p, events);
    AcceptedIsHistory(p, events, key);
  }

  lemma DecidesAlike(p: Policy, events: seq<Event>, key: string, now: int)
    requires Monotone(events) && forall k :: Keepable(p.limit(k), p)
    requires events != [] ==> events[|events| - 1].now <= now
    ensures Admits(Queue(CodeRun(p, events).store, key), p.limit(key), now)
       <==> Allows(Queue(IdealRun(p, events).history, key), p.limit(key), now)
  {
    MirrorsRun(p, events, key, now);
    MirrorsRequest(p, events, key, now);
  }

  /** Whether the seconds that end with a request hold fewer acceptances of its key than the limit allows. */
  predicate RoomAt(p: Policy, events: seq<Event>, key: string, now: int) {
    var limit := p.limit(key);
    InWindow(Accepted(events, CodeRun(p, events).ok, key), now - limit.duration + 1, limit.duration) < limit.max
  }

  lemma RoomIff(p: Policy, events: seq<Event>, key: string, now: int, h: seq<int>)
    requires Accepted(events, CodeRun(p, events).ok, key) == h && forall i :: 0 <= i < |h| ==> h[i] <= now
    ensures RoomAt(p, events, key, now) <==> Allows(h, p.limit(key), now)
  {
    AllowsIff(h, p.limit(key), now);
  }

  /** After any run a request is accepted exactly when there is room at that moment. */
  lemma AcceptedIff(p: Policy, events: seq<Event>, key: string, now: int)
    requires Monotone(events) && forall k :: Keepable(p.limit(k), p)
    requires events != [] ==> events[|events| - 1].now <= now
    ensures CodeRun(p, events + [Request(key, now)]).ok == CodeRun(p, events).ok + [RoomAt(p, events, key, now)]
  {
    RequestSnoc(p, events, key, now);
    DecidesAlike(p, events, key, now);
    AcceptedByCode(p, events, key);
    HistoryBefore(p, events, key, now);
    RoomIff(p, events, key, now, Queue(IdealRun(p, events).history, key));
  }

  // ----- the limiter -----

  class InMemoryRateLimiter {
    var store: Store
    const expiration: nat

    constructor (expiration: nat)
      ensures store == map[] && this.expiration == expiration
    {
      this.store, this.expiration := map[], expiration;
    }

    /** Drops the idle keys; the keys are visited in an arbitrary order. */
    method ClearExpiredItems(now: int)
      requires NoEmptyQueue(store)
      modifies this
      ensures store == Purge(old(store), expiration, now)
    {
      var keys := store.Keys;
      while keys != {}
        invariant keys <= store.Keys <= old(store).Keys
        invariant forall key :: key in store ==> store[key] == old(store)[key]
        invariant forall key :: key in old(store) && key !in store ==> Idle(old(store)[key], expiration, now)
        invariant forall key :: key in store && key !in keys ==> !Idle(store[key], expiration, now)
      {
        var key :| key in keys;
        keys := keys - {key};
        var queue := store[key];
        var size := |queue|;
        if size == 0 || now - queue[size - 1] > expiration {
          store := store - {key};
        }
      }
    }

    method Request(key: string, maxRequestNum: nat, duration: int, now: int) returns (ok: bool)
      requires NoEmptyQueue(store)
      modifies this
      ensures store == Admit(old(store), key, Limit(maxRequestNum, duration), now)
      ensures ok == Admits(Queue(old(store), key), Limit(maxRequestNum, duration), now)
    {
      if key in store {
        var queue := store[key];
        if |queue| < maxRequestNum {
          store := store[key := queue + [now]];
          return true;
        } else {
          if now - queue[0] >= duration {
            queue := queue[1..];
            queue := queue + [now];
            store := store[key := queue];
            return true;
          } else {
            return false;
          }
        }
      } else {
        store := store[key := []];
        store := store[key := store[key] + [now]];
      }
      return true;
    }
  }

  /** A limiter driven through any run answers as the ideal limiter. */
  method Replay(p: Policy, events: seq<Event>) returns (ok: seq<bool>)
    requires Monotone(events) && forall k :: Keepable(p.limit(k), p)
    ensures ok == IdealRun(p, events).ok
  {
    var limiter := new InMemoryRateLimiter(p.expiration);
    ok := [];
    for i := 0 to |events|
      invariant limiter.expiration == p.expiration
      invariant Code(limiter.store, ok) == CodeRun(p, events[..i])
    {
      assert events[..i + 1][..i] == events[..i];
      match events[i] {
        case Cleanup(now) => if p.sweeps { limiter.ClearExpiredItems(now); }
        case Request(key, now) =>
          var accepted := limiter.Request(key, p.limit(key).max, p.limit(key).duration, now);
          ok := ok + [accepted];
      }
    }
    assert events[..|events|] == events;
    Exact(p, events);
  }
}
