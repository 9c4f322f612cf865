/**
  * internal/middleware/ratelimit.go. The token bucket itself is a library: it is assumed to start full, to refill at a
  * constant rate up to its burst, and to charge one token for each admitted request. A token is `cost` units, so that
  * rates below one token per nanosecond stay whole numbers.
  */
module RateLimit {
  import opened Entities

  /** Pruning forgets a client that has been silent for longer than this. */
  const IDLE := 5 * MINUTE

  datatype Config = Config(cost: int, rate: int, burst: int) {
    predicate Valid() {
      cost > 0 && rate >= 0 && burst >= 0
    }

    function Cap(): int {
      burst * cost
    }

    /** A bucket refills completely within the silence that pruning waits for, less the delay of its last request. */
    predicate Forgets(delay: int) {
      rate * (IDLE + 1 - delay) >= Cap()
    }
  }

  // ---------- The library's bucket ----------

  datatype Bucket = Bucket(tokens: int, last: int)

  function Refilled(c: Config, level: int, elapsed: int): int {
    if level + c.rate * elapsed < c.Cap() then level + c.rate * elapsed else c.Cap()
  }

  function Level(c: Config, b: Bucket, t: int): int {
    Refilled(c, b.tokens, t - b.last)
  }

  function Allow(c: Config, b: Bucket, t: int): (Bucket, bool) {
    if Level(c, b, t) >= c.cost then (Bucket(Level(c, b, t) - c.cost, t), true) else (b, false)
  }

  // ---------- The map of limiters ----------

  /** An entry points to its bucket, which lives on when the entry is deleted. The position stands for the pointer. */
  datatype Entry = Entry(id: nat, lastSeen: int)

  datatype Memory = Memory(limiters: map<string, Entry>, buckets: seq<Bucket>)

  const NO_CLIENTS := Memory(map[], [])

  function Looked(c: Config, m: Memory, ip: string, t: int): (Memory, nat) {
    if ip in m.limiters then
      (m.(limiters := m.limiters[ip := m.limiters[ip].(lastSeen := t)]), m.limiters[ip].id)
    else
      (Memory(m.limiters[ip := Entry(|m.buckets|, t)], m.buckets + [Bucket(c.Cap(), t)]), |m.buckets|)
  }

  function Asked(c: Config, m: Memory, id: nat, t: int): (Memory, bool)
    requires id < |m.buckets|
  {
    var (bucket, ok) := Allow(c, m.buckets[id], t); (m.(buckets := m.buckets[id := bucket]), ok)
  }

  function Pruned(m: Memory, t: int): Memory {
    m.(limiters := map ip | ip in m.limiters && t - m.limiters[ip].lastSeen <= IDLE :: m.limiters[ip])
  }

  class RateLimiter {
    const cfg: Config
    var limiters: map<string, Entry>
    var buckets: seq<Bucket>

    function View(): Memory
      reads this
    {
      Memory(limiters, buckets)
    }

    constructor (cfg: Config)
      ensures Valid() && this.cfg == cfg && View() == NO_CLIENTS
    {
      this.cfg := cfg;
      limiters := map[];
      buckets := [];
    }

    /** Every entry points to a bucket. */
    predicate Valid()
      reads this
    {
      forall ip :: ip in limiters ==> limiters[ip].id < |buckets|
    }

    /** internal/middleware/ratelimit.go:46-56, under the lock. */
    method GetLimiter(ip: string, now: int) returns (id: nat)
      requires Valid()
      modifies this
      ensures Valid() && id < |buckets|
      ensures (View(), id) == Looked(cfg, old(View()), ip, now)
    {
      if ip !in limiters {
        limiters := limiters[ip := Entry(|buckets|, now)];
        buckets := buckets + [Bucket(cfg.Cap(), now)];
      }
      limiters := limiters[ip := limiters[ip].(lastSeen := now)];
      id := limiters[ip].id;
      assert View() == Looked(cfg, old(View()), ip, now).0;
    }

    /** internal/middleware/ratelimit.go:64, at a later clock value and without the lock of the map. */
    method AllowRequest(id: nat, now: int) returns (ok: bool)
      requires Valid() && id < |buckets|
      modifies this`buckets
      ensures Valid() && (View(), ok) == Asked(cfg, old(View()), id, now)
    {
      var (bucket, allowed) := Allow(cfg, buckets[id], now);
      buckets := buckets[id := bucket];
      ok := allowed;
    }

    /**
      * internal/middleware/ratelimit.go:58-66 with nothing in between: the clock is read for the lookup and again for
      * the bucket.
      */
    method Admit(ip: string, seen: int, asked: int) returns (ok: bool)
      requires Valid()
      modifies this
      ensures Valid()
      ensures var (m, id) := Looked(cfg, old(View()), ip, seen);
              id < |m.buckets| && (View(), ok) == Asked(cfg, m, id, asked)
    {
      var id := GetLimiter(ip, seen);
      ok := AllowRequest(id, asked);
    }

    /** internal/middleware/ratelimit.go:36-40 */
    method PruneIdle(now: int)
      requires Valid()
      modifies this`limiters
      ensures Valid() && View() == Pruned(old(View()), now)
    {
      var ips := limiters.Keys;
      while ips != {}
        invariant ips <= limiters.Keys <= old(limiters).Keys
        invariant forall ip :: ip in old(limiters) ==>
                                 (ip in limiters <==> ip in ips || now - old(limiters)[ip].lastSeen <= IDLE)
        invariant forall ip :: ip in limiters ==> limiters[ip] == old(limiters)[ip]
        decreases |ips|
      {
        var ip :| ip in ips;
        ips := ips - {ip};
        if now - limiters[ip].lastSeen > IDLE {
          limiters := limiters - {ip};
        }
      }
    }
  }

  // ---------- Traces ----------

  /** A request between its lookup and its answer. */
  datatype Waiting = Waiting(ip: string, id: nat, seen: int)

  /** The requests that have looked up their bucket, in the order of the lookups. */
  datatype Traffic = Traffic(memory: Memory, waiting: seq<Waiting>)

  const QUIET := Traffic(NO_CLIENTS, [])

  /** A request looks up its bucket; the k-th of these requests asks the bucket it got; a pruning pass. */
  datatype Event = Look(ip: string, at: int) | Ask(k: nat, at: int) | Tick(at: int)

  function Step(c: Config, s: Traffic, e: Event, pruning: bool): Traffic {
    match e
    case Look(ip, t) =>
      var (m, id) := Looked(c, s.memory, ip, t); Traffic(m, s.waiting + [Waiting(ip, id, t)])
    case Ask(k, t) =>
      if k < |s.waiting| && s.waiting[k].id < |s.memory.buckets| then
        s.(memory := Asked(c, s.memory, s.waiting[k].id, t).0)
      else s
    case Tick(t) => if pruning then s.(memory := Pruned(s.memory, t)) else s
  }

  function StepAll(c: Config, s: Traffic, trace: seq<Event>, pruning: bool): Traffic
    decreases |trace|
  {
    if trace == [] then s else StepAll(c, Step(c, s, trace[0], pruning), trace[1..], pruning)
  }

  predicate Admits(c: Config, s: Traffic, e: Event) {
    && e.Ask? && e.k < |s.waiting| && s.waiting[e.k].id < |s.memory.buckets|
    && Asked(c, s.memory, s.waiting[e.k].id, e.at).1
  }

  /** The answers to the requests of a trace, in order. */
  function Verdicts(c: Config, s: Traffic, trace: seq<Event>, pruning: bool): seq<bool>
    decreases |trace|
  {
    if trace == [] then []
    else
      (if trace[0].Ask? then [Admits(c, s, trace[0])] else [])
      + Verdicts(c, Step(c, s, trace[0], pruning), trace[1..], pruning)
  }

  function SeenTimes(s: Traffic): seq<int> {
    seq(|s.waiting|, i requires 0 <= i < |s.waiting| => s.waiting[i].seen)
  }

  /** Time does not run backwards, and whoever asks has looked up its bucket, no longer than the delay ago. */
  predicate Punctual(trace: seq<Event>, from: int, looks: seq<int>, delay: int)
    decreases |trace|
  {
    trace != [] ==>
      && from <= trace[0].at
      && (trace[0].Ask? ==> trace[0].k < |looks| && trace[0].at - looks[trace[0].k] <= delay)
      && Punctual(trace[1..], trace[0].at, if trace[0].Look? then looks + [trace[0].at] else looks, delay)
  }

  // ---------- What the memory amounts to ----------

  /** The tokens that a client has at t, whether or not the map remembers it. */
  function LevelOf(c: Config, m: Memory, ip: string, t: int): int {
    if ip in m.limiters && m.limiters[ip].id < |m.buckets| then Level(c, m.buckets[m.limiters[ip].id], t) else c.Cap()
  }

  predicate EntryInOrder(c: Config, m: Memory, ip: string, now: int, delay: int) {
    ip in m.limiters ==>
      var e := m.limiters[ip];
      && e.id < |m.buckets| && e.lastSeen <= now
      && 0 <= m.buckets[e.id].tokens <= c.Cap()
      && m.buckets[e.id].last <= now && m.buckets[e.id].last <= e.lastSeen + delay
  }

  /** A request that has not waited for longer than the delay holds the bucket that the map has for its client. */
  predicate WaitingInOrder(m: Memory, w: Waiting, now: int, delay: int) {
    && w.id < |m.buckets|
    && (now - w.seen <= delay ==>
          w.ip in m.limiters && m.limiters[w.ip].id == w.id && w.seen <= m.limiters[w.ip].lastSeen)
  }

  ghost predicate NothingShared(m: Memory) {
    forall a, b :: a in m.limiters && b in m.limiters && m.limiters[a].id == m.limiters[b].id ==> a == b
  }

  ghost predicate InOrder(c: Config, s: Traffic, now: int, delay: int) {
    && c.Valid() && 0 <= delay <= IDLE && NothingShared(s.memory)
    && (forall ip :: EntryInOrder(c, s.memory, ip, now, delay))
    && (forall k :: 0 <= k < |s.waiting| ==> WaitingInOrder(s.memory, s.waiting[k], now, delay))
  }

  ghost predicate SameLevels(c: Config, a: Memory, b: Memory, now: int) {
    forall ip, t :: now <= t ==> LevelOf(c, a, ip, t) == LevelOf(c, b, ip, t)
  }

  lemma MulNonNegative(x: int, y: int)
    requires x >= 0 && y >= 0
    ensures x * y >= 0
  {
  }

  lemma MulMonotone(x: int, y: int, z: int)
    requires x >= 0 && y <= z
    ensures x * y <= x * z
  {
  }

  lemma RefillInStages(c: Config, level: int, first: int, second: int)
    requires c.Valid() && first >= 0 && second >= 0
    ensures Refilled(c, Refilled(c, level, first), second) == Refilled(c, level, first + second)
  {
  }

  lemma RefilledAtOnce(c: Config, level: int)
    ensures Refilled(c, level, 0) == if level < c.Cap() then level else c.Cap()
  {
  }

  lemma LevelBounds(c: Config, s: Traffic, ip: string, now: int, delay: int, t: int)
    requires InOrder(c, s, now, delay) && now <= t
    ensures 0 <= LevelOf(c, s.memory, ip, t) <= c.Cap()
    ensures LevelOf(c, s.memory, ip, t) == Refilled(c, LevelOf(c, s.memory, ip, now), t - now)
  {
    var m := s.memory;
    MulNonNegative(c.burst, c.cost);
    MulNonNegative(c.rate, t - now);
    assert EntryInOrder(c, m, ip, now, delay);
    if ip in m.limiters {
      var b := m.buckets[m.limiters[ip].id];
      MulNonNegative(c.rate, t - b.last);
      RefillInStages(c, b.tokens, now - b.last, t - now);
    }
  }

  // ---------- What a lookup changes ----------

  lemma LookInOrder(c: Config, s: Traffic, now: int, delay: int, ip: string, t: int, pruning: bool)
    requires InOrder(c, s, now, delay) && now <= t
    ensures InOrder(c, Step(c, s, Look(ip, t), pruning), t, delay)
  {
    var m, s' := s.memory, Step(c, s, Look(ip, t), pruning);
    MulNonNegative(c.burst, c.cost);
    forall other ensures EntryInOrder(c, s'.memory, other, t, delay) {
      assert EntryInOrder(c, m, other, now, delay);
    }
    forall k | 0 <= k < |s'.waiting| ensures WaitingInOrder(s'.memory, s'.waiting[k], t, delay) {
      assert k < |s.waiting| ==> WaitingInOrder(m, s.waiting[k], now, delay);
      assert EntryInOrder(c, m, ip, now, delay);
    }
    forall a, b | a in s'.memory.limiters && b in s'.memory.limiters
                  && s'.memory.limiters[a].id == s'.memory.limiters[b].id
      ensures a == b
    {
      assert EntryInOrder(c, m, a, now, delay) && EntryInOrder(c, m, b, now, delay);
    }
  }

  lemma FullStaysFull(c: Config, elapsed: int)
    requires c.Valid() && elapsed >= 0
    ensures Refilled(c, c.Cap(), elapsed) == c.Cap()
  {
    MulNonNegative(c.rate, elapsed);
  }

  lemma LookKeepsLevels(c: Config, s: Traffic, now: int, delay: int, ip: string, t: int, pruning: bool, other: string,
                        later: int)
    requires InOrder(c, s, now, delay) && now <= t <= later
    ensures LevelOf(c, Step(c, s, Look(ip, t), pruning).memory, other, later) == LevelOf(c, s.memory, other, later)
  {
    assert EntryInOrder(c, s.memory, other, now, delay);
    FullStaysFull(c, later - t);
  }

  // ---------- What an answer changes ----------

  predicate MayAsk(s: Traffic, k: nat, t: int, delay: int) {
    k < |s.waiting| && t - s.waiting[k].seen <= delay
  }

  /** A punctual request is decided by its client's level alone, and changes nothing but that level. */
  lemma AskByLevel(c: Config, s: Traffic, now: int, delay: int, k: nat, t: int, pruning: bool, other: string,
                   later: int)
    requires InOrder(c, s, now, delay) && now <= t <= later && MayAsk(s, k, t, delay)
    ensures var ip, ok := s.waiting[k].ip, Admits(c, s, Ask(k, t));
            && (ok <==> LevelOf(c, s.memory, ip, t) >= c.cost)
            && LevelOf(c, Step(c, s, Ask(k, t), pruning).memory, other, later) ==
               if other == ip && ok then Refilled(c, LevelOf(c, s.memory, ip, t) - c.cost, later - t)
               else LevelOf(c, s.memory, other, later)
  {
    assert WaitingInOrder(s.memory, s.waiting[k], now, delay);
    assert EntryInOrder(c, s.memory, other, now, delay);
  }

  lemma AskInOrder(c: Config, s: Traffic, now: int, delay: int, k: nat, t: int, pruning: bool)
    requires InOrder(c, s, now, delay) && now <= t && MayAsk(s, k, t, delay)
    ensures InOrder(c, Step(c, s, Ask(k, t), pruning), t, delay)
  {
    var m, w, s' := s.memory, s.waiting[k], Step(c, s, Ask(k, t), pruning);
    assert WaitingInOrder(m, w, now, delay);
    LevelBounds(c, s, w.ip, now, delay, t);
    forall other ensures EntryInOrder(c, s'.memory, other, t, delay) {
      assert EntryInOrder(c, m, other, now, delay) && EntryInOrder(c, m, w.ip, now, delay);
    }
    forall j | 0 <= j < |s'.waiting| ensures WaitingInOrder(s'.memory, s'.waiting[j], t, delay) {
      assert WaitingInOrder(m, s.waiting[j], now, delay);
    }
  }

  // ---------- What a pruning pass changes ----------

  lemma TickInOrder(c: Config, s: Traffic, now: int, delay: int, t: int, pruning: bool)
    requires InOrder(c, s, now, delay) && now <= t
    ensures InOrder(c, Step(c, s, Tick(t), pruning), t, delay)
  {
    var s' := Step(c, s, Tick(t), pruning);
    forall ip ensures EntryInOrder(c, s'.memory, ip, t, delay) {
      assert EntryInOrder(c, s.memory, ip, now, delay);
    }
    forall k | 0 <= k < |s'.waiting| ensures WaitingInOrder(s'.memory, s'.waiting[k], t, delay) {
      assert WaitingInOrder(s.memory, s.waiting[k], now, delay);
    }
  }

  /** Whoever is pruned has a full bucket, now and later, if buckets refill within the silence. */
  lemma TickKeepsLevels(c: Config, s: Traffic, now: int, delay: int, t: int, pruning: bool, ip: string, later: int)
    requires InOrder(c, s, now, delay) && now <= t <= later && (pruning ==> c.Forgets(delay))
    ensures LevelOf(c, Step(c, s, Tick(t), pruning).memory, ip, later) == LevelOf(c, s.memory, ip, later)
  {
    var m := s.memory;
    assert EntryInOrder(c, m, ip, now, delay);
    if pruning && ip in m.limiters && ip !in Pruned(m, t).limiters {
      var b := m.buckets[m.limiters[ip].id];
      MulMonotone(c.rate, IDLE + 1 - delay, later - b.last);
    }
  }

  // ---------- Pruning is not observed ----------

  predicate Due(s: Traffic, e: Event, now: int, delay: int) {
    now <= e.at && (e.Ask? ==> MayAsk(s, e.k, e.at, delay))
  }

  lemma StepInOrder(c: Config, s: Traffic, now: int, delay: int, e: Event, pruning: bool)
    requires InOrder(c, s, now, delay) && Due(s, e, now, delay)
    ensures InOrder(c, Step(c, s, e, pruning), e.at, delay)
  {
    match e
    case Look(ip, t) => LookInOrder(c, s, now, delay, ip, t, pruning);
    case Ask(k, t) => AskInOrder(c, s, now, delay, k, t, pruning);
    case Tick(t) => TickInOrder(c, s, now, delay, t, pruning);
  }

  lemma SeenTimesStep(c: Config, s: Traffic, e: Event, pruning: bool)
    ensures SeenTimes(Step(c, s, e, pruning)) == SeenTimes(s) + if e.Look? then [e.at] else []
  {
  }

  lemma PunctualStep(c: Config, s: Traffic, now: int, delay: int, trace: seq<Event>, pruning: bool)
    requires trace != [] && Punctual(trace, now, SeenTimes(s), delay)
    ensures Due(s, trace[0], now, delay)
    ensures Punctual(trace[1..], trace[0].at, SeenTimes(Step(c, s, trace[0], pruning)), delay)
  {
    SeenTimesStep(c, s, trace[0], pruning);
    assert SeenTimes(s) + [] == SeenTimes(s);
  }

  /** The same requests are under way. */
  ghost predicate SameRequests(a: Traffic, b: Traffic) {
    && |a.waiting| == |b.waiting|
    && forall k :: 0 <= k < |a.waiting| ==> a.waiting[k].ip == b.waiting[k].ip && a.waiting[k].seen == b.waiting[k].seen
  }

  lemma SameStep(c: Config, pruned: Traffic, full: Traffic, now: int, delay: int, e: Event)
    requires InOrder(c, pruned, now, delay) && InOrder(c, full, now, delay) && c.Forgets(delay)
    requires SameLevels(c, pruned.memory, full.memory, now) && SameRequests(pruned, full) && Due(full, e, now, delay)
    ensures Admits(c, pruned, e) == Admits(c, full, e)
    ensures SameLevels(c, Step(c, pruned, e, true).memory, Step(c, full, e, false).memory, e.at)
    ensures SameRequests(Step(c, pruned, e, true), Step(c, full, e, false))
  {
    var pruned', full' := Step(c, pruned, e, true), Step(c, full, e, false);
    if e.Ask? {
      AskByLevel(c, pruned, now, delay, e.k, e.at, true, "", e.at);
      AskByLevel(c, full, now, delay, e.k, e.at, false, "", e.at);
    }
    forall ip, t | e.at <= t ensures LevelOf(c, pruned'.memory, ip, t) == LevelOf(c, full'.memory, ip, t) {
      match e
      case Look(who, at) =>
        LookKeepsLevels(c, pruned, now, delay, who, at, true, ip, t);
        LookKeepsLevels(c, full, now, delay, who, at, false, ip, t);
      case Ask(k, at) =>
        AskByLevel(c, pruned, now, delay, k, at, true, ip, t);
        AskByLevel(c, full, now, delay, k, at, false, ip, t);
      case Tick(at) =>
        TickKeepsLevels(c, pruned, now, delay, at, true, ip, t);
        TickKeepsLevels(c, full, now, delay, at, false, ip, t);
    }
  }

  lemma {:induction false} SameVerdicts(c: Config, pruned: Traffic, full: Traffic, now: int, delay: int,
                                        trace: seq<Event>)
    requires InOrder(c, pruned, now, delay) && InOrder(c, full, now, delay) && c.Forgets(delay)
    requires SameLevels(c, pruned.memory, full.memory, now) && SameRequests(pruned, full)
    requires Punctual(trace, now, SeenTimes(full), delay)
    ensures Verdicts(c, pruned, trace, true) == Verdicts(c, full, trace, false)
    decreases |trace|
  {
    if trace != [] {
      var e := trace[0];
      PunctualStep(c, full, now, delay, trace, false);
      SameStep(c, pruned, full, now, delay, e);
      StepInOrder(c, pruned, now, delay, e, true);
      StepInOrder(c, full, now, delay, e, false);
      SameVerdicts(c, Step(c, pruned, e, true), Step(c, full, e, false), e.at, delay, trace[1..]);
    }
  }

  // ---------- When the condition fails ----------

  function Looks(n: nat, t: int): seq<Event> {
    if n == 0 then [] else [Look("ip", t)] + Looks(n - 1, t)
  }

  /** The requests from number k on ask, n of them at one instant. */
  function Asks(k: nat, n: nat, t: int): seq<Event>
    decreases n
  {
    if n == 0 then [] else [Ask(k, t)] + Asks(k + 1, n - 1, t)
  }

  function Yes(n: nat): seq<bool> {
    seq(n, _ => true)
  }

  lemma YesSplit(ok: bool, rest: seq<bool>)
    ensures [ok] + rest == Yes(1 + |rest|) <==> ok && rest == Yes(|rest|)
  {
    if [ok] + rest == Yes(1 + |rest|) {
      assert ([ok] + rest)[0] == Yes(1 + |rest|)[0];
      assert forall i :: 0 <= i < |rest| ==> rest[i] == ([ok] + rest)[i + 1];
    }
  }

  lemma LooksSplit(n: nat, t: int)
    requires n > 0
    ensures Looks(n, t)[0] == Look("ip", t) && Looks(n, t)[1..] == Looks(n - 1, t)
  {
  }

  lemma AsksSplit(k: nat, n: nat, t: int)
    requires n > 0
    ensures Asks(k, n, t)[0] == Ask(k, t) && Asks(k, n, t)[1..] == Asks(k + 1, n - 1, t)
  {
  }

  /** Some more requests of the one client have looked up. */
  ghost predicate MoreWaiting(s: Traffic, s': Traffic, n: nat, t: int) {
    && |s'.waiting| == |s.waiting| + n && s.waiting <= s'.waiting
    && forall k :: |s.waiting| <= k < |s.waiting| + n ==> s'.waiting[k].ip == "ip" && s'.waiting[k].seen == t
  }

  lemma {:induction false} LooksKeepLevels(c: Config, s: Traffic, now: int, delay: int, n: nat, t: int, pruning: bool)
    requires InOrder(c, s, now, delay) && now <= t
    ensures var s' := StepAll(c, s, Looks(n, t), pruning);
            && InOrder(c, s', t, delay) && MoreWaiting(s, s', n, t)
            && Verdicts(c, s, Looks(n, t), pruning) == []
            && SameLevels(c, s.memory, s'.memory, t)
            && (n > 0 ==> "ip" in s'.memory.limiters && s'.memory.limiters["ip"].lastSeen == t)
    decreases n
  {
    if n == 0 {
      TickInOrder(c, s, now, delay, t, false);
    } else {
      LooksSplit(n, t);
      var s1 := Step(c, s, Look("ip", t), pruning);
      LookInOrder(c, s, now, delay, "ip", t, pruning);
      forall ip, later | t <= later ensures LevelOf(c, s.memory, ip, later) == LevelOf(c, s1.memory, ip, later) {
        LookKeepsLevels(c, s, now, delay, "ip", t, pruning, ip, later);
      }
      LooksKeepLevels(c, s1, t, delay, n - 1, t, pruning);
    }
  }

  ghost predicate MayAskAll(s: Traffic, k: nat, n: nat, t: int, delay: int) {
    forall i :: k <= i < k + n ==> MayAsk(s, i, t, delay) && s.waiting[i].ip == "ip"
  }

  lemma AsksUnfold(c: Config, s: Traffic, k: nat, n: nat, t: int, pruning: bool)
    requires n > 0
    ensures var s1 := Step(c, s, Ask(k, t), pruning);
            && StepAll(c, s, Asks(k, n, t), pruning) == StepAll(c, s1, Asks(k + 1, n - 1, t), pruning)
            && Verdicts(c, s, Asks(k, n, t), pruning) ==
               [Admits(c, s, Ask(k, t))] + Verdicts(c, s1, Asks(k + 1, n - 1, t), pruning)
  {
    AsksSplit(k, n, t);
  }

  lemma MayAskRest(c: Config, s: Traffic, k: nat, n: nat, t: int, delay: int, pruning: bool)
    requires n > 0 && MayAskAll(s, k, n, t, delay)
    ensures MayAsk(s, k, t, delay) && s.waiting[k].ip == "ip"
    ensures MayAskAll(Step(c, s, Ask(k, t), pruning), k + 1, n - 1, t, delay)
  {
    var s1 := Step(c, s, Ask(k, t), pruning);
    assert MayAsk(s, k, t, delay);
    forall i | k + 1 <= i < k + n ensures MayAsk(s1, i, t, delay) && s1.waiting[i].ip == "ip" {
      assert MayAsk(s, i, t, delay);
    }
  }

  lemma {:induction false} AsksInOrder(c: Config, s: Traffic, now: int, delay: int, k: nat, n: nat, t: int,
                                       pruning: bool)
    requires InOrder(c, s, now, delay) && now <= t && MayAskAll(s, k, n, t, delay)
    ensures var s' := StepAll(c, s, Asks(k, n, t), pruning);
            InOrder(c, s', t, delay) && s'.waiting == s.waiting && s'.memory.limiters == s.memory.limiters
    decreases n
  {
    if n == 0 {
      TickInOrder(c, s, now, delay, t, false);
    } else {
      AsksUnfold(c, s, k, n, t, pruning);
      MayAskRest(c, s, k, n, t, delay, pruning);
      AskInOrder(c, s, now, delay, k, t, pruning);
      AsksInOrder(c, Step(c, s, Ask(k, t), pruning), t, delay, k + 1, n - 1, t, pruning);
    }
  }

  /** The arithmetic of one more answer. */
  lemma AsksCount(c: Config, ok: bool, rest: seq<bool>, n: nat, before: int, after: int)
    requires c.Valid() && n > 0 && |rest| == n - 1 && 0 <= before <= c.Cap() && (ok <==> before >= c.cost)
    requires after == if ok then before - c.cost else before
    requires rest == Yes(n - 1) <==> after >= (n - 1) * c.cost
    ensures [ok] + rest == Yes(n) <==> before >= n * c.cost
    ensures before >= n * c.cost ==> ok && after >= (n - 1) * c.cost && n * c.cost == (n - 1) * c.cost + c.cost
  {
    assert n * c.cost == (n - 1) * c.cost + c.cost;
    MulNonNegative(n - 1, c.cost);
    YesSplit(ok, rest);
  }

  lemma OneAsk(c: Config, s: Traffic, now: int, delay: int, k: nat, t: int, pruning: bool)
    requires InOrder(c, s, now, delay) && now <= t && MayAsk(s, k, t, delay) && s.waiting[k].ip == "ip"
    ensures var ok, before := Admits(c, s, Ask(k, t)), LevelOf(c, s.memory, "ip", t);
            && 0 <= before <= c.Cap() && (ok <==> before >= c.cost)
            && LevelOf(c, Step(c, s, Ask(k, t), pruning).memory, "ip", t) == if ok then before - c.cost else before
  {
    AskByLevel(c, s, now, delay, k, t, pruning, "ip", t);
    LevelBounds(c, s, "ip", now, delay, t);
    RefilledAtOnce(c, LevelOf(c, s.memory, "ip", t) - c.cost);
  }

  /** Of n requests at one instant all are admitted exactly when the level covers them. */
  lemma {:induction false} AsksByLevel(c: Config, s: Traffic, now: int, delay: int, k: nat, n: nat, t: int,
                                       pruning: bool)
    requires InOrder(c, s, now, delay) && now <= t && MayAskAll(s, k, n, t, delay)
    ensures var s' := StepAll(c, s, Asks(k, n, t), pruning);
            var verdicts := Verdicts(c, s, Asks(k, n, t), pruning);
            var level := LevelOf(c, s.memory, "ip", t);
            && |verdicts| == n && (verdicts == Yes(n) <==> level >= n * c.cost)
            && (level >= n * c.cost ==> LevelOf(c, s'.memory, "ip", t) == level - n * c.cost)
    decreases n
  {
    if n == 0 {
      LevelBounds(c, s, "ip", now, delay, t);
    } else {
      var s1 := Step(c, s, Ask(k, t), pruning);
      AsksUnfold(c, s, k, n, t, pruning);
      MayAskRest(c, s, k, n, t, delay, pruning);
      AskInOrder(c, s, now, delay, k, t, pruning);
      OneAsk(c, s, now, delay, k, t, pruning);
      AsksByLevel(c, s1, t, delay, k + 1, n - 1, t, pruning);
      AsksCount(c, Admits(c, s, Ask(k, t)), Verdicts(c, s1, Asks(k + 1, n - 1, t), pruning), n,
                LevelOf(c, s.memory, "ip", t), LevelOf(c, s1.memory, "ip", t));
    }
  }

  lemma {:induction false} StepAllAppend(c: Config, s: Traffic, a: seq<Event>, b: seq<Event>, pruning: bool)
    ensures StepAll(c, s, a + b, pruning) == StepAll(c, StepAll(c, s, a, pruning), b, pruning)
    decreases |a|
  {
    if a == [] {
      assert a + b == b;
    } else {
      assert (a + b)[1..] == a[1..] + b;
      StepAllAppend(c, Step(c, s, a[0], pruning), a[1..], b, pruning);
    }
  }

  lemma {:induction false} VerdictsAppend(c: Config, s: Traffic, a: seq<Event>, b: seq<Event>, pruning: bool)
    ensures Verdicts(c, s, a + b, pruning) ==
            Verdicts(c, s, a, pruning) + Verdicts(c, StepAll(c, s, a, pruning), b, pruning)
    decreases |a|
  {
    if a == [] {
      assert a + b == b;
    } else {
      assert (a + b)[1..] == a[1..] + b;
      VerdictsAppend(c, Step(c, s, a[0], pruning), a[1..], b, pruning);
    }
  }

  /** n requests at t that ask at once or a little later. */
  function Wave(k: nat, n: nat, t: int, asked: int): seq<Event> {
    Looks(n, t) + Asks(k, n, asked)
  }

  lemma WaveByLevel(c: Config, s: Traffic, now: int, delay: int, n: nat, t: int, asked: int, pruning: bool)
    requires InOrder(c, s, now, delay) && now <= t <= asked <= t + delay
    ensures var wave := Wave(|s.waiting|, n, t, asked);
            var s' := StepAll(c, s, wave, pruning);
            && InOrder(c, s', asked, delay) && |s'.waiting| == |s.waiting| + n
            && |Verdicts(c, s, wave, pruning)| == n
            && (Verdicts(c, s, wave, pruning) == Yes(n) <==> LevelOf(c, s.memory, "ip", asked) >= n * c.cost)
            && (LevelOf(c, s.memory, "ip", asked) >= n * c.cost ==>
                  LevelOf(c, s'.memory, "ip", asked) == LevelOf(c, s.memory, "ip", asked) - n * c.cost)
            && (n > 0 ==> "ip" in s'.memory.limiters && s'.memory.limiters["ip"].lastSeen == t)
  {
    var k := |s.waiting|;
    var s1 := StepAll(c, s, Looks(n, t), pruning);
    LooksKeepLevels(c, s, now, delay, n, t, pruning);
    assert MayAskAll(s1, k, n, asked, delay);
    AsksInOrder(c, s1, t, delay, k, n, asked, pruning);
    AsksByLevel(c, s1, t, delay, k, n, asked, pruning);
    StepAllAppend(c, s, Looks(n, t), Asks(k, n, asked), pruning);
    VerdictsAppend(c, s, Looks(n, t), Asks(k, n, asked), pruning);
    assert LevelOf(c, s1.memory, "ip", asked) == LevelOf(c, s.memory, "ip", asked);
  }

  /** Spend the whole burst with late answers, stay silent just long enough to be forgotten, come back. */
  function Comeback(c: Config, delay: int): seq<Event>
    requires c.Valid()
  {
    Wave(0, c.burst, 0, delay) + ([Tick(IDLE + 1)] + Wave(c.burst, c.burst, IDLE + 1, IDLE + 1))
  }

  lemma QuietInOrder(c: Config, delay: int)
    requires c.Valid() && 0 <= delay <= IDLE
    ensures InOrder(c, QUIET, 0, delay) && SeenTimes(QUIET) == []
  {
  }

  lemma SpentAll(c: Config, delay: int, pruning: bool)
    requires c.Valid() && c.burst > 0 && 0 <= delay <= IDLE
    ensures var spent := StepAll(c, QUIET, Wave(0, c.burst, 0, delay), pruning);
            && InOrder(c, spent, delay, delay) && |spent.waiting| == c.burst
            && Verdicts(c, QUIET, Wave(0, c.burst, 0, delay), pruning) == Yes(c.burst)
            && LevelOf(c, spent.memory, "ip", delay) == 0
            && "ip" in spent.memory.limiters && spent.memory.limiters["ip"].lastSeen == 0
  {
    QuietInOrder(c, delay);
    WaveByLevel(c, QUIET, 0, delay, c.burst, 0, delay, pruning);
  }

  /** What the silence leaves in the memory. */
  lemma LevelAfterSilence(c: Config, delay: int, spent: Traffic, pruning: bool)
    requires InOrder(c, spent, delay, delay) && LevelOf(c, spent.memory, "ip", delay) == 0
    requires "ip" in spent.memory.limiters && spent.memory.limiters["ip"].lastSeen == 0
    ensures var back := Step(c, spent, Tick(IDLE + 1), pruning);
            && InOrder(c, back, IDLE + 1, delay) && back.waiting == spent.waiting
            && LevelOf(c, back.memory, "ip", IDLE + 1) == if pruning then c.Cap() else Refilled(c, 0, IDLE + 1 - delay)
  {
    TickInOrder(c, spent, delay, delay, IDLE + 1, pruning);
    LevelBounds(c, spent, "ip", delay, delay, IDLE + 1);
  }

  /** The second burst of the comeback, on what is left after the first. */
  lemma SecondWave(c: Config, delay: int, pruning: bool)
    requires c.Valid() && c.burst > 0 && 0 <= delay <= IDLE
    ensures var spent := StepAll(c, QUIET, Wave(0, c.burst, 0, delay), pruning);
            var back := Step(c, spent, Tick(IDLE + 1), pruning);
            var verdicts := Verdicts(c, back, Wave(c.burst, c.burst, IDLE + 1, IDLE + 1), pruning);
            && |verdicts| == c.burst
            && (verdicts == Yes(c.burst) <==>
                (if pruning then c.Cap() else Refilled(c, 0, IDLE + 1 - delay)) >= c.Cap())
  {
    var spent := StepAll(c, QUIET, Wave(0, c.burst, 0, delay), pruning);
    SpentAll(c, delay, pruning);
    LevelAfterSilence(c, delay, spent, pruning);
    WaveByLevel(c, Step(c, spent, Tick(IDLE + 1), pruning), IDLE + 1, delay, c.burst, IDLE + 1, IDLE + 1, pruning);
  }

  lemma ComebackVerdicts(c: Config, delay: int, pruning: bool)
    requires c.Valid() && c.burst > 0 && 0 <= delay <= IDLE
    ensures var spent := StepAll(c, QUIET, Wave(0, c.burst, 0, delay), pruning);
            var back := Step(c, spent, Tick(IDLE + 1), pruning);
            Verdicts(c, QUIET, Comeback(c, delay), pruning) ==
            Yes(c.burst) + Verdicts(c, back, Wave(c.burst, c.burst, IDLE + 1, IDLE + 1), pruning)
  {
    var first, second := Wave(0, c.burst, 0, delay), Wave(c.burst, c.burst, IDLE + 1, IDLE + 1);
    var spent := StepAll(c, QUIET, first, pruning);
    SpentAll(c, delay, pruning);
    VerdictsAppend(c, QUIET, first, [Tick(IDLE + 1)] + second, pruning);
    VerdictsAppend(c, spent, [Tick(IDLE + 1)], second, pruning);
    StepAllAppend(c, spent, [Tick(IDLE + 1)], [], pruning);
    assert [Tick(IDLE + 1)][1..] == [];
  }

  lemma TailsTell(n: nat, a: seq<bool>, b: seq<bool>)
    requires a != b
    ensures Yes(n) + a != Yes(n) + b
  {
    assert (Yes(n) + a)[n..] == a && (Yes(n) + b)[n..] == b;
  }

  lemma ComebackTells(c: Config, delay: int)
    requires c.Valid() && !c.Forgets(delay) && 0 <= delay <= IDLE
    ensures Verdicts(c, QUIET, Comeback(c, delay), true) != Verdicts(c, QUIET, Comeback(c, delay), false)
  {
    MulNonNegative(c.rate, IDLE + 1 - delay);
    assert c.burst > 0;
    ComebackVerdicts(c, delay, true);
    ComebackVerdicts(c, delay, false);
    SecondWave(c, delay, true);
    SecondWave(c, delay, false);
    var first, second := Wave(0, c.burst, 0, delay), Wave(c.burst, c.burst, IDLE + 1, IDLE + 1);
    TailsTell(c.burst,
              Verdicts(c, Step(c, StepAll(c, QUIET, first, true), Tick(IDLE + 1), true), second, true),
              Verdicts(c, Step(c, StepAll(c, QUIET, first, false), Tick(IDLE + 1), false), second, false));
  }

  // ---------- The comeback keeps time ----------

  function LookTimes(trace: seq<Event>): seq<int> {
    if trace == [] then [] else (if trace[0].Look? then [trace[0].at] else []) + LookTimes(trace[1..])
  }

  ghost predicate NotAfter(trace: seq<Event>, t: int) {
    forall e :: e in trace ==> e.at <= t
  }

  lemma {:induction false} PunctualAppend(a: seq<Event>, b: seq<Event>, from: int, mid: int, looks: seq<int>,
                                          delay: int)
    requires Punctual(a, from, looks, delay) && Punctual(b, mid, looks + LookTimes(a), delay)
    requires from <= mid && NotAfter(a, mid)
    ensures Punctual(a + b, from, looks, delay)
    decreases |a|
  {
    if a == [] {
      assert a + b == b && looks + LookTimes(a) == looks;
      if b != [] {
        assert Punctual(b, from, looks, delay);
      }
    } else {
      var looks' := if a[0].Look? then looks + [a[0].at] else looks;
      assert (a + b)[1..] == a[1..] + b;
      assert looks' + LookTimes(a[1..]) == looks + LookTimes(a);
      PunctualAppend(a[1..], b, a[0].at, mid, looks', delay);
    }
  }

  lemma {:induction false} LooksArePunctual(n: nat, t: int, from: int, looks: seq<int>, delay: int)
    requires from <= t
    ensures Punctual(Looks(n, t), from, looks, delay) && NotAfter(Looks(n, t), t)
    ensures LookTimes(Looks(n, t)) == seq(n, _ => t)
    decreases n
  {
    if n > 0 {
      LooksSplit(n, t);
      LooksArePunctual(n - 1, t, t, looks + [t], delay);
      assert LookTimes(Looks(n, t)) == [t] + seq(n - 1, _ => t);
    }
  }

  lemma {:induction false} AsksArePunctual(k: nat, n: nat, t: int, from: int, looks: seq<int>, delay: int)
    requires from <= t && k + n <= |looks| && forall i :: k <= i < k + n ==> t - looks[i] <= delay
    ensures Punctual(Asks(k, n, t), from, looks, delay) && NotAfter(Asks(k, n, t), t)
    ensures LookTimes(Asks(k, n, t)) == []
    decreases n
  {
    if n > 0 {
      AsksSplit(k, n, t);
      AsksArePunctual(k + 1, n - 1, t, t, looks, delay);
    }
  }

  lemma LookTimesUnfold(a: seq<Event>)
    requires a != []
    ensures LookTimes(a) == (if a[0].Look? then [a[0].at] else []) + LookTimes(a[1..])
  {
  }

  lemma {:induction false} LookTimesAppend(a: seq<Event>, b: seq<Event>)
    ensures LookTimes(a + b) == LookTimes(a) + LookTimes(b)
    decreases |a|
  {
    if a == [] {
      assert a + b == b;
    } else {
      var head := if a[0].Look? then [a[0].at] else [];
      calc {
        LookTimes(a + b);
      ==  { LookTimesUnfold(a + b); assert (a + b)[1..] == a[1..] + b; }
        head + LookTimes(a[1..] + b);
      ==  { LookTimesAppend(a[1..], b); }
        head + (LookTimes(a[1..]) + LookTimes(b));
      ==
        (head + LookTimes(a[1..])) + LookTimes(b);
      ==  { LookTimesUnfold(a); }
        LookTimes(a) + LookTimes(b);
      }
    }
  }

  lemma WaveIsPunctual(looks: seq<int>, n: nat, from: int, t: int, asked: int, delay: int)
    requires from <= t <= asked <= t + delay
    ensures Punctual(Wave(|looks|, n, t, asked), from, looks, delay) && NotAfter(Wave(|looks|, n, t, asked), asked)
    ensures LookTimes(Wave(|looks|, n, t, asked)) == seq(n, _ => t)
  {
    LooksArePunctual(n, t, from, looks, delay);
    AsksArePunctual(|looks|, n, asked, asked, looks + seq(n, _ => t), delay);
    PunctualAppend(Looks(n, t), Asks(|looks|, n, asked), from, asked, looks, delay);
    LookTimesAppend(Looks(n, t), Asks(|looks|, n, asked));
  }

  lemma TickThenPunctual(rest: seq<Event>, t: int, looks: seq<int>, delay: int)
    requires Punctual(rest, t, looks, delay)
    ensures Punctual([Tick(t)] + rest, t, looks, delay)
  {
    assert ([Tick(t)] + rest)[1..] == rest;
  }

  lemma ComebackIsPunctual(c: Config, delay: int)
    requires c.Valid() && 0 <= delay <= IDLE
    ensures Punctual(Comeback(c, delay), 0, [], delay)
  {
    var looks: seq<int> := seq(c.burst, _ => 0);
    var first, second := Wave(0, c.burst, 0, delay), Wave(c.burst, c.burst, IDLE + 1, IDLE + 1);
    WaveIsPunctual([], c.burst, 0, 0, delay, delay);
    WaveIsPunctual(looks, c.burst, IDLE + 1, IDLE + 1, IDLE + 1, delay);
    TickThenPunctual(second, IDLE + 1, looks, delay);
    assert [] + LookTimes(first) == looks;
    PunctualAppend(first, [Tick(IDLE + 1)] + second, 0, IDLE + 1, [], delay);
  }

  /**
    * Forgetting idle clients is unobservable, in every trace of requests that wait for no longer than the delay and
    * with every schedule of pruning passes, exactly when a bucket refills completely within the silence less the delay.
    */
  lemma PruningIsUnobservableExactly(c: Config, delay: int)
    requires c.Valid() && 0 <= delay <= IDLE
    ensures c.Forgets(delay) <==>
            forall trace :: Punctual(trace, 0, [], delay) ==>
                              Verdicts(c, QUIET, trace, true) == Verdicts(c, QUIET, trace, false)
  {
    if c.Forgets(delay) {
      forall trace | Punctual(trace, 0, [], delay)
        ensures Verdicts(c, QUIET, trace, true) == Verdicts(c, QUIET, trace, false)
      {
        QuietInOrder(c, delay);
        SameVerdicts(c, QUIET, QUIET, 0, delay, trace);
      }
    } else {
      ComebackTells(c, delay);
      ComebackIsPunctual(c, delay);
    }
  }

  // ---------- Admission bound ----------

  predicate AdmitsClient(c: Config, s: Traffic, e: Event, ip: string) {
    Admits(c, s, e) && s.waiting[e.k].ip == ip
  }

  /** How many requests of a client a trace sees admitted. */
  function Admitted(c: Config, s: Traffic, trace: seq<Event>, ip: string): nat
    decreases |trace|
  {
    if trace == [] then 0
    else
      (if AdmitsClient(c, s, trace[0], ip) then 1 else 0)
      + Admitted(c, Step(c, s, trace[0], true), trace[1..], ip)
  }

  lemma LevelRises(c: Config, s: Traffic, now: int, delay: int, ip: string, t: int)
    requires InOrder(c, s, now, delay) && now <= t
    ensures LevelOf(c, s.memory, ip, t) <= LevelOf(c, s.memory, ip, now) + c.rate * (t - now)
  {
    LevelBounds(c, s, ip, now, delay, t);
  }

  lemma StepCharges(c: Config, s: Traffic, now: int, delay: int, e: Event, ip: string)
    requires InOrder(c, s, now, delay) && c.Forgets(delay) && Due(s, e, now, delay)
    ensures LevelOf(c, Step(c, s, e, true).memory, ip, e.at) + (if AdmitsClient(c, s, e, ip) then c.cost else 0) <=
            LevelOf(c, s.memory, ip, e.at)
  {
    match e
    case Look(who, t) => LookKeepsLevels(c, s, now, delay, who, t, true, ip, t);
    case Ask(k, t) =>
      AskByLevel(c, s, now, delay, k, t, true, ip, t);
      RefilledAtOnce(c, LevelOf(c, s.memory, s.waiting[k].ip, t) - c.cost);
    case Tick(t) => TickKeepsLevels(c, s, now, delay, t, true, ip, t);
  }

  lemma Telescope(rest: int, paid: int, cost: int, rate: int, before: int, after: int, a: int, b: int)
    requires rest * cost <= after + rate * b && after + paid <= before + rate * a && (paid == 0 || paid == cost)
    ensures (if paid == 0 then rest else rest + 1) * cost <= before + rate * (a + b)
    ensures (rest + 1) * cost <= before + rate * (a + b) || paid != cost
  {
  }

  lemma {:induction false} AdmittedByLevel(c: Config, s: Traffic, now: int, delay: int, trace: seq<Event>, ip: string,
                                           end: int)
    requires InOrder(c, s, now, delay) && c.Forgets(delay) && now <= end
    requires Punctual(trace, now, SeenTimes(s), delay) && NotAfter(trace, end)
    ensures Admitted(c, s, trace, ip) * c.cost <= LevelOf(c, s.memory, ip, now) + c.rate * (end - now)
    decreases |trace|
  {
    if trace == [] {
      MulNonNegative(c.rate, end - now);
      LevelBounds(c, s, ip, now, delay, now);
    } else {
      var e := trace[0];
      var s' := Step(c, s, e, true);
      PunctualStep(c, s, now, delay, trace, true);
      StepInOrder(c, s, now, delay, e, true);
      AdmittedByLevel(c, s', e.at, delay, trace[1..], ip, end);
      StepCharges(c, s, now, delay, e, ip);
      LevelRises(c, s, now, delay, ip, e.at);
      Telescope(Admitted(c, s', trace[1..], ip), if AdmitsClient(c, s, e, ip) then c.cost else 0, c.cost, c.rate,
                LevelOf(c, s.memory, ip, now), LevelOf(c, s'.memory, ip, e.at), e.at - now, end - e.at);
      assert (e.at - now) + (end - e.at) == end - now;
    }
  }

  lemma {:induction false} RunSeenTimes(c: Config, s: Traffic, trace: seq<Event>, pruning: bool)
    ensures SeenTimes(StepAll(c, s, trace, pruning)) == SeenTimes(s) + LookTimes(trace)
    decreases |trace|
  {
    if trace != [] {
      RunSeenTimes(c, Step(c, s, trace[0], pruning), trace[1..], pruning);
      SeenTimesStep(c, s, trace[0], pruning);
    }
  }

  lemma {:induction false} RunInOrder(c: Config, s: Traffic, now: int, delay: int, trace: seq<Event>, end: int)
    requires InOrder(c, s, now, delay) && Punctual(trace, now, SeenTimes(s), delay) && now <= end
             && NotAfter(trace, end)
    ensures InOrder(c, StepAll(c, s, trace, true), end, delay)
    decreases |trace|
  {
    if trace == [] {
      TickInOrder(c, s, now, delay, end, false);
    } else {
      PunctualStep(c, s, now, delay, trace, true);
      StepInOrder(c, s, now, delay, trace[0], true);
      RunInOrder(c, Step(c, s, trace[0], true), trace[0].at, delay, trace[1..], end);
    }
  }

  /** A history and what happens from lo to hi after it. */
  ghost predicate Observed(history: seq<Event>, window: seq<Event>, lo: int, hi: int, delay: int) {
    && 0 <= lo <= hi && NotAfter(history, lo) && NotAfter(window, hi)
    && Punctual(history, 0, [], delay) && Punctual(window, lo, LookTimes(history), delay)
  }

  /**
    * After any history, in any interval of length T one client has at most burst + rate * T requests admitted, also
    * when its entry is dropped and created anew inside the interval.
    */
  lemma AdmissionBound(c: Config, delay: int, history: seq<Event>, window: seq<Event>, ip: string, lo: int, hi: int)
    requires c.Valid() && 0 <= delay <= IDLE && c.Forgets(delay) && Observed(history, window, lo, hi, delay)
    ensures Admitted(c, StepAll(c, QUIET, history, true), window, ip) * c.cost <= c.Cap() + c.rate * (hi - lo)
  {
    QuietInOrder(c, delay);
    RunInOrder(c, QUIET, 0, delay, history, lo);
    RunSeenTimes(c, QUIET, history, true);
    assert [] + LookTimes(history) == LookTimes(history);
    var s := StepAll(c, QUIET, history, true);
    LevelBounds(c, s, ip, lo, delay, lo);
    AdmittedByLevel(c, s, lo, delay, window, ip, hi);
  }

  /** cmd/invito/main.go:68: ten requests a minute with a burst of five, that is six seconds for a token. */
  const BOOKING_LIMIT := Config(6 * SECOND, 1, 5)

  /** A bucket of the configured limiter is full after thirty seconds. */
  const PATIENCE := 270 * SECOND

  lemma BookingLimitForgets()
    ensures BOOKING_LIMIT.Valid() && BOOKING_LIMIT.Forgets(PATIENCE) && !BOOKING_LIMIT.Forgets(PATIENCE + 2)
  {
  }

  lemma BookingLimitAdmits(history: seq<Event>, window: seq<Event>, ip: string, lo: int, hi: int)
    requires Observed(history, window, lo, hi, PATIENCE)
    ensures Admitted(BOOKING_LIMIT, StepAll(BOOKING_LIMIT, QUIET, history, true), window, ip) <=
            5 + (hi - lo) / (6 * SECOND)
  {
    BookingLimitForgets();
    AdmissionBound(BOOKING_LIMIT, PATIENCE, history, window, ip, lo, hi);
  }

  /**
    * The configured limiter, which both muxes share, may prune as long as no request waits for more than four and a
    * half minutes between its lookup and its answer; it admits at most five requests and one per six seconds.
    */
  lemma BookingLimitHolds(history: seq<Event>, window: seq<Event>, ip: string, lo: int, hi: int)
    requires Observed(history, window, lo, hi, PATIENCE)
    ensures Verdicts(BOOKING_LIMIT, QUIET, history + window, true) ==
            Verdicts(BOOKING_LIMIT, QUIET, history + window, false)
    ensures Admitted(BOOKING_LIMIT, StepAll(BOOKING_LIMIT, QUIET, history, true), window, ip) <=
            5 + (hi - lo) / (6 * SECOND)
  {
    assert [] + LookTimes(history) == LookTimes(history);
    PunctualAppend(history, window, 0, lo, [], PATIENCE);
    QuietInOrder(BOOKING_LIMIT, PATIENCE);
    BookingLimitForgets();
    SameVerdicts(BOOKING_LIMIT, QUIET, QUIET, 0, PATIENCE, history + window);
    BookingLimitAdmits(history, window, ip, lo, hi);
  }
}
