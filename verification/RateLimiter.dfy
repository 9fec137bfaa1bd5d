/** The open-write guard of the indexer: a body cap and a sliding-window limit per client address. */
module RateLimiter {
  import opened Wrappers

  const MAX_BODY_BYTES: real := 16384.0
  const RATE_LIMIT: nat := 30
  const RATE_WINDOW_MS: nat := 60_000
  const MAX_BUCKETS: nat := 5_000

  datatype Ip = Ip(text: string)
  const UNKNOWN: Ip := Ip("unknown")
  type Table = map<Ip, seq<int>>

  /**
   * What the guard reads of a request: its content-length as a number (None when it is not
   * a finite one, Some(0.0) when the header is missing), the address header and the clock.
   */
  datatype Request = Request(length: Option<real>, header: Option<Ip>, now: int) {
    function Address(): Ip {
      if header.Some? then header.value else UNKNOWN
    }

    /** Whether the request counts against an address: its header's, or "unknown" if it has none. */
    predicate Names(ip: Ip) {
      header == Some(ip) || (header == None && ip == Ip("unknown"))
    }

    predicate Oversized() {
      length.Some? && length.value > MAX_BODY_BYTES
    }
  }

  datatype Verdict = Admitted | PayloadTooLarge | RateLimited

  /** The hits less than a window old. */
  function Recent(hits: seq<int>, now: int): (r: seq<int>)
    ensures |r| <= |hits|
  {
    if |hits| == 0 then [] else
      var earlier, last := Recent(hits[..|hits| - 1], now), hits[|hits| - 1];
      if now - last < RATE_WINDOW_MS then earlier + [last] else earlier
  }

  function Bucket(table: Table, ip: Ip): seq<int> {
    if ip in table then table[ip] else []
  }

  predicate Expired(hits: seq<int>, now: int) {
    forall t :: t in hits ==> now - t >= RATE_WINDOW_MS
  }

  /** The table without its expired buckets. */
  function Pruned(table: Table, now: int): Table {
    map ip | ip in table && !Expired(table[ip], now) :: table[ip]
  }

  function GuardVerdict(table: Table, req: Request): Verdict {
    if req.Oversized() then PayloadTooLarge
    else if |Recent(Bucket(table, req.Address()), req.now)| >= RATE_LIMIT then RateLimited
    else Admitted
  }

  function NextTable(table: Table, req: Request): Table {
    var ip, recent := req.Address(), Recent(Bucket(table, req.Address()), req.now);
    match GuardVerdict(table, req)
    case PayloadTooLarge => table
    case RateLimited => table[ip := recent]
    case Admitted =>
      var grown := table[ip := recent + [req.now]];
      if |grown| > MAX_BUCKETS then Pruned(grown, req.now) else grown
  }

  class OpenWriteGuard {
    var ipHits: Table

    constructor ()
      ensures ipHits == map[]
    {
      ipHits := map[];
    }

    /** guardOpenWrite: the verdict, and the table of hits it leaves behind. */
    method GuardOpenWrite(req: Request) returns (v: Verdict)
      modifies this
      ensures v == GuardVerdict(old(ipHits), req)
      ensures ipHits == NextTable(old(ipHits), req)
      ensures v == PayloadTooLarge <==> req.length.Some? && req.length.value > 16384.0
      ensures v == PayloadTooLarge ==> ipHits == old(ipHits)
      ensures forall a :: req.Names(a) && v != PayloadTooLarge ==>
                (v == RateLimited <==> |Recent(Bucket(old(ipHits), a), req.now)| >= 30)
    {
      if req.Oversized() {
        return PayloadTooLarge;
      }
      var ip, now := req.Address(), req.now;
      var recent := Recent(Bucket(ipHits, ip), now);
      if |recent| >= RATE_LIMIT {
        ipHits := ipHits[ip := recent];
        return RateLimited;
      }
      recent := recent + [now];
      ipHits := ipHits[ip := recent];
      if |ipHits| > MAX_BUCKETS {
        DropExpired(now);
      }
      return Admitted;
    }

    method DropExpired(now: int)
      modifies this
      ensures ipHits == Pruned(old(ipHits), now)
    {
      ghost var before := ipHits;
      var left := ipHits.Keys;
      while left != {}
        invariant left <= before.Keys
        invariant forall k :: k in ipHits ==> k in before && ipHits[k] == before[k]
        invariant forall k :: k in left ==> k in ipHits
        invariant forall k :: k in before && k !in left ==> (k in ipHits <==> !Expired(before[k], now))
        decreases left
      {
        var k :| k in left;
        if Expired(ipHits[k], now) {
          ipHits := ipHits - {k};
        }
        left := left - {k};
      }
    }
  }

  // ---------- a reference limiter that forgets nothing ----------

  datatype Hit = Hit(ip: Ip, at: int)

  /** The times at which an address was admitted. */
  function Times(log: seq<Hit>, ip: Ip): seq<int> {
    if |log| == 0 then [] else
      var earlier, last := Times(log[..|log| - 1], ip), log[|log| - 1];
      if last.ip == ip then earlier + [last.at] else earlier
  }

  /** Refuse what comes after RATE_LIMIT admissions of its address in the last window. */
  function ReferenceVerdict(log: seq<Hit>, req: Request): Verdict {
    if req.Oversized() then PayloadTooLarge
    else if |Recent(Times(log, req.Address()), req.now)| >= RATE_LIMIT then RateLimited
    else Admitted
  }

  function NextLog(log: seq<Hit>, req: Request): seq<Hit> {
    if ReferenceVerdict(log, req) == Admitted then log + [Hit(req.Address(), req.now)] else log
  }

  /** The guard's table, and the reference's log, after a list of requests. */
  function TableAfter(reqs: seq<Request>): Table {
    if |reqs| == 0 then map[] else NextTable(TableAfter(reqs[..|reqs| - 1]), reqs[|reqs| - 1])
  }

  function LogAfter(reqs: seq<Request>): seq<Hit> {
    if |reqs| == 0 then [] else NextLog(LogAfter(reqs[..|reqs| - 1]), reqs[|reqs| - 1])
  }

  // ---------- the clocks under which forgetting is harmless ----------

  /** A hit that some request saw expired is still expired at time t. */
  predicate StaysExpired(reqs: seq<Request>, t: int) {
    forall i, j :: 0 <= i < j < |reqs| && !reqs[i].Oversized() && !reqs[j].Oversized() ==>
      reqs[j].now - reqs[i].now >= RATE_WINDOW_MS ==> t - reqs[i].now >= RATE_WINDOW_MS
  }

  /** No request that reads the clock sees a hit revived that an earlier one saw expired. */
  predicate Steady(reqs: seq<Request>) {
    forall k :: 0 <= k < |reqs| && !reqs[k].Oversized() ==> StaysExpired(reqs[..k], reqs[k].now)
  }

  /** The clock never goes back. */
  predicate Ordered(reqs: seq<Request>) {
    forall i, j :: 0 <= i < j < |reqs| ==> reqs[i].now <= reqs[j].now
  }

  lemma OrderedIsSteady(reqs: seq<Request>)
    requires Ordered(reqs)
    ensures Steady(reqs)
  {
    forall k | 0 <= k < |reqs| && !reqs[k].Oversized()
      ensures StaysExpired(reqs[..k], reqs[k].now)
    {
      assert forall j :: 0 <= j < k ==> reqs[..k][j] == reqs[j] && reqs[j].now <= reqs[k].now;
    }
  }

  lemma SteadyPrefix(reqs: seq<Request>, req: Request)
    requires Steady(reqs + [req])
    ensures Steady(reqs) && (!req.Oversized() ==> StaysExpired(reqs, req.now))
  {
    var all := reqs + [req];
    assert all[..|reqs|] == reqs && all[|reqs|] == req;
    forall k | 0 <= k < |reqs| && !reqs[k].Oversized()
      ensures StaysExpired(reqs[..k], reqs[k].now)
    {
      assert all[k] == reqs[k] && all[..k] == reqs[..k];
    }
  }

  lemma SteadyFront(reqs: seq<Request>)
    requires Steady(reqs) && |reqs| > 0
    ensures Steady(reqs[..|reqs| - 1])
    ensures !reqs[|reqs| - 1].Oversized() ==> StaysExpired(reqs[..|reqs| - 1], reqs[|reqs| - 1].now)
  {
    assert reqs == reqs[..|reqs| - 1] + [reqs[|reqs| - 1]];
    SteadyPrefix(reqs[..|reqs| - 1], reqs[|reqs| - 1]);
  }

  /** Every hit that has expired at `early` has expired at `late`. */
  predicate Settles(hits: seq<int>, early: int, late: int) {
    forall t :: t in hits && early - t >= RATE_WINDOW_MS ==> late - t >= RATE_WINDOW_MS
  }

  lemma RecentAppend(hits: seq<int>, t: int, now: int)
    ensures Recent(hits + [t], now) == if now - t < RATE_WINDOW_MS then Recent(hits, now) + [t] else Recent(hits, now)
  {
    assert (hits + [t])[..|hits|] == hits;
  }

  lemma {:induction false} RecentAreHits(hits: seq<int>, now: int, t: int)
    requires t in Recent(hits, now)
    ensures t in hits && now - t < RATE_WINDOW_MS
  {
    var n := |hits| - 1;
    if t in Recent(hits[..n], now) {
      RecentAreHits(hits[..n], now, t);
    }
  }

  lemma SettlesFront(hits: seq<int>, early: int, late: int)
    requires |hits| > 0 && Settles(hits, early, late)
    ensures Settles(hits[..|hits| - 1], early, late)
    ensures early - hits[|hits| - 1] >= RATE_WINDOW_MS ==> late - hits[|hits| - 1] >= RATE_WINDOW_MS
  {
    var init := hits[..|hits| - 1];
    assert hits[|hits| - 1] in hits;
    forall t | t in init && early - t >= RATE_WINDOW_MS
      ensures late - t >= RATE_WINDOW_MS
    {
      assert t in hits;
    }
  }

  /** Dropping expired hits early is not noticed later, as long as they stay expired. */
  lemma {:induction false} RecentTwice(hits: seq<int>, early: int, late: int)
    requires Settles(hits, early, late)
    ensures Recent(Recent(hits, early), late) == Recent(hits, late)
  {
    if |hits| > 0 {
      var init, last := hits[..|hits| - 1], hits[|hits| - 1];
      SettlesFront(hits, early, late);
      RecentTwice(init, early, late);
      RecentAppend(Recent(init, early), last, late);
      hide Settles;
    }
  }

  lemma {:induction false} ExpiredStaysExpired(hits: seq<int>, early: int, late: int)
    requires Settles(hits, early, late) && Expired(hits, early)
    ensures Recent(hits, late) == []
  {
    if |hits| > 0 {
      var n := |hits| - 1;
      assert hits[n] in hits && forall t :: t in hits[..n] ==> t in hits;
      ExpiredStaysExpired(hits[..n], early, late);
    }
  }

  /** At every time that revives nothing, the table and the log hold the same recent hits. */
  ghost predicate Agree(table: Table, log: seq<Hit>, reqs: seq<Request>) {
    forall ip, t :: StaysExpired(reqs, t) ==> Recent(Bucket(table, ip), t) == Recent(Times(log, ip), t)
  }

  /** Every hit in the table is the time of an earlier request that read the clock. */
  ghost predicate HeardOf(table: Table, reqs: seq<Request>) {
    forall ip, h :: h in Bucket(table, ip) ==> Stamped(reqs, h)
  }

  predicate Stamped(reqs: seq<Request>, h: int) {
    exists i :: 0 <= i < |reqs| && !reqs[i].Oversized() && reqs[i].now == h
  }

  lemma StampedGrows(reqs: seq<Request>, req: Request, h: int)
    ensures Stamped(reqs, h) ==> Stamped(reqs + [req], h)
    ensures !req.Oversized() ==> Stamped(reqs + [req], req.now)
  {
    var all := reqs + [req];
    assert all[|reqs|] == req;
    if i :| 0 <= i < |reqs| && !reqs[i].Oversized() && reqs[i].now == h {
      assert all[i] == reqs[i];
    }
  }

  /** A time that revives nothing after the request also revived nothing before it. */
  lemma StaysExpiredBefore(reqs: seq<Request>, req: Request, t: int)
    requires StaysExpired(reqs + [req], t)
    ensures StaysExpired(reqs, t)
    ensures forall h :: Stamped(reqs, h) && !req.Oversized() && req.now - h >= RATE_WINDOW_MS ==>
              t - h >= RATE_WINDOW_MS
  {
    var all := reqs + [req];
    assert all[|reqs|] == req;
    assert forall i :: 0 <= i < |reqs| ==> all[i] == reqs[i];
  }

  lemma StepAgrees(table: Table, log: seq<Hit>, reqs: seq<Request>, req: Request)
    requires Agree(table, log, reqs) && HeardOf(table, reqs)
    requires !req.Oversized() ==> StaysExpired(reqs, req.now)
    ensures GuardVerdict(table, req) == ReferenceVerdict(log, req)
    ensures Agree(NextTable(table, req), NextLog(log, req), reqs + [req])
    ensures HeardOf(NextTable(table, req), reqs + [req])
  {
    SameVerdict(table, log, reqs, req);
    NextHeardOf(table, reqs, req);
    hide GuardVerdict, ReferenceVerdict, NextTable, NextLog, HeardOf;
    forall ip, t | StaysExpired(reqs + [req], t)
      ensures Recent(Bucket(NextTable(table, req), ip), t) == Recent(Times(NextLog(log, req), ip), t)
    {
      StaysExpiredBefore(reqs, req, t);
      if req.Oversized() {
        TooLargeChangesNothing(table, log, req);
      } else {
        assert forall o :: Settles(Bucket(table, o), req.now, t) by {
          HeardOfSettles(table, reqs, req, t);
        }
        BucketAgrees(table, log, req, ip, t);
      }
    }
  }

  lemma SameVerdict(table: Table, log: seq<Hit>, reqs: seq<Request>, req: Request)
    requires Agree(table, log, reqs) && (!req.Oversized() ==> StaysExpired(reqs, req.now))
    ensures GuardVerdict(table, req) == ReferenceVerdict(log, req)
  {
    hide StaysExpired, Recent, Bucket, Times;
  }

  lemma TooLargeChangesNothing(table: Table, log: seq<Hit>, req: Request)
    requires req.Oversized()
    ensures NextTable(table, req) == table && NextLog(log, req) == log
  {
    hide Recent, Bucket, Times, Pruned;
  }

  lemma HeardOfSettles(table: Table, reqs: seq<Request>, req: Request, t: int)
    requires HeardOf(table, reqs) && StaysExpired(reqs + [req], t) && !req.Oversized()
    ensures forall o :: Settles(Bucket(table, o), req.now, t)
  {
    StaysExpiredBefore(reqs, req, t);
    hide StaysExpired, Stamped, Bucket, HeardOf;
    forall o
      ensures Settles(Bucket(table, o), req.now, t)
    {
      forall h | h in Bucket(table, o) && req.now - h >= RATE_WINDOW_MS
        ensures t - h >= RATE_WINDOW_MS
      {
        HeardOfMeans(table, reqs, o, h);
      }
    }
  }

  lemma NextHeardOf(table: Table, reqs: seq<Request>, req: Request)
    requires HeardOf(table, reqs)
    ensures HeardOf(NextTable(table, req), reqs + [req])
  {
    hide Stamped, Recent, HeardOf;
    var next := NextTable(table, req);
    forall ip, h | h in Bucket(next, ip)
      ensures Stamped(reqs + [req], h)
    {
      StampedGrows(reqs, req, h);
      NextHits(table, req, ip, h);
      assert h in Bucket(table, ip) ==> Stamped(reqs, h) by {
        HeardOfMeans(table, reqs, ip, h);
      }
    }
    HeardOfFrom(next, reqs + [req]);
  }

  lemma HeardOfMeans(table: Table, reqs: seq<Request>, ip: Ip, h: int)
    requires HeardOf(table, reqs)
    ensures h in Bucket(table, ip) ==> Stamped(reqs, h)
  {
    hide Stamped, Bucket;
  }

  lemma HeardOfFrom(table: Table, reqs: seq<Request>)
    requires forall ip, h :: h in Bucket(table, ip) ==> Stamped(reqs, h)
    ensures HeardOf(table, reqs)
  {
    hide Stamped, Bucket;
  }

  /** A hit in the next table was in this one, or is the request's own. */
  lemma NextHits(table: Table, req: Request, ip: Ip, h: int)
    requires h in Bucket(NextTable(table, req), ip)
    ensures h in Bucket(table, ip) || (!req.Oversized() && h == req.now)
  {
    var a, now := req.Address(), req.now;
    if h in Recent(Bucket(table, a), now) {
      RecentAreHits(Bucket(table, a), now, h);
    }
    hide Recent, Expired;
  }

  lemma BucketAgrees(table: Table, log: seq<Hit>, req: Request, ip: Ip, t: int)
    requires GuardVerdict(table, req) == ReferenceVerdict(log, req)
    requires forall o :: Settles(Bucket(table, o), req.now, t)
    requires Recent(Bucket(table, ip), t) == Recent(Times(log, ip), t)
    ensures Recent(Bucket(NextTable(table, req), ip), t) == Recent(Times(NextLog(log, req), ip), t)
  {
    hide *;
    var a, now := req.Address(), req.now;
    var grown := table[a := Recent(Bucket(table, a), now) + [now]];
    NextByVerdict(table, log, req);
    FilteringIsUnseen(table, a, ip, now, t);
    GrownSettles(table, a, ip, now, t);
    PruningIsUnseen(grown, ip, now, t);
    AdmittedAgrees(table, log, a, ip, now, t);
  }

  lemma GrownSettles(table: Table, a: Ip, ip: Ip, now: int, t: int)
    requires Settles(Bucket(table, ip), now, t)
    ensures Settles(Bucket(table[a := Recent(Bucket(table, a), now) + [now]], ip), now, t)
  {
    if a == ip {
      forall h | h in Recent(Bucket(table, a), now) + [now]
        ensures now - h < RATE_WINDOW_MS
      {
        if h in Recent(Bucket(table, a), now) {
          RecentAreHits(Bucket(table, a), now, h);
        }
      }
    }
    hide Recent;
  }

  lemma NextByVerdict(table: Table, log: seq<Hit>, req: Request)
    requires GuardVerdict(table, req) == ReferenceVerdict(log, req)
    ensures var a, now := req.Address(), req.now;
            var recent := Recent(Bucket(table, a), now);
            var grown := table[a := recent + [now]];
            match GuardVerdict(table, req)
            case PayloadTooLarge => NextTable(table, req) == table && NextLog(log, req) == log
            case RateLimited => NextTable(table, req) == table[a := recent] && NextLog(log, req) == log
            case Admitted =>
              && (NextTable(table, req) == grown || NextTable(table, req) == Pruned(grown, now))
              && NextLog(log, req) == log + [Hit(a, now)]
  {
    hide Recent, Bucket, Times, Pruned;
  }

  lemma AdmittedAgrees(table: Table, log: seq<Hit>, a: Ip, ip: Ip, now: int, t: int)
    requires Settles(Bucket(table, a), now, t) && Recent(Bucket(table, ip), t) == Recent(Times(log, ip), t)
    ensures var grown := table[a := Recent(Bucket(table, a), now) + [now]];
      Recent(Bucket(grown, ip), t) == Recent(Times(log + [Hit(a, now)], ip), t)
  {
    TimesAppend(log, Hit(a, now), ip);
    RecentTwice(Bucket(table, a), now, t);
    RecentAppend(Recent(Bucket(table, a), now), now, t);
    RecentAppend(Times(log, a), now, t);
    hide Recent, Times;
  }

  lemma FilteringIsUnseen(table: Table, a: Ip, ip: Ip, now: int, t: int)
    requires Settles(Bucket(table, a), now, t)
    ensures Recent(Bucket(table[a := Recent(Bucket(table, a), now)], ip), t) == Recent(Bucket(table, ip), t)
  {
    RecentTwice(Bucket(table, a), now, t);
    hide Recent;
  }

  lemma PruningIsUnseen(table: Table, ip: Ip, now: int, t: int)
    requires Settles(Bucket(table, ip), now, t)
    ensures Recent(Bucket(Pruned(table, now), ip), t) == Recent(Bucket(table, ip), t)
  {
    if ip in table && Expired(table[ip], now) {
      ExpiredStaysExpired(table[ip], now, t);
    }
  }

  lemma TimesAppend(log: seq<Hit>, hit: Hit, ip: Ip)
    ensures Times(log + [hit], ip) == if hit.ip == ip then Times(log, ip) + [hit.at] else Times(log, ip)
  {
    assert (log + [hit])[..|log|] == log;
  }

  lemma {:induction false} RunAgrees(reqs: seq<Request>)
    requires Steady(reqs)
    ensures Agree(TableAfter(reqs), LogAfter(reqs), reqs) && HeardOf(TableAfter(reqs), reqs)
  {
    if |reqs| > 0 {
      var n := |reqs| - 1;
      SteadyFront(reqs);
      RunAgrees(reqs[..n]);
      StepAgrees(TableAfter(reqs[..n]), LogAfter(reqs[..n]), reqs[..n], reqs[n]);
      assert reqs == reqs[..n] + [reqs[n]];
      hide Steady, StaysExpired, Agree, HeardOf, NextTable, NextLog;
    }
  }

  /**
   * With a steady clock, the guard decides every request exactly as a limiter that keeps the
   * whole history: neither filtering nor pruning changes a later decision.
   */
  lemma ForgettingChangesNothing(reqs: seq<Request>, req: Request)
    requires Steady(reqs + [req])
    ensures GuardVerdict(TableAfter(reqs), req) == ReferenceVerdict(LogAfter(reqs), req)
  {
    hide *;
    SteadyPrefix(reqs, req);
    RunAgrees(reqs);
    SameVerdict(TableAfter(reqs), LogAfter(reqs), reqs, req);
  }

  // ---------- the limit, over every window ----------

  /** How many hits fall in the half-open window of 60,000 ms from `start`. */
  function InWindow(hits: seq<int>, start: int): (n: nat) {
    if |hits| == 0 then 0 else
      var last := hits[|hits| - 1];
      InWindow(hits[..|hits| - 1], start) + if start <= last < start + 60_000 then 1 else 0
  }

  /** A window that reaches no further back than the limiter looks holds no more than it sees. */
  lemma {:induction false} WindowIsRecent(hits: seq<int>, start: int, now: int)
    requires now - start < RATE_WINDOW_MS
    ensures InWindow(hits, start) <= |Recent(hits, now)|
  {
    if |hits| > 0 {
      var n := |hits| - 1;
      WindowIsRecent(hits[..n], start, now);
    }
  }

  /** The window that ends at the present is exactly what the limiter sees. */
  lemma {:induction false} LastWindowIsRecent(hits: seq<int>, now: int)
    requires forall t :: t in hits ==> t <= now
    ensures InWindow(hits, now - 59_999) == |Recent(hits, now)|
  {
    if |hits| > 0 {
      var n := |hits| - 1;
      assert hits[n] in hits && forall t :: t in hits[..n] ==> t in hits;
      LastWindowIsRecent(hits[..n], now);
    }
  }

  /** The reference never admits an address more than RATE_LIMIT times in any window of 60,000 ms. */
  lemma {:induction false} AtMostLimitPerWindow(reqs: seq<Request>, ip: Ip, start: int)
    ensures InWindow(Times(LogAfter(reqs), ip), start) <= RATE_LIMIT
  {
    if |reqs| > 0 {
      var n := |reqs| - 1;
      var log, req := LogAfter(reqs[..n]), reqs[n];
      AtMostLimitPerWindow(reqs[..n], ip, start);
      TimesAppend(log, Hit(req.Address(), req.now), ip);
      OneMoreHit(Times(log, ip), start, req.now);
    }
  }

  lemma OneMoreHit(times: seq<int>, start: int, now: int)
    requires InWindow(times, start) <= RATE_LIMIT
    ensures |Recent(times, now)| < RATE_LIMIT ==> InWindow(times + [now], start) <= RATE_LIMIT
  {
    assert (times + [now])[..|times|] == times;
    if now - start < RATE_WINDOW_MS {
      WindowIsRecent(times, start, now);
    }
  }

  /** The times of the requests that count against an address and that the guard admitted. */
  function AdmittedFrom(reqs: seq<Request>, ip: Ip): seq<int> {
    if |reqs| == 0 then [] else
      var n := |reqs| - 1;
      var before := AdmittedFrom(reqs[..n], ip);
      if reqs[n].Names(ip) && GuardVerdict(TableAfter(reqs[..n]), reqs[n]) == Admitted then before + [reqs[n].now]
      else before
  }

  lemma {:induction false} GuardAdmitsTheLog(reqs: seq<Request>, ip: Ip)
    requires Steady(reqs)
    ensures AdmittedFrom(reqs, ip) == Times(LogAfter(reqs), ip)
  {
    if |reqs| > 0 {
      var n := |reqs| - 1;
      SteadyFront(reqs);
      GuardAdmitsTheLog(reqs[..n], ip);
      assert reqs == reqs[..n] + [reqs[n]];
      ForgettingChangesNothing(reqs[..n], reqs[n]);
      TimesAppend(LogAfter(reqs[..n]), Hit(reqs[n].Address(), reqs[n].now), ip);
      hide Steady, GuardVerdict, ReferenceVerdict, TableAfter, Times;
    }
  }

  /** With a steady clock no address is admitted more than 30 times in any 60,000 ms. */
  lemma GuardHoldsTheLimit(reqs: seq<Request>, ip: Ip, start: int)
    requires Steady(reqs)
    ensures InWindow(AdmittedFrom(reqs, ip), start) <= 30
  {
    GuardAdmitsTheLog(reqs, ip);
    AtMostLimitPerWindow(reqs, ip, start);
    hide *;
  }

  /**
   * With a steady clock, a request of acceptable size is refused exactly when 30 admissions of
   * its address are less than a window old.
   */
  lemma RefusedExactlyAtTheLimit(reqs: seq<Request>, req: Request, ip: Ip)
    requires Steady(reqs + [req]) && !req.Oversized() && req.Names(ip)
    ensures |Recent(AdmittedFrom(reqs, ip), req.now)| <= 30
    ensures GuardVerdict(TableAfter(reqs), req) == RateLimited
       <==> |Recent(AdmittedFrom(reqs, ip), req.now)| == 30
  {
    hide *;
    SteadyPrefix(reqs, req);
    RunAgrees(reqs);
    GuardAdmitsTheLog(reqs, ip);
    BucketsAreSmall(reqs, ip);
    GuardRefuses(reqs, req, ip);
  }

  lemma GuardRefuses(reqs: seq<Request>, req: Request, ip: Ip)
    requires !req.Oversized() && req.Names(ip) && StaysExpired(reqs, req.now)
    requires AdmittedFrom(reqs, ip) == Times(LogAfter(reqs), ip)
    requires Agree(TableAfter(reqs), LogAfter(reqs), reqs) && |Bucket(TableAfter(reqs), ip)| <= 30
    ensures |Recent(AdmittedFrom(reqs, ip), req.now)| <= 30
    ensures GuardVerdict(TableAfter(reqs), req) == RateLimited
       <==> |Recent(AdmittedFrom(reqs, ip), req.now)| == 30
  {
    hide StaysExpired, TableAfter, LogAfter, AdmittedFrom, Times, Bucket;
    assert Recent(AdmittedFrom(reqs, ip), req.now) == Recent(Bucket(TableAfter(reqs), ip), req.now);
  }

  lemma {:induction false} LoggedInThePast(reqs: seq<Request>, ip: Ip, now: int)
    requires Ordered(reqs) && (|reqs| > 0 ==> reqs[|reqs| - 1].now <= now)
    ensures forall t :: t in Times(LogAfter(reqs), ip) ==> t <= now
  {
    if |reqs| > 0 {
      var n := |reqs| - 1;
      var log := LogAfter(reqs[..n]);
      LoggedInThePast(reqs[..n], ip, reqs[n].now);
      TimesAppend(log, Hit(reqs[n].Address(), reqs[n].now), ip);
    }
  }

  /** With a clock that never goes back, those admissions are the ones of the window that ends now. */
  lemma RefusedExactlyAfterAFullWindow(reqs: seq<Request>, req: Request, ip: Ip)
    requires Ordered(reqs + [req]) && !req.Oversized() && req.Names(ip)
    ensures GuardVerdict(TableAfter(reqs), req) == RateLimited
       <==> InWindow(AdmittedFrom(reqs, ip), req.now - 59_999) == 30
  {
    hide *;
    OrderedIsSteady(reqs + [req]);
    RefusedExactlyAtTheLimit(reqs, req, ip);
    SteadyPrefix(reqs, req);
    GuardAdmitsTheLog(reqs, ip);
    OrderedPrefix(reqs, req);
    LoggedInThePast(reqs, ip, req.now);
    LastWindowIsRecent(Times(LogAfter(reqs), ip), req.now);
  }

  lemma OrderedPrefix(reqs: seq<Request>, req: Request)
    requires Ordered(reqs + [req])
    ensures Ordered(reqs) && (|reqs| > 0 ==> reqs[|reqs| - 1].now <= req.now)
  {
    var all := reqs + [req];
    assert all[|reqs|] == req;
    assert forall i :: 0 <= i < |reqs| ==> all[i] == reqs[i];
  }

  /** No bucket ever holds more than 30 hits, whatever the clock does. */
  lemma {:induction false} BucketsAreSmall(reqs: seq<Request>, ip: Ip)
    ensures |Bucket(TableAfter(reqs), ip)| <= 30
  {
    if |reqs| > 0 {
      BucketsAreSmall(reqs[..|reqs| - 1], ip);
      BucketsAreSmall(reqs[..|reqs| - 1], reqs[|reqs| - 1].Address());
    }
  }

  // ---------- one client per address ----------

  /** A request neither reads nor changes the recent hits of any address but its own. */
  lemma OthersKeepTheirHits(table: Table, req: Request, a: Ip, ip: Ip, t: int)
    requires req.Names(a) && ip != a && Settles(Bucket(table, ip), req.now, t)
    ensures Recent(Bucket(NextTable(table, req), ip), t) == Recent(Bucket(table, ip), t)
    ensures forall other :: Bucket(other, a) == Bucket(table, a) ==>
              GuardVerdict(other, req) == GuardVerdict(table, req)
  {
    var recent := Recent(Bucket(table, a), req.now);
    PruningIsUnseen(table[a := recent + [req.now]], ip, req.now, t);
    hide Recent, Settles, Pruned;
  }

  /** An admitted request adds its hit to the recent ones of its own address. */
  lemma AdmissionIsRecorded(table: Table, req: Request, a: Ip)
    requires req.Names(a) && GuardVerdict(table, req) == Admitted
    ensures Bucket(NextTable(table, req), a) == Recent(Bucket(table, a), req.now) + [req.now]
  {
    var hits := Recent(Bucket(table, a), req.now) + [req.now];
    assert hits[|hits| - 1] == req.now;
    assert req.now in hits && !Expired(hits, req.now);
    hide Recent;
  }

  /** Up to 5,000 buckets an admission drops none; beyond, it keeps exactly those with a hit alive. */
  lemma DropsOnlyUnderPressure(table: Table, req: Request, a: Ip)
    requires req.Names(a) && GuardVerdict(table, req) == Admitted
    ensures var all := table.Keys + {a};
            var live := set ip | ip in all && (ip == a || exists t :: t in table[ip] && req.now - t < 60_000);
            NextTable(table, req).Keys == if |all| <= 5_000 then all else live
  {
    var grown := table[a := Recent(Bucket(table, a), req.now) + [req.now]];
    assert grown.Keys == table.Keys + {a} && |grown| == |grown.Keys|;
    AdmissionIsRecorded(table, req, a);
    assert !Expired(grown[a], req.now) by {
      assert grown[a][|grown[a]| - 1] == req.now;
      assert req.now in grown[a];
    }
    hide Recent;
  }

  /** The requests that count against an address. */
  function Only(reqs: seq<Request>, ip: Ip): seq<Request> {
    if |reqs| == 0 then [] else
      var n := |reqs| - 1;
      if reqs[n].Names(ip) then Only(reqs[..n], ip) + [reqs[n]] else Only(reqs[..n], ip)
  }

  /** The guard decides an address's requests as if nobody else had ever called. */
  lemma OthersDoNotMatter(reqs: seq<Request>, req: Request, ip: Ip)
    requires Steady(reqs + [req]) && req.Names(ip)
    ensures GuardVerdict(TableAfter(reqs), req) == GuardVerdict(TableAfter(Only(reqs, ip)), req)
  {
    hide *;
    SteadyPrefix(reqs, req);
    OnlyIsSteady(reqs, ip);
    if !req.Oversized() {
      OnlyStaysExpired(reqs, ip, req.now);
    }
    SteadyExtends(Only(reqs, ip), req);
    ForgettingChangesNothing(reqs, req);
    ForgettingChangesNothing(Only(reqs, ip), req);
    OnlyKeepsTimes(reqs, ip);
    SameHistorySameVerdict(LogAfter(reqs), LogAfter(Only(reqs, ip)), req, ip);
  }

  lemma SameHistorySameVerdict(log: seq<Hit>, other: seq<Hit>, req: Request, ip: Ip)
    requires req.Names(ip) && Times(log, ip) == Times(other, ip)
    ensures ReferenceVerdict(log, req) == ReferenceVerdict(other, req)
  {
    hide Times, Recent;
  }

  lemma {:induction false} OnlyKeepsTimes(reqs: seq<Request>, ip: Ip)
    ensures Times(LogAfter(reqs), ip) == Times(LogAfter(Only(reqs, ip)), ip)
  {
    if |reqs| > 0 {
      var n := |reqs| - 1;
      var init, last := reqs[..n], reqs[n];
      OnlyKeepsTimes(init, ip);
      NextTimes(LogAfter(init), last, ip);
      NextTimes(LogAfter(Only(init, ip)), last, ip);
      OneMoreRequest(Only(init, ip), last);
      if last.Names(ip) {
        SameHistorySameVerdict(LogAfter(init), LogAfter(Only(init, ip)), last, ip);
      }
      hide Times, ReferenceVerdict, NextLog;
    }
  }

  lemma NextTimes(log: seq<Hit>, req: Request, ip: Ip)
    ensures Times(NextLog(log, req), ip)
         == if req.Names(ip) && ReferenceVerdict(log, req) == Admitted then Times(log, ip) + [req.now]
            else Times(log, ip)
  {
    TimesAppend(log, Hit(req.Address(), req.now), ip);
    hide Times, ReferenceVerdict;
  }

  lemma {:induction false} OnlyIsStamped(reqs: seq<Request>, ip: Ip, h: int)
    requires Stamped(Only(reqs, ip), h)
    ensures Stamped(reqs, h)
  {
    var n := |reqs| - 1;
    var init, last := reqs[..n], reqs[n];
    assert reqs == init + [last];
    StampedGrows(init, last, h);
    if last.Names(ip) {
      StampedLast(Only(init, ip), last, h);
    }
    if Stamped(Only(init, ip), h) {
      OnlyIsStamped(init, ip, h);
    }
  }

  lemma StampedLast(reqs: seq<Request>, req: Request, h: int)
    requires Stamped(reqs + [req], h)
    ensures Stamped(reqs, h) || (!req.Oversized() && req.now == h)
  {
    var all := reqs + [req];
    var i :| 0 <= i < |all| && !all[i].Oversized() && all[i].now == h;
    if i < |reqs| {
      assert reqs[i] == all[i];
    }
  }

  lemma {:induction false} OnlyStaysExpired(reqs: seq<Request>, ip: Ip, t: int)
    requires StaysExpired(reqs, t)
    ensures StaysExpired(Only(reqs, ip), t)
  {
    if |reqs| > 0 {
      var n := |reqs| - 1;
      var init, last := reqs[..n], reqs[n];
      assert reqs == init + [last];
      StaysExpiredBefore(init, last, t);
      OnlyStaysExpired(init, ip, t);
      forall h | Stamped(Only(init, ip), h)
        ensures Stamped(init, h)
      {
        OnlyIsStamped(init, ip, h);
      }
      StaysExpiredAfter(Only(init, ip), last, t);
      hide StaysExpired, Stamped;
    }
  }

  lemma StaysExpiredAfter(reqs: seq<Request>, req: Request, t: int)
    requires StaysExpired(reqs, t)
    requires forall h :: Stamped(reqs, h) && !req.Oversized() && req.now - h >= RATE_WINDOW_MS ==>
               t - h >= RATE_WINDOW_MS
    ensures StaysExpired(reqs + [req], t)
  {
    forall i | 0 <= i < |reqs| && !reqs[i].Oversized()
      ensures Stamped(reqs, reqs[i].now)
    {
    }
  }

  lemma {:induction false} OnlyIsSteady(reqs: seq<Request>, ip: Ip)
    requires Steady(reqs)
    ensures Steady(Only(reqs, ip))
  {
    if |reqs| > 0 {
      var n := |reqs| - 1;
      SteadyFront(reqs);
      OnlyIsSteady(reqs[..n], ip);
      if !reqs[n].Oversized() {
        OnlyStaysExpired(reqs[..n], ip, reqs[n].now);
      }
      SteadyExtends(Only(reqs[..n], ip), reqs[n]);
      hide Steady, StaysExpired;
    }
  }

  lemma SteadyExtends(reqs: seq<Request>, req: Request)
    requires Steady(reqs) && (!req.Oversized() ==> StaysExpired(reqs, req.now))
    ensures Steady(reqs + [req])
  {
    hide StaysExpired;
    var all := reqs + [req];
    forall k | 0 <= k < |all| && !all[k].Oversized()
      ensures StaysExpired(all[..k], all[k].now)
    {
      if k < |reqs| {
        assert all[k] == reqs[k] && all[..k] == reqs[..k];
      } else {
        assert all[..k] == reqs;
      }
    }
  }

  /** A small request with address header a at time t, and n of them. */
  function From(a: Ip, t: int): Request {
    Request(Some(0.0), Some(a), t)
  }

  function BurstFrom(a: Ip, n: nat, t: int): seq<Request> {
    seq(n, _ => From(a, t))
  }

  /** Thirty-one requests in one millisecond: the last is admitted exactly when its client is another. */
  lemma AnotherClientIsAdmitted(a: Ip, b: Ip, t: int)
    ensures GuardVerdict(TableAfter(BurstFrom(a, 30, t)), From(b, t)) == if a == b then RateLimited else Admitted
  {
    BurstVerdict(a, b, 30, t);
    BurstIsAdmitted(a, b, 30, t);
    StampsInWindow(30, t, t - 59_999);
    hide TableAfter, Recent, Stamps, BurstFrom;
  }

  lemma BurstIsOrdered(a: Ip, b: Ip, n: nat, t: int)
    ensures Ordered(BurstFrom(a, n, t) + [From(b, t)])
    ensures !From(b, t).Oversized() && From(b, t).Names(b) && From(b, t).now == t
  {
  }

  lemma BurstVerdict(a: Ip, b: Ip, n: nat, t: int)
    ensures GuardVerdict(TableAfter(BurstFrom(a, n, t)), From(b, t)) == RateLimited
       <==> InWindow(AdmittedFrom(BurstFrom(a, n, t), b), t - 59_999) == 30
  {
    BurstIsOrdered(a, b, n, t);
    hide *;
    RefusedExactlyAfterAFullWindow(BurstFrom(a, n, t), From(b, t), b);
  }

  lemma {:induction false} BurstIsAdmitted(a: Ip, b: Ip, n: nat, t: int)
    requires n <= 30
    ensures AdmittedFrom(BurstFrom(a, n, t), b) == if a == b then Stamps(n, t) else []
  {
    if n > 0 {
      var earlier := BurstFrom(a, n - 1, t);
      BurstIsAdmitted(a, b, n - 1, t);
      assert BurstFrom(a, n, t) == earlier + [From(a, t)];
      assert BurstFrom(a, n, t)[..n - 1] == earlier;
      if a == b {
        BurstVerdict(a, a, n - 1, t);
        StampsInWindow(n - 1, t, t - 59_999);
        BurstGrows(n - 1, t);
      }
      hide TableAfter, Recent, Stamps, BurstFrom, InWindow;
    }
  }

  // ---------- every other clock loses a decision ----------

  function Stamps(n: nat, t: int): seq<int> {
    seq(n, _ => t)
  }

  /** A small request without an address header at time t, and n of them. */
  function At(t: int): Request {
    Request(Some(0.0), None, t)
  }

  function Burst(n: nat, t: int): seq<Request> {
    seq(n, _ => At(t))
  }

  /** A full burst at t0, then one request at t1. */
  function BurstThenOne(t0: int, t1: int): seq<Request> {
    Burst(RATE_LIMIT, t0) + [At(t1)]
  }

  lemma {:induction false} BurstFills(n: nat, t: int)
    requires n <= RATE_LIMIT
    ensures Bucket(TableAfter(Burst(n, t)), UNKNOWN) == Times(LogAfter(Burst(n, t)), UNKNOWN) == Stamps(n, t)
    ensures TableAfter(Burst(n, t)).Keys <= {UNKNOWN}
  {
    if n > 0 {
      var b := Burst(n - 1, t);
      BurstFills(n - 1, t);
      RecentStamps(n - 1, t, t);
      BurstStep(TableAfter(b), LogAfter(b), n - 1, t);
      OneMoreRequest(b, At(t));
      BurstGrows(n - 1, t);
      hide *;
    }
  }

  lemma BurstGrows(n: nat, t: int)
    ensures Burst(n + 1, t) == Burst(n, t) + [At(t)]
    ensures Stamps(n + 1, t) == Stamps(n, t) + [t]
  {
  }

  lemma OneMoreRequest(reqs: seq<Request>, req: Request)
    ensures TableAfter(reqs + [req]) == NextTable(TableAfter(reqs), req)
    ensures LogAfter(reqs + [req]) == NextLog(LogAfter(reqs), req)
  {
    assert (reqs + [req])[..|reqs|] == reqs;
  }

  lemma BurstStep(table: Table, log: seq<Hit>, n: nat, t: int)
    requires n < RATE_LIMIT && Recent(Stamps(n, t), t) == Stamps(n, t) && table.Keys <= {UNKNOWN}
    requires Bucket(table, UNKNOWN) == Times(log, UNKNOWN) == Stamps(n, t)
    ensures Bucket(NextTable(table, At(t)), UNKNOWN) == Times(NextLog(log, At(t)), UNKNOWN) == Stamps(n, t) + [t]
    ensures NextTable(table, At(t)).Keys <= {UNKNOWN}
  {
    TimesAppend(log, Hit(UNKNOWN, t), UNKNOWN);
    FewBuckets(table[UNKNOWN := Stamps(n, t) + [t]]);
  }

  lemma FewBuckets(table: Table)
    requires table.Keys <= {UNKNOWN}
    ensures |table| <= 1
  {
    assert |table| == |table.Keys|;
    if table.Keys != {} {
      assert table.Keys == {UNKNOWN};
    }
  }

  lemma {:induction false} RecentStamps(n: nat, t: int, now: int)
    ensures Recent(Stamps(n, t), now) == if now - t < RATE_WINDOW_MS then Stamps(n, t) else []
  {
    if n > 0 {
      RecentStamps(n - 1, t, now);
      BurstGrows(n - 1, t);
      RecentAppend(Stamps(n - 1, t), t, now);
      hide Recent, Stamps;
    }
  }

  /**
   * A burst at t0, one request at t1 and one at t2: the guard and the full history part on
   * the last one exactly when the burst has expired at t1 and is alive again at t2; then the
   * guard admits what the history refuses.
   */
  lemma RevivalParts(t0: int, t1: int, t2: int)
    ensures var reqs := BurstThenOne(t0, t1);
            var parted := GuardVerdict(TableAfter(reqs), At(t2)) != ReferenceVerdict(LogAfter(reqs), At(t2));
            && (parted <==> t1 - t0 >= RATE_WINDOW_MS > t2 - t0)
            && (parted ==>
                  && GuardVerdict(TableAfter(reqs), At(t2)) == Admitted
                  && ReferenceVerdict(LogAfter(reqs), At(t2)) == RateLimited)
  {
    var b := Burst(RATE_LIMIT, t0);
    BurstFills(RATE_LIMIT, t0);
    OneMoreRequest(b, At(t1));
    RecentStamps(RATE_LIMIT, t0, t1);
    RecentStamps(RATE_LIMIT, t0, t2);
    AfterBurst(TableAfter(b), LogAfter(b), t0, t1);
    LastVerdicts(TableAfter(BurstThenOne(t0, t1)), LogAfter(BurstThenOne(t0, t1)), t0, t1, t2);
    hide *;
  }

  lemma AfterBurst(table: Table, log: seq<Hit>, t0: int, t1: int)
    requires table.Keys <= {UNKNOWN} && Bucket(table, UNKNOWN) == Times(log, UNKNOWN) == Stamps(RATE_LIMIT, t0)
    requires Recent(Stamps(RATE_LIMIT, t0), t1) == if t1 - t0 < RATE_WINDOW_MS then Stamps(RATE_LIMIT, t0) else []
    ensures Bucket(NextTable(table, At(t1)), UNKNOWN)
         == if t1 - t0 < RATE_WINDOW_MS then Stamps(RATE_LIMIT, t0) else [t1]
    ensures Times(NextLog(log, At(t1)), UNKNOWN)
         == if t1 - t0 < RATE_WINDOW_MS then Stamps(RATE_LIMIT, t0) else Stamps(RATE_LIMIT, t0) + [t1]
  {
    TimesAppend(log, Hit(UNKNOWN, t1), UNKNOWN);
    FewBuckets(table[UNKNOWN := [t1]]);
    assert |Stamps(RATE_LIMIT, t0)| == RATE_LIMIT;
    hide Times, Stamps;
  }

  lemma LastVerdicts(table: Table, log: seq<Hit>, t0: int, t1: int, t2: int)
    requires Recent(Stamps(RATE_LIMIT, t0), t2) == if t2 - t0 < RATE_WINDOW_MS then Stamps(RATE_LIMIT, t0) else []
    requires Bucket(table, UNKNOWN) == if t1 - t0 < RATE_WINDOW_MS then Stamps(RATE_LIMIT, t0) else [t1]
    requires Times(log, UNKNOWN)
          == if t1 - t0 < RATE_WINDOW_MS then Stamps(RATE_LIMIT, t0) else Stamps(RATE_LIMIT, t0) + [t1]
    ensures GuardVerdict(table, At(t2)) != ReferenceVerdict(log, At(t2)) <==> t1 - t0 >= RATE_WINDOW_MS > t2 - t0
    ensures t1 - t0 >= RATE_WINDOW_MS > t2 - t0 ==> GuardVerdict(table, At(t2)) == Admitted
    ensures t1 - t0 >= RATE_WINDOW_MS > t2 - t0 ==> ReferenceVerdict(log, At(t2)) == RateLimited
  {
    RecentAppend(Stamps(RATE_LIMIT, t0), t1, t2);
    assert |Stamps(RATE_LIMIT, t0)| == RATE_LIMIT;
    assert |Recent([t1], t2)| <= 1;
    hide Times, Stamps, Recent, Bucket;
  }

  /** A clock: the readings that requests may see, in this order, each any number of times. */
  type Clock = seq<int>

  /** Expired once means expired for good. */
  predicate NeverRevives(clock: Clock) {
    forall i, j, k :: 0 <= i < j < k < |clock| && clock[j] - clock[i] >= RATE_WINDOW_MS ==>
      clock[k] - clock[i] >= RATE_WINDOW_MS
  }

  /** Request i of the run reads entry at[i] of the clock, unless it is too large to read it. */
  predicate Reads(reqs: seq<Request>, clock: Clock, at: seq<int>) {
    && |at| == |reqs|
    && (forall i :: 0 <= i < |at| ==> 0 <= at[i] < |clock|)
    && (forall i, j :: 0 <= i < j < |at| ==> at[i] <= at[j])
    && (forall i :: 0 <= i < |reqs| && !reqs[i].Oversized() ==> reqs[i].now == clock[at[i]])
  }

  lemma ReadsSteadily(reqs: seq<Request>, clock: Clock, at: seq<int>)
    requires NeverRevives(clock) && Reads(reqs, clock, at)
    ensures Steady(reqs)
  {
    forall k | 0 <= k < |reqs| && !reqs[k].Oversized()
      ensures StaysExpired(reqs[..k], reqs[k].now)
    {
      forall i, j | 0 <= i < j < k && !reqs[i].Oversized() && !reqs[j].Oversized()
                    && reqs[j].now - reqs[i].now >= RATE_WINDOW_MS
        ensures reqs[k].now - reqs[i].now >= RATE_WINDOW_MS
      {
        assert at[i] <= at[j] <= at[k];
      }
    }
  }

  lemma RevivalIsReadable(clock: Clock, i: int, j: int, k: int)
    requires 0 <= i < j < k < |clock|
    ensures Reads(BurstThenOne(clock[i], clock[j]) + [At(clock[k])], clock, seq(RATE_LIMIT, _ => i) + [j, k])
  {
  }

  /**
   * The exact condition: the guard decides as the full history does on every run that reads a
   * clock, if and only if no reading of that clock revives a hit an earlier one saw expired.
   */
  lemma LosslessExactly(clock: Clock)
    ensures NeverRevives(clock) <==>
      forall reqs: seq<Request>, req: Request, at: seq<int> :: Reads(reqs + [req], clock, at) ==>
        GuardVerdict(TableAfter(reqs), req) == ReferenceVerdict(LogAfter(reqs), req)
  {
    if NeverRevives(clock) {
      forall reqs: seq<Request>, req: Request, at: seq<int> | Reads(reqs + [req], clock, at)
        ensures GuardVerdict(TableAfter(reqs), req) == ReferenceVerdict(LogAfter(reqs), req)
      {
        ReadsSteadily(reqs + [req], clock, at);
        ForgettingChangesNothing(reqs, req);
      }
    } else {
      var i, j, k :| 0 <= i < j < k < |clock| && clock[j] - clock[i] >= RATE_WINDOW_MS > clock[k] - clock[i];
      RevivalIsReadable(clock, i, j, k);
      RevivalParts(clock[i], clock[j], clock[k]);
      hide *;
    }
  }

  /**
   * One such run: 30 admissions at time 0, one at 60,000, and one more when the clock reads 0
   * again. The guard has then admitted 31 requests in one window.
   */
  lemma BackwardClockForgets()
    ensures var reqs := BurstThenOne(0, 60_000);
            && GuardVerdict(TableAfter(reqs), At(0)) == Admitted
            && ReferenceVerdict(LogAfter(reqs), At(0)) == RateLimited
            && InWindow(AdmittedFrom(reqs + [At(0)], Ip("unknown")), 0) == 31
  {
    var reqs := BurstThenOne(0, 60_000);
    RevivalParts(0, 60_000, 0);
    OrderedIsSteady(reqs);
    GuardAdmitsTheLog(reqs, UNKNOWN);
    BurstFills(RATE_LIMIT, 0);
    RecentStamps(RATE_LIMIT, 0, 60_000);
    AfterBurst(TableAfter(Burst(RATE_LIMIT, 0)), LogAfter(Burst(RATE_LIMIT, 0)), 0, 60_000);
    OneMoreRequest(Burst(RATE_LIMIT, 0), At(60_000));
    assert (reqs + [At(0)])[..|reqs|] == reqs;
    StampsInWindow(RATE_LIMIT, 0, 0);
    ThirtyOne();
    hide TableAfter, LogAfter, Times, InWindow, Stamps, Recent, Steady, GuardVerdict, ReferenceVerdict,
      NextTable, NextLog;
  }

  lemma {:induction false} StampsInWindow(n: nat, t: int, start: int)
    requires start <= t < start + RATE_WINDOW_MS
    ensures InWindow(Stamps(n, t), start) == n
  {
    if n > 0 {
      StampsInWindow(n - 1, t, start);
      assert Stamps(n, t)[..n - 1] == Stamps(n - 1, t);
    }
  }

  lemma ThirtyOne()
    ensures InWindow(Stamps(RATE_LIMIT, 0) + [60_000] + [0], 0) == 31
  {
    StampsInWindow(RATE_LIMIT, 0, 0);
    var s := Stamps(RATE_LIMIT, 0) + [60_000];
    assert s[..RATE_LIMIT] == Stamps(RATE_LIMIT, 0);
    assert (s + [0])[..|s|] == s;
    hide Stamps;
  }
}
