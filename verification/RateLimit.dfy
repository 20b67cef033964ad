/**
 * The in-memory fixed-window rate limiter (internal/api/middleware/ratelimit.go). Times are
 * nanoseconds of the monotonic clock.
 */
module RateLimit {
  import opened Types

  datatype Bucket = Bucket(count: int, start: int)

  datatype Answer = Answer(allowed: bool, limit: int, remaining: int, resetAfter: int)

  datatype Policy = Policy(limit: int, window: int)

  /** Budget left after `count` requests, never negative. */
  function Remaining(limit: int, count: int): int {
    if limit - count > 0 then limit - count else 0
  }

  /** A window is over once more than its length has passed. */
  predicate Live(b: Option<Bucket>, now: int, p: Policy) {
    b.Some? && now - b.value.start <= p.window
  }

  // ---------- One address ----------

  function Next(b: Option<Bucket>, now: int, p: Policy): Bucket {
    if !Live(b, now, p) then Bucket(1, now)
    else if b.value.count >= p.limit then b.value
    else Bucket(b.value.count + 1, b.value.start)
  }

  function Verdict(b: Option<Bucket>, now: int, p: Policy): Answer {
    if !Live(b, now, p) then Answer(true, p.limit, Remaining(p.limit, 1), p.window)
    else
      var resetAfter := p.window - (now - b.value.start);
      if b.value.count >= p.limit then Answer(false, p.limit, 0, resetAfter)
      else Answer(true, p.limit, Remaining(p.limit, b.value.count + 1), resetAfter)
  }

  /** The bucket of an address after its requests, were it never cleaned up. */
  function After(times: seq<int>, p: Policy): Option<Bucket> {
    if times == [] then None else Some(Next(After(times[..|times| - 1], p), times[|times| - 1], p))
  }

  /** An admitted request and the window it was charged to. */
  datatype Grant = Grant(at: int, start: int)

  function Log(times: seq<int>, p: Policy): seq<Grant> {
    if times == [] then [] else
    var earlier, now := times[..|times| - 1], times[|times| - 1];
    var b := After(earlier, p);
    Log(earlier, p) + Granted(b, now, p)
  }

  /** Grants issued between two instants, both included. */
  function CountIn(log: seq<Grant>, lo: int, hi: int): nat {
    if log == [] then 0 else
    CountIn(log[..|log| - 1], lo, hi) + if lo <= log[|log| - 1].at <= hi then 1 else 0
  }

  /** Grants charged to the window that starts at `w`. */
  function CountOf(log: seq<Grant>, w: int): nat {
    if log == [] then 0 else CountOf(log[..|log| - 1], w) + if log[|log| - 1].start == w then 1 else 0
  }

  lemma CountSnoc(log: seq<Grant>, g: Grant, lo: int, hi: int, w: int)
    ensures CountIn(log + [g], lo, hi) == CountIn(log, lo, hi) + if lo <= g.at <= hi then 1 else 0
    ensures CountOf(log + [g], w) == CountOf(log, w) + if g.start == w then 1 else 0
  {
    assert (log + [g])[..|log|] == log;
  }

  function Granted(b: Option<Bucket>, now: int, p: Policy): seq<Grant> {
    if Verdict(b, now, p).allowed then [Grant(now, Next(b, now, p).start)] else []
  }

  lemma Snoc(times: seq<int>, now: int, p: Policy)
    ensures After(times + [now], p) == Some(Next(After(times, p), now, p))
    ensures Log(times + [now], p) == Log(times, p) + Granted(After(times, p), now, p)
  {
    assert (times + [now])[..|times|] == times;
  }

  lemma CountStep(log: seq<Grant>, b: Option<Bucket>, now: int, p: Policy, lo: int, hi: int, w: int)
    ensures CountIn(log + Granted(b, now, p), lo, hi) ==
            CountIn(log, lo, hi) + if Verdict(b, now, p).allowed && lo <= now <= hi then 1 else 0
    ensures CountOf(log + Granted(b, now, p), w) ==
            CountOf(log, w) + if Verdict(b, now, p).allowed && Next(b, now, p).start == w then 1 else 0
  {
    if Verdict(b, now, p).allowed {
      CountSnoc(log, Grant(now, Next(b, now, p).start), lo, hi, w);
    } else {
      assert log + Granted(b, now, p) == log;
    }
  }

  predicate Ordered(times: seq<int>) { forall i, j :: 0 <= i < j < |times| ==> times[i] <= times[j] }

  /** A limit below one still admits the request that opens a window. */
  function Cap(p: Policy): int { if p.limit < 1 then 1 else p.limit }

  /** What holds of an address's bucket and grants after any requests. */
  predicate Booked(b: Option<Bucket>, log: seq<Grant>, now: int, p: Policy) {
    && (b.None? ==> log == [])
    && (b.Some? ==> 1 <= b.value.count <= Cap(p) && b.value.start <= now)
    && (b.Some? ==> CountOf(log, b.value.start) == b.value.count)
    && (forall g :: g in log ==>
          b.Some? && g.start <= b.value.start && g.start <= g.at <= g.start + p.window && g.at <= now)
  }

  lemma {:induction false} BookedNever(log: seq<Grant>, w: int)
    requires forall g :: g in log ==> g.start < w
    ensures CountOf(log, w) == 0
  {
    if log != [] {
      var init := log[..|log| - 1];
      assert forall g :: g in init ==> g in log;
      BookedNever(init, w);
      assert log[|log| - 1] in log;
    }
  }

  lemma BookedStep(b: Option<Bucket>, log: seq<Grant>, before: int, now: int, p: Policy)
    requires Booked(b, log, before, p) && before <= now && p.window >= 0
    ensures Booked(Some(Next(b, now, p)), log + Granted(b, now, p), now, p)
  {
    CountStep(log, b, now, p, 0, 0, Next(b, now, p).start);
    if !Live(b, now, p) {
      BookedNever(log, now);
    }
  }

  lemma BookedLater(b: Option<Bucket>, log: seq<Grant>, before: int, now: int, p: Policy)
    requires Booked(b, log, before, p) && before <= now
    ensures Booked(b, log, now, p)
  {
  }

  lemma {:induction false} LogIsBooked(times: seq<int>, now: int, p: Policy)
    requires Ordered(times) && p.window >= 0
    requires times != [] ==> times[|times| - 1] <= now
    ensures Booked(After(times, p), Log(times, p), now, p)
  {
    if times != [] {
      var earlier, last := times[..|times| - 1], times[|times| - 1];
      LogIsBooked(earlier, last, p);
      var b, log := After(earlier, p), Log(earlier, p);
      BookedStep(b, log, last, last, p);
      BookedLater(Some(Next(b, last, p)), log + Granted(b, last, p), last, now, p);
    }
  }

  /** Every fixed window admits at most the limit. */
  lemma {:induction false} WindowBudget(times: seq<int>, p: Policy, w: int)
    requires Ordered(times) && p.window >= 0
    ensures CountOf(Log(times, p), w) <= Cap(p)
  {
    if times != [] {
      var earlier, last := times[..|times| - 1], times[|times| - 1];
      WindowBudget(earlier, p, w);
      LogIsBooked(earlier, last, p);
      LogIsBooked(times, last, p);
      CountStep(Log(earlier, p), After(earlier, p), last, p, 0, 0, w);
    }
  }

  /** Bound on the grants within [t, t + window], by where the current window starts. */
  function SlidingBound(b: Option<Bucket>, t: int, p: Policy): int {
    if b.None? then 0
    else if b.value.start < t then b.value.count - 1
    else if b.value.start <= t + p.window then Cap(p) - 1 + b.value.count
    else 2 * Cap(p) - 1
  }

  lemma {:induction false} NoneBefore(log: seq<Grant>, lo: int, hi: int)
    requires forall g :: g in log ==> g.at < lo
    ensures CountIn(log, lo, hi) == 0
  {
    if log != [] {
      var init := log[..|log| - 1];
      assert forall g :: g in init ==> g in log;
      NoneBefore(init, lo, hi);
      assert log[|log| - 1] in log;
    }
  }

  lemma SlidingStep(b: Option<Bucket>, log: seq<Grant>, now: int, p: Policy, t: int)
    requires Booked(b, log, now, p) && p.window >= 0
    requires CountIn(log, t, t + p.window) <= SlidingBound(b, t, p)
    ensures CountIn(log + Granted(b, now, p), t, t + p.window) <= SlidingBound(Some(Next(b, now, p)), t, p)
  {
    CountStep(log, b, now, p, t, t + p.window, 0);
    if now < t { NoneBefore(log, t, t + p.window); }
  }

  lemma {:induction false} SlidingInvariant(times: seq<int>, p: Policy, t: int)
    requires Ordered(times) && p.window >= 0
    ensures CountIn(Log(times, p), t, t + p.window) <= SlidingBound(After(times, p), t, p)
  {
    if times != [] {
      var earlier, now := times[..|times| - 1], times[|times| - 1];
      SlidingInvariant(earlier, p, t);
      LogIsBooked(earlier, now, p);
      SlidingStep(After(earlier, p), Log(earlier, p), now, p, t);
    }
  }

  /** No stretch of one window's length sees more than twice the limit less one. */
  lemma SlidingBudget(times: seq<int>, p: Policy, t: int)
    requires Ordered(times) && p.window >= 0
    ensures CountIn(Log(times, p), t, t + p.window) <= 2 * Cap(p) - 1
  {
    SlidingInvariant(times, p, t);
    if times != [] { LogIsBooked(times, times[|times| - 1], p); }
  }

  lemma {:induction false} ChargedAreRecent(log: seq<Grant>, w: int, lo: int, hi: int)
    requires forall g :: g in log && g.start == w ==> lo <= g.at <= hi
    ensures CountOf(log, w) <= CountIn(log, lo, hi)
  {
    if log != [] {
      var init := log[..|log| - 1];
      assert forall g :: g in init ==> g in log;
      ChargedAreRecent(init, w, lo, hi);
      assert log[|log| - 1] in log;
    }
  }

  lemma RefusedBooked(b: Option<Bucket>, log: seq<Grant>, now: int, p: Policy)
    requires Booked(b, log, now, p)
    ensures !Verdict(b, now, p).allowed <==> Live(b, now, p) && CountOf(log, b.value.start) >= p.limit
    ensures !Verdict(b, now, p).allowed ==> CountIn(log, now - p.window, now) >= p.limit
  {
    if Live(b, now, p) {
      ChargedAreRecent(log, b.value.start, now - p.window, now);
    }
  }

  /** A refusal happens exactly when the live window is spent, and then the last window's length saw `limit` grants. */
  lemma RefusedOnlyWhenSpent(times: seq<int>, now: int, p: Policy)
    requires Ordered(times) && p.window >= 0 && (times != [] ==> times[|times| - 1] <= now)
    ensures var b, log := After(times, p), Log(times, p);
      && (!Verdict(b, now, p).allowed <==> Live(b, now, p) && CountOf(log, b.value.start) >= p.limit)
      && (!Verdict(b, now, p).allowed ==> CountIn(log, now - p.window, now) >= p.limit)
  {
    LogIsBooked(times, now, p);
    RefusedBooked(After(times, p), Log(times, p), now, p);
  }

  /**
   * The headers tell the truth: what is left is the limit less the grants charged to the window, this
   * one included, and the window is live up to the announced reset and not after.
   */
  lemma HeadersAreTrue(times: seq<int>, now: int, p: Policy)
    requires Ordered(times) && p.window >= 0 && (times != [] ==> times[|times| - 1] <= now)
    ensures var b := After(times, p);
      var a, window, log := Verdict(b, now, p), Next(b, now, p), Log(times, p) + Granted(b, now, p);
      var granted := CountOf(log, window.start);
      && a.limit == p.limit && a.remaining == (if granted < p.limit then p.limit - granted else 0)
      && Live(Some(window), now + a.resetAfter, p) && !Live(Some(window), now + a.resetAfter + 1, p)
  {
    LogIsBooked(times, now, p);
    BookedStep(After(times, p), Log(times, p), now, now, p);
  }

  // ---------- The bound is attained ----------

  /** A bucket and the grants so far between two instants. */
  datatype Fed = Fed(bucket: Option<Bucket>, granted: int)

  function FeedOne(f: Fed, at: int, p: Policy, lo: int, hi: int): Fed {
    Fed(Some(Next(f.bucket, at, p)), f.granted + if Verdict(f.bucket, at, p).allowed && lo <= at <= hi then 1 else 0)
  }

  /** Requests fed to a bucket one by one. */
  function Feed(f: Fed, times: seq<int>, p: Policy, lo: int, hi: int): Fed
    decreases |times|
  {
    if times == [] then f else Feed(FeedOne(f, times[0], p, lo, hi), times[1..], p, lo, hi)
  }

  lemma {:induction false} FeedAppends(f: Fed, xs: seq<int>, ys: seq<int>, p: Policy, lo: int, hi: int)
    ensures Feed(f, xs + ys, p, lo, hi) == Feed(Feed(f, xs, p, lo, hi), ys, p, lo, hi)
    decreases |xs|
  {
    if xs == [] {
      assert xs + ys == ys;
    } else {
      assert (xs + ys)[1..] == xs[1..] + ys;
      FeedAppends(FeedOne(f, xs[0], p, lo, hi), xs[1..], ys, p, lo, hi);
    }
  }

  lemma FeedSingle(f: Fed, at: int, p: Policy, lo: int, hi: int)
    ensures Feed(f, [at], p, lo, hi) == FeedOne(f, at, p, lo, hi)
  {
    assert [at][1..] == [];
  }

  /** Feeding requests from the start is running them. */
  lemma {:induction false} FeedIsRun(times: seq<int>, p: Policy, lo: int, hi: int)
    ensures Feed(Fed(None, 0), times, p, lo, hi) == Fed(After(times, p), CountIn(Log(times, p), lo, hi))
  {
    if times != [] {
      var init, at := times[..|times| - 1], times[|times| - 1];
      FeedIsRun(init, p, lo, hi);
      assert times == init + [at];
      FeedAppends(Fed(None, 0), init, [at], p, lo, hi);
      FeedSingle(Feed(Fed(None, 0), init, p, lo, hi), at, p, lo, hi);
      CountStep(Log(init, p), After(init, p), at, p, lo, hi, 0);
    }
  }

  function Burst(at: int, k: nat): seq<int> { if k == 0 then [] else [at] + Burst(at, k - 1) }

  lemma {:induction false} BurstMeans(at: int, k: nat)
    ensures |Burst(at, k)| == k && forall i :: 0 <= i < k ==> Burst(at, k)[i] == at
  {
    if k > 0 { BurstMeans(at, k - 1); }
  }

  /** A burst that fits the live window is admitted whole. */
  lemma {:induction false} BurstAdmitted(b: Bucket, n: int, at: int, k: nat, p: Policy, lo: int, hi: int)
    requires at - b.start <= p.window && b.count + k <= p.limit && lo <= at <= hi
    ensures Feed(Fed(Some(b), n), Burst(at, k), p, lo, hi) == Fed(Some(Bucket(b.count + k, b.start)), n + k)
    decreases k
  {
    if k > 0 {
      assert Burst(at, k)[1..] == Burst(at, k - 1);
      BurstAdmitted(Bucket(b.count + 1, b.start), n + 1, at, k - 1, p, lo, hi);
    }
  }

  /** Open a window, fill it at its last instant, open the next and fill that. */
  function WorstCase(w: int, spare: nat): seq<int> { [0] + (Burst(w, spare) + ([w + 1] + Burst(w + 1, spare))) }

  lemma WorstCaseOrdered(w: int, spare: nat)
    requires w >= 0
    ensures Ordered(WorstCase(w, spare))
  {
    BurstMeans(w, spare);
    BurstMeans(w + 1, spare);
  }

  lemma WorstCaseFed(p: Policy)
    requires p.limit >= 1 && p.window >= 1
    ensures Feed(Fed(None, 0), WorstCase(p.window, p.limit - 1), p, 1, 1 + p.window).granted == 2 * p.limit - 1
  {
    var w, spare := p.window, p.limit - 1;
    var tail := [w + 1] + Burst(w + 1, spare);
    FeedAppends(Fed(None, 0), [0], Burst(w, spare) + tail, p, 1, 1 + w);
    FeedSingle(Fed(None, 0), 0, p, 1, 1 + w);
    FeedAppends(Fed(Some(Bucket(1, 0)), 0), Burst(w, spare), tail, p, 1, 1 + w);
    BurstAdmitted(Bucket(1, 0), 0, w, spare, p, 1, 1 + w);
    FeedAppends(Fed(Some(Bucket(p.limit, 0)), spare), [w + 1], Burst(w + 1, spare), p, 1, 1 + w);
    FeedSingle(Fed(Some(Bucket(p.limit, 0)), spare), w + 1, p, 1, 1 + w);
    BurstAdmitted(Bucket(1, w + 1), spare + 1, w + 1, spare, p, 1, 1 + w);
  }

  lemma FedIsReached(times: seq<int>, p: Policy, n: int)
    requires Ordered(times) && Feed(Fed(None, 0), times, p, 1, 1 + p.window).granted == n
    ensures exists ts :: Ordered(ts) && CountIn(Log(ts, p), 1, 1 + p.window) == n
  {
    FeedIsRun(times, p, 1, 1 + p.window);
  }

  /** For every positive limit and window, requests exist that reach the sliding bound. */
  lemma SlidingBudgetIsTight(p: Policy)
    requires p.limit >= 1 && p.window >= 1
    ensures exists times :: Ordered(times) && CountIn(Log(times, p), 1, 1 + p.window) == 2 * p.limit - 1
  {
    WorstCaseOrdered(p.window, p.limit - 1);
    WorstCaseFed(p);
    FedIsReached(WorstCase(p.window, p.limit - 1), p, 2 * p.limit - 1);
  }

  // ---------- The whole limiter ----------

  /** A request with the three clock reads it takes: the cleanup's age test, the cleanup, the decision. */
  datatype Request = Request(ip: string, ageRead: int, cleanRead: int, now: int)

  datatype Limiter = Limiter(buckets: map<string, Bucket>, lastClean: int)

  const CLEAN_EVERY: int := 300_000_000_000

  function Lookup(buckets: map<string, Bucket>, ip: string): Option<Bucket> {
    if ip in buckets then Some(buckets[ip]) else None
  }

  function Swept(buckets: map<string, Bucket>, now: int, p: Policy): map<string, Bucket> {
    map k | k in buckets && now - buckets[k].start <= p.window :: buckets[k]
  }

  function Cleaned(l: Limiter, r: Request, p: Policy): Limiter {
    if r.ageRead - l.lastClean > CLEAN_EVERY then Limiter(Swept(l.buckets, r.cleanRead, p), r.cleanRead) else l
  }

  function Served(l: Limiter, r: Request, p: Policy): Limiter {
    l.(buckets := l.buckets[r.ip := Next(Lookup(l.buckets, r.ip), r.now, p)])
  }

  /** The limiter after a run, with or without the periodic cleanup. */
  function Ran(l: Limiter, rs: seq<Request>, p: Policy, clean: bool): Limiter {
    if rs == [] then l else
    var before, r := Ran(l, rs[..|rs| - 1], p, clean), rs[|rs| - 1];
    Served(if clean then Cleaned(before, r, p) else before, r, p)
  }

  function Answers(l: Limiter, rs: seq<Request>, p: Policy, clean: bool): seq<Answer> {
    if rs == [] then [] else
    var before, r := Ran(l, rs[..|rs| - 1], p, clean), rs[|rs| - 1];
    var at := if clean then Cleaned(before, r, p) else before;
    Answers(l, rs[..|rs| - 1], p, clean) + [Verdict(Lookup(at.buckets, r.ip), r.now, p)]
  }

  /** Clock reads never go back, within a request or from one to the next. */
  predicate Monotone(rs: seq<Request>) {
    && (forall i :: 0 <= i < |rs| ==> rs[i].ageRead <= rs[i].cleanRead <= rs[i].now)
    && (forall i, j :: 0 <= i < j < |rs| ==> rs[i].now <= rs[j].ageRead)
  }

  /** The swept map only lacks buckets that are over at time `t`. */
  predicate Agree(swept: map<string, Bucket>, kept: map<string, Bucket>, t: int, p: Policy) {
    && (forall k :: k in swept ==> k in kept && kept[k] == swept[k])
    && (forall k :: k in kept && k !in swept ==> t - kept[k].start > p.window)
  }

  lemma AgreeStep(swept: Limiter, kept: Limiter, r: Request, t: int, p: Policy)
    requires Agree(swept.buckets, kept.buckets, t, p) && t <= r.ageRead <= r.cleanRead <= r.now
    ensures var at := Cleaned(swept, r, p);
      && Verdict(Lookup(at.buckets, r.ip), r.now, p) == Verdict(Lookup(kept.buckets, r.ip), r.now, p)
      && Agree(Served(at, r, p).buckets, Served(kept, r, p).buckets, r.now, p)
  {
    var at := Cleaned(swept, r, p);
    assert Agree(at.buckets, kept.buckets, r.now, p);
  }

  /** The periodic cleanup never changes an answer. */
  lemma {:induction false} CleanupInvisible(l: Limiter, rs: seq<Request>, p: Policy)
    requires Monotone(rs)
    ensures Answers(l, rs, p, true) == Answers(l, rs, p, false)
    ensures rs == [] ==> Ran(l, rs, p, true) == Ran(l, rs, p, false)
    ensures rs != [] ==> Agree(Ran(l, rs, p, true).buckets, Ran(l, rs, p, false).buckets, rs[|rs| - 1].now, p)
  {
    if rs != [] {
      var init, r := rs[..|rs| - 1], rs[|rs| - 1];
      CleanupInvisible(l, init, p);
      var t := if init == [] then r.ageRead else init[|init| - 1].now;
      AgreeStep(Ran(l, init, p, true), Ran(l, init, p, false), r, t, p);
    }
  }

  function TimesOf(rs: seq<Request>, ip: string): seq<int> {
    if rs == [] then [] else
    TimesOf(rs[..|rs| - 1], ip) + if rs[|rs| - 1].ip == ip then [rs[|rs| - 1].now] else []
  }

  /** Without cleanup an address sees only its own requests. */
  lemma {:induction false} AddressesAreIndependent(lastClean: int, rs: seq<Request>, p: Policy, ip: string)
    ensures Lookup(Ran(Limiter(map[], lastClean), rs, p, false).buckets, ip) == After(TimesOf(rs, ip), p)
  {
    if rs != [] {
      AddressesAreIndependent(lastClean, rs[..|rs| - 1], p, ip);
      var earlier, r := TimesOf(rs[..|rs| - 1], ip), rs[|rs| - 1];
      if r.ip == ip {
        Snoc(earlier, r.now, p);
      } else {
        assert TimesOf(rs, ip) == earlier;
      }
    }
  }

  /** Requests from an address the limiter admitted between two instants. */
  function Admitted(rs: seq<Request>, answers: seq<Answer>, ip: string, lo: int, hi: int): nat
    requires |answers| == |rs|
  {
    if rs == [] then 0 else
    var n := |rs| - 1;
    Admitted(rs[..n], answers[..n], ip, lo, hi) +
      if rs[n].ip == ip && answers[n].allowed && lo <= rs[n].now <= hi then 1 else 0
  }

  lemma {:induction false} AnswersSize(l: Limiter, rs: seq<Request>, p: Policy, clean: bool)
    ensures |Answers(l, rs, p, clean)| == |rs|
  {
    if rs != [] { AnswersSize(l, rs[..|rs| - 1], p, clean); }
  }

  lemma {:induction false} AdmittedIsLogged(lastClean: int, rs: seq<Request>, p: Policy, ip: string, lo: int, hi: int)
    ensures var answers := Answers(Limiter(map[], lastClean), rs, p, false);
      |answers| == |rs| && Admitted(rs, answers, ip, lo, hi) == CountIn(Log(TimesOf(rs, ip), p), lo, hi)
  {
    var l := Limiter(map[], lastClean);
    AnswersSize(l, rs, p, false);
    if rs != [] {
      var init, r, answers := rs[..|rs| - 1], rs[|rs| - 1], Answers(l, rs, p, false);
      var earlier := TimesOf(init, ip);
      AdmittedIsLogged(lastClean, init, p, ip, lo, hi);
      AnswersSize(l, init, p, false);
      assert answers[..|rs| - 1] == Answers(l, init, p, false);
      AddressesAreIndependent(lastClean, init, p, ip);
      if r.ip == ip {
        Snoc(earlier, r.now, p);
        CountStep(Log(earlier, p), After(earlier, p), r.now, p, lo, hi, 0);
      } else {
        assert TimesOf(rs, ip) == earlier;
      }
    }
  }

  lemma {:induction false} TimesAreOrdered(rs: seq<Request>, ip: string)
    requires Monotone(rs)
    ensures Ordered(TimesOf(rs, ip))
    ensures forall t :: t in TimesOf(rs, ip) ==> exists i :: 0 <= i < |rs| && rs[i].now == t
  {
    if rs != [] {
      var init, r := rs[..|rs| - 1], rs[|rs| - 1];
      TimesAreOrdered(init, ip);
      forall t | t in TimesOf(rs, ip) ensures exists i :: 0 <= i < |rs| && rs[i].now == t {
        if t in TimesOf(init, ip) {
          var i :| 0 <= i < |init| && init[i].now == t;
          assert rs[i].now == t;
        } else {
          assert rs[|rs| - 1].now == t;
        }
      }
      var earlier := TimesOf(init, ip);
      forall k | 0 <= k < |earlier| ensures earlier[k] <= r.now {
        assert earlier[k] in earlier;
        var i :| 0 <= i < |init| && init[i].now == earlier[k];
        assert rs[i].now <= rs[|rs| - 1].ageRead;
      }
    }
  }

  /** The limiter as it runs, cleanup included: any address, any run, any stretch of one window's length. */
  lemma LimiterBudget(lastClean: int, rs: seq<Request>, p: Policy, ip: string, t: int)
    requires Monotone(rs) && p.window >= 0
    ensures var answers := Answers(Limiter(map[], lastClean), rs, p, true);
      |answers| == |rs| && Admitted(rs, answers, ip, t, t + p.window) <= 2 * Cap(p) - 1
  {
    var l := Limiter(map[], lastClean);
    CleanupInvisible(l, rs, p);
    AdmittedIsLogged(lastClean, rs, p, ip, t, t + p.window);
    TimesAreOrdered(rs, ip);
    SlidingBudget(TimesOf(rs, ip), p, t);
  }

  class RateLimiter {
    const policy: Policy
    var buckets: map<string, Bucket>
    var lastClean: int

    constructor (policy: Policy, now: int)
      ensures this.policy == policy && View() == Limiter(map[], now)
    {
      this.policy := policy;
      buckets, lastClean := map[], now;
    }

    ghost function View(): Limiter
      reads this
    {
      Limiter(buckets, lastClean)
    }

    method Sweep(now: int)
      modifies this`buckets
      ensures buckets == Swept(old(buckets), now, policy)
    {
      var todo := buckets.Keys;
      while todo != {}
        invariant todo <= buckets.Keys <= old(buckets).Keys
        invariant forall k :: k in buckets ==> buckets[k] == old(buckets)[k]
        invariant forall k :: k in old(buckets) && k !in todo ==>
          (k in buckets <==> now - old(buckets)[k].start <= policy.window)
        decreases |todo|
      {
        var k :| k in todo;
        if now - buckets[k].start > policy.window {
          buckets := buckets - {k};
        }
        todo := todo - {k};
      }
    }

    /** allowMemory, given what the clock shows at its three reads. */
    method AllowMemory(r: Request) returns (answer: Answer)
      modifies this
      ensures View() == Served(Cleaned(old(View()), r, policy), r, policy)
      ensures answer == Verdict(Lookup(Cleaned(old(View()), r, policy).buckets, r.ip), r.now, policy)
    {
      if r.ageRead - lastClean > CLEAN_EVERY {
        Sweep(r.cleanRead);
        lastClean := r.cleanRead;
      }
      if r.ip !in buckets || r.now - buckets[r.ip].start > policy.window {
        buckets := buckets[r.ip := Bucket(1, r.now)];
        return Answer(true, policy.limit, Remaining(policy.limit, 1), policy.window);
      }
      var b := buckets[r.ip];
      var resetAfter := policy.window - (r.now - b.start);
      if b.count >= policy.limit {
        return Answer(false, policy.limit, 0, resetAfter);
      }
      b := b.(count := b.count + 1);
      buckets := buckets[r.ip := b];
      return Answer(true, policy.limit, Remaining(policy.limit, b.count), resetAfter);
    }
  }
}
