/**
 The fixed-window request limiter with its pruned map (web/api_access.go).

 Times are nanoseconds since the zero time; a window is the aligned minute of a time.
 */
module RateLimiter {
  import opened Folds

  const MINUTE: nat := 60_000_000_000
  const PRUNE_ABOVE: nat := 2048

  datatype Bucket = Bucket(window: nat, count: nat)

  /** A request as the lock sees it: who asks, when its clock was read, and the limit it loaded. */
  datatype Request = Request(identity: string, time: nat, limit: int)

  type Buckets = map<string, Bucket>

  function Window(time: nat): nat {
    time / MINUTE
  }

  /** The count that a request's bucket has once it is counted in. */
  function CountIn(buckets: Buckets, identity: string, window: nat): nat {
    if identity in buckets && buckets[identity].window == window then buckets[identity].count + 1 else 1
  }

  function Tally(buckets: Buckets, identity: string, window: nat): Buckets {
    buckets[identity := Bucket(window, CountIn(buckets, identity, window))]
  }

  function Pruned(buckets: Buckets, window: nat): Buckets {
    if |buckets| > PRUNE_ABOVE
    then map identity | identity in buckets && buckets[identity].window >= window :: buckets[identity]
    else buckets
  }

  /** One request under the lock. A limit of zero or less switches limiting off and leaves the map alone. */
  function Serve(buckets: Buckets, r: Request, pruning: bool): (Buckets, bool) {
    if r.limit <= 0 then (buckets, true)
    else
      var w := Window(r.time);
      var tallied := Tally(buckets, r.identity, w);
      (if pruning then Pruned(tallied, w) else tallied, CountIn(buckets, r.identity, w) <= r.limit)
  }

  function ServeAll(requests: seq<Request>, pruning: bool): (Buckets, seq<bool>) {
    if requests == [] then (map[], [])
    else
      var (buckets, answers) := ServeAll(requests[..|requests| - 1], pruning);
      var (buckets', answer) := Serve(buckets, requests[|requests| - 1], pruning);
      (buckets', answers + [answer])
  }

  class Limiter {
    var buckets: Buckets

    constructor ()
      ensures buckets == map[]
    {
      buckets := map[];
    }

    method Allow(r: Request) returns (allowed: bool, remaining: nat)
      modifies this
      ensures (buckets, allowed) == Serve(old(buckets), r, true)
      ensures r.limit > 0 ==>
                remaining == if allowed then r.limit - CountIn(old(buckets), r.identity, Window(r.time)) else 0
    {
      remaining := 0;
      if r.limit <= 0 {
        return true, 0;
      }
      var window := Window(r.time);
      var bucket := if r.identity in buckets then buckets[r.identity] else Bucket(0, 0);
      if r.identity !in buckets || bucket.window != window {
        bucket := Bucket(window, 0);
      }
      bucket := bucket.(count := bucket.count + 1);
      buckets := buckets[r.identity := bucket];
      remaining := if r.limit - bucket.count < 0 then 0 else r.limit - bucket.count;
      if |buckets| > PRUNE_ABOVE {
        Prune(window);
      }
      allowed := bucket.count <= r.limit;
    }

    /** The loop over the map that deletes the buckets of earlier windows. */
    method Prune(window: nat)
      modifies this
      ensures buckets == map identity | identity in old(buckets) && old(buckets)[identity].window >= window
                         :: old(buckets)[identity]
    {
      var keys := buckets.Keys;
      while keys != {}
        invariant keys <= old(buckets).Keys
        invariant buckets == map identity | identity in old(buckets)
                  && (identity in keys || old(buckets)[identity].window >= window)
                             :: old(buckets)[identity]
        decreases keys
      {
        var key :| key in keys;
        if buckets[key].window < window {
          buckets := buckets - {key};
        }
        keys := keys - {key};
      }
    }
  }

  // ---------- The reference: counting ----------

  /** Whether `r` is a limited request of this identity in this window. */
  predicate Counts(r: Request, identity: string, window: nat) {
    r.limit > 0 && r.identity == identity && Window(r.time) == window
  }

  function Requested(requests: seq<Request>, identity: string, window: nat): nat {
    if requests == [] then 0
    else Requested(requests[..|requests| - 1], identity, window)
         + if Counts(requests[|requests| - 1], identity, window) then 1 else 0
  }

  /** Request `i` is admitted if it is among the first `limit` of its identity in its window, itself included. */
  predicate Admitted(requests: seq<Request>, i: nat)
    requires i < |requests|
  {
    var r := requests[i];
    r.limit <= 0 || Requested(requests[..i + 1], r.identity, Window(r.time)) <= r.limit
  }

  /** Requests reach the lock in the order in which they read the clock. */
  predicate InClockOrder(requests: seq<Request>) {
    forall i, j :: 0 <= i < j < |requests| ==> requests[i].time <= requests[j].time
  }

  /** What a map knows about the present and future windows: the number of requests so far. */
  ghost predicate Knows(buckets: Buckets, requests: seq<Request>) {
    forall identity: string, window: nat ::
      (requests == [] || Window(requests[|requests| - 1].time) <= window)
      ==> CountIn(buckets, identity, window) == Requested(requests, identity, window) + 1
  }

  lemma WindowMonotone(s: nat, t: nat)
    requires s <= t
    ensures Window(s) <= Window(t)
  {
  }

  lemma {:induction false} NoneRequestedYet(requests: seq<Request>, identity: string, window: nat)
    requires InClockOrder(requests)
    requires requests != [] ==> Window(requests[|requests| - 1].time) < window
    ensures Requested(requests, identity, window) == 0
  {
    if requests != [] {
      var n := |requests| - 1;
      if n > 0 {
        WindowMonotone(requests[n - 1].time, requests[n].time);
      }
      NoneRequestedYet(requests[..n], identity, window);
    }
  }

  lemma PruningKeepsCounts(buckets: Buckets, w: nat, identity: string, window: nat)
    requires w <= window
    ensures CountIn(Pruned(buckets, w), identity, window) == CountIn(buckets, identity, window)
  {
  }

  /** Counting a request in: its own bucket grows, and nobody else's does, given that a later window starts empty. */
  lemma TallyCounts(buckets: Buckets, who: string, w: nat, identity: string, window: nat)
    requires window == w || CountIn(buckets, identity, window) == 1
    ensures CountIn(Tally(buckets, who, w), identity, window)
            == CountIn(buckets, identity, window) + if identity == who && window == w then 1 else 0
  {
  }

  lemma ServeCounts(buckets: Buckets, r: Request, pruning: bool, identity: string, window: nat)
    requires Window(r.time) <= window
    requires window == Window(r.time) || CountIn(buckets, identity, window) == 1
    ensures CountIn(Serve(buckets, r, pruning).0, identity, window)
            == CountIn(buckets, identity, window) + if Counts(r, identity, window) then 1 else 0
  {
    if r.limit > 0 {
      var w := Window(r.time);
      TallyCounts(buckets, r.identity, w, identity, window);
      PruningKeepsCounts(Tally(buckets, r.identity, w), w, identity, window);
    }
  }

  lemma RequestedSnoc(requests: seq<Request>, r: Request, identity: string, window: nat)
    ensures Requested(requests + [r], identity, window)
            == Requested(requests, identity, window) + if Counts(r, identity, window) then 1 else 0
  {
    assert (requests + [r])[..|requests|] == requests;
  }

  lemma ServeKeepsKnowledge(buckets: Buckets, requests: seq<Request>, r: Request, pruning: bool)
    requires InClockOrder(requests + [r]) && Knows(buckets, requests)
    ensures Knows(Serve(buckets, r, pruning).0, requests + [r])
    ensures Serve(buckets, r, pruning).1 <==> Admitted(requests + [r], |requests|)
  {
    var longer, w := requests + [r], Window(r.time);
    LastBefore(requests, r);
    forall identity: string, window: nat | w <= window
      ensures CountIn(Serve(buckets, r, pruning).0, identity, window) == Requested(longer, identity, window) + 1
    {
      assert CountIn(buckets, identity, window) == Requested(requests, identity, window) + 1;
      if window > w {
        NoneRequestedYet(longer, identity, window);
      }
      RequestedSnoc(requests, r, identity, window);
      ServeCounts(buckets, r, pruning, identity, window);
    }
    assert CountIn(buckets, r.identity, w) == Requested(requests, r.identity, w) + 1;
    RequestedSnoc(requests, r, r.identity, w);
    assert longer[..|requests| + 1] == longer;
  }

  lemma LastBefore(requests: seq<Request>, r: Request)
    requires InClockOrder(requests + [r])
    ensures requests != [] ==> Window(requests[|requests| - 1].time) <= Window(r.time)
  {
    if requests != [] {
      var longer := requests + [r];
      assert longer[|requests| - 1] == requests[|requests| - 1] && longer[|requests|] == r;
      WindowMonotone(requests[|requests| - 1].time, r.time);
    }
  }

  lemma {:induction false} MapKnowsTheCounts(requests: seq<Request>, pruning: bool)
    requires InClockOrder(requests)
    ensures Knows(ServeAll(requests, pruning).0, requests)
    ensures |ServeAll(requests, pruning).1| == |requests|
    ensures forall i :: 0 <= i < |requests| ==> (ServeAll(requests, pruning).1[i] <==> Admitted(requests, i))
  {
    if requests != [] {
      var n := |requests| - 1;
      var init, last := requests[..n], requests[n];
      assert requests == init + [last];
      MapKnowsTheCounts(init, pruning);
      ServeKeepsKnowledge(ServeAll(init, pruning).0, init, last, pruning);
      EarlierAreDecided(init, last);
    }
  }

  lemma EarlierAreDecided(requests: seq<Request>, r: Request)
    ensures forall i :: 0 <= i < |requests| ==> (Admitted(requests + [r], i) <==> Admitted(requests, i))
  {
    forall i | 0 <= i < |requests| ensures Admitted(requests + [r], i) <==> Admitted(requests, i) {
      assert (requests + [r])[..i + 1] == requests[..i + 1];
    }
  }

  // ---------- Main results ----------

  /** The pruned map decides every request as the never-pruned one does, and both decide by counting. */
  lemma PruningIsInvisible(requests: seq<Request>)
    requires InClockOrder(requests)
    ensures ServeAll(requests, true).1 == ServeAll(requests, false).1
    ensures |ServeAll(requests, true).1| == |requests|
    ensures forall i :: 0 <= i < |requests| ==> (ServeAll(requests, true).1[i] <==> Admitted(requests, i))
  {
    MapKnowsTheCounts(requests, true);
    MapKnowsTheCounts(requests, false);
  }

  /** The limited requests of one identity in one window that the limiter let through. */
  function AdmittedIn(requests: seq<Request>, answers: seq<bool>, identity: string, window: nat): nat
    requires |answers| == |requests|
  {
    if requests == [] then 0
    else
      var n := |requests| - 1;
      AdmittedIn(requests[..n], answers[..n], identity, window)
      + if answers[n] && Counts(requests[n], identity, window) then 1 else 0
  }

  predicate LimitsAtMost(requests: seq<Request>, limit: nat) {
    forall r :: r in requests ==> r.limit <= limit
  }

  /**
   An identity gets at most `limit` requests through in an aligned minute, also while the limit is being
   changed below that.
   */
  lemma {:induction false} QuotaPerWindow(requests: seq<Request>, identity: string, window: nat, limit: nat)
    requires InClockOrder(requests) && LimitsAtMost(requests, limit)
    ensures |ServeAll(requests, true).1| == |requests|
    ensures AdmittedIn(requests, ServeAll(requests, true).1, identity, window) <= limit
    ensures AdmittedIn(requests, ServeAll(requests, true).1, identity, window) <= Requested(requests, identity, window)
  {
    PruningIsInvisible(requests);
    if requests != [] {
      var n := |requests| - 1;
      var init, last := requests[..n], requests[n];
      assert requests == init + [last];
      PruningIsInvisible(init);
      QuotaPerWindow(init, identity, window, limit);
      var answers := ServeAll(requests, true).1;
      assert answers[..n] == ServeAll(init, true).1;
      if answers[n] && Counts(last, identity, window) {
        assert Admitted(requests, n);
        assert requests[..n + 1] == requests;
      }
    }
  }

  /** With a fixed limit the quota is also granted in full: refusals start only when it is used up. */
  lemma {:induction false} QuotaIsGranted(requests: seq<Request>, identity: string, window: nat, limit: nat)
    requires InClockOrder(requests) && limit > 0 && forall r :: r in requests ==> r.limit == limit
    ensures |ServeAll(requests, true).1| == |requests|
    ensures var admitted, requested := AdmittedIn(requests, ServeAll(requests, true).1, identity, window),
            Requested(requests, identity, window);
            admitted == if requested <= limit then requested else limit
  {
    PruningIsInvisible(requests);
    if requests != [] {
      var n := |requests| - 1;
      var init, last := requests[..n], requests[n];
      assert requests == init + [last];
      PruningIsInvisible(init);
      QuotaIsGranted(init, identity, window, limit);
      assert ServeAll(requests, true).1[..n] == ServeAll(init, true).1;
      assert last in requests;
      assert requests[..n + 1] == requests;
    }
  }

  /** The requests of one identity that were let through with a time in `from..to`. */
  function AdmittedBetween(requests: seq<Request>, answers: seq<bool>, identity: string, from: nat, to: nat): nat
    requires |answers| == |requests|
  {
    if requests == [] then 0
    else
      var n := |requests| - 1;
      AdmittedBetween(requests[..n], answers[..n], identity, from, to)
      + if answers[n] && requests[n].limit > 0 && requests[n].identity == identity && from <= requests[n].time <= to
        then 1 else 0
  }

  lemma {:induction false} SpanMeetsTwoWindows(requests: seq<Request>, answers: seq<bool>, identity: string,
      from: nat, to: nat)
    requires |answers| == |requests| && from <= to <= from + MINUTE
    ensures AdmittedBetween(requests, answers, identity, from, to)
            <= AdmittedIn(requests, answers, identity, Window(from))
                + AdmittedIn(requests, answers, identity, Window(from) + 1)
  {
    if requests != [] {
      var n := |requests| - 1;
      SpanMeetsTwoWindows(requests[..n], answers[..n], identity, from, to);
      if from <= requests[n].time <= to {
        WindowMonotone(from, requests[n].time);
        WindowMonotone(requests[n].time, from + MINUTE);
        assert Window(from + MINUTE) == Window(from) + 1;
      }
    }
  }

  /** In any span of one minute or less, wherever it starts, at most twice the limit gets through. */
  lemma QuotaPerSpan(requests: seq<Request>, identity: string, from: nat, to: nat, limit: nat)
    requires InClockOrder(requests) && LimitsAtMost(requests, limit)
    requires from <= to <= from + MINUTE
    ensures |ServeAll(requests, true).1| == |requests|
    ensures AdmittedBetween(requests, ServeAll(requests, true).1, identity, from, to) <= 2 * limit
  {
    PruningIsInvisible(requests);
    QuotaPerWindow(requests, identity, Window(from), limit);
    QuotaPerWindow(requests, identity, Window(from) + 1, limit);
    SpanMeetsTwoWindows(requests, ServeAll(requests, true).1, identity, from, to);
  }

  // ---------- Requests in any order ----------

  /** Whether serving `r` after `requests` drops the buckets of earlier windows. */
  predicate Prunes(requests: seq<Request>, r: Request, pruning: bool) {
    pruning && r.limit > 0 && |Tally(ServeAll(requests, pruning).0, r.identity, Window(r.time))| > PRUNE_ABOVE
  }

  /**
   The block in progress: the identity's requests in the window since its last request in another window and
   since the last time that a request in a later window pruned the map.
   */
  function Streak(requests: seq<Request>, identity: string, window: nat, pruning: bool): nat {
    if requests == [] then 0
    else
      var init, last := requests[..|requests| - 1], requests[|requests| - 1];
      if last.limit <= 0 then Streak(init, identity, window, pruning)
      else if last.identity == identity then
        if Window(last.time) == window then Streak(init, identity, window, pruning) + 1 else 0
      else if window < Window(last.time) && Prunes(init, last, pruning) then 0
      else Streak(init, identity, window, pruning)
  }

  /** The sizes of all blocks, the one in progress included. */
  function Blocks(requests: seq<Request>, identity: string, window: nat, pruning: bool): seq<nat> {
    if requests == [] then []
    else
      var init, last := requests[..|requests| - 1], requests[|requests| - 1];
      var before := Blocks(init, identity, window, pruning);
      if !Counts(last, identity, window) then before
      else if before == [] || Streak(init, identity, window, pruning) == 0 then before + [1]
      else before[..|before| - 1] + [before[|before| - 1] + 1]
  }

  lemma OthersKeepCounts(buckets: Buckets, who: string, w: nat, identity: string, window: nat)
    requires identity != who
    ensures CountIn(Tally(buckets, who, w), identity, window) == CountIn(buckets, identity, window)
  {
  }

  lemma PrunedCounts(buckets: Buckets, w: nat, identity: string, window: nat)
    ensures CountIn(Pruned(buckets, w), identity, window)
            == if window < w && |buckets| > PRUNE_ABOVE then 1 else CountIn(buckets, identity, window)
  {
  }

  /** With no assumption on the order, a bucket counts the block in progress. */
  lemma {:induction false} BucketCountsStreak(requests: seq<Request>, identity: string, window: nat, pruning: bool)
    ensures CountIn(ServeAll(requests, pruning).0, identity, window) == Streak(requests, identity, window, pruning) + 1
  {
    if requests != [] {
      var init, last := requests[..|requests| - 1], requests[|requests| - 1];
      BucketCountsStreak(init, identity, window, pruning);
      if last.limit > 0 {
        var buckets, w := ServeAll(init, pruning).0, Window(last.time);
        ServedCounts(buckets, last, pruning, identity, window);
      }
    }
  }

  lemma ServedCounts(buckets: Buckets, r: Request, pruning: bool, identity: string, window: nat)
    requires r.limit > 0
    ensures var after := CountIn(Serve(buckets, r, pruning).0, identity, window);
            var prunes := pruning && |Tally(buckets, r.identity, Window(r.time))| > PRUNE_ABOVE;
            after == if r.identity == identity
                     then (if Window(r.time) == window then CountIn(buckets, identity, window) + 1 else 1)
                     else if window < Window(r.time) && prunes then 1
                     else CountIn(buckets, identity, window)
  {
    var w := Window(r.time);
    PrunedCounts(Tally(buckets, r.identity, w), w, identity, window);
    if r.identity != identity {
      OthersKeepCounts(buckets, r.identity, w, identity, window);
    }
  }

  predicate AllPositive(blocks: seq<nat>) {
    forall i :: 0 <= i < |blocks| ==> blocks[i] > 0
  }

  lemma {:induction false} BlockInProgressIsLast(requests: seq<Request>, identity: string, window: nat, pruning: bool)
    ensures AllPositive(Blocks(requests, identity, window, pruning))
    ensures var blocks, streak := Blocks(requests, identity, window, pruning),
            Streak(requests, identity, window, pruning);
            streak > 0 ==> blocks != [] && blocks[|blocks| - 1] == streak
  {
    if requests != [] {
      BlockInProgressIsLast(requests[..|requests| - 1], identity, window, pruning);
    }
  }

  function Size(b: nat): int { b }

  function UpTo(limit: nat): nat -> int {
    b => if b < limit then b else limit
  }

  /**
   One more request in the last block, or in a new one, with a function that grows with the block as far as it
   is admitted.
   */
  lemma NextInBlocks(blocks: seq<nat>, fresh_: bool, f: nat -> int)
    requires fresh_ || blocks != []
    requires f(0) == 0
    ensures var longer := if fresh_ then blocks + [1] else blocks[..|blocks| - 1] + [blocks[|blocks| - 1] + 1];
            var size := if fresh_ then 0 else blocks[|blocks| - 1];
            Sum(longer, f) == Sum(blocks, f) + f(size + 1) - f(size)
  {
    if fresh_ {
      assert (blocks + [1])[..|blocks|] == blocks;
    } else {
      var init := blocks[..|blocks| - 1];
      assert (init + [blocks[|blocks| - 1] + 1])[..|init|] == init;
    }
  }

  lemma LastAnswer(requests: seq<Request>, pruning: bool)
    requires requests != []
    ensures |ServeAll(requests, pruning).1| == |requests|
    ensures var init, last := requests[..|requests| - 1], requests[|requests| - 1];
            && ServeAll(requests, pruning).1[..|requests| - 1] == ServeAll(init, pruning).1
            && (ServeAll(requests, pruning).1[|requests| - 1]
                <==> last.limit <= 0 || Streak(init, last.identity, Window(last.time), pruning) + 1 <= last.limit)
  {
    var init, last := requests[..|requests| - 1], requests[|requests| - 1];
    AnswersAreComplete(init, pruning);
    BucketCountsStreak(init, last.identity, Window(last.time), pruning);
  }

  lemma {:induction false} AnswersAreComplete(requests: seq<Request>, pruning: bool)
    ensures |ServeAll(requests, pruning).1| == |requests|
  {
    if requests != [] {
      AnswersAreComplete(requests[..|requests| - 1], pruning);
    }
  }

  /**
   With a fixed limit every block gets its own quota, whatever the order of the requests, with and without
   pruning.
   */
  lemma {:induction false} QuotaByBlocks(requests: seq<Request>, identity: string, window: nat, limit: nat,
      pruning: bool)
    requires limit > 0 && forall r :: r in requests ==> r.limit == limit
    ensures |ServeAll(requests, pruning).1| == |requests|
    ensures var blocks := Blocks(requests, identity, window, pruning);
            && AdmittedIn(requests, ServeAll(requests, pruning).1, identity, window) == Sum(blocks, UpTo(limit))
            && Requested(requests, identity, window) == Sum(blocks, Size)
  {
    AnswersAreComplete(requests, pruning);
    if requests != [] {
      var init, last := requests[..|requests| - 1], requests[|requests| - 1];
      assert last in requests;
      QuotaByBlocks(init, identity, window, limit, pruning);
      AdmittedNext(requests, identity, window, pruning);
      BlocksNext(requests, identity, window, pruning, UpTo(limit));
      BlocksNext(requests, identity, window, pruning, Size);
      OneMoreUpTo(limit, Streak(init, identity, window, pruning));
    }
  }

  lemma OneMoreUpTo(limit: nat, streak: nat)
    ensures UpTo(limit)(streak + 1) - UpTo(limit)(streak) == if streak + 1 <= limit then 1 else 0
  {
  }

  lemma AdmittedNext(requests: seq<Request>, identity: string, window: nat, pruning: bool)
    requires requests != [] && requests[|requests| - 1].limit > 0
    ensures var init, last := requests[..|requests| - 1], requests[|requests| - 1];
            && |ServeAll(requests, pruning).1| == |requests| && |ServeAll(init, pruning).1| == |init|
            && AdmittedIn(requests, ServeAll(requests, pruning).1, identity, window)
               == AdmittedIn(init, ServeAll(init, pruning).1, identity, window)
                  + if Counts(last, identity, window) && Streak(init, identity, window, pruning) + 1 <= last.limit
                    then 1 else 0
  {
    LastAnswer(requests, pruning);
  }

  /** One more request of the identity in the window adds to the block in progress. */
  lemma BlocksNext(requests: seq<Request>, identity: string, window: nat, pruning: bool, f: nat -> int)
    requires requests != [] && f(0) == 0
    ensures var init, last := requests[..|requests| - 1], requests[|requests| - 1];
            var streak := Streak(init, identity, window, pruning);
            Sum(Blocks(requests, identity, window, pruning), f)
            == Sum(Blocks(init, identity, window, pruning), f)
               + if Counts(last, identity, window) then f(streak + 1) - f(streak) else 0
  {
    var init, last := requests[..|requests| - 1], requests[|requests| - 1];
    BlockInProgressIsLast(init, identity, window, pruning);
    if Counts(last, identity, window) {
      var blocks, streak := Blocks(init, identity, window, pruning), Streak(init, identity, window, pruning);
      NextInBlocks(blocks, blocks == [] || streak == 0, f);
    }
  }

  lemma {:induction false} SplitQuota(blocks: seq<nat>, limit: nat)
    requires limit > 0 && AllPositive(blocks)
    ensures Sum(blocks, UpTo(limit)) <= Sum(blocks, Size) && |blocks| <= Sum(blocks, UpTo(limit))
    ensures |blocks| <= 1 ==> Sum(blocks, UpTo(limit)) <= limit
    ensures |blocks| >= 2 ==> (Sum(blocks, UpTo(limit)) > limit <==> Sum(blocks, Size) > limit)
    ensures Sum(blocks, UpTo(limit)) < Sum(blocks, Size) ==> Sum(blocks, UpTo(limit)) >= limit + |blocks| - 1
  {
    if blocks != [] {
      SplitQuota(blocks[..|blocks| - 1], limit);
    }
  }

  /**
   The quota of a window is exceeded exactly if there are more requests than the limit and they fall into more
   than one block.
   */
  lemma QuotaIsExceededExactly(requests: seq<Request>, identity: string, window: nat, limit: nat, pruning: bool)
    requires limit > 0 && forall r :: r in requests ==> r.limit == limit
    ensures |ServeAll(requests, pruning).1| == |requests|
    ensures AdmittedIn(requests, ServeAll(requests, pruning).1, identity, window) > limit
            <==> Requested(requests, identity, window) > limit && |Blocks(requests, identity, window, pruning)| >= 2
  {
    QuotaByBlocks(requests, identity, window, limit, pruning);
    BlockInProgressIsLast(requests, identity, window, pruning);
    SplitQuota(Blocks(requests, identity, window, pruning), limit);
  }

  /** In clock order there is one block at most. */
  lemma {:induction false} OneBlockInClockOrder(requests: seq<Request>, identity: string, window: nat, pruning: bool)
    requires InClockOrder(requests)
    ensures |Blocks(requests, identity, window, pruning)| <= 1
    ensures Blocks(requests, identity, window, pruning) != [] && Streak(requests, identity, window, pruning) == 0 ==>
              requests != [] && Window(requests[|requests| - 1].time) > window
    ensures Blocks(requests, identity, window, pruning) != [] ==>
              requests != [] && Window(requests[|requests| - 1].time) >= window
  {
    if requests != [] {
      var n := |requests| - 1;
      OneBlockInClockOrder(requests[..n], identity, window, pruning);
      if n > 0 {
        WindowMonotone(requests[n - 1].time, requests[n].time);
      }
    }
  }

  /** Out of order, pruning can split blocks and nothing else: it never takes a request away from an identity. */
  lemma {:induction false} PruningOnlySplits(requests: seq<Request>, identity: string, window: nat)
    ensures Streak(requests, identity, window, true) <= Streak(requests, identity, window, false)
    ensures |Blocks(requests, identity, window, true)| >= |Blocks(requests, identity, window, false)|
  {
    if requests != [] {
      PruningOnlySplits(requests[..|requests| - 1], identity, window);
      BlockInProgressIsLast(requests[..|requests| - 1], identity, window, true);
      BlockInProgressIsLast(requests[..|requests| - 1], identity, window, false);
    }
  }

  /** So the pruned map lets through all that the never-pruned one does. */
  lemma {:induction false} PruningRefusesNothing(requests: seq<Request>, i: nat)
    requires i < |requests|
    ensures |ServeAll(requests, true).1| == |ServeAll(requests, false).1| == |requests|
    ensures ServeAll(requests, false).1[i] ==> ServeAll(requests, true).1[i]
  {
    var n := |requests| - 1;
    LastAnswer(requests, true);
    LastAnswer(requests, false);
    if i < n {
      PruningRefusesNothing(requests[..n], i);
      assert ServeAll(requests, true).1[i] == ServeAll(requests, true).1[..n][i];
      assert ServeAll(requests, false).1[i] == ServeAll(requests, false).1[..n][i];
    } else {
      PruningOnlySplits(requests[..n], requests[n].identity, Window(requests[n].time));
    }
  }

  /** Two requests that reach the lock against their clock order can lift the quota of a window. */
  lemma ClockOrderIsNeeded() returns (requests: seq<Request>)
    ensures !InClockOrder(requests) && LimitsAtMost(requests, 1)
    ensures |ServeAll(requests, true).1| == |requests|
    ensures AdmittedIn(requests, ServeAll(requests, true).1, "a", 0) == 2
  {
    var r0, r1, r2 := Request("a", 0, 1), Request("a", MINUTE, 1), Request("a", 1, 1);
    requests := [r0, r1, r2];
    assert [] + [r0] == [r0] && [r0] + [r1] == [r0, r1] && [r0, r1] + [r2] == requests;
    OneIdentity(map[], r0);
    AppendRequest([], r0, "a", 0);
    OneIdentity(ServeAll([r0], true).0, r1);
    AppendRequest([r0], r1, "a", 0);
    OneIdentity(ServeAll([r0, r1], true).0, r2);
    AppendRequest([r0, r1], r2, "a", 0);
    assert requests[1].time > requests[2].time;
  }

  /** A map that knows only one identity knows only that one's bucket afterwards. */
  lemma OneIdentity(buckets: Buckets, r: Request)
    requires r.limit > 0 && buckets.Keys <= {r.identity}
    ensures var w := Window(r.time);
            Serve(buckets, r, true).0 == map[r.identity := Bucket(w, CountIn(buckets, r.identity, w))]
  {
    var tallied := Tally(buckets, r.identity, Window(r.time));
    assert tallied == map[r.identity := Bucket(Window(r.time), CountIn(buckets, r.identity, Window(r.time)))];
    assert tallied.Keys == {r.identity};
    assert |tallied| == |tallied.Keys| == 1;
  }

  lemma AppendRequest(requests: seq<Request>, r: Request, identity: string, window: nat)
    requires |ServeAll(requests, true).1| == |requests|
    ensures var (buckets, answers) := ServeAll(requests, true);
            var (buckets', answer) := Serve(buckets, r, true);
            && ServeAll(requests + [r], true) == (buckets', answers + [answer])
            && AdmittedIn(requests + [r], answers + [answer], identity, window)
               == AdmittedIn(requests, answers, identity, window)
                  + if answer && Counts(r, identity, window) then 1 else 0
  {
    var longer, answers := requests + [r], ServeAll(requests, true).1;
    assert longer[..|requests|] == requests;
    var all := answers + [Serve(ServeAll(requests, true).0, r, true).1];
    assert all[..|requests|] == answers;
  }
}
