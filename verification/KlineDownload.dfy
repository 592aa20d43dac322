/** Resumable kline download: a retry loop that must deliver every kline once, and the chunker behind it. */
module KlineDownload {
  import opened Prelude
  import opened RangeCoverage

  const MAX_TRANSIENT_RETRIES: nat := 3
  const CHUNK_SIZE: nat := 1000
  const BACKOFF_BASE_MS: nat := 2000
  const POLL_INTERVAL_MS: nat := 50

  /** `_RETRY_BACKOFF_BASE_SECONDS * 2 ** (failures - 1)`, in milliseconds. */
  function BackoffMs(failures: nat): nat {
    if failures <= 1 then BACKOFF_BASE_MS else 2 * BackoffMs(failures - 1)
  }

  /** How a download ended: the whole range, the network error re-raised, or the caller's cancellation. */
  datatype Outcome = Done | NetworkError | Cancelled

  /** What the network does to one attempt: let it finish, or fail once so many klines came through. */
  type Network = nat -> Option<nat>

  /** The exchange's klines, in order and without overlap. */
  ghost predicate Book(klines: seq<Kline>) {
    && (forall i :: 0 <= i < |klines| ==> klines[i].openTime <= klines[i].closeTime)
    && (forall i, j :: 0 <= i < j < |klines| ==> klines[i].closeTime < klines[j].openTime)
  }

  predicate Selected(k: Kline, start: int, end: Option<int>) {
    start <= k.openTime && (end.None? || k.openTime <= end.value)
  }

  /** The klines a request names: opened at or after `start`, and up to `end` when one is given. */
  function Requested(book: seq<Kline>, start: int, end: Option<int>): seq<Kline> {
    if book == [] then []
    else
      (if Selected(book[0], start, end) then [book[0]] else []) + Requested(book[1..], start, end)
  }

  function Least(a: nat, b: nat): nat {
    if a < b then a else b
  }

  // ---------------------------------------------------------------- resuming

  lemma {:induction false} RequestedAreInBook(book: seq<Kline>, start: int, end: Option<int>)
    ensures forall k :: k in Requested(book, start, end) ==> k in book
  {
    if book != [] { RequestedAreInBook(book[1..], start, end); }
  }

  lemma {:induction false} EarlyStartIsIdle(book: seq<Kline>, start: int, later: int, end: Option<int>)
    requires start <= later && forall i :: 0 <= i < |book| ==> later <= book[i].openTime
    ensures Requested(book, start, end) == Requested(book, later, end)
  {
    if book != [] { EarlyStartIsIdle(book[1..], start, later, end); }
  }

  lemma BookTail(book: seq<Kline>)
    requires Book(book) && book != []
    ensures Book(book[1..]) && book[0].openTime <= book[0].closeTime
    ensures forall k :: k in book[1..] ==> book[0].openTime <= book[0].closeTime < k.openTime <= k.closeTime
  {
  }

  lemma RequestedOfLonger(book: seq<Kline>, start: int, end: Option<int>)
    requires book != []
    ensures Requested(book, start, end)
         == if Selected(book[0], start, end) then [book[0]] + Requested(book[1..], start, end)
            else Requested(book[1..], start, end)
  {
  }

  lemma NothingRequested(book: seq<Kline>, start: int, end: Option<int>)
    ensures book == [] ==> Requested(book, start, end) == []
  {
  }

  lemma RequestedSize(book: seq<Kline>, start: int, end: Option<int>)
    requires book != []
    ensures |Requested(book, start, end)|
         == |Requested(book[1..], start, end)| + if Selected(book[0], start, end) then 1 else 0
  {
  }

  lemma BookInFront(first: Kline, rest: seq<Kline>)
    requires Book(rest) && first.openTime <= first.closeTime && forall k :: k in rest ==> first.closeTime < k.openTime
    ensures Book([first] + rest)
  {
    var book := [first] + rest;
    forall i, j | 0 <= i < j < |book| ensures book[i].closeTime < book[j].openTime {
      assert book[j] == rest[j - 1] && rest[j - 1] in rest;
    }
  }

  /** A requested range holds no kline twice: its klines are in order and do not overlap. */
  lemma {:induction false} RequestedKeepsOrder(book: seq<Kline>, start: int, end: Option<int>)
    requires Book(book)
    ensures Book(Requested(book, start, end))
  {
    if book != [] {
      hide Book, Requested;
      BookTail(book);
      RequestedKeepsOrder(book[1..], start, end);
      RequestedAreInBook(book[1..], start, end);
      BookInFront(book[0], Requested(book[1..], start, end));
      RequestedOfLonger(book, start, end);
    } else {
      assert Requested(book, start, end) == book;
    }
  }

  lemma {:induction false} RequestedMembers(book: seq<Kline>, start: int, end: Option<int>, k: Kline)
    ensures k in Requested(book, start, end) <==> k in book && Selected(k, start, end)
  {
    if book != [] {
      hide Requested;
      RequestedMembers(book[1..], start, end, k);
      RequestedOfLonger(book, start, end);
      assert k in book <==> k == book[0] || k in book[1..];
    }
  }

  lemma LaterStartSkipsFirst(book: seq<Kline>, start: int, end: Option<int>, k: Kline)
    requires Book(book) && book != [] && k in Requested(book[1..], start, end)
    ensures Requested(book, k.closeTime + 1, end) == Requested(book[1..], k.closeTime + 1, end)
  {
    hide Book;
    BookTail(book);
    RequestedAreInBook(book[1..], start, end);
    RequestedOfLonger(book, k.closeTime + 1, end);
  }

  lemma AfterFirst(book: seq<Kline>, start: int, end: Option<int>)
    requires Book(book) && book != [] && Selected(book[0], start, end)
    ensures Requested(book, book[0].closeTime + 1, end) == Requested(book[1..], start, end)
  {
    BookTail(book);
    EarlyStartIsIdle(book[1..], start, book[0].closeTime + 1, end);
    RequestedOfLonger(book, book[0].closeTime + 1, end);
  }

  lemma BehindFirst(first: Kline, rest: seq<Kline>, n: nat)
    requires 0 < n <= |rest| + 1
    ensures ([first] + rest)[n..] == rest[n - 1..]
    ensures ([first] + rest)[n - 1] == if n == 1 then first else rest[n - 2]
  {
  }

  /** Asking from one millisecond past the close of kline `n - 1` leaves the klines from `n` on. */
  ghost predicate ResumesAfter(book: seq<Kline>, start: int, end: Option<int>, n: nat) {
    var all := Requested(book, start, end);
    0 < n <= |all| && Requested(book, all[n - 1].closeTime + 1, end) == all[n..]
  }

  lemma ResumesAfterFirst(book: seq<Kline>, start: int, end: Option<int>)
    requires Book(book) && book != [] && Selected(book[0], start, end)
    ensures ResumesAfter(book, start, end, 1)
  {
    hide Book, Selected;
    AfterFirst(book, start, end);
    BehindFirst(book[0], Requested(book[1..], start, end), 1);
  }

  lemma ResumesWithin(book: seq<Kline>, start: int, end: Option<int>, n: nat)
    requires Book(book) && book != [] && ResumesAfter(book[1..], start, end, n)
    ensures ResumesAfter(book, start, end, if Selected(book[0], start, end) then n + 1 else n)
  {
    hide Book, Selected, Requested;
    var rest := Requested(book[1..], start, end);
    RequestedOfLonger(book, start, end);
    LaterStartSkipsFirst(book, start, end, rest[n - 1]);
    BehindFirst(book[0], rest, n + 1);
  }

  /** Asking from one millisecond after the last close leaves exactly the klines not yet delivered. */
  lemma {:induction false} ResumeAsksForTheRest(book: seq<Kline>, start: int, end: Option<int>, delivered: nat)
    requires Book(book) && 0 < delivered <= |Requested(book, start, end)|
    ensures ResumesAfter(book, start, end, delivered)
  {
    hide Book, ResumesAfter, Selected, Requested;
    NothingRequested(book, start, end);
    RequestedSize(book, start, end);
    BookTail(book);
    if Selected(book[0], start, end) && delivered == 1 {
      ResumesAfterFirst(book, start, end);
    } else {
      var inTail := if Selected(book[0], start, end) then delivered - 1 else delivered;
      ResumeAsksForTheRest(book[1..], start, end, inTail);
      ResumesWithin(book, start, end, inTail);
    }
  }

  // ---------------------------------------------------------------- cancellation

  /** Some poll between two poll numbers said "cancelled". */
  ghost predicate CancelledBetween(cancelled: nat -> bool, from: nat, to: nat) {
    exists p: nat :: from <= p < to && cancelled(p)
  }

  lemma OneMorePoll(cancelled: nat -> bool, from: nat, to: nat)
    requires from <= to
    ensures CancelledBetween(cancelled, from, to + 1) <==> CancelledBetween(cancelled, from, to) || cancelled(to)
  {
  }

  lemma PollsJoin(cancelled: nat -> bool, from: nat, middle: nat, to: nat)
    requires from <= middle <= to
    ensures CancelledBetween(cancelled, from, to)
       <==> CancelledBetween(cancelled, from, middle) || CancelledBetween(cancelled, middle, to)
  {
  }

  /** The last of these polls is the first that said "cancelled". */
  ghost predicate StopsAt(cancelled: nat -> bool, from: nat, to: nat) {
    from < to && cancelled(to - 1) && !CancelledBetween(cancelled, from, to - 1)
  }

  lemma StopsLater(cancelled: nat -> bool, from: nat, middle: nat, to: nat)
    requires from <= middle && !CancelledBetween(cancelled, from, middle) && StopsAt(cancelled, middle, to)
    ensures StopsAt(cancelled, from, to)
  {
    PollsJoin(cancelled, from, middle, to - 1);
  }

  /** How often a backoff polls. */
  function SleepPolls(delayMs: nat): nat {
    (delayMs + POLL_INTERVAL_MS - 1) / POLL_INTERVAL_MS
  }

  /** `_cancellable_sleep`: polls every 50 ms of a backoff; raises on the first poll that says so. */
  method CancellableSleep(delayMs: nat, cancelled: nat -> bool, polls: nat) returns (raised: bool, pollsAfter: nat)
    ensures polls <= pollsAfter <= polls + SleepPolls(delayMs)
    ensures raised ==> StopsAt(cancelled, polls, pollsAfter) && 50 * (pollsAfter - polls) < delayMs + 50
    ensures !raised ==> delayMs <= 50 * (pollsAfter - polls) < delayMs + 50
    ensures !raised ==> pollsAfter == polls + SleepPolls(delayMs) && !CancelledBetween(cancelled, polls, pollsAfter)
  {
    var remaining := delayMs;
    pollsAfter := polls;
    raised := false;
    while remaining > 0
      invariant pollsAfter >= polls && 0 <= remaining <= delayMs
      invariant !CancelledBetween(cancelled, polls, pollsAfter)
      invariant pollsAfter - polls + SleepPolls(remaining) == SleepPolls(delayMs)
    {
      OneMorePoll(cancelled, polls, pollsAfter);
      pollsAfter := pollsAfter + 1;
      if cancelled(pollsAfter - 1) {
        return true, pollsAfter;
      }
      remaining := remaining - Least(POLL_INTERVAL_MS, remaining);
    }
  }

  // ---------------------------------------------------------------- the retry loop

  /** One call of the exchange's generator: where it asked from, how much was yielded before it, and by it. */
  datatype Attempt = Attempt(askedFrom: int, offset: nat, delivered: nat)

  function Yielded(attempts: seq<Attempt>): nat {
    if attempts == [] then 0 else attempts[|attempts| - 1].offset + attempts[|attempts| - 1].delivered
  }

  /** An attempt asks for exactly what is still missing, so never for a kline already delivered. */
  ghost predicate AsksForTheRest(book: seq<Kline>, end: Option<int>, all: seq<Kline>, a: Attempt) {
    a.offset + a.delivered <= |all| && Requested(book, a.askedFrom, end) == all[a.offset..]
  }

  /** What one attempt can deliver: up to the network's failure, or all that is left. */
  function Limit(fault: Option<nat>, left: nat): nat {
    if fault.Some? then Least(fault.value, left) else left
  }

  /** It failed after what the network let through, or after all that was left. */
  ghost predicate Failed(network: Network, all: seq<Kline>, attempts: seq<Attempt>, i: nat)
    requires i < |attempts|
  {
    && attempts[i].offset <= |all| && network(i).Some?
    && attempts[i].delivered == Limit(network(i), |all| - attempts[i].offset)
  }

  /** It was cancelled before delivering what it could. */
  ghost predicate CutShort(network: Network, all: seq<Kline>, attempts: seq<Attempt>, i: nat)
    requires i < |attempts|
  {
    attempts[i].offset <= |all| && attempts[i].delivered < Limit(network(i), |all| - attempts[i].offset)
  }

  /** Attempt `n` was the fourth failure in a row with no kline in between: it and the two before came up empty. */
  ghost predicate FourthEmptyFailure(attempts: seq<Attempt>, n: nat) {
    3 <= n < |attempts| && attempts[n].delivered == 0 && attempts[n - 1].delivered == 0
      && attempts[n - 2].delivered == 0
  }

  /** The attempts follow on from each other, each asking for the rest. */
  ghost predicate Resumes(book: seq<Kline>, end: Option<int>, all: seq<Kline>, attempts: seq<Attempt>) {
    forall i :: 0 <= i < |attempts| ==>
      attempts[i].offset == Yielded(attempts[..i]) && AsksForTheRest(book, end, all, attempts[i])
  }

  /** Attempts that failed without the loop giving up. */
  ghost predicate Retried(network: Network, all: seq<Kline>, attempts: seq<Attempt>, count: nat)
    requires count <= |attempts|
  {
    forall i :: 0 <= i < count ==> Failed(network, all, attempts, i) && !FourthEmptyFailure(attempts, i)
  }

  /** The failures in a row after these attempts failed: a kline starts the count again. */
  function Failures(attempts: seq<Attempt>): nat {
    if attempts == [] then 0
    else (if attempts[|attempts| - 1].delivered > 0 then 0 else Failures(attempts[..|attempts| - 1])) + 1
  }

  function PowerOfTwo(n: nat): nat {
    if n == 0 then 1 else 2 * PowerOfTwo(n - 1)
  }

  /** The n-th failure in a row waits 2 * 2^(n - 1) seconds, which is that many times 40 polls. */
  lemma {:induction false} BackoffDoubles(failures: nat)
    requires failures > 0
    ensures BackoffMs(failures) == 2000 * PowerOfTwo(failures - 1)
    ensures SleepPolls(BackoffMs(failures)) == 40 * PowerOfTwo(failures - 1)
  {
    if failures > 1 {
      BackoffDoubles(failures - 1);
    }
  }

  /**
   * The polls made once every one of these attempts failed and its backoff was slept: one before each attempt, one
   * per kline, and forty, doubled for each earlier failure in a row, during the backoff.
   */
  function PollsOf(attempts: seq<Attempt>): nat {
    if attempts == [] then 0
    else
      PollsOf(attempts[..|attempts| - 1]) + 1 + attempts[|attempts| - 1].delivered
        + 40 * PowerOfTwo(Failures(attempts) - 1)
  }

  /** The polls made up to the end of the last attempt: one before it, one per kline, and all the earlier ones. */
  function PollsUpTo(attempts: seq<Attempt>): nat
    requires attempts != []
  {
    PollsOf(attempts[..|attempts| - 1]) + 1 + attempts[|attempts| - 1].delivered
  }

  lemma PollsGrow(attempts: seq<Attempt>, a: Attempt)
    ensures PollsUpTo(attempts + [a]) == PollsOf(attempts) + 1 + a.delivered
    ensures PollsOf(attempts + [a]) == PollsUpTo(attempts + [a]) + SleepPolls(BackoffMs(Failures(attempts + [a])))
  {
    BackoffDoubles(Failures(attempts + [a]));
    assert (attempts + [a])[..|attempts|] == attempts;
  }

  lemma PollsUpToLast(attempts: seq<Attempt>)
    ensures attempts != [] ==> PollsUpTo(attempts) <= PollsOf(attempts)
  {
  }

  /** `consecutive_failures` counts the failures since the last kline. */
  ghost predicate FailuresSinceKline(attempts: seq<Attempt>, failures: nat) {
    && failures == Failures(attempts) <= |attempts|
    && (attempts != [] ==> failures > 0)
    && (forall i :: |attempts| - failures < i < |attempts| ==> attempts[i].delivered == 0)
    && (0 < failures < |attempts| ==> attempts[|attempts| - failures].delivered > 0)
  }

  lemma FailuresAre(attempts: seq<Attempt>, failures: nat)
    requires FailuresSinceKline(attempts, failures)
    ensures failures == Failures(attempts)
  {
  }

  lemma NextPoll(cancelled: nat -> bool, polls: nat)
    requires !CancelledBetween(cancelled, 0, polls)
    ensures cancelled(polls) ==> StopsAt(cancelled, 0, polls + 1)
    ensures !cancelled(polls) ==> !CancelledBetween(cancelled, 0, polls + 1)
  {
    OneMorePoll(cancelled, 0, polls);
  }

  lemma SleptOn(cancelled: nat -> bool, polls: nat, after: nat, raised: bool)
    requires !CancelledBetween(cancelled, 0, polls) && polls <= after
    requires if raised then StopsAt(cancelled, polls, after) else !CancelledBetween(cancelled, polls, after)
    ensures if raised then StopsAt(cancelled, 0, after) && polls < after else !CancelledBetween(cancelled, 0, after)
  {
    if raised {
      StopsLater(cancelled, 0, polls, after);
    } else {
      PollsJoin(cancelled, 0, polls, after);
    }
  }

  /** What was yielded is the beginning of the requested range, and each attempt asked for the rest of it. */
  ghost predicate InOrderPrefix(book: seq<Kline>, start: int, end: Option<int>, yielded: seq<Kline>,
                                attempts: seq<Attempt>) {
    var all := Requested(book, start, end);
    Yielded(attempts) <= |all| && yielded == all[..Yielded(attempts)] && Resumes(book, end, all, attempts)
  }

  ghost predicate AsksNext(book: seq<Kline>, start: int, end: Option<int>, from: int, attempts: seq<Attempt>) {
    var all := Requested(book, start, end);
    Yielded(attempts) <= |all| && Requested(book, from, end) == all[Yielded(attempts)..]
  }

  ghost function Left(book: seq<Kline>, start: int, end: Option<int>, attempts: seq<Attempt>): int {
    |Requested(book, start, end)| - Yielded(attempts)
  }

  lemma EmptyLog(book: seq<Kline>, start: int, end: Option<int>, network: Network, cancelled: nat -> bool)
    ensures InOrderPrefix(book, start, end, [], []) && AsksNext(book, start, end, start, [])
    ensures Retried(network, Requested(book, start, end), [], 0) && FailuresSinceKline([], 0)
    ensures Left(book, start, end, []) >= 0
    ensures !CancelledBetween(cancelled, 0, 0) && PollsOf([]) == 0
  {
  }

  lemma AttemptAsksForTheRest(book: seq<Kline>, end: Option<int>, all: seq<Kline>, a: Attempt)
    requires a.offset + a.delivered <= |all| && Requested(book, a.askedFrom, end) == all[a.offset..]
    ensures AsksForTheRest(book, end, all, a)
  {
  }

  lemma RetryAgain(network: Network, all: seq<Kline>, attempts: seq<Attempt>)
    requires attempts != [] && Retried(network, all, attempts, |attempts| - 1)
    requires Failed(network, all, attempts, |attempts| - 1) && !FourthEmptyFailure(attempts, |attempts| - 1)
    ensures Retried(network, all, attempts, |attempts|)
  {
  }

  lemma DeliveredNext(all: seq<Kline>, attempts: seq<Attempt>, a: Attempt)
    requires a.offset == Yielded(attempts) && a.offset + a.delivered <= |all|
    ensures Yielded(attempts + [a]) == a.offset + a.delivered
    ensures all[..a.offset] + all[a.offset..][..a.delivered] == all[..a.offset + a.delivered]
    ensures all[a.offset..][a.delivered..] == all[a.offset + a.delivered..]
  {
  }

  lemma FewerRetried(network: Network, all: seq<Kline>, attempts: seq<Attempt>)
    requires Retried(network, all, attempts, |attempts|)
    ensures attempts != [] ==> Retried(network, all, attempts, |attempts| - 1)
    ensures attempts != [] ==>
              Failed(network, all, attempts, |attempts| - 1) && !FourthEmptyFailure(attempts, |attempts| - 1)
  {
  }

  lemma AppendKeepsLog(book: seq<Kline>, end: Option<int>, all: seq<Kline>, network: Network, attempts: seq<Attempt>,
                       a: Attempt)
    requires Resumes(book, end, all, attempts) && Retried(network, all, attempts, |attempts|)
    requires a.offset == Yielded(attempts) && AsksForTheRest(book, end, all, a)
    ensures Resumes(book, end, all, attempts + [a])
    ensures Retried(network, all, attempts + [a], |attempts|)
  {
    var longer := attempts + [a];
    assert forall i :: 0 <= i <= |attempts| ==> longer[..i] == attempts[..i];
    assert attempts[..|attempts|] == attempts;
    forall i | 0 <= i < |attempts| ensures Failed(network, all, longer, i) && !FourthEmptyFailure(longer, i) {
      assert Failed(network, all, attempts, i) && !FourthEmptyFailure(attempts, i);
    }
  }

  lemma FailuresGrow(attempts: seq<Attempt>, failures: nat, a: Attempt)
    requires FailuresSinceKline(attempts, failures)
    ensures a.delivered == 0 ==> FailuresSinceKline(attempts + [a], failures + 1)
    ensures a.delivered > 0 ==> FailuresSinceKline(attempts + [a], 1)
    ensures FourthEmptyFailure(attempts + [a], |attempts + [a]| - 1)
       <==> failures >= 3 && a.delivered == 0
  {
    assert (attempts + [a])[..|attempts|] == attempts;
  }

  /** `got` is what a request from `start` yields first, and asking from `next` yields the rest of it. */
  ghost predicate FirstOf(book: seq<Kline>, start: int, end: Option<int>, got: seq<Kline>, next: int) {
    var page := Requested(book, start, end);
    |got| <= |page| && got == page[..|got|] && Requested(book, next, end) == page[|got|..]
  }

  lemma LimitIsWithin(fault: Option<nat>, left: nat)
    ensures Limit(fault, left) <= left
  {
  }

  lemma NothingYetIsFirst(book: seq<Kline>, start: int, end: Option<int>)
    ensures FirstOf(book, start, end, [], start)
  {
    hide Requested;
  }

  lemma OneMoreIsFirst(book: seq<Kline>, start: int, end: Option<int>, got: seq<Kline>, next: int)
    requires Book(book) && FirstOf(book, start, end, got, next) && |got| < |Requested(book, start, end)|
    ensures var k := Requested(book, start, end)[|got|];
      FirstOf(book, start, end, got + [k], k.closeTime + 1)
  {
    hide Requested, Book;
    ResumeAsksForTheRest(book, start, end, |got| + 1);
  }

  /** The `for` loop over one generator call: polls before each kline, and moves the start past each one yielded. */
  method DeliverKlines(book: seq<Kline>, start: int, end: Option<int>, fault: Option<nat>, cancelled: nat -> bool,
                       polls: nat)
    returns (got: seq<Kline>, nextStart: int, stopped: bool, pollsAfter: nat)
    requires Book(book) && !CancelledBetween(cancelled, 0, polls)
    ensures FirstOf(book, start, end, got, nextStart)
    ensures got == [] ==> nextStart == start
    ensures !stopped ==> |got| == Limit(fault, |Requested(book, start, end)|) && pollsAfter == polls + |got|
    ensures !stopped ==> !CancelledBetween(cancelled, 0, pollsAfter)
    ensures stopped ==> |got| < Limit(fault, |Requested(book, start, end)|) && pollsAfter == polls + |got| + 1
    ensures stopped ==> StopsAt(cancelled, 0, pollsAfter)
  {
    hide Requested, Book, CancelledBetween, Limit, StopsAt, FirstOf;
    var page := Requested(book, start, end);
    var limit := Limit(fault, |page|);
    LimitIsWithin(fault, |page|);
    NothingYetIsFirst(book, start, end);
    got, nextStart, stopped, pollsAfter := [], start, false, polls;
    while |got| < limit
      invariant |got| <= limit && FirstOf(book, start, end, got, nextStart)
      invariant got == [] ==> nextStart == start
      invariant !CancelledBetween(cancelled, 0, pollsAfter) && pollsAfter == polls + |got|
    {
      var n := |got|;
      NextPoll(cancelled, pollsAfter);
      pollsAfter := pollsAfter + 1;
      if cancelled(pollsAfter - 1) {
        return got, nextStart, true, pollsAfter;
      }
      OneMoreIsFirst(book, start, end, got, nextStart);
      got := got + [page[n]];
      nextStart := page[n].closeTime + 1;
    }
  }

  /** One attempt's klines extend the prefix. */
  lemma Delivered(book: seq<Kline>, start: int, end: Option<int>, network: Network, yielded: seq<Kline>,
                  attempts: seq<Attempt>, from: int, got: seq<Kline>, next: int)
    requires InOrderPrefix(book, start, end, yielded, attempts) && AsksNext(book, start, end, from, attempts)
    requires Retried(network, Requested(book, start, end), attempts, |attempts|)
    requires FirstOf(book, from, end, got, next)
    ensures var all, longer := Requested(book, start, end), attempts + [Attempt(from, Yielded(attempts), |got|)];
      && InOrderPrefix(book, start, end, yielded + got, longer) && AsksNext(book, start, end, next, longer)
      && Retried(network, all, longer, |longer| - 1)
      && Left(book, start, end, longer) == Left(book, start, end, attempts) - |got|
      && Left(book, start, end, attempts) == |Requested(book, from, end)| >= |got|
      && (|got| == |Requested(book, from, end)| ==> yielded + got == all)
      && (network(|attempts|).Some? && |got| == Limit(network(|attempts|), |Requested(book, from, end)|) ==>
            Failed(network, all, longer, |longer| - 1))
      && (|got| < Limit(network(|attempts|), |Requested(book, from, end)|) ==>
            CutShort(network, all, longer, |longer| - 1))
  {
    hide Requested, Resumes, Retried, AsksForTheRest;
    var all, attempt := Requested(book, start, end), Attempt(from, Yielded(attempts), |got|);
    DeliveredNext(all, attempts, attempt);
    AttemptAsksForTheRest(book, end, all, attempt);
    AppendKeepsLog(book, end, all, network, attempts, attempt);
  }

  /** The last attempt says how the download ended. */
  ghost predicate LastAttempt(network: Network, all: seq<Kline>, outcome: Outcome, attempts: seq<Attempt>) {
    match outcome
    case Done => attempts != [] && network(|attempts| - 1).None?
    case NetworkError => attempts != [] && Failed(network, all, attempts, |attempts| - 1)
           && FourthEmptyFailure(attempts, |attempts| - 1)
    case Cancelled =>
      attempts != [] ==> CutShort(network, all, attempts, |attempts| - 1)
                         || (Failed(network, all, attempts, |attempts| - 1)
                             && !FourthEmptyFailure(attempts, |attempts| - 1))
  }

  /** Every poll was made by an attempt or a backoff in the log, and only a cancellation is answered by a poll. */
  ghost predicate PollsMade(cancelled: nat -> bool, outcome: Outcome, attempts: seq<Attempt>, polls: nat) {
    if outcome.Cancelled? then
      StopsAt(cancelled, 0, polls) && (attempts != [] ==> PollsUpTo(attempts) < polls) && polls <= PollsOf(attempts) + 1
    else
      !CancelledBetween(cancelled, 0, polls) && attempts != [] && polls == PollsUpTo(attempts)
  }

  /**
   * How a download ends: it yielded the range's beginning, in order and without repeats, and all of it when it
   * returned normally; every attempt before the last failed without being the fourth empty failure.
   */
  ghost predicate Ended(book: seq<Kline>, start: int, end: Option<int>, network: Network, cancelled: nat -> bool,
                        yielded: seq<Kline>, outcome: Outcome, attempts: seq<Attempt>, polls: nat) {
    var all := Requested(book, start, end);
    && InOrderPrefix(book, start, end, yielded, attempts) && (outcome.Done? ==> yielded == all)
    && (attempts != [] ==> Retried(network, all, attempts, |attempts| - 1))
    && LastAttempt(network, all, outcome, attempts)
    && PollsMade(cancelled, outcome, attempts, polls)
  }

  /**
   * `_generate_raw_klines_with_retry`, run to its end. `attempts` logs its generator calls and `polls`
   * counts its cancellation polls; it ends under every failure schedule.
   */
  method GenerateRawKlines(book: seq<Kline>, start: int, end: Option<int>, network: Network, cancelled: nat -> bool)
    returns (yielded: seq<Kline>, outcome: Outcome, attempts: seq<Attempt>, polls: nat)
    requires Book(book)
    ensures Ended(book, start, end, network, cancelled, yielded, outcome, attempts, polls)
  {
    hide Requested, Book, InOrderPrefix, AsksNext, Left, Resumes, Retried, Failed, CutShort, FailuresSinceKline,
      FourthEmptyFailure, CancelledBetween, FirstOf, Yielded, BackoffMs, Failures, PollsOf, PollsUpTo, SleepPolls,
      StopsAt;
    ghost var all := Requested(book, start, end);
    EmptyLog(book, start, end, network, cancelled);
    var currentStart, consecutiveFailures := start, 0;
    yielded, attempts, polls := [], [], 0;
    while true
      invariant InOrderPrefix(book, start, end, yielded, attempts) && AsksNext(book, start, end, currentStart, attempts)
      invariant Retried(network, all, attempts, |attempts|)
      invariant FailuresSinceKline(attempts, consecutiveFailures) && consecutiveFailures <= MAX_TRANSIENT_RETRIES
      invariant !CancelledBetween(cancelled, 0, polls) && polls == PollsOf(attempts)
      invariant Left(book, start, end, attempts) >= 0
      decreases Left(book, start, end, attempts), MAX_TRANSIENT_RETRIES - consecutiveFailures
    {
      NextPoll(cancelled, polls);
      FewerRetried(network, all, attempts);
      PollsUpToLast(attempts);
      polls := polls + 1;
      if cancelled(polls - 1) {
        return yielded, Cancelled, attempts, polls;
      }
      var fault := network(|attempts|);
      var got, nextStart, stopped;
      got, nextStart, stopped, polls := DeliverKlines(book, currentStart, end, fault, cancelled, polls);
      var attempt := Attempt(currentStart, Yielded(attempts), |got|);
      Delivered(book, start, end, network, yielded, attempts, currentStart, got, nextStart);
      FailuresGrow(attempts, consecutiveFailures, attempt);
      PollsGrow(attempts, attempt);
      yielded, attempts := yielded + got, attempts + [attempt];
      if stopped {
        return yielded, Cancelled, attempts, polls;
      }
      if got != [] {
        currentStart, consecutiveFailures := nextStart, 0;
      }
      if fault.None? {
        return yielded, Done, attempts, polls;
      }
      consecutiveFailures := consecutiveFailures + 1;
      if consecutiveFailures > MAX_TRANSIENT_RETRIES {
        return yielded, NetworkError, attempts, polls;
      }
      RetryAgain(network, all, attempts);
      FailuresAre(attempts, consecutiveFailures);
      var raised, pollsAfter := CancellableSleep(BackoffMs(consecutiveFailures), cancelled, polls);
      SleptOn(cancelled, polls, pollsAfter, raised);
      polls := pollsAfter;
      if raised {
        return yielded, Cancelled, attempts, polls;
      }
    }
  }

  // ---------------------------------------------------------------- the two consumers

  function Flatten(chunks: seq<seq<Kline>>): seq<Kline> {
    if chunks == [] then [] else Flatten(chunks[..|chunks| - 1]) + chunks[|chunks| - 1]
  }

  lemma FlattenOfLonger(chunks: seq<seq<Kline>>, chunk: seq<Kline>)
    ensures Flatten(chunks + [chunk]) == Flatten(chunks) + chunk
  {
    assert (chunks + [chunk])[..|chunks|] == chunks;
  }

  /** Every chunk is full, but for a last one that is only not empty. */
  ghost predicate Chunked(chunks: seq<seq<Kline>>, lastIsFull: bool) {
    forall i :: 0 <= i < |chunks| ==>
      0 < |chunks[i]| <= 1000 && (i < |chunks| - 1 || lastIsFull ==> |chunks[i]| == 1000)
  }

  ghost predicate ReportsTotal(chunks: seq<seq<Kline>>, progress: seq<nat>, i: nat)
    requires i < |progress| && i < |chunks|
  {
    progress[i] == |Flatten(chunks[..i])| + |chunks[i]|
  }

  /** The callback after chunk `i` reports the klines in the chunks so far. */
  ghost predicate ReportsTotals(chunks: seq<seq<Kline>>, progress: seq<nat>) {
    |progress| == |chunks| && forall i :: 0 <= i < |chunks| ==> ReportsTotal(chunks, progress, i)
  }

  lemma ChunkAppended(chunks: seq<seq<Kline>>, progress: seq<nat>, chunk: seq<Kline>)
    requires Chunked(chunks, true) && ReportsTotals(chunks, progress) && 0 < |chunk| <= 1000
    ensures Chunked(chunks + [chunk], |chunk| == 1000)
    ensures ReportsTotals(chunks + [chunk], progress + [|Flatten(chunks)| + |chunk|])
  {
    var longer, more := chunks + [chunk], progress + [|Flatten(chunks)| + |chunk|];
    assert forall i :: 0 <= i <= |chunks| ==> longer[..i] == chunks[..i];
    assert chunks[..|chunks|] == chunks;
    forall i | 0 <= i < |longer| ensures ReportsTotal(longer, more, i) {
      assert i < |chunks| ==> ReportsTotal(chunks, progress, i);
    }
  }

  lemma NoChunks()
    ensures Flatten([]) == [] && Chunked([], true) && ReportsTotals([], [])
  {
  }

  lemma FullOrNot(chunks: seq<seq<Kline>>)
    ensures Chunked(chunks, true) ==> Chunked(chunks, false)
  {
  }

  /**
   * `_stream_raw_klines_as_market_data`: what its consumer receives by the time the retry loop ends, `yielded`
   * being what that loop handed over. An error drops only the buffer of a chunk not yet full.
   */
  method StreamRawKlines(book: seq<Kline>, start: int, end: Option<int>, network: Network, cancelled: nat -> bool)
    returns (chunks: seq<seq<Kline>>, progress: seq<nat>, outcome: Outcome,
             ghost yielded: seq<Kline>, ghost attempts: seq<Attempt>, ghost polls: nat)
    requires Book(book)
    ensures Ended(book, start, end, network, cancelled, yielded, outcome, attempts, polls)
    ensures Flatten(chunks) <= yielded && |yielded| - |Flatten(chunks)| < 1000
    ensures outcome.Done? ==> Flatten(chunks) == yielded == Requested(book, start, end)
    ensures Chunked(chunks, !outcome.Done?)
    ensures ReportsTotals(chunks, progress)
  {
    hide Requested, Book, Flatten, InOrderPrefix, Chunked, ReportsTotals, Retried, LastAttempt, PollsMade;
    var klines, log, count;
    klines, outcome, log, count := GenerateRawKlines(book, start, end, network, cancelled);
    yielded, attempts, polls := klines, log, count;
    var buffer: seq<Kline>, totalFetched := [], 0;
    chunks, progress := [], [];
    NoChunks();
    for i := 0 to |klines|
      invariant Flatten(chunks) + buffer == klines[..i] && |buffer| < CHUNK_SIZE
      invariant totalFetched == |Flatten(chunks)|
      invariant Chunked(chunks, true) && ReportsTotals(chunks, progress)
    {
      buffer := buffer + [klines[i]];
      assert Flatten(chunks) + buffer == klines[..i + 1];
      if |buffer| >= CHUNK_SIZE {
        ChunkAppended(chunks, progress, buffer);
        FlattenOfLonger(chunks, buffer);
        totalFetched := totalFetched + |buffer|;
        progress, chunks := progress + [totalFetched], chunks + [buffer];
        buffer := [];
      }
    }
    if outcome.Done? && buffer != [] {
      ChunkAppended(chunks, progress, buffer);
      FlattenOfLonger(chunks, buffer);
      totalFetched := totalFetched + |buffer|;
      progress, chunks := progress + [totalFetched], chunks + [buffer];
    }
    FullOrNot(chunks);
  }

  /** `_fetch_raw_klines`: the whole list or an error; progress once per thousand received and once at the end. */
  method FetchRawKlines(book: seq<Kline>, start: int, end: Option<int>, network: Network, cancelled: nat -> bool)
    returns (klines: Option<seq<Kline>>, progress: seq<nat>, outcome: Outcome,
             ghost yielded: seq<Kline>, ghost attempts: seq<Attempt>, ghost polls: nat)
    requires Book(book)
    ensures Ended(book, start, end, network, cancelled, yielded, outcome, attempts, polls)
    ensures klines == if outcome.Done? then Some(Requested(book, start, end)) else None
    ensures |progress| == |yielded| / 1000 + (if outcome.Done? then 1 else 0)
    ensures forall i :: 0 <= i < |yielded| / 1000 ==> progress[i] == (i + 1) * 1000
    ensures outcome.Done? ==> progress[|progress| - 1] == |yielded|
  {
    hide Requested, Book, InOrderPrefix, Retried, LastAttempt, PollsMade;
    var received, log, count;
    received, outcome, log, count := GenerateRawKlines(book, start, end, network, cancelled);
    yielded, attempts, polls := received, log, count;
    var rawKlines: seq<Kline> := [];
    progress := [];
    for i := 0 to |received|
      invariant rawKlines == received[..i]
      invariant |progress| == i / CHUNK_SIZE && forall j :: 0 <= j < |progress| ==> progress[j] == (j + 1) * CHUNK_SIZE
    {
      rawKlines := rawKlines + [received[i]];
      if (i + 1) % CHUNK_SIZE == 0 {
        progress := progress + [i + 1];
      }
    }
    if !outcome.Done? {
      return None, progress, outcome, yielded, attempts, polls;
    }
    assert rawKlines == received;
    progress := progress + [|rawKlines|];
    klines := Some(rawKlines);
  }
}
