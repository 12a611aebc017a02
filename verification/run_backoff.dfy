/** How the announced delays of consecutive failures compare, and what happens when
    the 32-bit counter of failures wraps. */
module RunBackoff {
  import opened Bytes
  import opened StreamTheorems
  import opened Backoff
  import opened WrappingClock
  import opened Run
  import opened RunTheorems

  /** Failures at `i` and `j`, both announced with a delay that no Retry-After fixed,
      and no event and no retry field received between them. */
  ghost predicate Series(cfg: Config, run: seq<Event>, i: nat, j: nat) {
    && i < j < |run| && run[i].OnFail? && run[i].willRetry && run[j].OnFail? && run[j].willRetry
    && RetryAfterAt(run, i) < 0 && RetryAfterAt(run, j) < 0
    && forall k :: i <= k < j ==> !Committed(cfg, run, k, Events) && !Committed(cfg, run, k, Retries)
  }

  lemma {:induction false} SeriesFacts(cfg: Config, run: seq<Event>, i: nat, j: nat)
    requires Legal(cfg, run) && i <= j <= |run|
    requires forall k :: i <= k < j ==> !Committed(cfg, run, k, Events) && !Committed(cfg, run, k, Retries)
    ensures FactsOf(cfg, run[..j]).baseRetry == FactsOf(cfg, run[..i]).baseRetry
    ensures FactsOf(cfg, run[..j]).scheduled == FactsOf(cfg, run[..i]).scheduled + RetriesIn(run[i..j])
    decreases j
  {
    hide Allowed, Next;
    if i < j {
      SeriesFacts(cfg, run, i, j - 1);
      LegalAt(cfg, run, j - 1);
      assert !Committed(cfg, run, j - 1, Events) && !Committed(cfg, run, j - 1, Retries);
      RememberStep(cfg, FactsOf(cfg, run[..j - 1]), run[j - 1]);
      assert run[i..j][..j - i - 1] == run[i..j - 1];
    }
  }

  /** In a series the retry time is the same and the failures add up. */
  lemma SeriesCounts(cfg: Config, run: seq<Event>, i: nat, j: nat)
    requires Legal(cfg, run) && Series(cfg, run, i, j)
    ensures RememberedRetry(cfg, run[..j]) == RememberedRetry(cfg, run[..i])
    ensures Flaps(cfg, run[..j]) == Flaps(cfg, run[..i]) + RetriesIn(run[i..j])
  {
    hide RememberedRetry, Flaps, FactsOf;
    LegalAt(cfg, run, i);
    LegalAt(cfg, run, j);
    FactsRemember(cfg, run[..i]);
    FactsRemember(cfg, run[..j]);
    SeriesFacts(cfg, run, i, j);
  }

  /** Without jitter, and without Retry-After, the delay announced later in a series
      is not shorter exactly when the counter, as the program sees it, has not been
      doubled less, or when more doublings have no effect. */
  lemma DelaysGrowExactly(cfg: Config, run: seq<Event>, i: nat, j: nat)
    requires Legal(cfg, run) && Series(cfg, run, i, j) && cfg.jitter == 0
    ensures run[i].delay <= run[j].delay <==>
            || Doublings(Wrap(Flaps(cfg, run[..i]))) <= Doublings(Wrap(Flaps(cfg, run[..j])))
            || Flat(RememberedRetry(cfg, run[..j]), cfg.maxRetry, Wrap(Flaps(cfg, run[..j])))
  {
    hide Legal, FactsOf, Committed, RememberedRetry, Flaps, Wrap, Nominal, Announced, Doublings, Flat, RetryAfterAt;
    var base, m, n := RememberedRetry(cfg, run[..j]), Wrap(Flaps(cfg, run[..i])), Wrap(Flaps(cfg, run[..j]));
    var ri, rj := RetryAfterAt(run, i), RetryAfterAt(run, j);
    SeriesCounts(cfg, run, i, j);
    DelayLaw(cfg, run, i);
    DelayLaw(cfg, run, j);
    WithoutJitter(Nominal(base, cfg.maxRetry, m, ri), run[i].delay);
    WithoutJitter(Nominal(base, cfg.maxRetry, n, rj), run[j].delay);
    BackoffGrowsExactly(base, cfg.maxRetry, m, n, ri, rj);
  }

  /** So it never decreases before the counter wraps. */
  lemma DelaysGrow(cfg: Config, run: seq<Event>, i: nat, j: nat)
    requires Legal(cfg, run) && Series(cfg, run, i, j) && cfg.jitter == 0
    requires Flaps(cfg, run[..j]) < TWO32
    ensures run[i].delay <= run[j].delay
  {
    hide Legal, FactsOf, Committed, RememberedRetry, Flaps, Flat, RetryAfterAt;
    SeriesCounts(cfg, run, i, j);
    DelaysGrowExactly(cfg, run, i, j);
  }

  /** From one failure to the next it gets shorter exactly when the counter wraps
      and doubling has an effect. */
  lemma NextDelayDropsExactly(cfg: Config, run: seq<Event>, i: nat, j: nat)
    requires Legal(cfg, run) && Series(cfg, run, i, j) && cfg.jitter == 0 && RetriesIn(run[i..j]) == 1
    ensures var base := RememberedRetry(cfg, run[..j]);
            run[j].delay < run[i].delay <==>
            && Wrap(Flaps(cfg, run[..j])) == 0
            && cfg.maxRetry != 0 && 0 < base < Min(cfg.maxRetry, INT32_MAX)
  {
    var base := RememberedRetry(cfg, run[..j]);
    assert run[i].OnFail? && run[j].OnFail?;
    hide Legal, FactsOf, RememberedRetry, Flaps, Wrap, Doublings, Flat, Series;
    SeriesCounts(cfg, run, i, j);
    DelaysGrowExactly(cfg, run, i, j);
    OneMoreFailure(base, cfg.maxRetry, Flaps(cfg, run[..i]));
  }

  lemma OneMoreFailure(base: nat, cap: nat, n: nat)
    ensures Doublings(Wrap(n)) <= Doublings(Wrap(n + 1)) || Flat(base, cap, Wrap(n + 1)) <==>
            !(Wrap(n + 1) == 0 && cap != 0 && 0 < base < Min(cap, INT32_MAX))
  {
    assert Pow2(0) == 1 && base * 1 == base;
    assert Wrap(n + 1) == if Wrap(n) == UINT32_MAX then 0 else Wrap(n) + 1;
  }

  // ---- what the delays are, in numbers ----

  /** The announced delay of a failure without jitter and without Retry-After. */
  lemma DelayIs(cfg: Config, run: seq<Event>, j: nat)
    requires Legal(cfg, run) && j < |run| && run[j].OnFail? && run[j].willRetry
    requires cfg.jitter == 0 && RetryAfterAt(run, j) < 0
    ensures run[j].delay == Min(Nominal(RememberedRetry(cfg, run[..j]), cfg.maxRetry, Wrap(Flaps(cfg, run[..j])),
                                        RetryAfterAt(run, j)), INT32_MAX)
  {
    hide Legal, FactsOf, RememberedRetry, Flaps, Wrap, Nominal, Announced, RetryAfterAt;
    DelayLaw(cfg, run, j);
    WithoutJitter(Nominal(RememberedRetry(cfg, run[..j]), cfg.maxRetry, Wrap(Flaps(cfg, run[..j])),
                          RetryAfterAt(run, j)), run[j].delay);
  }

  /** The delay after the first failure is the base, cut off at the cap, if there is
      one, and at 2^31 - 1. */
  lemma FirstDelay(cfg: Config, run: seq<Event>, j: nat)
    requires Legal(cfg, run) && j < |run| && run[j].OnFail? && run[j].willRetry
    requires cfg.jitter == 0 && RetryAfterAt(run, j) < 0 && Flaps(cfg, run[..j]) % 4294967296 == 0
    ensures var base := RememberedRetry(cfg, run[..j]);
            run[j].delay == Min(if cfg.maxRetry == 0 then base else Min(base, cfg.maxRetry), 2147483647)
  {
    hide Legal, FactsOf, RememberedRetry, Flaps, Nominal, RetryAfterAt;
    DelayIs(cfg, run, j);
    NominalDoubles(RememberedRetry(cfg, run[..j]), cfg.maxRetry, 0, RetryAfterAt(run, j));
  }

  /** The delay after the next failure of a series is twice the one before, cut off
      at the cap and at 2^31 - 1, fifteen times, and then the same until the counter
      of failures wraps; without a cap it stays. */
  lemma NextDelayDoubles(cfg: Config, run: seq<Event>, i: nat, j: nat)
    requires Legal(cfg, run) && Series(cfg, run, i, j) && cfg.jitter == 0 && RetriesIn(run[i..j]) == 1
    ensures var n := Flaps(cfg, run[..i]) % 4294967296;
            && (cfg.maxRetry == 0 ==> run[j].delay == run[i].delay)
            && (cfg.maxRetry > 0 && n < 15 ==>
                  run[j].delay == Min(Min(2 * run[i].delay, cfg.maxRetry), 2147483647))
            && (15 <= n < 4294967295 ==> run[j].delay == run[i].delay)
  {
    hide Legal, FactsOf, RememberedRetry, Flaps, RetryAfterAt, Committed, RetriesIn, Nominal;
    assert run[i].OnFail? && run[j].OnFail? && run[i].willRetry && run[j].willRetry;
    assert RetryAfterAt(run, i) < 0 && RetryAfterAt(run, j) < 0;
    SeriesCounts(cfg, run, i, j);
    hide Series;
    DelayIs(cfg, run, i);
    DelayIs(cfg, run, j);
    DoublesFrom(RememberedRetry(cfg, run[..j]), cfg.maxRetry, Flaps(cfg, run[..i]), RetryAfterAt(run, i),
                RetryAfterAt(run, j));
  }

  lemma DoublesFrom(base: nat, cap: nat, flaps: nat, r: int, s: int)
    requires r < 0 && s < 0
    ensures var n := flaps % 4294967296;
            var d, e := Min(Nominal(base, cap, Wrap(flaps), r), INT32_MAX),
                        Min(Nominal(base, cap, Wrap(flaps + 1), s), INT32_MAX);
            && (cap == 0 ==> e == d)
            && (cap > 0 && n < 15 ==> e == Min(Min(2 * d, cap), 2147483647))
            && (15 <= n < 4294967295 ==> e == d)
  {
    var n := flaps % 4294967296;
    assert Wrap(flaps) == n;
    assert n < 4294967295 ==> Wrap(flaps + 1) == n + 1;
    NominalDoubles(base, cap, n, r);
    NominalDoubles(base, cap, n, s);
    NominalDoubles(base, cap, Wrap(flaps + 1), s);
    assert Nominal(base, cap, n, r) == Nominal(base, cap, n, s);
    assert Nominal(base, cap, 15, r) == Nominal(base, cap, 15, s);
    hide Nominal;
  }

  // ---- such a run exists ----

  /** A server that cannot be reached: each poll tries again when its time has come. */
  function Attempt(cfg: Config, f: Facts): seq<Event> {
    var at := f.earliest;
    var delay := Min(Nominal(f.baseRetry, cfg.maxRetry, Wrap(f.scheduled), -1), INT32_MAX);
    [PollBegin, Opened(at, ExpectedHeaders(cfg, f.lastId), None), OnFail(Transport, 0, true, delay, at), PollEnd(0, at)]
  }

  ghost predicate NeverOpens(cfg: Config) {
    forall p :: cfg.world.openIn(p).None?
  }

  /** Between two polls, with nothing heard from the server yet. */
  ghost predicate Unreached(cfg: Config, f: Facts, n: nat) {
    && (f.phase == Idle || f.phase == Waiting) && f.turn == Between && !f.transport && !f.stopped && !f.doomed
    && f.owed.None? && f.got.None? && f.asked.None? && f.response.None? && f.scheduled == n
    && f.baseRetry == cfg.defaultRetry && !f.overdue && !f.userRuns
  }

  lemma AttemptBegins(cfg: Config, f: Facts, n: nat)
    requires Unreached(cfg, f, n)
    ensures Allowed(cfg, f, PollBegin) && Next(f, PollBegin) == f.(turn := Begun, polls := f.polls + 1)
  {
  }

  /** The facts after an open that failed. */
  function Refused(f: Facts): Facts {
    f.(turn := Worked, phase := Failing, established := false, overdue := false, polls := f.polls + 1)
  }

  /** And after the announcement of the next one. */
  function Announcing(f: Facts, due: nat): Facts {
    f.(phase := Waiting, scheduled := f.scheduled + 1, earliest := due, userRuns := true, calls := f.calls + 1)
  }

  lemma AttemptOpens(cfg: Config, f: Facts, n: nat)
    requires Unreached(cfg, f, n) && NeverOpens(cfg)
    ensures var e := Opened(f.earliest, ExpectedHeaders(cfg, f.lastId), None);
            && Allowed(cfg, f.(turn := Begun, polls := f.polls + 1), e)
            && Next(f.(turn := Begun, polls := f.polls + 1), e) == Refused(f)
  {
    hide ExpectedHeaders;
  }

  lemma AttemptFails(cfg: Config, f: Facts, n: nat, delay: nat)
    requires Unreached(cfg, f, n) && !cfg.hasPolicy && LawfulDelay(cfg, f.baseRetry, f.scheduled, -1, delay)
    ensures var e := OnFail(Transport, 0, true, delay, f.earliest);
            var g := Refused(f);
            && Allowed(cfg, g, e)
            && Next(g, e) == Announcing(g, f.earliest + delay)
  {
    hide LawfulDelay;
  }

  lemma AttemptEnds(cfg: Config, f: Facts, at: nat)
    requires f.phase == Waiting && f.turn == Worked && !f.transport && !f.doomed && f.owed.None? && f.got.None?
    ensures Allowed(cfg, f, PollEnd(0, at))
    ensures Next(f, PollEnd(0, at)) == f.(turn := Between, overdue := false, userRuns := false)
  {
  }

  /** The attempt has failed, and the user has not been told yet. */
  lemma AttemptTries(cfg: Config, run: seq<Event>, n: nat)
    requires NeverOpens(cfg) && Legal(cfg, run) && Unreached(cfg, FactsOf(cfg, run), n)
    ensures var f := FactsOf(cfg, run);
            var tried := run + [PollBegin] + [Opened(f.earliest, ExpectedHeaders(cfg, f.lastId), None)];
            Legal(cfg, tried) && FactsOf(cfg, tried) == Refused(f)
  {
    var f := FactsOf(cfg, run);
    hide ExpectedHeaders, Legal, Allowed, Next, FactsOf, NeverOpens;
    AttemptBegins(cfg, f, n);
    Extend(cfg, run, PollBegin);
    AttemptOpens(cfg, f, n);
    Extend(cfg, run + [PollBegin], Opened(f.earliest, ExpectedHeaders(cfg, f.lastId), None));
  }

  /** The retry has been announced. */
  lemma AttemptAnnounces(cfg: Config, tried: seq<Event>, f: Facts, n: nat)
    requires cfg.jitter == 0 && !cfg.hasPolicy && Unreached(cfg, f, n)
    requires Legal(cfg, tried) && FactsOf(cfg, tried) == Refused(f)
    ensures var e := Attempt(cfg, f)[2];
            && e.OnFail? && Legal(cfg, tried + [e])
            && FactsOf(cfg, tried + [e]) == Announcing(Refused(f), f.earliest + e.delay)
  {
    var d := Nominal(f.baseRetry, cfg.maxRetry, Wrap(f.scheduled), -1);
    WithoutJitter(d, Min(d, INT32_MAX));
    hide Nominal, ExpectedHeaders, Wrap, Announced, Legal, Allowed, Next, FactsOf;
    AttemptFails(cfg, f, n, Min(d, INT32_MAX));
    Extend(cfg, tried, Attempt(cfg, f)[2]);
  }

  lemma AttemptIsLegal(cfg: Config, run: seq<Event>, n: nat)
    requires cfg.jitter == 0 && !cfg.hasPolicy && NeverOpens(cfg)
    requires Legal(cfg, run) && Unreached(cfg, FactsOf(cfg, run), n)
    ensures var next := run + Attempt(cfg, FactsOf(cfg, run));
            Legal(cfg, next) && Unreached(cfg, FactsOf(cfg, next), n + 1)
  {
    var f := FactsOf(cfg, run);
    var es := Attempt(cfg, f);
    hide Nominal, ExpectedHeaders, Wrap, Announced, Legal, Allowed, Next, FactsOf, NeverOpens;
    var tried := run + [es[0]] + [es[1]];
    AttemptTries(cfg, run, n);
    AttemptAnnounces(cfg, tried, f, n);
    AttemptEnds(cfg, Announcing(Refused(f), f.earliest + es[2].delay), f.earliest);
    Extend(cfg, tried + [es[2]], es[3]);
    OneByOne(run, es);
  }

  lemma OneByOne(run: seq<Event>, es: seq<Event>)
    requires |es| == 4
    ensures run + es == run + [es[0]] + [es[1]] + [es[2]] + [es[3]]
  {
  }

  /** A run of `n` failures in a row. */
  function Unreachable(cfg: Config, n: nat): seq<Event> {
    if n == 0 then []
    else
      var run := Unreachable(cfg, n - 1);
      run + Attempt(cfg, FactsOf(cfg, run))
  }

  lemma {:induction false} UnreachableIsLegal(cfg: Config, n: nat)
    requires cfg.jitter == 0 && !cfg.hasPolicy && NeverOpens(cfg)
    ensures Legal(cfg, Unreachable(cfg, n)) && Unreached(cfg, FactsOf(cfg, Unreachable(cfg, n)), n)
  {
    hide Attempt, Legal, Unreached;
    if n == 0 {
      StartsUnreached(cfg);
    } else {
      UnreachableIsLegal(cfg, n - 1);
      AttemptIsLegal(cfg, Unreachable(cfg, n - 1), n - 1);
    }
  }

  lemma StartsUnreached(cfg: Config)
    ensures Legal(cfg, []) && Unreached(cfg, FactsOf(cfg, []), 0)
  {
  }

  /** The delay of the last failure of such a run. */
  lemma UnreachableDelay(cfg: Config, n: nat)
    requires cfg.jitter == 0 && !cfg.hasPolicy && NeverOpens(cfg) && n > 0
    ensures var run := Unreachable(cfg, n);
            && |run| >= 4 && run[|run| - 2].OnFail? && run[|run| - 2].willRetry
            && run[|run| - 2].delay ==
               Min(Nominal(cfg.defaultRetry, cfg.maxRetry, Wrap(n - 1), -1), INT32_MAX)
  {
    hide Nominal, Wrap, Legal, ExpectedHeaders;
    UnreachableIsLegal(cfg, n - 1);
  }

  /** The run ends with the announcements of these two delays, a poll each. */
  ghost predicate EndsWithDelays(run: seq<Event>, first: nat, second: nat) {
    && |run| >= 8
    && (var e := run[|run| - 6]; e.OnFail? && e.delay == first)
    && (var e := run[|run| - 2]; e.OnFail? && e.delay == second)
  }

  lemma LastTwoDelays(cfg: Config, n: nat)
    requires cfg.jitter == 0 && !cfg.hasPolicy && NeverOpens(cfg) && n > 0
    ensures Legal(cfg, Unreachable(cfg, n + 1))
    ensures EndsWithDelays(Unreachable(cfg, n + 1),
                           Min(Nominal(cfg.defaultRetry, cfg.maxRetry, Wrap(n - 1), -1), INT32_MAX),
                           Min(Nominal(cfg.defaultRetry, cfg.maxRetry, Wrap(n), -1), INT32_MAX))
  {
    hide Unreached, Legal, FactsOf, Unreachable, Nominal, Wrap;
    UnreachableIsLegal(cfg, n + 1);
    UnreachableDelay(cfg, n);
    UnreachableDelay(cfg, n + 1);
    UnreachableGrows(cfg, n);
  }

  /** The delays do decrease: from the cap to the base after 2^32 failures in a row. */
  lemma DelayDropsAtWrap(cfg: Config)
    requires cfg.jitter == 0 && !cfg.hasPolicy && cfg.defaultRetry == 1000 && cfg.maxRetry == 30000
    requires NeverOpens(cfg)
    ensures exists run :: Legal(cfg, run) && EndsWithDelays(run, 30000, 1000)
  {
    hide Legal, Unreachable, Nominal, EndsWithDelays;
    LastTwoDelays(cfg, TWO32);
    NominalAtWrap();
    assert EndsWithDelays(Unreachable(cfg, TWO32 + 1), 30000, 1000);
  }

  lemma UnreachableGrows(cfg: Config, n: nat)
    ensures var a, b := Unreachable(cfg, n), Unreachable(cfg, n + 1);
            a <= b && |b| == |a| + 4
  {
    hide FactsOf;
  }

  lemma NominalAtWrap()
    ensures Nominal(1000, 30000, Wrap(TWO32 - 1), -1) == 30000 && Nominal(1000, 30000, Wrap(TWO32), -1) == 1000
  {
    assert Pow2(0) == 1;
    assert Pow2(5) == 32;
    Pow2Grows(5, 15);
  }
}
