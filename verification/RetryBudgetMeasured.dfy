/**
 * The shared retry budget joined with the offline checker: what the checker measures over everything
 * a run of the protocol ever admitted.
 */
module RetryBudgetMeasured {
  import opened Domain
  import opened InboxTables
  import DeliveryInvariant
  import opened DeliveryProtocol
  import DeliveryTheorems
  import opened Binary64
  import opened WindowPeak

  /** When a seller's retries were admitted, as the trace of a run lists them. */
  function TimesOf(history: seq<Admission>, sellerId: SellerId): seq<int> {
    if history == [] then []
    else
      var rest, last := TimesOf(history[..|history| - 1], sellerId), history[|history| - 1];
      if last.sellerId == sellerId then rest + [last.admittedAt] else rest
  }

  lemma {:induction false} TimesCount(history: seq<Admission>, sellerId: SellerId, lo: int, hi: int)
    ensures CountIn(TimesOf(history, sellerId), lo, hi) == DeliveryInvariant.CountWithin(history, sellerId, lo - 1, hi)
  {
    if history != [] {
      var n := |history| - 1;
      TimesCount(history[..n], sellerId, lo, hi);
      if history[n].sellerId == sellerId {
        AppendCounts(TimesOf(history[..n], sellerId), history[n].admittedAt, lo, hi);
      }
    }
  }

  /** Every half-open window over everything a run admitted is within the budget, wherever it starts. */
  lemma HistoryIsWithinBudget(cfg: Config, clock: int, run: seq<Step>, sellerId: SellerId)
    requires cfg.Valid() && IsRun(cfg, Initial(clock), run)
    ensures var times := TimesOf(End(cfg, Initial(clock), run).history, sellerId);
            WithinBudget(times, cfg.limits.retryWindowMs, Max(cfg.limits.retryBudget, 0))
  {
    var history := End(cfg, Initial(clock), run).history;
    var times := TimesOf(history, sellerId);
    forall lo, hi | hi < lo + cfg.limits.retryWindowMs
      ensures CountIn(times, lo, hi) <= Max(cfg.limits.retryBudget, 0)
    {
      var top := lo - 1 + cfg.limits.retryWindowMs;
      DeliveryTheorems.RetryBudgetHoldsAcrossInstances(cfg, clock, run, sellerId, lo - 1);
      TimesCount(history, sellerId, lo, top);
      CountGrows(times, lo, hi, top);
    }
  }

  /**
   * So the checker's measure of a run is within the budget whenever the admissions lie on a clock that
   * the measure treats exactly; FaithfulExactlyOnSmallClocks says that no weaker condition would do.
   */
  lemma RunPassesTheMeasure(cfg: Config, clock: int, run: seq<Step>, sellerId: SellerId, latest: nat, best: int)
    requires cfg.Valid() && IsRun(cfg, Initial(clock), run)
    requires var times := TimesOf(End(cfg, Initial(clock), run).history, sellerId);
             IsOnClock(times, latest) && IsWindowPeak(times, cfg.limits.retryWindowMs, best)
    requires latest + cfg.limits.retryWindowMs <= LAST_INTEGER
    requires var window, budget := cfg.limits.retryWindowMs, Max(cfg.limits.retryBudget, 0);
             latest <= LAST_EXACT || latest < window || (budget == 0 && window > 0)
    ensures best <= Max(cfg.limits.retryBudget, 0)
  {
    HistoryIsWithinBudget(cfg, clock, run, sellerId);
    FaithfulExactlyOnSmallClocks(cfg.limits.retryWindowMs, Max(cfg.limits.retryBudget, 0), latest);
  }

  /** On any clock, measuring with a window one millisecond shorter never accuses a run wrongly. */
  lemma RunPassesAShorterMeasure(cfg: Config, clock: int, run: seq<Step>, sellerId: SellerId, best: int)
    requires cfg.Valid() && IsRun(cfg, Initial(clock), run) && cfg.limits.retryWindowMs > 0
    requires IsWindowPeak(TimesOf(End(cfg, Initial(clock), run).history, sellerId), cfg.limits.retryWindowMs - 1, best)
    ensures best <= Max(cfg.limits.retryBudget, 0)
  {
    HistoryIsWithinBudget(cfg, clock, run, sellerId);
    ShorterWindowIsSafe(TimesOf(End(cfg, Initial(clock), run).history, sellerId), cfg.limits.retryWindowMs - 1, best,
      Max(cfg.limits.retryBudget, 0));
  }
}
