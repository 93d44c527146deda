/** The retry budget kept in the database, against the whole history of admissions. */
module BudgetLemmas {
  import opened Domain
  import opened InboxTables
  import opened DeliveryInvariant

  lemma {:induction false} WithinIsSince(history: seq<Admission>, sellerId: SellerId, from: int, to: int)
    ensures CountWithin(history, sellerId, from, to) <= CountSince(history, sellerId, from)
  {
    if history != [] {
      WithinIsSince(history[..|history| - 1], sellerId, from, to);
    }
  }

  /** Up to the latest admission, counting since an instant is counting in a window. */
  lemma {:induction false} SinceIsWithin(history: seq<Admission>, sellerId: SellerId, from: int, to: int)
    requires forall i :: 0 <= i < |history| ==> history[i].admittedAt <= to
    ensures CountSince(history, sellerId, from) == CountWithin(history, sellerId, from, to)
  {
    if history != [] {
      SinceIsWithin(history[..|history| - 1], sellerId, from, to);
    }
  }

  lemma {:induction false} SinceShrinks(history: seq<Admission>, sellerId: SellerId, since: int, later: int)
    requires since <= later
    ensures CountSince(history, sellerId, later) <= CountSince(history, sellerId, since)
  {
    if history != [] {
      SinceShrinks(history[..|history| - 1], sellerId, since, later);
    }
  }

  lemma AppendCounts(history: seq<Admission>, a: Admission, sellerId: SellerId, from: int, to: int)
    ensures CountSince(history + [a], sellerId, from)
          == CountSince(history, sellerId, from) + if a.sellerId == sellerId && a.admittedAt > from then 1 else 0
    ensures CountWithin(history + [a], sellerId, from, to)
         == CountWithin(history, sellerId, from, to)
           + if a.sellerId == sellerId && from < a.admittedAt <= to then 1 else 0
  {
    assert (history + [a])[..|history|] == history;
  }

  /**
   * Time may pass between counting and inserting: the count covers at least every window that the
   * insert falls into.
   */
  lemma AdmitKeepsBudget(
    admissions: seq<Admission>, history: seq<Admission>, limits: Limits, clock: int, a: Admission, countedAt: int,
    later: int)
    requires BudgetOk(admissions, history, limits, clock) && clock <= countedAt <= a.admittedAt <= later
    requires CountSince(admissions, a.sellerId, countedAt - limits.retryWindowMs) < limits.retryBudget
    ensures BudgetOk(admissions + [a], history + [a], limits, later)
  {
    forall sellerId, since | since >= later - 10 * limits.retryWindowMs
      ensures CountSince(admissions + [a], sellerId, since) == CountSince(history + [a], sellerId, since)
    {
      AppendCounts(admissions, a, sellerId, since, since);
      AppendCounts(history, a, sellerId, since, since);
    }
    forall sellerId, from, to | to <= from + limits.retryWindowMs
      ensures CountWithin(history + [a], sellerId, from, to) <= Max(limits.retryBudget, 0)
    {
      AppendCounts(history, a, sellerId, from, to);
      if a.sellerId == sellerId && from < a.admittedAt <= to {
        var since := countedAt - limits.retryWindowMs;
        WithinIsSince(history, sellerId, from, to);
        SinceShrinks(history, sellerId, since, from);
        assert CountSince(admissions, sellerId, since) == CountSince(history, sellerId, since);
      }
    }
  }

  lemma TimeKeepsBudget(admissions: seq<Admission>, history: seq<Admission>, limits: Limits, clock: int, later: int)
    requires BudgetOk(admissions, history, limits, clock) && clock <= later
    ensures BudgetOk(admissions, history, limits, later)
  {
  }

  lemma {:induction false} DeletionKeepsCount(
    admissions: seq<Admission>, gone: set<nat>, sellerId: SellerId, cutoff: int, since: int)
    requires since >= cutoff
    requires forall i :: i in gone && i < |admissions| ==> admissions[i].admittedAt < cutoff
    ensures CountSince(Without(admissions, gone), sellerId, since) == CountSince(admissions, sellerId, since)
  {
    if admissions != [] {
      var n := |admissions| - 1;
      DeletionKeepsCount(admissions[..n], gone, sellerId, cutoff, since);
      var rest := Without(admissions[..n], gone);
      if n !in gone {
        assert (rest + [admissions[n]])[..|rest|] == rest;
      } else {
        assert rest + [] == rest;
      }
    }
  }

  lemma PurgeKeepsBudget(
    admissions: seq<Admission>, history: seq<Admission>, limits: Limits, clock: int, gone: set<nat>, now: int)
    requires BudgetOk(admissions, history, limits, clock) && clock <= now
    requires forall i :: i in gone && i < |admissions| ==> admissions[i].admittedAt < now - 10 * limits.retryWindowMs
    ensures BudgetOk(Without(admissions, gone), history, limits, now)
  {
    forall sellerId, since | since >= now - 10 * limits.retryWindowMs
      ensures CountSince(Without(admissions, gone), sellerId, since) == CountSince(history, sellerId, since)
    {
      DeletionKeepsCount(admissions, gone, sellerId, now - 10 * limits.retryWindowMs, since);
    }
  }
}
