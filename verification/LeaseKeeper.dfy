/** Which claims of an instance have their leases renewed. */
module LeaseKeeping {
  import opened Domain
  import opened InboxTables
  import opened PartnerDatabase
  import opened InboxStore
  import opened RepositoryRefinement

  /** Every claim is filed under its own event. */
  predicate Filed(running: map<EventId, Claim>) {
    forall id :: id in running ==> running[id].eventId == id
  }

  /** The list holds exactly the filed claims, each once. */
  predicate ListsAll(claims: seq<Claim>, running: map<EventId, Claim>) {
    && DistinctEvents(claims)
    && (forall i :: 0 <= i < |claims| ==> claims[i].eventId in running && running[claims[i].eventId] == claims[i])
    && (forall id :: id in running ==> running[id] in claims)
  }

  /** What is left of the filed claims without some that were lost. */
  function Surviving(running: map<EventId, Claim>, lost: seq<Claim>): map<EventId, Claim> {
    map id | id in running && running[id] !in lost :: running[id]
  }

  lemma OneMoreLost(during: map<EventId, Claim>, lost: seq<Claim>, i: nat)
    requires Filed(during) && i < |lost|
    ensures var before, c := Surviving(during, lost[..i]), lost[i];
            Surviving(during, lost[..i + 1]) ==
              if c.eventId in before && before[c.eventId] == c then before - {c.eventId} else before
  {
    var before, after, c := Surviving(during, lost[..i]), Surviving(during, lost[..i + 1]), lost[i];
    assert lost[..i + 1] == lost[..i] + [c];
    forall id
      ensures id in after <==> id in before && before[id] != c
    {
      assert id in during ==> (during[id] in lost[..i + 1] <==> during[id] in lost[..i] || during[id] == c);
    }
    forall id | id in before && before[id] == c
      ensures id == c.eventId
    {
      assert during[id] == c;
    }
  }

  class LeaseKeeper {
    const inbox: InboxRepository
    var running: map<EventId, Claim>

    constructor (inbox: InboxRepository)
      ensures this.inbox == inbox && running == map[]
    {
      this.inbox, running := inbox, map[];
    }

    method Track(claim: Claim)
      modifies this
      ensures running == old(running)[claim.eventId := claim]
    {
      running := running[claim.eventId := claim];
    }

    /** Drops nothing but the claim itself, even if its event has another one by now. */
    method Untrack(claim: Claim)
      modifies this
      ensures running
            == if claim.eventId in old(running) && old(running)[claim.eventId] == claim
            then old(running) - {claim.eventId}
            else old(running)
    {
      if claim.eventId in running && running[claim.eventId] == claim {
        running := running - {claim.eventId};
      }
    }

    /**
     * After a pass the map is what other threads made of it meanwhile, less the claims found lost. The last
     * parameter is what they made of it while the database was at work.
     */
    method Renew(claims: seq<Claim>, leaseMs: int, clocks: seq<RenewClock>, during: map<EventId, Claim>)
      requires ListsAll(claims, running) && |clocks| == |claims| && Filed(during)
      modifies this, inbox.db
      ensures inbox.db.Content() == Renewed(old(inbox.db.Content()), claims, clocks, leaseMs)
      ensures running
            == if claims == [] then old(running)
            else Surviving(during, Lost(old(inbox.db.Content()), claims, clocks, leaseMs))
    {
      if claims == [] { return; }
      var lost := inbox.Renew(claims, leaseMs, clocks);
      running := during;
      for i := 0 to |lost|
        invariant running == Surviving(during, lost[..i])
        invariant inbox.db.Content() == Renewed(old(inbox.db.Content()), claims, clocks, leaseMs)
      {
        OneMoreLost(during, lost, i);
        Untrack(lost[i]);
      }
      assert lost[..|lost|] == lost;
    }
  }

  lemma {:induction false} LostAreRenewed(t: Tables, claims: seq<Claim>, clocks: seq<RenewClock>, leaseMs: int)
    requires |clocks| == |claims|
    ensures forall c :: c in Lost(t, claims, clocks, leaseMs) ==> c in claims
  {
    if claims != [] {
      LostAreRenewed(t, claims[..|claims| - 1], clocks[..|claims| - 1], leaseMs);
    }
  }

  /**
   * A pass keeps renewing exactly the running claims that still held at their turn. A claim that another
   * thread tracked meanwhile is kept whatever became of an older claim of its event.
   */
  lemma OnlyLostClaimsAreDropped(
    t: Tables, claims: seq<Claim>, clocks: seq<RenewClock>, leaseMs: int, running: map<EventId, Claim>,
    during: map<EventId, Claim>, id: EventId)
    requires ListsAll(claims, running) && |clocks| == |claims| && Filed(during) && id in during
    ensures var after := Surviving(during, Lost(t, claims, clocks, leaseMs));
            && (id in after ==> after[id] == during[id])
            && (id in running && running[id] == during[id] ==>
                  exists i ::
                    0 <= i < |claims| && claims[i] == running[id]
                    && (id in after <==> Holds(t.inbox, claims[i], clocks[i].row)))
            && (!(id in running && running[id] == during[id]) ==> id in after)
  {
    if id in running && running[id] == during[id] {
      var i :| 0 <= i < |claims| && claims[i] == running[id];
      RenewalIsExact(t, claims, clocks, leaseMs, i);
    } else {
      LostAreRenewed(t, claims, clocks, leaseMs);
      assert during[id].eventId == id;
    }
  }
}
