/** What bridge governance guarantees over whole runs. */
module GovernanceTheorems {
  import opened GovernanceTypes
  import opened GovernanceSteps
  import opened GovernanceInvariant
  import opened GovernanceRuns
  import opened GovernanceAudit
  import opened Sorting

  // ----- what every sound store has -----

  lemma OneApprovalPerLink(s: Store, h: History, clock: int, a: ProposalId, b: ProposalId)
    requires Inv(s, h, clock)
    requires a in s.proposals && s.proposals[a].state == Approved
    requires b in s.proposals && s.proposals[b].state == Approved
    requires s.proposals[a].origin.terms.edge.linkId == s.proposals[b].origin.terms.edge.linkId
    ensures a == b
  {
    ApprovedOwners(s, h);
  }

  /** The proposal that a sequence of receipts describes: created by the first, then moved on by
      the action, actor, reason, fingerprint and time of each later one. */
  function Fold(s: Store, events: seq<EventId>): Proposal
    requires |events| > 0 && forall i | 0 <= i < |events| :: events[i] in s.receipts
  {
    var r := s.receipts[events[|events| - 1]];
    var e := r.payload;
    if |events| == 1 then NewPending(e.result.proposal.origin, e.eventId, e.fingerprint, r.createdAt)
    else
      Transition(Fold(s, events[..|events| - 1]), e.action, e.eventId, e.actor, e.reason, e.fingerprint, r.createdAt)
  }

  lemma {:induction false} FoldIsSnapshot(s: Store, h: History, clock: int, id: ProposalId, n: nat)
    requires Inv(s, h, clock) && id in s.proposals && 1 <= n <= |h.events[id]|
    requires forall i | 0 <= i < |h.events[id]| :: h.events[id][i] in s.receipts
    ensures Fold(s, h.events[id][..n]) == s.receipts[h.events[id][n - 1]].payload.result.proposal
  {
    var chain := h.events[id];
    assert ChainOk(s, id, chain);
    if n == 1 {
      hide Inv;
    } else {
      FoldIsSnapshot(s, h, clock, id, n - 1);
      assert chain[..n][..n - 1] == chain[..n - 1];
      ChainLink(s, id, chain, n - 2);
      hide Inv, ChainOk, Fold;
      FoldStep(s, chain[..n]);
    }
  }

  lemma FoldStep(s: Store, events: seq<EventId>)
    requires |events| > 1 && forall i | 0 <= i < |events| :: events[i] in s.receipts
    requires Fold(s, events[..|events| - 1]) == s.receipts[events[|events| - 2]].payload.result.proposal
    requires Follows(s.receipts[events[|events| - 2]], s.receipts[events[|events| - 1]])
    ensures Fold(s, events) == s.receipts[events[|events| - 1]].payload.result.proposal
  {
    hide Transition;
  }

  /** Every stored proposal is the fold of its receipts, sorted as the audit sorts them. */
  lemma StoredIsFold(s: Store, h: History, clock: int, order: seq<EventId>, id: ProposalId)
    requires Inv(s, h, clock) && Listing(s, order) && id in s.proposals
    ensures |Chain(s, order, id)| > 0 && Fold(s, Chain(s, order, id)) == s.proposals[id]
  {
    ChainIsHistory(s, h, order, id);
    ChainFacts(s, h, id);
    ChainNumbers(s, h, id);
    FoldIsSnapshot(s, h, clock, id, |h.events[id]|);
    assert h.events[id][..|h.events[id]|] == h.events[id];
    hide Inv, Fold;
  }

  // ----- exactly when the expiry of a proposal is harmless -----

  lemma ExpireAnyCommits(s: Store, h: History, clock: int, id: ProposalId, now: int)
    requires Inv(s, h, clock) && id in s.proposals && Due(s.proposals[id], now) && s.proposals[id].state != Pending
    ensures ExpireOne(s, id, now).Committed? && !ExpireOne(s, id, now).answer.idempotentReplay
    ensures s.proposals[id].origin.terms.edge.linkId in s.links
    ensures s.proposals[id].origin.terms.edge.linkId in s.durable
  {
    StoredProposal(s, h, clock, id);
    NotYetExpired(s, h, clock, id, now);
    LinkKeys(s, h);
    WasMaterialized(s, h, clock, id);
    hide Inv, ProposalBound;
  }

  /** A proposal that is approved or disabled has a durable link row. */
  lemma WasMaterialized(s: Store, h: History, clock: int, id: ProposalId)
    requires Inv(s, h, clock) && id in s.proposals
    requires s.proposals[id].state == Approved || s.proposals[id].state == Disabled
    ensures s.proposals[id].origin.terms.edge.linkId in s.durable
  {
    LastIsClean(s, h, clock, id);
    var last := h.events[id][|h.events[id]| - 1];
    assert ReceiptShape(last, s.receipts[last]);
    assert LinkReceiptOk(s, s.receipts[last]);
  }

  /** When the audit passes after an expiry, the link yielded to the expired proposal. */
  lemma CleanTakeoverYields(s: Store, h: History, clock: int, id: ProposalId, now: int, order: seq<EventId>)
    requires Inv(s, h, clock) && id in s.proposals && Due(s.proposals[id], now) && s.proposals[id].state != Pending
    requires ExpireOne(s, id, now).Committed? && Listing(ExpireOne(s, id, now).store, order)
    requires ContentClean(ExpireOne(s, id, now).store, order)
    ensures Yields(s, id)
  {
    ExpireAnyCommits(s, h, clock, id, now);
    StoredProposal(s, h, clock, id);
    var l := s.proposals[id].origin.terms.edge.linkId;
    OwnersOfLinks(s, h);
    LinkOwnerIds(s, h, clock, l);
    var m := ExpireIsMove(s, id, now);
    var s' := ExpireOne(s, id, now).store;
    AdvancedRows(s, id, m);
    hide Inv, ProposalBound, ExpireOne, Listing, ChainClean, MaterializedClean, RowsClean, Chain;
    assert LinkAuditClean(s', order, l);
    SameBase(s.durable[l].evidence, s.proposals[id].origin.terms.evidence, s'.proposals[id]);
    assert ProposalAuditClean(s', order, s.links[l].proposalId);
  }

  lemma LinkOwnerIds(s: Store, h: History, clock: int, l: LinkId)
    requires Inv(s, h, clock) && l in s.links && s.links[l].proposalId in s.proposals
    ensures s.proposals[s.links[l].proposalId].origin.proposalId == s.links[l].proposalId
  {
    StoredProposal(s, h, clock, s.links[l].proposalId);
  }

  lemma AdvancedRows(s: Store, id: ProposalId, m: Move)
    requires id in s.proposals && s.proposals[id].origin.proposalId == id && m.action == Expire
    requires var l := s.proposals[id].origin.terms.edge.linkId;
      l in s.durable && m.row == Some(s.durable[l].(enabled := false,
        evidence := BoundEvidence(s.durable[l].evidence, Next(s.proposals[id], m)), updatedAt := m.at))
    ensures var l := s.proposals[id].origin.terms.edge.linkId;
      var s' := Advance(s, id, m);
      && l in s'.links && s'.links[l].proposalId == id
      && l in s'.durable && s'.durable[l] == m.row.value
      && id in s'.proposals && s'.proposals[id] == Next(s.proposals[id], m)
      && s'.proposals[id].origin == s.proposals[id].origin && s'.proposals[id].reviewed == s.proposals[id].reviewed
      && (forall other | other in s.proposals && other != id ::
            other in s'.proposals && s'.proposals[other] == s.proposals[other])
  {
  }

  /** The exact condition: expiring an approved or disabled proposal leaves a store without any
      fault that the audit looks for if and only if the link yields to that proposal. */
  lemma ExpiryIsCleanIffLinkYields(s: Store, h: History, clock: int, id: ProposalId, now: int, order: seq<EventId>)
    requires Inv(s, h, clock) && clock <= now && now > 0
    requires id in s.proposals && Due(s.proposals[id], now) && s.proposals[id].state != Pending
    ensures ExpireOne(s, id, now).Committed?
    ensures Listing(ExpireOne(s, id, now).store, order) ==>
              (ContentClean(ExpireOne(s, id, now).store, order) <==> Yields(s, id))
  {
    ExpireAnyCommits(s, h, clock, id, now);
    hide Inv, ExpireOne, Listing, ContentClean, WithinCapacity;
    var s' := ExpireOne(s, id, now).store;
    if Listing(s', order) {
      if Yields(s, id) {
        var h' := ExpireKeeps(s, h, clock, id, now);
        SoundIsClean(s', h', now, order);
      } else if ContentClean(s', order) {
        CleanTakeoverYields(s, h, clock, id, now, order);
      }
    }
  }

  // ----- exactly which runs stay clean -----

  /** The audit finds no fault in the tables, however it breaks ties between receipts. */
  ghost predicate Faultless(s: Store) {
    forall order {:trigger Listing(s, order)} | Listing(s, order) :: ContentClean(s, order)
  }

  lemma SoundIsFaultless(s: Store, h: History, clock: int)
    requires Inv(s, h, clock)
    ensures Faultless(s)
  {
    hide Inv, ContentClean;
    forall order | Listing(s, order)
      ensures ContentClean(s, order)
    {
      SoundIsClean(s, h, clock, order);
    }
  }

  lemma {:induction false} OldestOf(s: Store, events: set<EventId>) returns (ev: EventId)
    requires events != {} && events <= s.receipts.Keys
    ensures ev in events
    ensures forall other | other in events :: s.receipts[ev].createdAt <= s.receipts[other].createdAt
    decreases |events|
  {
    ev :| ev in events;
    if events != {ev} {
      var best := OldestOf(s, events - {ev});
      assert forall other | other in events :: other == ev || other in events - {ev};
      if s.receipts[best].createdAt < s.receipts[ev].createdAt {
        ev := best;
      }
    }
  }

  lemma {:induction false} ListingOf(s: Store, events: set<EventId>) returns (order: seq<EventId>)
    requires events <= s.receipts.Keys
    ensures Distinct(order) && (forall ev :: ev in order <==> ev in events)
    ensures forall i, j | 0 <= i < j < |order| ::
              order[i] in events && order[j] in events
              && s.receipts[order[i]].createdAt <= s.receipts[order[j]].createdAt
    decreases |events|
  {
    order := [];
    if events != {} {
      var ev := OldestOf(s, events);
      var rest := ListingOf(s, events - {ev});
      order := [ev] + rest;
      assert forall i | 0 <= i < |rest| :: rest[i] in events - {ev};
    }
  }

  lemma ListingExists(s: Store) returns (order: seq<EventId>)
    ensures Listing(s, order)
  {
    order := ListingOf(s, s.receipts.Keys);
    assert forall i | 0 <= i < |order| :: order[i] in s.receipts.Keys;
  }

  /** After each expiry of the sweep the tables are without fault. */
  ghost predicate SweepFaultless(s: Store, rows: seq<ProposalId>, now: int, limit: nat)
    decreases |rows|
  {
    if |rows| == 0 || limit == 0 then true
    else if rows[0] !in s.proposals || !Due(s.proposals[rows[0]], now) then SweepFaultless(s, rows[1..], now, limit)
    else
      var o := ExpireOne(s, rows[0], now);
      o.Committed? && Faultless(o.store) && SweepFaultless(o.store, rows[1..], now, limit - 1)
  }

  /** After each call of the run, and after each expiry within a sweep, the tables are without fault. */
  ghost predicate StaysFaultless(s: Store, steps: seq<Step>)
    decreases |steps|
  {
    |steps| == 0 ||
    (&& (Sweeps(steps[0]) ==> SweepFaultless(s, steps[0].call.rows, steps[0].now, steps[0].call.limit))
     && Faultless(Perform(s, steps[0]))
     && StaysFaultless(Perform(s, steps[0]), steps[1..]))
  }

  lemma FaultlessExpiryIsSweepable(s: Store, h: History, clock: int, id: ProposalId, now: int)
    requires Inv(s, h, clock) && clock <= now && now > 0 && id in s.proposals && Due(s.proposals[id], now)
    requires ExpireOne(s, id, now).Committed? && Faultless(ExpireOne(s, id, now).store)
    ensures Sweepable(s, id, now)
  {
    hide Inv, ExpireOne, ContentClean, Listing, Yields;
    if s.proposals[id].state != Pending {
      var order := ListingExists(ExpireOne(s, id, now).store);
      ExpiryIsCleanIffLinkYields(s, h, clock, id, now, order);
    }
  }

  lemma {:induction false} SweepFaultlessIffYields(s: Store, h: History, clock: int, rows: seq<ProposalId>, now: int,
                                                   limit: nat)
    requires Inv(s, h, clock) && clock <= now && now > 0
    ensures SweepFaultless(s, rows, now, limit) <==> SweepYields(s, rows, now, limit)
    decreases |rows|
  {
    hide Inv, ExpireOne, Sweepable, Faultless;
    if |rows| == 0 || limit == 0 {
    } else if rows[0] !in s.proposals || !Due(s.proposals[rows[0]], now) {
      SweepFaultlessIffYields(s, h, clock, rows[1..], now, limit);
    } else {
      var o := ExpireOne(s, rows[0], now);
      if o.Committed? && Faultless(o.store) {
        FaultlessExpiryIsSweepable(s, h, clock, rows[0], now);
      }
      if Sweepable(s, rows[0], now) {
        var h1 := ExpireKeeps(s, h, clock, rows[0], now);
        SoundIsFaultless(o.store, h1, now);
        SweepFaultlessIffYields(o.store, h1, now, rows[1..], now, limit - 1);
      }
    }
  }

  lemma {:induction false} RunFaultlessIffYields(s: Store, h: History, clock: int, steps: seq<Step>)
    requires Inv(s, h, clock) && ClockNeverBack(steps) && (|steps| > 0 ==> clock <= steps[0].now)
    ensures StaysFaultless(s, steps) <==> EveryExpiryYields(s, steps)
    decreases |steps|
  {
    hide Inv, Perform, ClockNeverBack, Faultless, SweepFaultless, SweepYields;
    if |steps| > 0 {
      if Sweeps(steps[0]) {
        SweepFaultlessIffYields(s, h, clock, steps[0].call.rows, steps[0].now, steps[0].call.limit);
      }
      if StepYields(s, steps[0]) {
        var h' := StepKeeps(s, h, clock, steps[0]);
        SoundIsFaultless(Perform(s, steps[0]), h', steps[0].now);
        ClockOfRest(steps);
        RunFaultlessIffYields(Perform(s, steps[0]), h', steps[0].now, steps[1..]);
      }
    }
  }

  /** The exact condition: with a clock that never goes back, a run from an empty store stays without
      fault throughout if and only if every expiry in it is of a proposal that is pending or whose
      link yields. */
  lemma RunStaysCleanIffExpiriesYield(steps: seq<Step>)
    requires ClockNeverBack(steps)
    ensures StaysFaultless(EMPTY_STORE, steps) <==> EveryExpiryYields(EMPTY_STORE, steps)
  {
    var clock := if |steps| > 0 then steps[0].now else 0;
    EmptyStoreInv(clock);
    hide Inv, StaysFaultless, EveryExpiryYields, ClockNeverBack;
    RunFaultlessIffYields(EMPTY_STORE, EMPTY_HISTORY, clock, steps);
  }

  /** A caller can keep to that condition by one rule: while a disabled proposal for a link may still
      expire, do not write an approval for that link.  Then the audit at the end finds nothing, up
      to its row capacity. */
  lemma EveryRunIsClean(steps: seq<Step>, order: seq<EventId>)
    requires ClockNeverBack(steps) && ApprovalsWait(EMPTY_STORE, steps)
    requires Listing(Run(EMPTY_STORE, steps), order)
    ensures StaysFaultless(EMPTY_STORE, steps)
    ensures AuditClean(Run(EMPTY_STORE, steps), order) <==> WithinCapacity(Run(EMPTY_STORE, steps))
  {
    var clock := if |steps| > 0 then steps[0].now else 0;
    EmptyStoreInv(clock);
    hide Inv, ExpirySafe, StaysFaultless, EveryExpiryYields, ClockNeverBack, ApprovalsWait, Run, Listing;
    WaitingApprovalsYield(EMPTY_STORE, EMPTY_HISTORY, clock, steps);
    RunStaysCleanIffExpiriesYield(steps);
    var h, last := RunKeeps(EMPTY_STORE, EMPTY_HISTORY, clock, steps);
    SoundIsClean(Run(EMPTY_STORE, steps), h, last, order);
  }
}
