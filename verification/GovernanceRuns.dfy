/** Every transaction, and every run of transactions, keeps the invariant. */
module GovernanceRuns {
  import opened GovernanceTypes
  import opened GovernanceSteps
  import opened GovernanceInvariant
  import opened TextOrder

  lemma ClockMayAdvance(s: Store, h: History, clock: int, now: int)
    requires Inv(s, h, clock) && clock <= now
    ensures Inv(s, h, now)
  {
    hide HistoryOk, LinksOk, ReceiptShape;
    forall ev | ev in s.receipts
      ensures ReceiptShape(ev, s.receipts[ev]) && s.receipts[ev].createdAt <= now
    {
      assert ReceiptShape(ev, s.receipts[ev]);
    }
  }

  lemma NormalizedIsStable(ask: LinkAsk)
    requires NormalizedTerms(ask).Some?
    ensures CanonicalEdge(NormalizedTerms(ask).value.edge)
  {
    if Precedes(ask.target, ask.source) {
      PrecedesIsAsymmetric(ask.target, ask.source);
    }
  }

  /** Two requests name the same link exactly when relation and direction agree and the
      endpoints agree, up to their order when the link is bidirectional. */
  lemma SameLinkIffSameEndpoints(a: LinkAsk, b: LinkAsk)
    requires NormalizedTerms(a).Some? && NormalizedTerms(b).Some?
    ensures NormalizedTerms(a).value.edge.linkId == NormalizedTerms(b).value.edge.linkId <==>
              (a.relation == b.relation && a.direction == b.direction
               && ((a.source == b.source && a.target == b.target)
                   || (a.direction == Bidirectional && a.source == b.target && a.target == b.source)))
  {
    NormalizedIsStable(a);
    NormalizedIsStable(b);
    PrecedesIsTotal(a.source, a.target);
    PrecedesIsTotal(b.source, b.target);
    if Precedes(a.target, a.source) {
      PrecedesIsAsymmetric(a.target, a.source);
    }
    if Precedes(b.target, b.source) {
      PrecedesIsAsymmetric(b.target, b.source);
    }
  }

  // ----- what a transition needs from the link row -----

  lemma RowOfOwner(s: Store, h: History, clock: int, id: ProposalId)
    requires Inv(s, h, clock) && id in s.proposals && OwnerOf(s, id)
    ensures var l := s.proposals[id].origin.terms.edge.linkId;
      l in s.durable && LinkShape(s.durable[l], s.proposals[id])
  {
    var l := s.proposals[id].origin.terms.edge.linkId;
    hide ReceiptsOk, HistoryOk, LinkShape;
    assert Owned(s, l);
  }

  lemma MaterializedRow(s: Store, h: History, clock: int, p: Proposal, m: Move)
    requires Inv(s, h, clock) && clock <= m.at && m.at > 0
    requires m.action == Approve && m.row.Some?
    requires Materialize(s, Next(p, m), m.actor, m.at) == Materialized(m.row.value)
    ensures LinkShape(m.row.value, Next(p, m))
    ensures var l := p.origin.terms.edge.linkId;
      m.row.value.createdAt == if l in s.durable then s.durable[l].createdAt else m.at
  {
    var l := p.origin.terms.edge.linkId;
    if l in s.durable {
      RowsCreatedBefore(s, h, clock);
      hide ReceiptsOk, HistoryOk;
      assert Owned(s, l);
    }
  }

  /** An approval whose row was materialized is a legal move. */
  lemma ApprovalFits(s: Store, h: History, clock: int, id: ProposalId, m: Move)
    requires Inv(s, h, clock) && clock <= m.at && m.at > 0
    requires id in s.proposals && s.proposals[id].state == Pending && s.proposals[id].origin.proposalId == id
    requires m.action == Approve && m.row.Some?
    requires Materialize(s, Next(s.proposals[id], m), m.actor, m.at) == Materialized(m.row.value)
    ensures GoodMove(s.proposals[id], m) && FitsLinks(s, id, m)
  {
    var l := s.proposals[id].origin.terms.edge.linkId;
    MaterializedRow(s, h, clock, s.proposals[id], m);
    OwnersOfLinks(s, h);
    if l in s.links {
      hide ReceiptsOk, HistoryOk, LinkShape;
      assert Owned(s, l);
    }
  }

  /** The stored link row can be turned over to proposal `id` without a trace: no approved
      proposal owns it, and it records the same review, weight and evidence.  A proposal that
      owns its link always meets this. */
  predicate Yields(s: Store, id: ProposalId) {
    && id in s.proposals
    && var p := s.proposals[id];
      var l := p.origin.terms.edge.linkId;
      && l in s.links && l in s.durable
      && (s.links[l].proposalId == id || !OwnedByApproved(s, l))
      && s.durable[l].approvedBy == p.reviewed.actor
      && s.durable[l].approvedAt == p.reviewed.at
      && s.durable[l].confidence == p.origin.terms.weight
      && s.durable[l].evidence - {GOVERNANCE_KEY} == p.origin.terms.evidence - {GOVERNANCE_KEY}
  }

  lemma SameBase(a: Evidence, b: Evidence, p: Proposal)
    ensures a - {GOVERNANCE_KEY} == b - {GOVERNANCE_KEY} <==> BoundEvidence(a, p) == BoundEvidence(b, p)
  {
    if BoundEvidence(a, p) == BoundEvidence(b, p) {
      assert a - {GOVERNANCE_KEY} == BoundEvidence(a, p) - {GOVERNANCE_KEY};
      assert b - {GOVERNANCE_KEY} == BoundEvidence(b, p) - {GOVERNANCE_KEY};
    } else {
      assert BoundEvidence(a, p) == (a - {GOVERNANCE_KEY})[GOVERNANCE_KEY := Governance(BindingOf(p))];
      assert BoundEvidence(b, p) == (b - {GOVERNANCE_KEY})[GOVERNANCE_KEY := Governance(BindingOf(p))];
    }
  }

  lemma OwnerYields(s: Store, h: History, clock: int, id: ProposalId)
    requires Inv(s, h, clock) && id in s.proposals && OwnerOf(s, id)
    ensures Yields(s, id)
  {
    RowOfOwner(s, h, clock, id);
    LinkKeys(s, h);
    hide Inv;
    var p := s.proposals[id];
    SameBase(BoundEvidence(p.origin.terms.evidence, p), p.origin.terms.evidence, p);
    assert BoundEvidence(BoundEvidence(p.origin.terms.evidence, p), p) == BoundEvidence(p.origin.terms.evidence, p);
  }

  /** A row for link `l` keeps the edge of every proposal for `l`. */
  lemma RowEdge(s: Store, h: History, clock: int, id: ProposalId)
    requires Inv(s, h, clock) && id in s.proposals
    ensures var l := s.proposals[id].origin.terms.edge.linkId;
      l in s.durable ==> s.durable[l].edge == s.proposals[id].origin.terms.edge && 0 < s.durable[l].createdAt <= clock
  {
    StoredProposal(s, h, clock, id);
    RowsCreatedBefore(s, h, clock);
    var l := s.proposals[id].origin.terms.edge.linkId;
    if l in s.durable {
      LinkKeys(s, h);
      assert Owned(s, l);
      StoredProposal(s, h, clock, s.links[l].proposalId);
    }
  }

  /** Withdrawing a link that yields is a legal move. */
  lemma WithdrawalFits(s: Store, h: History, clock: int, id: ProposalId, m: Move)
    requires Inv(s, h, clock) && clock <= m.at && m.at > 0
    requires Yields(s, id) && Allowed(Some(s.proposals[id].state), AfterState(m.action))
    requires s.proposals[id].state != Pending && s.proposals[id].origin.proposalId == id
    requires m.action == Disable || m.action == Revoke || m.action == Expire
    requires m.action == Expire ==> m.requestId == ExpiryOf(id, m.at)
    requires var l := s.proposals[id].origin.terms.edge.linkId;
      m.row == Some(s.durable[l].(enabled := false,
        evidence := BoundEvidence(s.durable[l].evidence, Next(s.proposals[id], m)), updatedAt := m.at))
    ensures GoodMove(s.proposals[id], m) && FitsLinks(s, id, m)
  {
    RowEdge(s, h, clock, id);
    var p := s.proposals[id];
    SameBase(s.durable[p.origin.terms.edge.linkId].evidence, p.origin.terms.evidence, Next(p, m));
    hide Inv;
  }

  lemma ChainLink(s: Store, id: ProposalId, chain: seq<EventId>, k: nat)
    requires id in s.proposals && ChainOk(s, id, chain) && k < |chain|
    ensures chain[k] in s.receipts
    ensures k + 1 < |chain| ==> chain[k + 1] in s.receipts && Follows(s.receipts[chain[k]], s.receipts[chain[k + 1]])
    ensures k + 1 == |chain| ==> s.receipts[chain[k]].payload.result.proposal == s.proposals[id]
  {
    hide Follows;
  }

  /** A receipt that left its proposal expired is the last one of that proposal. */
  lemma ExpiredStays(s: Store, h: History, clock: int, ev: EventId)
    requires Inv(s, h, clock) && ev in s.receipts && s.receipts[ev].payload.afterState == Expired
    ensures s.receipts[ev].payload.proposalId in s.proposals
    ensures s.proposals[s.receipts[ev].payload.proposalId].state == Expired
  {
    var r := s.receipts[ev];
    assert ReceiptShape(ev, r);
    assert InChain(r, ev, h);
    var id := r.payload.proposalId;
    assert ChainOk(s, id, h.events[id]);
    ChainLink(s, id, h.events[id], r.payload.sequence - 1);
  }

  /** While a proposal is not expired it has no expiry receipt. */
  lemma NotYetExpired(s: Store, h: History, clock: int, id: ProposalId, at: int)
    requires Inv(s, h, clock) && id in s.proposals && s.proposals[id].state != Expired
    ensures EventId(Expire, ExpiryOf(id, at)) !in s.receipts
  {
    var ev := EventId(Expire, ExpiryOf(id, at));
    if ev in s.receipts {
      assert ReceiptShape(ev, s.receipts[ev]);
      ExpiredStays(s, h, clock, ev);
    }
  }

  // ----- the rule that keeps the expiry sweep harmless -----

  /** No proposal for this link is disabled and may still expire. (An approval is written only for
      a pending proposal, so this speaks of the others.) */
  ghost predicate ApprovalClear(s: Store, l: LinkId) {
    forall other | other in s.proposals && s.proposals[other].origin.terms.edge.linkId == l
                   && s.proposals[other].state == Disabled :: s.proposals[other].origin.linkExpiresAt.None?
  }

  ghost predicate ReviewClear(s: Store, id: ProposalId, decision: Action) {
    decision == Approve && id in s.proposals ==> ApprovalClear(s, s.proposals[id].origin.terms.edge.linkId)
  }

  ghost predicate CompatClear(s: Store, ask: LinkAsk) {
    NormalizedTerms(ask).Some? ==> ApprovalClear(s, NormalizedTerms(ask).value.edge.linkId)
  }

  lemma AdvanceSafe(s: Store, id: ProposalId, m: Move)
    requires ExpirySafe(s) && id in s.proposals && s.proposals[id].origin.proposalId == id
    requires m.row.Some? || AfterState(m.action) != Disabled
    requires m.row.Some? ==> if m.action == Approve then ApprovalClear(s, s.proposals[id].origin.terms.edge.linkId)
                             else OwnerOf(s, id)
    ensures ExpirySafe(Advance(s, id, m))
  {
    var s' := Advance(s, id, m);
    forall other | other in s'.proposals && s'.proposals[other].state == Disabled
                   && s'.proposals[other].origin.linkExpiresAt.Some?
      ensures OwnerOf(s', other)
    {
      if other != id {
        assert OwnerOf(s, other);
      }
    }
  }

  lemma CreatedSafe(s: Store, origin: Origin, rid: RequestId, fp: Fingerprint, now: int)
    requires origin.proposalId !in s.proposals
    ensures ExpirySafe(s) ==> ExpirySafe(Created(s, origin, rid, fp, now))
  {
    var s' := Created(s, origin, rid, fp, now);
    if ExpirySafe(s) {
      forall other | other in s'.proposals && s'.proposals[other].state == Disabled
                     && s'.proposals[other].origin.linkExpiresAt.Some?
        ensures OwnerOf(s', other)
      {
        assert OwnerOf(s, other);
      }
    }
  }

  // ----- the transactions -----

  lemma ProposeIsCreation(s: Store, ask: LinkAsk, proposedBy: Actor, reason: string, redactions: int,
                          proposalExpiry: Option<int>, linkExpiry: Option<int>, supplied: Option<RequestId>, now: int)
    returns (origin: Origin, rid: RequestId, fp: Fingerprint)
    requires var o := ProposeStep(s, ask, proposedBy, reason, redactions, proposalExpiry, linkExpiry, supplied, now);
      o.Committed? && !o.answer.idempotentReplay
    ensures origin.proposalId !in s.proposals && EventId(Propose, rid) !in s.receipts && now > 0
    ensures origin.proposalId.ReviewedId? && origin.proposalId.requestId == rid
    ensures CanonicalEdge(origin.terms.edge)
    ensures ProposeStep(s, ask, proposedBy, reason, redactions, proposalExpiry, linkExpiry, supplied, now).store
         == Created(s, origin, rid, fp, now)
  {
    NormalizedIsStable(ask);
    hide NormalizedTerms, CanonicalEdge;
    var o := ProposeStep(s, ask, proposedBy, reason, redactions, proposalExpiry, linkExpiry, supplied, now);
    origin := o.answer.proposal.origin;
    fp := Fingerprint(Propose,
                      ProposeRequest(NormalizedTerms(ask).value, proposedBy, reason, proposalExpiry, linkExpiry));
    rid := RequestIdFor(supplied, false, fp);
  }

  lemma ProposeKeeps(s: Store, h: History, clock: int, ask: LinkAsk, proposedBy: Actor, reason: string,
                     redactions: int, proposalExpiry: Option<int>, linkExpiry: Option<int>,
                     supplied: Option<RequestId>, now: int) returns (h': History)
    requires Inv(s, h, clock) && clock <= now
    ensures var o := ProposeStep(s, ask, proposedBy, reason, redactions, proposalExpiry, linkExpiry, supplied, now);
      o.Committed? ==> Inv(o.store, h', now) && (ExpirySafe(s) ==> ExpirySafe(o.store))
  {
    hide Inv, ExpirySafe;
    var o := ProposeStep(s, ask, proposedBy, reason, redactions, proposalExpiry, linkExpiry, supplied, now);
    h' := h;
    if o.Committed? && !o.answer.idempotentReplay {
      var origin, rid, fp := ProposeIsCreation(s, ask, proposedBy, reason, redactions, proposalExpiry, linkExpiry,
                                               supplied, now);
      hide ProposeStep;
      CreatedInv(s, h, clock, origin, rid, fp, now);
      CreatedSafe(s, origin, rid, fp, now);
      h' := CreatedHistory(h, origin.proposalId, EventId(Propose, rid));
    } else {
      ClockMayAdvance(s, h, clock, now);
    }
  }

  lemma BoundIds(s: Store, id: ProposalId)
    ensures id in s.proposals && ProposalBound(s, id) ==> s.proposals[id].origin.proposalId == id
  {
  }

  /** What a review that is not a replay did. */
  lemma ReviewIsMove(s: Store, policy: Policy, id: ProposalId, decision: Action, reviewedBy: Actor, reason: string,
                     expected: Revision, supplied: Option<RequestId>, now: int) returns (m: Move)
    requires var o := ReviewStep(s, policy, id, decision, reviewedBy, reason, expected, supplied, now);
      o.Committed? && !o.answer.idempotentReplay
    ensures id in s.proposals && s.proposals[id].state == Pending && m.Event() !in s.receipts && m.at == now > 0
    ensures ReviewStep(s, policy, id, decision, reviewedBy, reason, expected, supplied, now)
         == Committed(Advance(s, id, m), FreshAnswer(decision, Next(s.proposals[id], m), m.row))
    ensures m.actor == reviewedBy && m.reason == reason && s.proposals[id].revision == expected
    ensures s.proposals[id].origin.proposalId == id
    ensures m.action == decision && (decision == Approve || decision == Reject)
    ensures m.row.Some? <==> decision == Approve
    ensures decision == Approve ==>
              Materialize(s, Next(s.proposals[id], m), m.actor, now) == Materialized(m.row.value)
  {
    var o := ReviewStep(s, policy, id, decision, reviewedBy, reason, expected, supplied, now);
    var fp := Fingerprint(decision, ReviewRequest(id, reviewedBy, reason, expected));
    var rid := RequestIdFor(supplied, false, fp);
    BoundIds(s, id);
    hide ProposalBound, Materialize;
    m := Move(decision, rid, fp, reviewedBy, reason, o.answer.link, now);
  }

  lemma ReviewKeeps(s: Store, h: History, clock: int, policy: Policy, id: ProposalId, decision: Action,
                    reviewedBy: Actor, reason: string, expected: Revision, supplied: Option<RequestId>, now: int)
    returns (h': History)
    requires Inv(s, h, clock) && clock <= now
    ensures var o := ReviewStep(s, policy, id, decision, reviewedBy, reason, expected, supplied, now);
      o.Committed? ==>
        && Inv(o.store, h', now)
        && (ExpirySafe(s) && (o.answer.idempotentReplay || ReviewClear(s, id, decision)) ==> ExpirySafe(o.store))
  {
    hide Inv, ExpirySafe, ApprovalClear;
    var o := ReviewStep(s, policy, id, decision, reviewedBy, reason, expected, supplied, now);
    h' := h;
    if o.Committed? && !o.answer.idempotentReplay {
      var m := ReviewIsMove(s, policy, id, decision, reviewedBy, reason, expected, supplied, now);
      hide ReviewStep;
      StoredProposal(s, h, clock, id);
      if decision == Approve {
        ApprovalFits(s, h, clock, id, m);
      }
      AdvanceInv(s, h, clock, id, m);
      if ExpirySafe(s) && ReviewClear(s, id, decision) {
        AdvanceSafe(s, id, m);
      }
      h' := AdvanceHistory(s, h, id, m.Event());
    } else {
      ClockMayAdvance(s, h, clock, now);
    }
  }

  lemma DeactivateIsMove(s: Store, action: Action, l: LinkId, actor: Actor, reason: string, expected: Revision,
                         supplied: Option<RequestId>, confirm: bool, now: int) returns (id: ProposalId, m: Move)
    requires var o := DeactivateStep(s, action, l, actor, reason, expected, supplied, confirm, now);
      o.Committed? && !o.answer.idempotentReplay
    ensures id in s.proposals && OwnerOf(s, id) && Allowed(Some(s.proposals[id].state), AfterState(m.action))
    ensures s.proposals[id].state != Pending && m.Event() !in s.receipts && m.at == now > 0
    ensures m.action == action && (action == Disable || action == Revoke)
    ensures s.proposals[id].origin.terms.edge.linkId == l && l in s.durable
    ensures m.row == Some(s.durable[l].(enabled := false,
              evidence := BoundEvidence(s.durable[l].evidence, Next(s.proposals[id], m)), updatedAt := m.at))
    ensures DeactivateStep(s, action, l, actor, reason, expected, supplied, confirm, now)
         == Committed(Advance(s, id, m), FreshAnswer(action, Next(s.proposals[id], m), m.row))
    ensures m.actor == actor && m.reason == reason && s.proposals[id].revision == expected
    ensures s.proposals[id].origin.proposalId == id
  {
    var o := DeactivateStep(s, action, l, actor, reason, expected, supplied, confirm, now);
    var fp := Fingerprint(action, DeactivateRequest(l, actor, reason, expected));
    id := s.links[l].proposalId;
    BoundIds(s, id);
    hide ProposalBound;
    m := Move(action, RequestIdFor(supplied, false, fp), fp, actor, reason, o.answer.link, now);
  }

  lemma DeactivateKeeps(s: Store, h: History, clock: int, action: Action, l: LinkId, actor: Actor, reason: string,
                        expected: Revision, supplied: Option<RequestId>, confirm: bool, now: int)
    returns (h': History)
    requires Inv(s, h, clock) && clock <= now
    ensures var o := DeactivateStep(s, action, l, actor, reason, expected, supplied, confirm, now);
      o.Committed? ==> Inv(o.store, h', now) && (ExpirySafe(s) ==> ExpirySafe(o.store))
  {
    hide Inv, ExpirySafe, ApprovalClear;
    var o := DeactivateStep(s, action, l, actor, reason, expected, supplied, confirm, now);
    h' := h;
    if o.Committed? && !o.answer.idempotentReplay {
      var id, m := DeactivateIsMove(s, action, l, actor, reason, expected, supplied, confirm, now);
      hide DeactivateStep;
      StoredProposal(s, h, clock, id);
      OwnerYields(s, h, clock, id);
      WithdrawalFits(s, h, clock, id, m);
      AdvanceInv(s, h, clock, id, m);
      if ExpirySafe(s) {
        AdvanceSafe(s, id, m);
      }
      h' := AdvanceHistory(s, h, id, m.Event());
    } else {
      ClockMayAdvance(s, h, clock, now);
    }
  }

  lemma CompatIsMove(s: Store, policy: Policy, ask: LinkAsk, approvedBy: Actor, reason: string, redactions: int,
                     linkExpiry: Option<int>, supplied: Option<RequestId>, confirm: bool, now: int)
    returns (origin: Origin, rid: RequestId, fp: Fingerprint, m: Move)
    requires var o := CompatStep(s, policy, ask, approvedBy, reason, redactions, linkExpiry, supplied, confirm, now);
      o.Committed? && !o.answer.idempotentReplay
    ensures origin.proposalId !in s.proposals && EventId(Propose, rid) !in s.receipts && now > 0
    ensures NormalizedTerms(ask).Some? && origin.terms == NormalizedTerms(ask).value
    ensures m.action == Approve && m.at == now && m.Event() !in s.receipts
    ensures m.actor == approvedBy && m.reason == reason && origin.proposedBy == approvedBy && origin.compatibilityMode
    ensures origin.proposalId.CompatId? && rid == ProposePart(origin.proposalId.requestId)
    ensures origin.linkExpiresAt == linkExpiry && origin.proposalReason == reason && origin.proposedAt == now
    ensures origin.reasonRedactions == redactions && origin.proposalExpiresAt == now + DEFAULT_PROPOSAL_TTL
    ensures var first := Created(s, origin, rid, fp, now);
      && CompatStep(s, policy, ask, approvedBy, reason, redactions, linkExpiry, supplied, confirm, now)
         == Committed(Advance(first, origin.proposalId, m),
                      FreshAnswer(Approve, Next(first.proposals[origin.proposalId], m), m.row))
      && m.row.Some?
      && Materialize(s, Next(first.proposals[origin.proposalId], m), m.actor, now) == Materialized(m.row.value)
  {
    hide NormalizedTerms, Materialize, ReplayEvent;
    var o := CompatStep(s, policy, ask, approvedBy, reason, redactions, linkExpiry, supplied, confirm, now);
    origin := o.answer.proposal.origin;
    var request := CompatRequest(NormalizedTerms(ask).value, approvedBy, reason, linkExpiry);
    var approveFp := Fingerprint(Approve, request);
    ReplayKind(s, Approve, ApprovePart(RequestIdFor(supplied, true, approveFp)), approveFp, now);
    fp := Fingerprint(Propose, request);
    rid := ProposePart(RequestIdFor(supplied, true, approveFp));
    m := Move(Approve, ApprovePart(RequestIdFor(supplied, true, approveFp)), approveFp, approvedBy, reason,
              o.answer.link, now);
  }

  lemma MaterializeReadsLinks(s: Store, s': Store, p: Proposal, actor: Actor, now: int)
    requires s'.links == s.links && s'.durable == s.durable
    ensures Materialize(s', p, actor, now) == Materialize(s, p, actor, now)
  {
  }

  lemma CompatKeeps(s: Store, h: History, clock: int, policy: Policy, ask: LinkAsk, approvedBy: Actor,
                    reason: string, redactions: int, linkExpiry: Option<int>, supplied: Option<RequestId>,
                    confirm: bool, now: int) returns (h': History)
    requires Inv(s, h, clock) && clock <= now
    ensures var o := CompatStep(s, policy, ask, approvedBy, reason, redactions, linkExpiry, supplied, confirm, now);
      o.Committed? ==>
        && Inv(o.store, h', now)
        && (ExpirySafe(s) && (o.answer.idempotentReplay || CompatClear(s, ask)) ==> ExpirySafe(o.store))
  {
    hide Inv, ExpirySafe, ApprovalClear, NormalizedTerms;
    var o := CompatStep(s, policy, ask, approvedBy, reason, redactions, linkExpiry, supplied, confirm, now);
    h' := h;
    if o.Committed? && !o.answer.idempotentReplay {
      var origin, rid, fp, m := CompatIsMove(s, policy, ask, approvedBy, reason, redactions, linkExpiry, supplied,
                                             confirm, now);
      hide CompatStep, Materialize;
      var id := origin.proposalId;
      NormalizedIsStable(ask);
      CreatedInv(s, h, clock, origin, rid, fp, now);
      var first, h1 := Created(s, origin, rid, fp, now), CreatedHistory(h, id, EventId(Propose, rid));
      MaterializeReadsLinks(s, first, Next(first.proposals[id], m), m.actor, now);
      StoredProposal(first, h1, now, id);
      ApprovalFits(first, h1, now, id, m);
      AdvanceInv(first, h1, now, id, m);
      h' := AdvanceHistory(first, h1, id, m.Event());
      if ExpirySafe(s) && CompatClear(s, ask) {
        CreatedSafe(s, origin, rid, fp, now);
        ClearAfterCreation(s, origin, rid, fp, now);
        AdvanceSafe(first, id, m);
      }
    } else {
      ClockMayAdvance(s, h, clock, now);
    }
  }

  lemma ClearAfterCreation(s: Store, origin: Origin, rid: RequestId, fp: Fingerprint, now: int)
    requires ApprovalClear(s, origin.terms.edge.linkId) && origin.proposalId !in s.proposals
    ensures ApprovalClear(Created(s, origin, rid, fp, now), origin.terms.edge.linkId)
  {
  }

  // ----- the expiry sweep -----

  /** A replay is fresh exactly when there is no receipt, and otherwise says that it is one. */
  lemma ReplayKind(s: Store, action: Action, rid: RequestId, fp: Fingerprint, now: int)
    ensures ReplayEvent(s, action, rid, fp, now).Fresh? <==> EventId(action, rid) !in s.receipts
    ensures ReplayEvent(s, action, rid, fp, now).Replayed? ==>
              ReplayEvent(s, action, rid, fp, now).answer.idempotentReplay
  {
    hide ProposalBound, CheckLink, EnvelopeMatches, EffectiveState;
  }

  lemma ExpireIsMove(s: Store, id: ProposalId, now: int) returns (m: Move)
    requires id in s.proposals && ExpireOne(s, id, now).Committed?
    requires !ExpireOne(s, id, now).answer.idempotentReplay
    ensures m.action == Expire && m.requestId == ExpiryOf(id, now) && m.at == now && m.Event() !in s.receipts
    ensures Allowed(Some(s.proposals[id].state), Expired)
    ensures ExpireOne(s, id, now) == Committed(Advance(s, id, m), FreshAnswer(Expire, Next(s.proposals[id], m), m.row))
    ensures s.proposals[id].state == Pending ==> m.row.None?
    ensures s.proposals[id].state != Pending ==>
              var l := s.proposals[id].origin.terms.edge.linkId;
              l in s.durable && m.row == Some(s.durable[l].(enabled := false,
                evidence := BoundEvidence(s.durable[l].evidence, Next(s.proposals[id], m)), updatedAt := m.at))
  {
    hide ProposalBound, ReplayEvent;
    var p := s.proposals[id];
    var reason := ExpiryReason(p);
    ReplayKind(s, Expire, ExpiryOf(id, now), Fingerprint(Expire, ExpireRequest(id, p.revision, reason)), now);
    m := Move(Expire, ExpiryOf(id, now), Fingerprint(Expire, ExpireRequest(id, p.revision, reason)), SYSTEM_ACTOR,
              reason, ExpireOne(s, id, now).answer.link, now);
  }

  /** The sweep may take this proposal: it is due, and its link yields unless it is pending. */
  predicate Sweepable(s: Store, id: ProposalId, now: int) {
    && id in s.proposals && Due(s.proposals[id], now)
    && (s.proposals[id].state != Pending ==> Yields(s, id))
  }

  lemma SafeOwner(s: Store, h: History, clock: int, id: ProposalId, now: int)
    requires Inv(s, h, clock) && ExpirySafe(s) && id in s.proposals && Due(s.proposals[id], now)
    requires s.proposals[id].state != Pending
    ensures OwnerOf(s, id)
  {
    hide ReceiptsOk, HistoryOk, Owned, CreationOk, LinkReceiptOk;
    assert OwnerOf(s, id);
  }

  lemma DueIsSweepable(s: Store, h: History, clock: int, id: ProposalId, now: int)
    requires Inv(s, h, clock) && ExpirySafe(s) && id in s.proposals && Due(s.proposals[id], now)
    ensures Sweepable(s, id, now)
  {
    if s.proposals[id].state != Pending {
      SafeOwner(s, h, clock, id, now);
      OwnerYields(s, h, clock, id);
    }
  }

  lemma ExpireCommits(s: Store, h: History, clock: int, id: ProposalId, now: int)
    requires Inv(s, h, clock) && Sweepable(s, id, now)
    ensures ExpireOne(s, id, now).Committed? && !ExpireOne(s, id, now).answer.idempotentReplay
  {
    StoredProposal(s, h, clock, id);
    NotYetExpired(s, h, clock, id, now);
    LinkKeys(s, h);
    hide Inv, ProposalBound;
  }

  lemma ExpireKeeps(s: Store, h: History, clock: int, id: ProposalId, now: int) returns (h': History)
    requires Inv(s, h, clock) && clock <= now && now > 0 && Sweepable(s, id, now)
    ensures ExpireOne(s, id, now).Committed? && Inv(ExpireOne(s, id, now).store, h', now)
    ensures ExpirySafe(s) ==> ExpirySafe(ExpireOne(s, id, now).store)
  {
    ExpireCommits(s, h, clock, id, now);
    StoredProposal(s, h, clock, id);
    var m := ExpireIsMove(s, id, now);
    hide Inv, ProposalBound, ExpireOne, ExpirySafe, Transition;
    if s.proposals[id].state != Pending {
      WithdrawalFits(s, h, clock, id, m);
    }
    AdvanceInv(s, h, clock, id, m);
    if ExpirySafe(s) {
      if s.proposals[id].state != Pending {
        SafeOwner(s, h, clock, id, now);
      }
      AdvanceSafe(s, id, m);
    }
    h' := AdvanceHistory(s, h, id, m.Event());
  }

  lemma ExpireEffect(s: Store, h: History, clock: int, id: ProposalId, now: int)
    requires Inv(s, h, clock) && Sweepable(s, id, now) && ExpireOne(s, id, now).Committed?
    ensures var s' := ExpireOne(s, id, now).store;
      && s'.proposals.Keys == s.proposals.Keys
      && s'.proposals[id].state == Expired && s'.proposals[id].origin == s.proposals[id].origin
      && (forall other | other in s.proposals && other != id :: s'.proposals[other] == s.proposals[other])
  {
    ExpireCommits(s, h, clock, id, now);
    StoredProposal(s, h, clock, id);
    var m := ExpireIsMove(s, id, now);
    hide Inv, ProposalBound, ExpireOne;
  }

  /** `s'` differs from `s` only in that some proposals that were due are now stored as expired. */
  ghost predicate SweptFrom(s: Store, s': Store, now: int) {
    && s'.proposals.Keys == s.proposals.Keys
    && (forall id | id in s.proposals ::
          || s'.proposals[id] == s.proposals[id]
          || (Due(s.proposals[id], now) && s'.proposals[id].state == Expired
              && s'.proposals[id].origin == s.proposals[id].origin))
  }

  /** Every expiry that the sweep makes is of a proposal that is pending or whose link yields. */
  predicate SweepYields(s: Store, rows: seq<ProposalId>, now: int, limit: nat)
    decreases |rows|
  {
    if |rows| == 0 || limit == 0 then true
    else if rows[0] !in s.proposals || !Due(s.proposals[rows[0]], now) then SweepYields(s, rows[1..], now, limit)
    else
      var o := ExpireOne(s, rows[0], now);
      Sweepable(s, rows[0], now) && (o.Committed? ==> SweepYields(o.store, rows[1..], now, limit - 1))
  }

  /** Such a sweep never refuses, keeps the invariant, and touches due proposals only. */
  lemma {:induction false} SweepKeeps(s: Store, h: History, clock: int, rows: seq<ProposalId>, now: int, limit: nat)
    returns (h': History)
    requires Inv(s, h, clock) && SweepYields(s, rows, now, limit) && clock <= now && now > 0
    ensures var w := SweepRows(s, rows, now, limit);
      && w.Swept? && Inv(w.store, h', now) && SweptFrom(s, w.store, now)
      && (ExpirySafe(s) ==> ExpirySafe(w.store))
    decreases |rows|
  {
    hide Inv, ExpirySafe, ExpireOne, Sweepable;
    h' := h;
    if |rows| == 0 || limit == 0 {
      ClockMayAdvance(s, h, clock, now);
    } else if rows[0] !in s.proposals || !Due(s.proposals[rows[0]], now) {
      h' := SweepKeeps(s, h, clock, rows[1..], now, limit);
    } else {
      var h1 := ExpireKeeps(s, h, clock, rows[0], now);
      var s1 := ExpireOne(s, rows[0], now).store;
      ExpireEffect(s, h, clock, rows[0], now);
      h' := SweepKeeps(s1, h1, now, rows[1..], now, limit - 1);
    }
  }

  /** Where every disabled proposal that may still expire owns its link, every sweep is harmless. */
  lemma {:induction false} SafeSweepYields(s: Store, h: History, clock: int, rows: seq<ProposalId>, now: int,
                                           limit: nat)
    requires Inv(s, h, clock) && ExpirySafe(s) && clock <= now && now > 0
    ensures SweepYields(s, rows, now, limit)
    decreases |rows|
  {
    hide Inv, ExpirySafe, ExpireOne, Sweepable;
    if |rows| == 0 || limit == 0 {
    } else if rows[0] !in s.proposals || !Due(s.proposals[rows[0]], now) {
      SafeSweepYields(s, h, clock, rows[1..], now, limit);
    } else {
      DueIsSweepable(s, h, clock, rows[0], now);
      var h1 := ExpireKeeps(s, h, clock, rows[0], now);
      SafeSweepYields(ExpireOne(s, rows[0], now).store, h1, now, rows[1..], now, limit - 1);
    }
  }

  // ----- runs -----

  datatype Call =
    | ProposeCall(ask: LinkAsk, proposedBy: Actor, reason: string, redactions: int, proposalExpiry: Option<int>,
                  linkExpiry: Option<int>, supplied: Option<RequestId>)
    | ReviewCall(id: ProposalId, decision: Action, reviewedBy: Actor, reason: string, expected: Revision,
                 supplied: Option<RequestId>)
    | CompatCall(ask: LinkAsk, approvedBy: Actor, reason: string, redactions: int, linkExpiry: Option<int>,
                 supplied: Option<RequestId>, confirm: bool)
    | DeactivateCall(action: Action, link: LinkId, actor: Actor, reason: string, expected: Revision,
                     supplied: Option<RequestId>, confirm: bool)
    | SweepCall(rows: seq<ProposalId>, limit: int)

  /** One call to a service with some policy, at the time its clock showed. */
  datatype Step = Step(call: Call, policy: Policy, now: int)

  function Settled(s: Store, o: Outcome): Store {
    if o.Committed? then o.store else s
  }

  /** The outcome of a call other than the sweep. */
  function Attempt(s: Store, step: Step): Outcome
    requires !step.call.SweepCall?
  {
    match step.call
    case ProposeCall(ask, who, reason, redactions, proposalExpiry, linkExpiry, supplied) =>
      ProposeStep(s, ask, who, reason, redactions, proposalExpiry, linkExpiry, supplied, step.now)
    case ReviewCall(id, decision, who, reason, expected, supplied) =>
      ReviewStep(s, step.policy, id, decision, who, reason, expected, supplied, step.now)
    case CompatCall(ask, who, reason, redactions, linkExpiry, supplied, confirm) =>
      CompatStep(s, step.policy, ask, who, reason, redactions, linkExpiry, supplied, confirm, step.now)
    case DeactivateCall(action, link, actor, reason, expected, supplied, confirm) =>
      DeactivateStep(s, action, link, actor, reason, expected, supplied, confirm, step.now)
  }

  /** The store after a call; a refused call leaves it as it was. */
  function Perform(s: Store, step: Step): Store {
    if step.call.SweepCall? then
      var w := SweepStep(s, step.call.rows, step.call.limit, step.now);
      if w.Swept? then w.store else s
    else Settled(s, Attempt(s, step))
  }

  /** The call commits a new version rather than being refused or replayed. */
  predicate Writes(s: Store, step: Step) {
    !step.call.SweepCall? && Attempt(s, step).Committed? && !Attempt(s, step).answer.idempotentReplay
  }

  /** The approval rule: no approval is written for a link while another proposal for it is disabled
      and may still expire. Approvals that are refused or replayed are free. */
  ghost predicate Clear(s: Store, step: Step) {
    Writes(s, step) ==>
      match step.call
      case ReviewCall(id, decision, _, _, _, _) => ReviewClear(s, id, decision)
      case CompatCall(ask, _, _, _, _, _, _) => CompatClear(s, ask)
      case _ => true
  }

  function Run(s: Store, steps: seq<Step>): Store
    decreases |steps|
  {
    if |steps| == 0 then s else Run(Perform(s, steps[0]), steps[1..])
  }

  /** Every call of the run keeps the approval rule. */
  ghost predicate ApprovalsWait(s: Store, steps: seq<Step>)
    decreases |steps|
  {
    |steps| == 0 || (Clear(s, steps[0]) && ApprovalsWait(Perform(s, steps[0]), steps[1..]))
  }

  ghost predicate ClockNeverBack(steps: seq<Step>) {
    forall i, j | 0 <= i && j == i + 1 < |steps| :: steps[i].now <= steps[j].now
  }

  lemma ClockOfRest(steps: seq<Step>)
    requires ClockNeverBack(steps) && |steps| > 0
    ensures ClockNeverBack(steps[1..]) && (|steps| > 1 ==> steps[0].now <= steps[1..][0].now)
  {
    forall i, j | 0 <= i && j == i + 1 < |steps[1..]|
      ensures steps[1..][i].now <= steps[1..][j].now
    {
      assert steps[i + 1].now <= steps[j + 1].now;
    }
  }

  /** The call is a sweep that passes its argument checks. */
  predicate Sweeps(step: Step) {
    step.call.SweepCall? && step.now > 0 && 1 <= step.call.limit <= MAX_LIST_LIMIT
  }

  predicate StepYields(s: Store, step: Step) {
    Sweeps(step) ==> SweepYields(s, step.call.rows, step.now, step.call.limit)
  }

  /** Every expiry of the run is of a proposal that is pending or whose link yields. */
  predicate EveryExpiryYields(s: Store, steps: seq<Step>)
    decreases |steps|
  {
    |steps| == 0 || (StepYields(s, steps[0]) && EveryExpiryYields(Perform(s, steps[0]), steps[1..]))
  }

  lemma StepKeeps(s: Store, h: History, clock: int, step: Step) returns (h': History)
    requires Inv(s, h, clock) && clock <= step.now && StepYields(s, step)
    ensures Inv(Perform(s, step), h', step.now)
    ensures ExpirySafe(s) && Clear(s, step) ==> ExpirySafe(Perform(s, step))
  {
    hide Inv, ExpirySafe, ReviewClear, CompatClear, SweepYields;
    hide ProposeStep, ReviewStep, CompatStep, DeactivateStep, SweepRows;
    ClockMayAdvance(s, h, clock, step.now);
    h' := h;
    match step.call {
      case ProposeCall(ask, who, reason, redactions, proposalExpiry, linkExpiry, supplied) =>
        var h1 := ProposeKeeps(s, h, clock, ask, who, reason, redactions, proposalExpiry, linkExpiry, supplied,
                               step.now);
        if ProposeStep(s, ask, who, reason, redactions, proposalExpiry, linkExpiry, supplied, step.now).Committed? {
          h' := h1;
        }
      case ReviewCall(id, decision, who, reason, expected, supplied) =>
        var h1 := ReviewKeeps(s, h, clock, step.policy, id, decision, who, reason, expected, supplied, step.now);
        if ReviewStep(s, step.policy, id, decision, who, reason, expected, supplied, step.now).Committed? {
          h' := h1;
        }
      case CompatCall(ask, who, reason, redactions, linkExpiry, supplied, confirm) =>
        var h1 := CompatKeeps(s, h, clock, step.policy, ask, who, reason, redactions, linkExpiry, supplied, confirm,
                              step.now);
        var o := CompatStep(s, step.policy, ask, who, reason, redactions, linkExpiry, supplied, confirm, step.now);
        if o.Committed? {
          h' := h1;
        }
      case DeactivateCall(action, link, actor, reason, expected, supplied, confirm) =>
        var h1 := DeactivateKeeps(s, h, clock, action, link, actor, reason, expected, supplied, confirm, step.now);
        if DeactivateStep(s, action, link, actor, reason, expected, supplied, confirm, step.now).Committed? {
          h' := h1;
        }
      case SweepCall(rows, limit) =>
        if Sweeps(step) {
          h' := SweepKeeps(s, h, clock, rows, step.now, limit);
        }
    }
  }

  lemma {:induction false} RunKeeps(s: Store, h: History, clock: int, steps: seq<Step>)
    returns (h': History, clock': int)
    requires Inv(s, h, clock) && ClockNeverBack(steps) && (|steps| > 0 ==> clock <= steps[0].now)
    requires EveryExpiryYields(s, steps)
    ensures Inv(Run(s, steps), h', clock')
    decreases |steps|
  {
    hide Inv, Perform, StepYields, ClockNeverBack;
    h', clock' := h, clock;
    if |steps| > 0 {
      h' := StepKeeps(s, h, clock, steps[0]);
      ClockOfRest(steps);
      h', clock' := RunKeeps(Perform(s, steps[0]), h', steps[0].now, steps[1..]);
    }
  }

  /** The approval rule makes every expiry of a run yield. */
  lemma {:induction false} WaitingApprovalsYield(s: Store, h: History, clock: int, steps: seq<Step>)
    requires Inv(s, h, clock) && ClockNeverBack(steps) && (|steps| > 0 ==> clock <= steps[0].now)
    requires ExpirySafe(s) && ApprovalsWait(s, steps)
    ensures EveryExpiryYields(s, steps) && ExpirySafe(Run(s, steps))
    decreases |steps|
  {
    hide Inv, ExpirySafe, Perform, Clear, ClockNeverBack, SweepYields;
    if |steps| > 0 {
      if Sweeps(steps[0]) {
        SafeSweepYields(s, h, clock, steps[0].call.rows, steps[0].now, steps[0].call.limit);
      }
      var h' := StepKeeps(s, h, clock, steps[0]);
      ClockOfRest(steps);
      WaitingApprovalsYield(Perform(s, steps[0]), h', steps[0].now, steps[1..]);
    }
  }
}
