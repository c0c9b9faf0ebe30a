/** Exactly when each governance call commits, and what a commit leaves behind. */
module GovernanceOutcomes {
  import opened GovernanceTypes
  import opened GovernanceSteps
  import opened GovernanceInvariant
  import opened GovernanceRuns
  import opened GovernanceTheorems
  import opened GovernanceReplay
  import opened GovernanceReaders
  import opened GovernanceTakeover
  import opened TextOrder

  // ----- what a request for a link becomes -----

  /** A link request is accepted exactly when it joins two named contexts with a weight in range; its
      terms say what was asked, with the ends in text order when the link is bidirectional. */
  lemma TermsAreAsked(ask: LinkAsk)
    ensures NormalizedTerms(ask).Some? <==>
              ask.source != "" && ask.target != "" && ask.source != ask.target && 0 <= ask.weight <= 1_000_000
    ensures NormalizedTerms(ask).Some? ==>
              var t := NormalizedTerms(ask).value;
              && t.weight == ask.weight && t.evidence == ask.evidence && t.evidenceRedactions == ask.evidenceRedactions
              && t.edge.relation == ask.relation && t.edge.direction == ask.direction
              && {t.edge.source, t.edge.target} == {ask.source, ask.target}
              && (ask.direction == Directed ==> t.edge.source == ask.source)
              && (ask.direction == Bidirectional ==> Precedes(t.edge.source, t.edge.target))
  {
    PrecedesIsTotal(ask.source, ask.target);
  }

  /** A window that a caller may ask for: not shorter than the minimum, not longer than the maximum. */
  predicate WindowFits(at: Option<int>, now: int, minimum: int, maximum: int) {
    at.Some? ==> minimum <= at.value - now <= maximum
  }

  const MINUTE := 60
  const DAY := 24 * 60 * 60

  // ----- proposals -----

  /** The identifier of every proposal was made from a request that has its receipt. */
  ghost predicate IdsUsed(s: Store) {
    forall id | id in s.proposals ::
      EventId(Propose, if id.ReviewedId? then id.requestId else ProposePart(id.requestId)) in s.receipts
  }

  lemma {:induction false} SweepKeepsIds(s: Store, rows: seq<ProposalId>, now: int, limit: nat)
    ensures var w := SweepRows(s, rows, now, limit); w.Swept? ==> w.store.proposals.Keys == s.proposals.Keys
    decreases |rows|
  {
    hide ExpireOne;
    if |rows| > 0 && limit > 0 && SweepRows(s, rows, now, limit).Swept? {
      if rows[0] !in s.proposals || !Due(s.proposals[rows[0]], now) {
        SweepKeepsIds(s, rows[1..], now, limit);
      } else {
        ExpiryKeepsIds(s, rows[0], now);
        SweepKeepsIds(ExpireOne(s, rows[0], now).store, rows[1..], now, limit - 1);
      }
    }
  }

  lemma ExpiryKeepsIds(s: Store, id: ProposalId, now: int)
    requires id in s.proposals && ExpireOne(s, id, now).Committed?
    ensures ExpireOne(s, id, now).store.proposals.Keys == s.proposals.Keys
  {
    hide ReplayEvent;
    if ExpireOne(s, id, now).answer.idempotentReplay {
      ReplayedExpiry(s, id, now);
    }
    BoundIds(s, id);
    hide ProposalBound;
  }

  lemma IdsStay(s: Store, s': Store)
    requires IdsUsed(s) && AppendOnly(s, s') && s'.proposals.Keys == s.proposals.Keys
    ensures IdsUsed(s')
  {
  }

  lemma IdsAdded(s: Store, s': Store, id: ProposalId)
    requires IdsUsed(s) && AppendOnly(s, s') && s'.proposals.Keys == s.proposals.Keys + {id}
    requires EventId(Propose, if id.ReviewedId? then id.requestId else ProposePart(id.requestId)) in s'.receipts
    ensures IdsUsed(s')
  {
  }

  lemma AdvanceKeys(s: Store, id: ProposalId, m: Move)
    requires id in s.proposals && s.proposals[id].origin.proposalId == id
    ensures Advance(s, id, m).proposals.Keys == s.proposals.Keys
    ensures forall ev | ev in s.receipts :: ev in Advance(s, id, m).receipts
  {
    assert Next(s.proposals[id], m).origin == s.proposals[id].origin;
  }

  lemma CreatedKeys(s: Store, origin: Origin, rid: RequestId, fp: Fingerprint, now: int)
    ensures var s' := Created(s, origin, rid, fp, now);
      && s'.proposals.Keys == s.proposals.Keys + {origin.proposalId} && EventId(Propose, rid) in s'.receipts
      && origin.proposalId in s'.proposals && s'.proposals[origin.proposalId].origin == origin
  {
  }

  lemma StepKeepsIds(s: Store, step: Step)
    requires IdsUsed(s)
    ensures IdsUsed(Perform(s, step))
  {
    hide ProposeStep, ReviewStep, CompatStep, DeactivateStep, SweepRows, IdsUsed, AppendOnly, Advance, Created;
    ReceiptsOnlyGrow(s, step);
    var s' := Perform(s, step);
    if step.call.SweepCall? {
      if 1 <= step.call.limit {
        SweepKeepsIds(s, step.call.rows, step.now, step.call.limit);
      }
      IdsStay(s, s');
    } else if !Writes(s, step) {
      ReplayKeepsStore(s, step);
    } else {
      match step.call {
        case ProposeCall(ask, who, reason, redactions, proposalExpiry, linkExpiry, supplied) =>
          var origin, rid, fp := ProposeIsCreation(s, ask, who, reason, redactions, proposalExpiry, linkExpiry,
                                                   supplied, step.now);
          CreatedKeys(s, origin, rid, fp, step.now);
          IdsAdded(s, s', origin.proposalId);
        case ReviewCall(id, decision, who, reason, expected, supplied) =>
          var m := ReviewIsMove(s, step.policy, id, decision, who, reason, expected, supplied, step.now);
          AdvanceKeys(s, id, m);
          IdsStay(s, s');
        case CompatCall(ask, who, reason, redactions, linkExpiry, supplied, confirm) =>
          var origin, rid, fp, m := CompatIsMove(s, step.policy, ask, who, reason, redactions, linkExpiry, supplied,
                                                 confirm, step.now);
          CreatedKeys(s, origin, rid, fp, step.now);
          AdvanceKeys(Created(s, origin, rid, fp, step.now), origin.proposalId, m);
          IdsAdded(s, s', origin.proposalId);
        case DeactivateCall(action, link, actor, reason, expected, supplied, confirm) =>
          var id, m := DeactivateIsMove(s, action, link, actor, reason, expected, supplied, confirm, step.now);
          AdvanceKeys(s, id, m);
          IdsStay(s, s');
      }
    }
  }

  lemma {:induction false} RunKeepsIds(s: Store, steps: seq<Step>)
    requires IdsUsed(s)
    ensures IdsUsed(Run(s, steps))
    decreases |steps|
  {
    hide IdsUsed, Perform;
    if |steps| > 0 {
      StepKeepsIds(s, steps[0]);
      RunKeepsIds(Perform(s, steps[0]), steps[1..]);
    }
  }

  /** A fresh proposal commits exactly when its link and its windows are in order and somebody gives a
      reason.  It is then pending with what was asked, open for seven days unless asked otherwise, and
      nothing about links has changed. */
  lemma ProposalCommitsIff(s: Store, ask: LinkAsk, proposedBy: Actor, reason: string, redactions: int,
                           proposalExpiry: Option<int>, linkExpiry: Option<int>, supplied: RequestId, now: int)
    requires IdsUsed(s) && EventId(Propose, supplied) !in s.receipts
    ensures
      var o := ProposeStep(s, ask, proposedBy, reason, redactions, proposalExpiry, linkExpiry, Some(supplied), now);
      && (o.Committed? <==>
            && NormalizedTerms(ask).Some? && proposedBy != "" && reason != "" && now > 0
            && WindowFits(proposalExpiry, now, MINUTE, 30 * DAY) && WindowFits(linkExpiry, now, MINUTE, 366 * DAY))
      && (o.Committed? ==>
            && o.store.links == s.links && o.store.durable == s.durable
            && var p := o.answer.proposal;
              && p.origin.proposalId !in s.proposals
              && o.store.proposals == s.proposals[p.origin.proposalId := p]
              && p.state == Pending && p.origin.terms == NormalizedTerms(ask).value
              && p.origin.proposedBy == proposedBy && p.origin.proposalReason == reason && p.origin.proposedAt == now
              && p.origin.proposalExpiresAt == (if proposalExpiry.Some? then proposalExpiry.value else now + 7 * DAY)
              && p.origin.linkExpiresAt == linkExpiry && p.origin.reasonRedactions == redactions
              && p.origin.createdRequestId == supplied && !p.origin.compatibilityMode
              && o.answer.state == Pending && !o.answer.authorizationActive && o.answer.link == None
              && !o.answer.idempotentReplay)
  {
    hide NormalizedTerms;
  }

  // ----- what a transition leaves -----

  /** The link of a proposal after a step that touched its surfaces. */
  predicate LinkStands(s: Store, id: ProposalId, enabled: bool) {
    && id in s.proposals
    && var p := s.proposals[id];
      var l := p.origin.terms.edge.linkId;
      && l in s.links && l in s.durable
      && s.links[l].proposalId == id && s.links[l].state == p.state && s.links[l].enabled == enabled
      && s.durable[l].enabled == enabled
  }

  /** One proposal moved on, and every other one and every other link is as it was. */
  ghost predicate OnlyMoved(s: Store, s': Store, id: ProposalId, state: State) {
    && id in s.proposals && id in s'.proposals && s'.proposals.Keys == s.proposals.Keys
    && s'.proposals[id].state == state && s'.proposals[id].origin == s.proposals[id].origin
    && (forall other | other in s.proposals && other != id :: s'.proposals[other] == s.proposals[other])
    && (forall l | l in s.links && l != s.proposals[id].origin.terms.edge.linkId ::
          l in s'.links && s'.links[l] == s.links[l])
    && (forall l | l in s.durable && l != s.proposals[id].origin.terms.edge.linkId ::
          l in s'.durable && s'.durable[l] == s.durable[l])
  }

  /** The answer to a call that wrote shows the stored proposal, and the link row if the step touched
      it; it says that the link may be used exactly when the proposal is now approved. */
  predicate AnswerShows(o: Outcome, id: ProposalId, action: Action, withLink: bool)
    requires o.Committed?
  {
    && id in o.store.proposals && o.answer.proposal == o.store.proposals[id]
    && o.answer.action == action && o.answer.state == o.answer.proposal.state && !o.answer.idempotentReplay
    && o.answer.compatibilityMode == o.answer.proposal.origin.compatibilityMode
    && (o.answer.authorizationActive <==> o.answer.state == Approved)
    && (!withLink ==> o.answer.link == None)
    && var l := o.answer.proposal.origin.terms.edge.linkId;
      (withLink ==> l in o.store.durable && o.answer.link == Some(o.store.durable[l]))
  }

  lemma MoveLeaves(s: Store, id: ProposalId, m: Move)
    requires id in s.proposals && s.proposals[id].origin.proposalId == id
    requires m.row.Some? ==> m.row.value.enabled == (m.action == Approve)
    requires m.row.None? ==> m.action != Approve
    ensures OnlyMoved(s, Advance(s, id, m), id, AfterState(m.action))
    ensures m.row.None? ==> Advance(s, id, m).links == s.links && Advance(s, id, m).durable == s.durable
    ensures m.row.Some? ==> LinkStands(Advance(s, id, m), id, m.action == Approve)
    ensures Advance(s, id, m).proposals[id] == Next(s.proposals[id], m)
    ensures m.row.Some? ==> Advance(s, id, m).durable[s.proposals[id].origin.terms.edge.linkId] == m.row.value
    ensures AnswerShows(Committed(Advance(s, id, m), FreshAnswer(m.action, Next(s.proposals[id], m), m.row)), id,
                        m.action, m.row.Some?)
  {
    assert Next(s.proposals[id], m).origin == s.proposals[id].origin;
    assert Next(s.proposals[id], m).state == AfterState(m.action);
  }

  /** No reader shows the link, for any context and at any time. */
  ghost predicate Hidden(s: Store, l: LinkId) {
    forall context, now | l in s.links :: !Shown(s, l, context, now)
  }

  lemma DisabledIsHidden(s: Store, id: ProposalId)
    requires LinkStands(s, id, false)
    ensures Hidden(s, s.proposals[id].origin.terms.edge.linkId)
  {
    hide CheckLink, ProposalBound, EffectiveState;
  }

  // ----- reviews -----

  /** A fresh review commits exactly when it is well-formed and names the current version of a pending
      proposal whose window is open, by a reviewer whom the policy admits; an approval moreover needs
      that the link has not run out and that no other proposal for it is approved. */
  lemma ReviewCommitsIff(s: Store, h: History, clock: int, policy: Policy, id: ProposalId, decision: Action,
                         reviewedBy: Actor, reason: string, expected: Revision, supplied: RequestId, now: int)
    requires Inv(s, h, clock) && EventId(decision, supplied) !in s.receipts
    ensures ReviewStep(s, policy, id, decision, reviewedBy, reason, expected, Some(supplied), now).Committed? <==>
              && (decision == Approve || decision == Reject) && reviewedBy != "" && reason != "" && now > 0
              && id in s.proposals && s.proposals[id].revision == expected && s.proposals[id].state == Pending
              && now < s.proposals[id].origin.proposalExpiresAt
              && (policy.requireDistinctReviewer ==> reviewedBy != s.proposals[id].origin.proposedBy)
              && (decision == Approve ==>
                    && (s.proposals[id].origin.linkExpiresAt.Some? ==> now < s.proposals[id].origin.linkExpiresAt.value)
                    && !ApprovedElsewhere(s, id))
  {
    if id in s.proposals {
      StoredProposal(s, h, clock, id);
      var fp := Fingerprint(decision, ReviewRequest(id, reviewedBy, reason, expected));
      if s.proposals[id].state == Pending {
        MaterializesIffFree(s, h, clock, id, Move(Approve, supplied, fp, reviewedBy, reason, None, now));
      }
    }
    hide Inv, ProposalBound, Materialize, ApprovedElsewhere, ProposalShape;
  }

  lemma ApprovedRow(s: Store, id: ProposalId, m: Move)
    requires id in s.proposals && m.row.Some?
    requires Materialize(s, Next(s.proposals[id], m), m.actor, m.at) == Materialized(m.row.value)
    ensures var row, terms := m.row.value, s.proposals[id].origin.terms;
      && row.enabled && row.confidence == terms.weight && row.approvedBy == m.actor && row.approvedAt == m.at
      && row.edge == terms.edge && row.evidence - {GOVERNANCE_KEY} == terms.evidence - {GOVERNANCE_KEY}
      && row.updatedAt == m.at
      && row.createdAt == if terms.edge.linkId in s.durable then s.durable[terms.edge.linkId].createdAt else m.at
  {
    var p := Next(s.proposals[id], m);
    SameBase(BoundEvidence(p.origin.terms.evidence, p), p.origin.terms.evidence, p);
    assert BoundEvidence(BoundEvidence(p.origin.terms.evidence, p), p) == BoundEvidence(p.origin.terms.evidence, p);
  }

  /** While its link has not run out, an approved proposal's link is shown to every context it touches. */
  lemma ApprovedIsShown(s: Store, h: History, clock: int, id: ProposalId, context: Option<Context>, now: int)
    requires Inv(s, h, clock) && id in s.proposals && s.proposals[id].state == Approved
    requires s.proposals[id].origin.linkExpiresAt.Some? ==> now < s.proposals[id].origin.linkExpiresAt.value
    requires Touches(s.proposals[id].origin.terms.edge, context)
    ensures var l := s.proposals[id].origin.terms.edge.linkId; l in s.links && Shown(s, l, context, now)
  {
    var l := s.proposals[id].origin.terms.edge.linkId;
    ApprovedOwners(s, h);
    assert EffectiveState(s.proposals[id], now) == Approved;
    assert Authorized(s, l, now);
    OwnedLink(s, h, clock, l);
    ShownIffAuthorized(s, h, clock, l, context, now);
    hide Inv, Shown, CheckLink, ProposalBound, Authorized;
  }

  /** An approval makes the proposal approved and its link usable: the row carries what was proposed
      and who approved it when, and readers show the link until it runs out. */
  lemma ApprovalLeaves(s: Store, h: History, clock: int, policy: Policy, id: ProposalId, reviewedBy: Actor,
                       reason: string, expected: Revision, supplied: Option<RequestId>, now: int)
    requires Inv(s, h, clock) && clock <= now
    requires var o := ReviewStep(s, policy, id, Approve, reviewedBy, reason, expected, supplied, now);
      o.Committed? && !o.answer.idempotentReplay
    ensures var o := ReviewStep(s, policy, id, Approve, reviewedBy, reason, expected, supplied, now);
      && OnlyMoved(s, o.store, id, Approved) && LinkStands(o.store, id, true) && AnswerShows(o, id, Approve, true)
      && var p := o.store.proposals[id]; var row := o.answer.link.value;
        && p.reviewed == Stamp(reviewedBy, now) && p.decisionReason == reason
        && row.edge == p.origin.terms.edge && row.confidence == p.origin.terms.weight
        && row.approvedBy == reviewedBy && row.approvedAt == now
        && row.evidence - {GOVERNANCE_KEY} == p.origin.terms.evidence - {GOVERNANCE_KEY} && row.updatedAt == now
        && row.createdAt == (if row.edge.linkId in s.durable then s.durable[row.edge.linkId].createdAt else now)
    ensures var o := ReviewStep(s, policy, id, Approve, reviewedBy, reason, expected, supplied, now);
      var edge, ends := s.proposals[id].origin.terms.edge, s.proposals[id].origin.linkExpiresAt;
      forall context, later | Touches(edge, context) && (ends.Some? ==> later < ends.value) ::
        edge.linkId in o.store.links && Shown(o.store, edge.linkId, context, later)
  {
    hide Inv, Materialize, ProposalBound, ProposalShape, Shown;
    var h' := ReviewKeeps(s, h, clock, policy, id, Approve, reviewedBy, reason, expected, supplied, now);
    var m := ReviewIsMove(s, policy, id, Approve, reviewedBy, reason, expected, supplied, now);
    hide ReviewStep;
    StoredProposal(s, h, clock, id);
    ApprovedRow(s, id, m);
    MoveLeaves(s, id, m);
    NextStamps(s.proposals[id], m);
    hide Advance, Next, FreshAnswer;
    var s' := Advance(s, id, m);
    var edge, ends := s.proposals[id].origin.terms.edge, s.proposals[id].origin.linkExpiresAt;
    forall context, later | Touches(edge, context) && (ends.Some? ==> later < ends.value)
      ensures edge.linkId in s'.links && Shown(s', edge.linkId, context, later)
    {
      ApprovedIsShown(s', h', now, id, context, later);
    }
  }

  lemma NextStamps(p: Proposal, m: Move)
    ensures var q := Next(p, m); var stamp := Stamp(m.actor, m.at);
      && q.decisionReason == m.reason && q.updatedAt == m.at && q.lastEventId == m.Event()
      && q.previousRevision == p.revision && q.eventCount == p.eventCount + 1
      && q.reviewed == (if m.action == Approve || m.action == Reject then stamp else p.reviewed)
      && q.disabled == (if m.action == Disable then stamp else p.disabled)
      && q.revoked == (if m.action == Revoke then stamp else p.revoked)
      && q.expired == (if m.action == Expire then stamp else p.expired)
  {
  }

  /** A rejection ends the proposal and touches no link. */
  lemma RejectionLeaves(s: Store, h: History, clock: int, policy: Policy, id: ProposalId, reviewedBy: Actor,
                        reason: string, expected: Revision, supplied: Option<RequestId>, now: int)
    requires Inv(s, h, clock)
    requires var o := ReviewStep(s, policy, id, Reject, reviewedBy, reason, expected, supplied, now);
      o.Committed? && !o.answer.idempotentReplay
    ensures var o := ReviewStep(s, policy, id, Reject, reviewedBy, reason, expected, supplied, now);
      && OnlyMoved(s, o.store, id, Rejected) && o.store.links == s.links && o.store.durable == s.durable
      && AnswerShows(o, id, Reject, false)
      && o.store.proposals[id].reviewed == Stamp(reviewedBy, now) && o.store.proposals[id].decisionReason == reason
  {
    hide Inv, Materialize, ProposalBound, ProposalShape;
    var m := ReviewIsMove(s, policy, id, Reject, reviewedBy, reason, expected, supplied, now);
    hide ReviewStep;
    StoredProposal(s, h, clock, id);
    MoveLeaves(s, id, m);
    NextStamps(s.proposals[id], m);
    hide Advance, Next, FreshAnswer;
  }

  // ----- deactivation -----

  /** The row is off since now, and otherwise as it was but for the binding in its evidence. */
  predicate SwitchedOff(before: DurableLink, after: DurableLink, now: int) {
    && !after.enabled && after.updatedAt == now
    && after.evidence - {GOVERNANCE_KEY} == before.evidence - {GOVERNANCE_KEY}
    && after.edge == before.edge && after.confidence == before.confidence
    && after.approvedBy == before.approvedBy && after.approvedAt == before.approvedAt
    && after.createdAt == before.createdAt
  }

  lemma OffIsSwitchedOff(row: DurableLink, p: Proposal, now: int)
    ensures SwitchedOff(row, row.(enabled := false, evidence := BoundEvidence(row.evidence, p), updatedAt := now), now)
  {
    SameBase(BoundEvidence(row.evidence, p), row.evidence, p);
    assert BoundEvidence(BoundEvidence(row.evidence, p), p) == BoundEvidence(row.evidence, p);
  }

  /** A fresh deactivation commits exactly when it is well-formed and confirmed, and names the current
      version of the proposal that owns the link, which must be approved, or disabled when it is to be
      revoked. */
  lemma DeactivationCommitsIff(s: Store, h: History, clock: int, action: Action, l: LinkId, actor: Actor,
                               reason: string, expected: Revision, supplied: RequestId, confirm: bool, now: int)
    requires Inv(s, h, clock) && EventId(action, supplied) !in s.receipts
    ensures DeactivateStep(s, action, l, actor, reason, expected, Some(supplied), confirm, now).Committed? <==>
              && (action == Disable || action == Revoke) && confirm && actor != "" && reason != "" && now > 0
              && l in s.links && s.links[l].proposalId in s.proposals
              && var p := s.proposals[s.links[l].proposalId];
                && p.revision == expected
                && (p.state == Approved || (p.state == Disabled && action == Revoke))
  {
    hide Inv, ProposalBound, CheckLink, ReplayEvent;
    var fp := Fingerprint(action, DeactivateRequest(l, actor, reason, expected));
    ReplayKind(s, action, supplied, fp, now);
    if l in s.links {
      OwnerIsSound(s, h, clock, l);
    }
  }

  lemma OwnerIsSound(s: Store, h: History, clock: int, l: LinkId)
    requires Inv(s, h, clock) && l in s.links
    ensures var id := s.links[l].proposalId;
      && id in s.proposals && ProposalBound(s, id) && CheckLink(s, s.proposals[id]).GoodLink?
      && s.proposals[id].origin.terms.edge.linkId == l && s.proposals[id].revision == ProposalDigest(s.proposals[id])
  {
    OwnersOfLinks(s, h);
    StoredProposal(s, h, clock, s.links[l].proposalId);
    LinkCheckIffNotTaken(s, h, clock, s.links[l].proposalId);
    hide Inv, ProposalBound, CheckLink;
  }

  /** A deactivation leaves the owner disabled or revoked as asked and its link unusable: the row and
      the projection are off, and no reader ever shows the link as it now stands. */
  lemma DeactivationLeaves(s: Store, h: History, clock: int, action: Action, l: LinkId, actor: Actor, reason: string,
                           expected: Revision, supplied: Option<RequestId>, confirm: bool, now: int)
    requires Inv(s, h, clock)
    requires var o := DeactivateStep(s, action, l, actor, reason, expected, supplied, confirm, now);
      o.Committed? && !o.answer.idempotentReplay
    ensures l in s.links
    ensures var o := DeactivateStep(s, action, l, actor, reason, expected, supplied, confirm, now);
      var id := s.links[l].proposalId;
      && (action == Disable || action == Revoke)
      && OnlyMoved(s, o.store, id, if action == Disable then Disabled else Revoked)
      && s.proposals[id].origin.terms.edge.linkId == l && LinkStands(o.store, id, false) && Hidden(o.store, l)
      && AnswerShows(o, id, action, true)
      && (if action == Disable then o.store.proposals[id].disabled else o.store.proposals[id].revoked)
         == Stamp(actor, now)
      && o.store.proposals[id].decisionReason == reason
      && l in s.durable && SwitchedOff(s.durable[l], o.store.durable[l], now)
  {
    hide Inv, ProposalBound, ProposalShape;
    var id, m := DeactivateIsMove(s, action, l, actor, reason, expected, supplied, confirm, now);
    hide DeactivateStep;
    StoredProposal(s, h, clock, id);
    MoveLeaves(s, id, m);
    NextStamps(s.proposals[id], m);
    OffIsSwitchedOff(s.durable[l], Next(s.proposals[id], m), now);
    hide Advance, Next, FreshAnswer, SwitchedOff;
    DisabledIsHidden(Advance(s, id, m), id);
  }

  // ----- the compatibility lane -----

  /** Some proposal for the link is approved. */
  ghost predicate LinkApproved(s: Store, l: LinkId) {
    exists id | id in s.proposals :: s.proposals[id].state == Approved && s.proposals[id].origin.terms.edge.linkId == l
  }

  lemma NewMaterializesIff(s: Store, h: History, clock: int, origin: Origin, rid: RequestId, fp: Fingerprint, m: Move)
    requires Inv(s, h, clock) && clock <= m.at && m.at > 0 && CanonicalEdge(origin.terms.edge)
    requires origin.proposalId !in s.proposals && EventId(Propose, rid) !in s.receipts
    ensures var pending := NewPending(origin, EventId(Propose, rid), fp, m.at);
      && (Materialize(s, Next(pending, m), m.actor, m.at).Materialized? <==> !LinkApproved(s, origin.terms.edge.linkId))
      && (LinkApproved(s, origin.terms.edge.linkId) ==>
            Materialize(s, Next(pending, m), m.actor, m.at) == NotMaterialized(Conflict))
  {
    var id := origin.proposalId;
    var first, h1 := Created(s, origin, rid, fp, m.at), CreatedHistory(h, id, EventId(Propose, rid));
    var pending := NewPending(origin, EventId(Propose, rid), fp, m.at);
    CreatedInv(s, h, clock, origin, rid, fp, m.at);
    assert first.proposals == s.proposals[id := pending] && first.links == s.links && first.durable == s.durable;
    assert pending.state == Pending && pending.origin == origin;
    hide Inv, Created, NewPending, Next, Materialize, ApprovedElsewhere, LinkApproved, CanonicalEdge;
    MaterializesIffFree(first, h1, m.at, id, m);
    MaterializeReadsLinks(s, first, Next(pending, m), m.actor, m.at);
    ElsewhereIs(s, first, id, pending);
  }

  lemma ElsewhereIs(s: Store, first: Store, id: ProposalId, pending: Proposal)
    requires id !in s.proposals && first.proposals == s.proposals[id := pending]
    ensures ApprovedElsewhere(first, id) <==> LinkApproved(s, pending.origin.terms.edge.linkId)
  {
    assert forall other | other in s.proposals :: other != id && first.proposals[other] == s.proposals[other];
  }

  /** A fresh compatibility approval commits exactly when the policy allows this lane and demands no
      second reviewer, the request is confirmed and well-formed, its link window is in order, and no
      proposal for the link is approved. */
  lemma CompatCommitsIff(s: Store, h: History, clock: int, policy: Policy, ask: LinkAsk, approvedBy: Actor,
                         reason: string, redactions: int, linkExpiry: Option<int>, supplied: RequestId, confirm: bool,
                         now: int)
    requires Inv(s, h, clock) && clock <= now && IdsUsed(s)
    requires EventId(Propose, ProposePart(supplied)) !in s.receipts
    requires EventId(Approve, ApprovePart(supplied)) !in s.receipts
    ensures
      CompatStep(s, policy, ask, approvedBy, reason, redactions, linkExpiry, Some(supplied), confirm, now).Committed?
      <==>
              && policy.allowCompatibilityApproval && !policy.requireDistinctReviewer && confirm
              && NormalizedTerms(ask).Some? && approvedBy != "" && reason != "" && now > 0
              && WindowFits(linkExpiry, now, MINUTE, 366 * DAY)
              && !LinkApproved(s, NormalizedTerms(ask).value.edge.linkId)
  {
    hide Inv, Materialize, LinkApproved, NormalizedTerms, CanonicalEdge, ReplayEvent, Transition, NewPending;
    if NormalizedTerms(ask).Some? && now > 0 {
      NormalizedIsStable(ask);
      var request := CompatRequest(NormalizedTerms(ask).value, approvedBy, reason, linkExpiry);
      var fp := Fingerprint(Approve, request);
      ReplayKind(s, Approve, ApprovePart(supplied), fp, now);
      var id := CompatId(supplied, fp);
      assert id !in s.proposals;
      var origin := Origin(id, NormalizedTerms(ask).value, reason, redactions, approvedBy, now, now + 7 * DAY,
                           linkExpiry, supplied, true);
      NewMaterializesIff(s, h, clock, origin, ProposePart(supplied), Fingerprint(Propose, request),
                         Move(Approve, ApprovePart(supplied), fp, approvedBy, reason, None, now));
    }
  }

  /** A compatibility approval adds one proposal, at once approved by its proposer, with its link usable,
      and leaves both receipts. */
  lemma CompatLeaves(s: Store, h: History, clock: int, policy: Policy, ask: LinkAsk, approvedBy: Actor, reason: string,
                     redactions: int, linkExpiry: Option<int>, supplied: Option<RequestId>, confirm: bool, now: int)
    requires Inv(s, h, clock)
    requires var o := CompatStep(s, policy, ask, approvedBy, reason, redactions, linkExpiry, supplied, confirm, now);
      o.Committed? && !o.answer.idempotentReplay
    ensures var o := CompatStep(s, policy, ask, approvedBy, reason, redactions, linkExpiry, supplied, confirm, now);
      var id := o.answer.proposal.origin.proposalId;
      && id !in s.proposals && o.store.proposals.Keys == s.proposals.Keys + {id}
      && (forall other | other in s.proposals :: o.store.proposals[other] == s.proposals[other])
      && AnswerShows(o, id, Approve, true) && LinkStands(o.store, id, true)
      && var p, row := o.answer.proposal, o.answer.link.value;
        && p.state == Approved && p.reviewed == Stamp(approvedBy, now) && p.decisionReason == reason
        && NormalizedTerms(ask).Some? && p.origin.terms == NormalizedTerms(ask).value
        && p.origin.proposedBy == approvedBy && p.origin.proposalReason == reason && p.origin.proposedAt == now
        && p.origin.proposalExpiresAt == now + 7 * DAY && p.origin.linkExpiresAt == linkExpiry
        && p.origin.reasonRedactions == redactions && p.origin.compatibilityMode
        && row.confidence == p.origin.terms.weight && row.approvedBy == approvedBy && row.approvedAt == now
  {
    hide Inv, Materialize, NormalizedTerms, CanonicalEdge, CompatStep, Created, Advance, Next, FreshAnswer, ReceiptOf;
    var origin, rid, fp, m := CompatIsMove(s, policy, ask, approvedBy, reason, redactions, linkExpiry, supplied,
                                           confirm, now);
    var id := origin.proposalId;
    var first := Created(s, origin, rid, fp, now);
    CreatedIsPending(s, origin, rid, fp, now);
    NewApprovedRow(s, first, id, m);
    MoveLeaves(first, id, m);
    NextStamps(first.proposals[id], m);
    MoveKeepsOrigin(first.proposals[id], m);
  }

  lemma MoveKeepsOrigin(p: Proposal, m: Move)
    ensures Next(p, m).origin == p.origin && Next(p, m).state == AfterState(m.action)
  {
  }

  lemma CreatedIsPending(s: Store, origin: Origin, rid: RequestId, fp: Fingerprint, now: int)
    requires origin.proposalId !in s.proposals
    ensures var first := Created(s, origin, rid, fp, now);
      && origin.proposalId in first.proposals && first.proposals[origin.proposalId].origin == origin
      && first.proposals.Keys == s.proposals.Keys + {origin.proposalId}
      && first.links == s.links && first.durable == s.durable
      && forall other | other in s.proposals :: first.proposals[other] == s.proposals[other]
  {
  }

  lemma NewApprovedRow(s: Store, first: Store, id: ProposalId, m: Move)
    requires first.links == s.links && first.durable == s.durable
    requires id in first.proposals && m.row.Some?
    requires Materialize(s, Next(first.proposals[id], m), m.actor, m.at) == Materialized(m.row.value)
    ensures var row, terms := m.row.value, first.proposals[id].origin.terms;
      && row.enabled && row.confidence == terms.weight && row.approvedBy == m.actor && row.approvedAt == m.at
      && row.edge == terms.edge && row.evidence - {GOVERNANCE_KEY} == terms.evidence - {GOVERNANCE_KEY}
  {
    hide Materialize, Next;
    MaterializeReadsLinks(s, first, Next(first.proposals[id], m), m.actor, m.at);
    ApprovedRow(first, id, m);
  }

  // ----- expiry -----

  /** An expiry ends the proposal; a link that it touches is off and shown to no reader. */
  lemma ExpiryLeaves(s: Store, h: History, clock: int, id: ProposalId, now: int)
    requires Inv(s, h, clock) && Sweepable(s, id, now)
    ensures var o := ExpireOne(s, id, now);
      && o.Committed? && OnlyMoved(s, o.store, id, Expired)
      && AnswerShows(o, id, Expire, s.proposals[id].state != Pending)
      && o.store.proposals[id].expired == Stamp(SYSTEM_ACTOR, now)
      && (s.proposals[id].state == Pending ==> o.store.links == s.links && o.store.durable == s.durable)
      && (s.proposals[id].state != Pending ==>
            var l := s.proposals[id].origin.terms.edge.linkId;
            && LinkStands(o.store, id, false) && Hidden(o.store, l)
            && l in s.durable && SwitchedOff(s.durable[l], o.store.durable[l], now))
      && o.store.proposals[id].decisionReason ==
           (if s.proposals[id].state == Pending then "proposal review window expired"
            else "approved namespace link expired")
  {
    ExpireCommits(s, h, clock, id, now);
    StoredProposal(s, h, clock, id);
    var m := ExpireIsMove(s, id, now);
    ExpiryActor(s, id, now);
    hide Inv, ProposalBound, ProposalShape, ExpireOne, Yields;
    MoveLeaves(s, id, m);
    NextStamps(s.proposals[id], m);
    if s.proposals[id].state != Pending {
      OffIsSwitchedOff(s.durable[s.proposals[id].origin.terms.edge.linkId], Next(s.proposals[id], m), now);
    }
    hide Advance, Next, FreshAnswer, SwitchedOff;
    if s.proposals[id].state != Pending {
      DisabledIsHidden(Advance(s, id, m), id);
    }
  }

  lemma ExpiryActor(s: Store, id: ProposalId, now: int)
    requires id in s.proposals && ExpireOne(s, id, now).Committed? && !ExpireOne(s, id, now).answer.idempotentReplay
    ensures ExpireOne(s, id, now).answer.proposal.expired == Stamp(SYSTEM_ACTOR, now)
    ensures ExpireOne(s, id, now).answer.proposal.decisionReason == ExpiryReason(s.proposals[id])
  {
    var p := s.proposals[id];
    ReplayKind(s, Expire, ExpiryOf(id, now), Fingerprint(Expire, ExpireRequest(id, p.revision, ExpiryReason(p))), now);
    hide ProposalBound, ReplayEvent;
  }

  // ----- what a link row says, and why a call is refused -----

  /** In a sound store the two rows of a link repeat what its owner says, and the evidence of the durable
      row names the owner's current version. */
  lemma LinkSays(s: Store, h: History, clock: int, l: LinkId)
    requires Inv(s, h, clock) && l in s.links
    ensures s.links[l].proposalId in s.proposals && l in s.durable
    ensures var p, projection, row := s.proposals[s.links[l].proposalId], s.links[l], s.durable[l];
      && p.origin.terms.edge == projection.edge == row.edge && row.edge.linkId == l
      && p.origin.terms.weight == projection.weight == row.confidence
      && projection.state == p.state && projection.linkExpiresAt == p.origin.linkExpiresAt
      && projection.proposalRevision == p.revision && projection.updatedAt == p.updatedAt
      && (projection.enabled <==> p.state == Approved) && (row.enabled <==> p.state == Approved)
      && GOVERNANCE_KEY in row.evidence
      && row.evidence[GOVERNANCE_KEY] == Governance(Binding(s.links[l].proposalId, p.revision, p.state,
                                                            p.origin.linkExpiresAt, p.lastEventId))
  {
    OwnerIsSound(s, h, clock, l);
    hide Inv, ProposalBound;
  }

  /** Every refusal of a fresh review says what was wrong. */
  lemma ReviewRefusals(s: Store, h: History, clock: int, policy: Policy, id: ProposalId, decision: Action,
                       reviewedBy: Actor, reason: string, expected: Revision, supplied: RequestId, now: int)
    requires Inv(s, h, clock) && EventId(decision, supplied) !in s.receipts
    requires ReviewStep(s, policy, id, decision, reviewedBy, reason, expected, Some(supplied), now).Refused?
    ensures match ReviewStep(s, policy, id, decision, reviewedBy, reason, expected, Some(supplied), now).why
      case ValidationError =>
        !(decision == Approve || decision == Reject) || reviewedBy == "" || reason == "" || expected.NoRevision?
        || now <= 0
      case NotFound => id !in s.proposals
      case StaleRevision => id in s.proposals && s.proposals[id].revision != expected
      case WindowExpired =>
        id in s.proposals
        && (now >= s.proposals[id].origin.proposalExpiresAt
            || (decision == Approve && s.proposals[id].origin.linkExpiresAt.Some?
                && now >= s.proposals[id].origin.linkExpiresAt.value))
      case InvalidTransition =>
        id in s.proposals && (s.proposals[id].state != Pending
                              || (policy.requireDistinctReviewer && reviewedBy == s.proposals[id].origin.proposedBy))
      case Conflict => decision == Approve && ApprovedElsewhere(s, id)
      case _ => false
  {
    if id in s.proposals {
      StoredProposal(s, h, clock, id);
      var fp := Fingerprint(decision, ReviewRequest(id, reviewedBy, reason, expected));
      if s.proposals[id].state == Pending {
        MaterializesIffFree(s, h, clock, id, Move(Approve, supplied, fp, reviewedBy, reason, None, now));
      }
    }
    hide Inv, ProposalBound, Materialize, ApprovedElsewhere, ProposalShape;
  }

  /** Every refusal of a fresh deactivation says what was wrong. */
  lemma DeactivationRefusals(s: Store, h: History, clock: int, action: Action, l: LinkId, actor: Actor,
                             reason: string, expected: Revision, supplied: RequestId, confirm: bool, now: int)
    requires Inv(s, h, clock) && EventId(action, supplied) !in s.receipts
    requires DeactivateStep(s, action, l, actor, reason, expected, Some(supplied), confirm, now).Refused?
    ensures match DeactivateStep(s, action, l, actor, reason, expected, Some(supplied), confirm, now).why
      case ValidationError =>
        !(action == Disable || action == Revoke) || !confirm || actor == "" || reason == "" || expected.NoRevision?
        || now <= 0
      case NotFound => l !in s.links
      case StaleRevision =>
        l in s.links && s.links[l].proposalId in s.proposals && s.proposals[s.links[l].proposalId].revision != expected
      case InvalidTransition =>
        l in s.links && s.links[l].proposalId in s.proposals
        && var state := s.proposals[s.links[l].proposalId].state;
          state != Approved && (action == Disable || state != Disabled)
      case _ => false
  {
    hide Inv, ProposalBound, CheckLink, ReplayEvent;
    var fp := Fingerprint(action, DeactivateRequest(l, actor, reason, expected));
    ReplayKind(s, action, supplied, fp, now);
    if l in s.links {
      OwnerIsSound(s, h, clock, l);
    }
  }

  /** A fresh proposal is refused for its form alone. */
  lemma ProposalRefusals(s: Store, ask: LinkAsk, proposedBy: Actor, reason: string, redactions: int,
                         proposalExpiry: Option<int>, linkExpiry: Option<int>, supplied: RequestId, now: int)
    requires IdsUsed(s) && EventId(Propose, supplied) !in s.receipts
    ensures
      var o := ProposeStep(s, ask, proposedBy, reason, redactions, proposalExpiry, linkExpiry, Some(supplied), now);
      o.Refused? ==> o.why == ValidationError
  {
    hide NormalizedTerms, BoundedExpiry;
  }

  /** A fresh compatibility approval is refused by the policy, for its form, or because a proposal for
      the link is approved. */
  lemma CompatRefusals(s: Store, h: History, clock: int, policy: Policy, ask: LinkAsk, approvedBy: Actor,
                       reason: string, redactions: int, linkExpiry: Option<int>, supplied: RequestId, confirm: bool,
                       now: int)
    requires Inv(s, h, clock) && clock <= now && IdsUsed(s)
    requires EventId(Propose, ProposePart(supplied)) !in s.receipts
    requires EventId(Approve, ApprovePart(supplied)) !in s.receipts
    requires
      CompatStep(s, policy, ask, approvedBy, reason, redactions, linkExpiry, Some(supplied), confirm, now).Refused?
    ensures
      match CompatStep(s, policy, ask, approvedBy, reason, redactions, linkExpiry, Some(supplied), confirm, now).why
      case InvalidTransition => !policy.allowCompatibilityApproval || policy.requireDistinctReviewer
      case ValidationError =>
        !confirm || NormalizedTerms(ask).None? || approvedBy == "" || reason == "" || now <= 0
        || !WindowFits(linkExpiry, now, MINUTE, 366 * DAY)
      case Conflict => NormalizedTerms(ask).Some? && LinkApproved(s, NormalizedTerms(ask).value.edge.linkId)
      case _ => false
  {
    hide Inv, Materialize, LinkApproved, NormalizedTerms, CanonicalEdge, ReplayEvent, Transition, NewPending;
    if NormalizedTerms(ask).Some? && now > 0 {
      NormalizedIsStable(ask);
      var request := CompatRequest(NormalizedTerms(ask).value, approvedBy, reason, linkExpiry);
      var fp := Fingerprint(Approve, request);
      ReplayKind(s, Approve, ApprovePart(supplied), fp, now);
      var id := CompatId(supplied, fp);
      assert id !in s.proposals;
      var origin := Origin(id, NormalizedTerms(ask).value, reason, redactions, approvedBy, now, now + 7 * DAY,
                           linkExpiry, supplied, true);
      NewMaterializesIff(s, h, clock, origin, ProposePart(supplied), Fingerprint(Propose, request),
                         Move(Approve, ApprovePart(supplied), fp, approvedBy, reason, None, now));
    }
  }

  // ----- what has ended stays ended -----

  predicate Ended(state: State) {
    state == Rejected || state == Revoked || state == Expired
  }

  lemma {:induction false} SweepKeepsEnded(s: Store, rows: seq<ProposalId>, now: int, limit: nat, id: ProposalId)
    requires id in s.proposals && Ended(s.proposals[id].state)
    ensures var w := SweepRows(s, rows, now, limit);
      w.Swept? ==> id in w.store.proposals && w.store.proposals[id] == s.proposals[id]
    decreases |rows|
  {
    hide ExpireOne;
    if |rows| > 0 && limit > 0 && SweepRows(s, rows, now, limit).Swept? {
      if rows[0] !in s.proposals || !Due(s.proposals[rows[0]], now) {
        SweepKeepsEnded(s, rows[1..], now, limit, id);
      } else {
        ExpiryKeepsOthers(s, rows[0], now, id);
        SweepKeepsEnded(ExpireOne(s, rows[0], now).store, rows[1..], now, limit - 1, id);
      }
    }
  }

  lemma ExpiryKeepsOthers(s: Store, id: ProposalId, now: int, other: ProposalId)
    requires id in s.proposals && ExpireOne(s, id, now).Committed? && other in s.proposals && other != id
    ensures other in ExpireOne(s, id, now).store.proposals
    ensures ExpireOne(s, id, now).store.proposals[other] == s.proposals[other]
  {
    BoundIds(s, id);
    if ExpireOne(s, id, now).answer.idempotentReplay {
      ReplayedExpiry(s, id, now);
    } else {
      BoundExpiry(s, id, now);
      var m := ExpireIsMove(s, id, now);
      hide ExpireOne, ProposalBound;
      AdvanceOthers(s, id, m);
    }
  }

  lemma BoundExpiry(s: Store, id: ProposalId, now: int)
    requires id in s.proposals && ExpireOne(s, id, now).Committed?
    ensures ProposalBound(s, id)
  {
    hide ProposalBound, ReplayEvent;
  }

  lemma AdvanceOthers(s: Store, id: ProposalId, m: Move)
    requires id in s.proposals && s.proposals[id].origin.proposalId == id
    ensures forall other | other in s.proposals && other != id ::
              other in Advance(s, id, m).proposals && Advance(s, id, m).proposals[other] == s.proposals[other]
  {
    assert Next(s.proposals[id], m).origin == s.proposals[id].origin;
  }

  /** No call ever changes a proposal that was rejected, revoked or expired. */
  lemma EndedStays(s: Store, step: Step, id: ProposalId)
    requires id in s.proposals && Ended(s.proposals[id].state)
    ensures id in Perform(s, step).proposals && Perform(s, step).proposals[id] == s.proposals[id]
  {
    hide ProposeStep, ReviewStep, CompatStep, DeactivateStep, SweepRows, Advance, Created;
    if step.call.SweepCall? {
      if 1 <= step.call.limit {
        SweepKeepsEnded(s, step.call.rows, step.now, step.call.limit, id);
      }
    } else if !Writes(s, step) {
      ReplayKeepsStore(s, step);
    } else {
      match step.call {
        case ProposeCall(ask, who, reason, redactions, proposalExpiry, linkExpiry, supplied) =>
          var origin, rid, fp := ProposeIsCreation(s, ask, who, reason, redactions, proposalExpiry, linkExpiry,
                                                   supplied, step.now);
          CreatedKeys(s, origin, rid, fp, step.now);
          CreatedIsPending(s, origin, rid, fp, step.now);
        case ReviewCall(moved, decision, who, reason, expected, supplied) =>
          var m := ReviewIsMove(s, step.policy, moved, decision, who, reason, expected, supplied, step.now);
          AdvanceOthers(s, moved, m);
        case CompatCall(ask, who, reason, redactions, linkExpiry, supplied, confirm) =>
          var origin, rid, fp, m := CompatIsMove(s, step.policy, ask, who, reason, redactions, linkExpiry, supplied,
                                                 confirm, step.now);
          CreatedKeys(s, origin, rid, fp, step.now);
          CreatedIsPending(s, origin, rid, fp, step.now);
          AdvanceOthers(Created(s, origin, rid, fp, step.now), origin.proposalId, m);
        case DeactivateCall(action, link, actor, reason, expected, supplied, confirm) =>
          var moved, m := DeactivateIsMove(s, action, link, actor, reason, expected, supplied, confirm, step.now);
          AdvanceOthers(s, moved, m);
      }
    }
  }

  /** Over any run: what has ended stays as it ended. */
  lemma {:induction false} EndedForever(s: Store, steps: seq<Step>, id: ProposalId)
    requires id in s.proposals && Ended(s.proposals[id].state)
    ensures id in Run(s, steps).proposals && Run(s, steps).proposals[id] == s.proposals[id]
    decreases |steps|
  {
    hide Perform;
    if |steps| > 0 {
      EndedStays(s, steps[0], id);
      EndedForever(Perform(s, steps[0]), steps[1..], id);
    }
  }

  // ----- what expiry times mean -----

  /** A link may be used exactly while some proposal for it is approved and its window has not ended. */
  lemma AuthorizedIff(s: Store, l: LinkId, now: int)
    ensures Authorized(s, l, now) <==>
              exists id | id in s.proposals ::
                && s.proposals[id].origin.terms.edge.linkId == l && s.proposals[id].state == Approved
                && (s.proposals[id].origin.linkExpiresAt.Some? ==> now < s.proposals[id].origin.linkExpiresAt.value)
  {
    forall id | id in s.proposals
      ensures EffectiveState(s.proposals[id], now) == Approved <==>
                s.proposals[id].state == Approved
                && (s.proposals[id].origin.linkExpiresAt.Some? ==> now < s.proposals[id].origin.linkExpiresAt.value)
    {
    }
    hide EffectiveState;
  }
}
