/** Requests that are issued again, and receipts that stay. */
module GovernanceReplay {
  import opened GovernanceTypes
  import opened GovernanceSteps
  import opened GovernanceInvariant
  import opened GovernanceRuns
  import opened GovernanceAudit
  import opened GovernanceTheorems

  /** The receipt that a call looks for, and the content that receipt must carry. */
  datatype CallKey = CallKey(event: EventId, fingerprint: Fingerprint)

  function KeyOf(call: Call): Option<CallKey> {
    match call
    case ProposeCall(ask, who, reason, _, proposalExpiry, linkExpiry, supplied) =>
      var terms := NormalizedTerms(ask);
      if terms.None? then None
      else
        var fp := Fingerprint(Propose, ProposeRequest(terms.value, who, reason, proposalExpiry, linkExpiry));
        Some(CallKey(EventId(Propose, RequestIdFor(supplied, false, fp)), fp))
    case ReviewCall(id, decision, who, reason, expected, supplied) =>
      var fp := Fingerprint(decision, ReviewRequest(id, who, reason, expected));
      Some(CallKey(EventId(decision, RequestIdFor(supplied, false, fp)), fp))
    case CompatCall(ask, who, reason, _, linkExpiry, supplied, _) =>
      var terms := NormalizedTerms(ask);
      if terms.None? then None
      else
        var fp := Fingerprint(Approve, CompatRequest(terms.value, who, reason, linkExpiry));
        Some(CallKey(EventId(Approve, ApprovePart(RequestIdFor(supplied, true, fp))), fp))
    case DeactivateCall(action, link, actor, reason, expected, supplied, _) =>
      var fp := Fingerprint(action, DeactivateRequest(link, actor, reason, expected));
      Some(CallKey(EventId(action, RequestIdFor(supplied, false, fp)), fp))
    case SweepCall(_, _) => None
  }

  // ----- receipts are append-only -----

  ghost predicate AppendOnly(s: Store, s': Store) {
    forall ev | ev in s.receipts :: ev in s'.receipts && s'.receipts[ev] == s.receipts[ev]
  }

  lemma AdvanceAppends(s: Store, id: ProposalId, m: Move)
    requires id in s.proposals && m.Event() !in s.receipts
    ensures AppendOnly(s, Advance(s, id, m))
  {
  }

  lemma {:induction false} SweepAppends(s: Store, rows: seq<ProposalId>, now: int, limit: nat)
    ensures var w := SweepRows(s, rows, now, limit); w.Swept? ==> AppendOnly(s, w.store)
    decreases |rows|
  {
    hide ExpireOne;
    if |rows| > 0 && limit > 0 && SweepRows(s, rows, now, limit).Swept? {
      if rows[0] !in s.proposals || !Due(s.proposals[rows[0]], now) {
        SweepAppends(s, rows[1..], now, limit);
      } else {
        var o := ExpireOne(s, rows[0], now);
        SweepAppends(o.store, rows[1..], now, limit - 1);
        if !o.answer.idempotentReplay {
          var m := ExpireIsMove(s, rows[0], now);
          AdvanceAppends(s, rows[0], m);
        } else {
          ReplayedExpiry(s, rows[0], now);
        }
      }
    }
  }

  lemma ReplayedExpiry(s: Store, id: ProposalId, now: int)
    requires id in s.proposals && ExpireOne(s, id, now).Committed? && ExpireOne(s, id, now).answer.idempotentReplay
    ensures ExpireOne(s, id, now).store == s
  {
    hide ProposalBound;
  }

  /** No call ever removes or rewrites a receipt, whatever the store and the clock. */
  lemma ReceiptsOnlyGrow(s: Store, step: Step)
    ensures AppendOnly(s, Perform(s, step))
  {
    hide ProposeStep, ReviewStep, CompatStep, DeactivateStep, SweepRows, Advance, Created;
    match step.call {
      case ProposeCall(ask, who, reason, redactions, proposalExpiry, linkExpiry, supplied) =>
        var o := ProposeStep(s, ask, who, reason, redactions, proposalExpiry, linkExpiry, supplied, step.now);
        if o.Committed? && !o.answer.idempotentReplay {
          var origin, rid, fp := ProposeIsCreation(s, ask, who, reason, redactions, proposalExpiry, linkExpiry,
                                                   supplied, step.now);
          CreatedAppends(s, origin, rid, fp, step.now);
        } else {
          ReplayKeepsStore(s, step);
        }
      case ReviewCall(id, decision, who, reason, expected, supplied) =>
        var o := ReviewStep(s, step.policy, id, decision, who, reason, expected, supplied, step.now);
        if o.Committed? && !o.answer.idempotentReplay {
          var m := ReviewIsMove(s, step.policy, id, decision, who, reason, expected, supplied, step.now);
          AdvanceAppends(s, id, m);
        } else {
          ReplayKeepsStore(s, step);
        }
      case CompatCall(ask, who, reason, redactions, linkExpiry, supplied, confirm) =>
        var o := CompatStep(s, step.policy, ask, who, reason, redactions, linkExpiry, supplied, confirm, step.now);
        if o.Committed? && !o.answer.idempotentReplay {
          var origin, rid, fp, m := CompatIsMove(s, step.policy, ask, who, reason, redactions, linkExpiry, supplied,
                                                 confirm, step.now);
          CompatAppends(s, origin, rid, fp, m);
        } else {
          ReplayKeepsStore(s, step);
        }
      case DeactivateCall(action, link, actor, reason, expected, supplied, confirm) =>
        var o := DeactivateStep(s, action, link, actor, reason, expected, supplied, confirm, step.now);
        if o.Committed? && !o.answer.idempotentReplay {
          var id, m := DeactivateIsMove(s, action, link, actor, reason, expected, supplied, confirm, step.now);
          AdvanceAppends(s, id, m);
        } else {
          ReplayKeepsStore(s, step);
        }
      case SweepCall(rows, limit) =>
        if 1 <= limit {
          SweepAppends(s, rows, step.now, limit);
        }
    }
  }

  lemma CreatedAppends(s: Store, origin: Origin, rid: RequestId, fp: Fingerprint, now: int)
    requires EventId(Propose, rid) !in s.receipts
    ensures AppendOnly(s, Created(s, origin, rid, fp, now))
  {
  }

  lemma CompatAppends(s: Store, origin: Origin, rid: RequestId, fp: Fingerprint, m: Move)
    requires EventId(Propose, rid) !in s.receipts && m.Event() !in s.receipts && m.action == Approve
    ensures AppendOnly(s, Advance(Created(s, origin, rid, fp, m.at), origin.proposalId, m))
  {
    CreatedAppends(s, origin, rid, fp, m.at);
    AdvanceAppends(Created(s, origin, rid, fp, m.at), origin.proposalId, m);
    hide Advance;
  }

  /** Any outcome but a fresh commit leaves the store alone. */
  lemma ReplayKeepsStore(s: Store, step: Step)
    requires !step.call.SweepCall?
    requires Attempt(s, step).Committed? ==> Attempt(s, step).answer.idempotentReplay
    ensures Perform(s, step) == s
  {
    hide ReplayEvent, Materialize, ProposalBound, CheckLink, NormalizedTerms;
  }

  lemma {:induction false} RunOnlyGrows(s: Store, steps: seq<Step>)
    ensures AppendOnly(s, Run(s, steps))
    decreases |steps|
  {
    hide Perform;
    if |steps| > 0 {
      ReceiptsOnlyGrow(s, steps[0]);
      RunOnlyGrows(Perform(s, steps[0]), steps[1..]);
    }
  }

  // ----- issuing a committed request again -----

  /** A call that committed has a receipt with exactly its content. */
  lemma CommitLeavesReceipt(s: Store, step: Step)
    requires !step.call.SweepCall? && Attempt(s, step).Committed?
    ensures KeyOf(step.call).Some?
    ensures var k := KeyOf(step.call).value; var s' := Perform(s, step);
      k.event in s'.receipts && s'.receipts[k.event].payload.fingerprint == k.fingerprint
  {
    hide Materialize, ProposalBound, CheckLink, NormalizedTerms, EnvelopeMatches, BoundedExpiry;
  }

  /** A call whose receipt exists writes nothing, and is refused unless the content is the same. */
  lemma KnownReceiptWritesNothing(s: Store, step: Step)
    requires !step.call.SweepCall? && KeyOf(step.call).Some? && KeyOf(step.call).value.event in s.receipts
    ensures Perform(s, step) == s
    ensures s.receipts[KeyOf(step.call).value.event].payload.fingerprint != KeyOf(step.call).value.fingerprint ==>
              Attempt(s, step).Refused?
  {
    hide Materialize, ProposalBound, CheckLink, NormalizedTerms, EnvelopeMatches, BoundedExpiry, Transition;
    hide Recorded, ReceiptOf, FreshAnswer, EffectiveState, NewPending;
  }

  /** Issued again after any later calls, by any policy and at any time, a committed request
      writes nothing. */
  lemma ReissueNeverWrites(s: Store, step: Step, later: seq<Step>, again: Step)
    requires !step.call.SweepCall? && Attempt(s, step).Committed? && again.call == step.call
    ensures var s' := Run(Perform(s, step), later); Perform(s', again) == s'
  {
    hide Attempt, Perform;
    CommitLeavesReceipt(s, step);
    RunOnlyGrows(Perform(s, step), later);
    KnownReceiptWritesNothing(Run(Perform(s, step), later), again);
  }

  /** The same request id with other content is always refused. */
  lemma OtherContentIsRefused(s: Store, step: Step, later: seq<Step>, other: Step)
    requires !step.call.SweepCall? && Attempt(s, step).Committed?
    requires !other.call.SweepCall? && KeyOf(other.call).Some? && KeyOf(step.call).Some?
    requires KeyOf(other.call).value.event == KeyOf(step.call).value.event
    requires KeyOf(other.call).value.fingerprint != KeyOf(step.call).value.fingerprint
    ensures var s' := Run(Perform(s, step), later);
      Attempt(s', other).Refused? && Perform(s', other) == s'
  {
    hide Attempt, Perform, KeyOf;
    CommitLeavesReceipt(s, step);
    RunOnlyGrows(Perform(s, step), later);
    KnownReceiptWritesNothing(Run(Perform(s, step), later), other);
  }

  /** Two proposal requests with the same id have the same content exactly when their cleaned
      terms, proposer, reason and both expiries agree. */
  lemma SameContentIffSameRequest(a: Call, b: Call)
    requires a.ProposeCall? && b.ProposeCall? && a.supplied == b.supplied && a.supplied.Some?
    requires NormalizedTerms(a.ask).Some? && NormalizedTerms(b.ask).Some?
    ensures KeyOf(a).Some? && KeyOf(b).Some? && KeyOf(a).value.event == KeyOf(b).value.event
    ensures KeyOf(a) == KeyOf(b) <==>
              (NormalizedTerms(a.ask) == NormalizedTerms(b.ask) && a.proposedBy == b.proposedBy
               && a.reason == b.reason && a.proposalExpiry == b.proposalExpiry && a.linkExpiry == b.linkExpiry)
  {
    hide NormalizedTerms;
  }

  // ----- what a replay answers -----

  /** No other proposal owns the link of proposal `id`. */
  predicate LinkNotTaken(s: Store, id: ProposalId)
    requires id in s.proposals
  {
    var l := s.proposals[id].origin.terms.edge.linkId;
    l in s.links ==> s.links[l].proposalId == id
  }

  /** The link check of a stored proposal succeeds unless another proposal owns the link. */
  lemma LinkCheckIffNotTaken(s: Store, h: History, clock: int, id: ProposalId)
    requires Inv(s, h, clock) && id in s.proposals
    ensures var p := s.proposals[id]; var l := p.origin.terms.edge.linkId;
      && (l !in s.links ==> CheckLink(s, p).NoLink? && p.state != Approved && p.state != Disabled)
      && (l in s.links && s.links[l].proposalId == id ==> l in s.durable && CheckLink(s, p) == GoodLink(s.durable[l]))
      && (l in s.links && s.links[l].proposalId != id ==> CheckLink(s, p).BadLink?)
  {
    StoredProposal(s, h, clock, id);
    LinkKeys(s, h);
    var p := s.proposals[id];
    var l := p.origin.terms.edge.linkId;
    if p.state == Approved || p.state == Disabled {
      WasMaterialized(s, h, clock, id);
    }
    if l in s.links && s.links[l].proposalId == id {
      assert Owned(s, l);
      hide Inv, ProposalBound;
    } else {
      hide Inv, ProposalBound;
    }
  }

  /** A known receipt with the right content is replayed with the current proposal, unless
      another proposal has taken over the link. */
  lemma ReplayAnswers(s: Store, h: History, clock: int, action: Action, rid: RequestId, fp: Fingerprint, now: int)
    requires Inv(s, h, clock) && EventId(action, rid) in s.receipts
    requires s.receipts[EventId(action, rid)].payload.fingerprint == fp
    ensures s.receipts[EventId(action, rid)].payload.proposalId in s.proposals
    ensures var id := s.receipts[EventId(action, rid)].payload.proposalId;
      var reply := ReplayEvent(s, action, rid, fp, now);
      if LinkNotTaken(s, id) then
        && reply.Replayed?
        && reply.answer.action == action
        && reply.answer.proposal == s.proposals[id]
        && reply.answer.state == EffectiveState(s.proposals[id], now)
        && reply.answer.idempotentReplay
        && reply.answer.historicalState == Some(AfterState(action))
        && (reply.answer.authorizationActive <==> EffectiveState(s.proposals[id], now) == Approved)
        && (reply.answer.materializationPending <==> EffectiveState(s.proposals[id], now) != s.proposals[id].state)
        && var l := s.proposals[id].origin.terms.edge.linkId;
          && (reply.answer.link.Some? <==> l in s.links)
          && (l in s.links ==> l in s.durable)
          && (l in s.links ==>
                reply.answer.link.value == s.durable[l].(enabled := EffectiveState(s.proposals[id], now) == Approved))
      else reply == ReplayRefused(IntegrityError)
  {
    var ev := EventId(action, rid);
    assert ReceiptShape(ev, s.receipts[ev]);
    assert InChain(s.receipts[ev], ev, h);
    var id := s.receipts[ev].payload.proposalId;
    StoredProposal(s, h, clock, id);
    LinkCheckIffNotTaken(s, h, clock, id);
    LinkIsEnabled(s, h, clock, id);
    hide Inv, ProposalBound, CheckLink, EnvelopeMatches;
  }

  lemma LinkIsEnabled(s: Store, h: History, clock: int, id: ProposalId)
    requires Inv(s, h, clock) && id in s.proposals
    ensures var l := s.proposals[id].origin.terms.edge.linkId;
      l in s.links && s.links[l].proposalId == id ==>
        l in s.durable && s.durable[l].enabled == (s.proposals[id].state == Approved)
  {
    var l := s.proposals[id].origin.terms.edge.linkId;
    if l in s.links && s.links[l].proposalId == id {
      assert Owned(s, l);
    }
  }

  function FromReplay(s: Store, reply: Replay): Outcome {
    match reply
    case ReplayRefused(why) => Refused(why)
    case Replayed(answer) => Committed(s, answer)
    case Fresh => Refused(NotFound)
  }

  /** A call that was accepted once is answered by the replay alone once its receipt exists. */
  lemma AcceptedCallReplays(s0: Store, step: Step, s: Store, again: Step)
    requires !step.call.SweepCall? && Attempt(s0, step).Committed?
    requires again.call == step.call && again.policy == step.policy && again.now > 0
    requires KeyOf(step.call).Some? && KeyOf(step.call).value.event in s.receipts
    ensures var k := KeyOf(step.call).value;
      Attempt(s, again) ==
        FromReplay(s, ReplayEvent(s, k.event.action, k.event.requestId, k.fingerprint, again.now))
  {
    hide Materialize, ProposalBound, CheckLink, NormalizedTerms, EnvelopeMatches, BoundedExpiry, Transition;
  }

  /** No receipt approves another proposal for the link of proposal `id`. */
  ghost predicate NoOtherApproval(s: Store, id: ProposalId)
    requires id in s.proposals
  {
    forall ev | ev in s.receipts && s.receipts[ev].payload.action == Approve
                && s.receipts[ev].payload.linkId == s.proposals[id].origin.terms.edge.linkId ::
      s.receipts[ev].payload.proposalId == id
  }

  /** A proposal whose version `k` is neither pending nor rejected nor an unreviewed expiry was
      approved by an earlier receipt. */
  lemma {:induction false} ApprovedBefore(s: Store, h: History, clock: int, id: ProposalId, k: nat)
    returns (ev: EventId)
    requires Inv(s, h, clock) && id in s.proposals && id in h.events && k < |h.events[id]|
    requires h.events[id][k] in s.receipts
    requires s.receipts[h.events[id][k]].payload.result.link.Some?
    ensures ev in s.receipts && s.receipts[ev].payload.action == Approve
    ensures s.receipts[ev].payload.proposalId == id
  {
    var chain := h.events[id];
    ev := chain[k];
    assert ReceiptShape(ev, s.receipts[ev]);
    ChainNumbers(s, h, id);
    if s.receipts[ev].payload.action != Approve {
      assert ChainOk(s, id, chain);
      assert k > 0;
      ChainLink(s, id, chain, k - 1);
      assert ReceiptShape(chain[k - 1], s.receipts[chain[k - 1]]);
      ev := ApprovedBefore(s, h, clock, id, k - 1);
    }
  }

  /** A link changes hands only through an approval, so without one it is not taken. */
  lemma UnapprovedIsNotTaken(s: Store, h: History, clock: int, id: ProposalId)
    requires Inv(s, h, clock) && id in s.proposals && NoOtherApproval(s, id)
    ensures LinkNotTaken(s, id)
  {
    var l := s.proposals[id].origin.terms.edge.linkId;
    LinkKeys(s, h);
    if l in s.links {
      assert Owned(s, l);
      var owner := s.links[l].proposalId;
      ChainFacts(s, h, owner);
      StoredProposal(s, h, clock, owner);
      var ev := ApprovedBefore(s, h, clock, owner, |h.events[owner]| - 1);
      assert ReceiptShape(ev, s.receipts[ev]);
      assert InChain(s.receipts[ev], ev, h);
      SnapshotOrigin(s, h, clock, ev);
    }
  }

  /** Every receipt carries the immutable fields of the stored proposal. */
  lemma SnapshotOrigin(s: Store, h: History, clock: int, ev: EventId)
    requires Inv(s, h, clock) && ev in s.receipts
    ensures var e := s.receipts[ev].payload;
      && e.proposalId in s.proposals && e.result.proposal.origin == s.proposals[e.proposalId].origin
      && e.linkId == s.proposals[e.proposalId].origin.terms.edge.linkId
  {
    assert ReceiptShape(ev, s.receipts[ev]);
    assert InChain(s.receipts[ev], ev, h);
    var id := s.receipts[ev].payload.proposalId;
    ChainFacts(s, h, id);
    ChainLinks(s, h, clock, id, s.receipts[ev].payload.sequence - 1);
    ChainLinks(s, h, clock, id, |h.events[id]| - 1);
  }

  /** Issued again in a sound store, a committed request answers with the current proposal and
      its effective state, exactly when no other proposal owns the link; in particular as long
      as no other proposal was approved for it. */
  lemma ReissueAnswersCurrent(s: Store, step: Step, later: seq<Step>, again: Step, h: History, clock: int)
    requires !step.call.SweepCall? && Attempt(s, step).Committed?
    requires again.call == step.call && again.policy == step.policy && again.now > 0
    requires Inv(Run(Perform(s, step), later), h, clock)
    ensures KeyOf(step.call).Some?
    ensures var s' := Run(Perform(s, step), later); var ev := KeyOf(step.call).value.event;
      && ev in s'.receipts
      && var id := s'.receipts[ev].payload.proposalId;
        && id in s'.proposals
        && (NoOtherApproval(s', id) ==> LinkNotTaken(s', id))
        && (if LinkNotTaken(s', id) then
              var o := Attempt(s', again);
              && o.Committed? && o.store == s' && o.answer.proposal == s'.proposals[id]
              && o.answer.state == EffectiveState(s'.proposals[id], again.now) && o.answer.idempotentReplay
            else Attempt(s', again) == Refused(IntegrityError))
  {
    CommitLeavesReceipt(s, step);
    RunOnlyGrows(Perform(s, step), later);
    var s' := Run(Perform(s, step), later);
    var k := KeyOf(step.call).value;
    AcceptedCallReplays(s, step, s', again);
    hide Inv, Attempt, Perform, KeyOf, Run;
    ReplayAnswers(s', h, clock, k.event.action, k.event.requestId, k.fingerprint, again.now);
    var id := s'.receipts[k.event].payload.proposalId;
    if NoOtherApproval(s', id) {
      UnapprovedIsNotTaken(s', h, clock, id);
    }
  }
}
