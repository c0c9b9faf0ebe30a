/** When an approval commits, and the run that shows why approvals must wait for a disabled
    proposal that may still expire. */
module GovernanceTakeover {
  import opened GovernanceTypes
  import opened GovernanceSteps
  import opened GovernanceInvariant
  import opened GovernanceRuns
  import opened GovernanceAudit
  import opened GovernanceTheorems
  import opened GovernanceReplay

  /** Some other proposal for the link is approved. */
  ghost predicate ApprovedElsewhere(s: Store, id: ProposalId)
    requires id in s.proposals
  {
    exists other | other in s.proposals && other != id ::
      s.proposals[other].state == Approved
      && s.proposals[other].origin.terms.edge.linkId == s.proposals[id].origin.terms.edge.linkId
  }

  lemma NoTwinRow(s: Store, h: History, clock: int, id: ProposalId, other: LinkId)
    requires Inv(s, h, clock) && id in s.proposals && other in s.durable
    requires other != s.proposals[id].origin.terms.edge.linkId
    ensures var edge := s.proposals[id].origin.terms.edge; var twin := s.durable[other].edge;
      !(twin.source == edge.source && twin.target == edge.target && twin.relation == edge.relation
        && twin.direction == edge.direction)
  {
    LinkKeys(s, h);
    assert Owned(s, other);
    StoredProposal(s, h, clock, id);
    StoredProposal(s, h, clock, s.links[other].proposalId);
    hide Inv, ProposalBound;
  }

  /** In a sound store a row is materialized unless another proposal for the link is approved. */
  lemma MaterializesIffFree(s: Store, h: History, clock: int, id: ProposalId, m: Move)
    requires Inv(s, h, clock) && id in s.proposals && s.proposals[id].state == Pending
    ensures Materialize(s, Next(s.proposals[id], m), m.actor, m.at).Materialized? <==> !ApprovedElsewhere(s, id)
    ensures ApprovedElsewhere(s, id) ==>
              Materialize(s, Next(s.proposals[id], m), m.actor, m.at) == NotMaterialized(Conflict)
  {
    var p := s.proposals[id];
    var l := p.origin.terms.edge.linkId;
    StoredProposal(s, h, clock, id);
    RowEdge(s, h, clock, id);
    ApprovedOwners(s, h);
    OwnersOfLinks(s, h);
    LinkKeys(s, h);
    forall other | other in s.durable && other != l
      ensures !(s.durable[other].edge.source == p.origin.terms.edge.source
                && s.durable[other].edge.target == p.origin.terms.edge.target
                && s.durable[other].edge.relation == p.origin.terms.edge.relation
                && s.durable[other].edge.direction == p.origin.terms.edge.direction)
    {
      NoTwinRow(s, h, clock, id, other);
    }
    if l in s.links {
      assert Owned(s, l);
    }
    hide Inv, ProposalBound, BoundEvidence;
  }

  /** A well-formed, fresh approval of the current version commits exactly when the proposal is
      pending, both windows are open, the policy admits the reviewing actor, and no other proposal
      for the link is approved. */
  lemma ApprovalCommitsIff(s: Store, h: History, clock: int, policy: Policy, id: ProposalId, reviewedBy: Actor,
                           reason: string, supplied: RequestId, now: int)
    requires Inv(s, h, clock) && id in s.proposals && EventId(Approve, supplied) !in s.receipts
    requires reviewedBy != "" && reason != "" && now > 0
    ensures var p := s.proposals[id];
      ReviewStep(s, policy, id, Approve, reviewedBy, reason, p.revision, Some(supplied), now).Committed? <==>
        && p.state == Pending
        && now < p.origin.proposalExpiresAt
        && (p.origin.linkExpiresAt.Some? ==> now < p.origin.linkExpiresAt.value)
        && (policy.requireDistinctReviewer ==> reviewedBy != p.origin.proposedBy)
        && !ApprovedElsewhere(s, id)
  {
    var p := s.proposals[id];
    StoredProposal(s, h, clock, id);
    var fp := Fingerprint(Approve, ReviewRequest(id, reviewedBy, reason, p.revision));
    if p.state == Pending {
      MaterializesIffFree(s, h, clock, id, Move(Approve, supplied, fp, reviewedBy, reason, None, now));
    }
    hide Inv, ProposalBound, Materialize, ApprovedElsewhere;
  }

  // ----- a run that strands a link -----

  const ASK := LinkAsk("a", "b", "relates", Directed, 500_000, map[], 0)
  const TERMS := Terms(Edge(LinkId("a", "b", "relates", Directed), "a", "b", "relates", Directed), 500_000, map[], 0)
  const OPEN_POLICY := Policy(false, false)

  /** The call that proposes the link under a request id. */
  function Proposing(rid: string, ends: Option<int>): Call {
    ProposeCall(ASK, "ann", "why", 0, None, ends, Some(Text(rid)))
  }

  function IdOf(rid: string, ends: Option<int>): ProposalId {
    ReviewedId(Text(rid), Fingerprint(Propose, ProposeRequest(TERMS, "ann", "why", None, ends)))
  }

  const OLD := IdOf("old", Some(2_000))
  const YOUNG := IdOf("young", None)

  function RevisionIn(s: Store, id: ProposalId): Revision {
    if id in s.proposals then s.proposals[id].revision else NoRevision
  }

  /** Propose and approve a link that expires at 2000, disable it, propose the link again without
      an end, approve that, then sweep at 2000: step by step, with the revisions a caller reads. */
  function Stranding(k: nat): (steps: seq<Step>)
    requires k <= 6
    ensures |steps| == k
  {
    if k == 0 then []
    else
      var before := Stranding(k - 1);
      var s := Run(EMPTY_STORE, before);
      before + [
        if k == 1 then Step(Proposing("old", Some(2_000)), OPEN_POLICY, 1_000)
        else if k == 2 then
          Step(ReviewCall(OLD, Approve, "bob", "ok", RevisionIn(s, OLD), Some(Text("r2"))), OPEN_POLICY, 1_001)
        else if k == 3 then
          Step(DeactivateCall(Disable, TERMS.edge.linkId, "bob", "off", RevisionIn(s, OLD), Some(Text("r3")), true),
               OPEN_POLICY, 1_002)
        else if k == 4 then Step(Proposing("young", None), OPEN_POLICY, 1_003)
        else if k == 5 then
          Step(ReviewCall(YOUNG, Approve, "bob", "ok", RevisionIn(s, YOUNG), Some(Text("r5"))), OPEN_POLICY, 1_004)
        else Step(SweepCall([OLD, YOUNG], 500), OPEN_POLICY, 2_000)]
  }

  lemma {:induction false} RunAppends(s: Store, steps: seq<Step>, last: Step)
    ensures Run(s, steps + [last]) == Perform(Run(s, steps), last)
    decreases |steps|
  {
    if |steps| == 0 {
      assert steps + [last] == [last];
      assert Run(Perform(s, last), []) == Perform(s, last);
    } else {
      assert (steps + [last])[0] == steps[0] && (steps + [last])[1..] == steps[1..] + [last];
      RunAppends(Perform(s, steps[0]), steps[1..], last);
    }
  }

  /** What the tables hold after each call, as far as the next call looks. */
  ghost predicate Phase(s: Store, h: History, clock: int, k: nat) {
    && Inv(s, h, clock) && clock <= 1_000 + k
    && (k >= 1 ==> OLD in s.proposals && s.proposals[OLD].origin.terms == TERMS
                   && s.proposals[OLD].origin.linkExpiresAt == Some(2_000)
                   && s.proposals[OLD].state == (if k == 1 then Pending else if k == 2 then Approved else Disabled)
                   && s.proposals[OLD].origin.proposalExpiresAt > 2_000)
    && (k < 4 ==> YOUNG !in s.proposals && forall id | id in s.proposals :: id == OLD && k >= 1)
    && (k >= 4 ==> YOUNG in s.proposals && s.proposals[YOUNG].origin.terms == TERMS
                   && s.proposals[YOUNG].origin.linkExpiresAt == None
                   && s.proposals[YOUNG].state == (if k == 4 then Pending else Approved)
                   && s.proposals[YOUNG].origin.proposalExpiresAt > 2_000)
    && (forall id | id in s.proposals :: id == OLD || id == YOUNG)
    && (forall ev | ev in s.receipts :: Used(ev, k))
  }

  predicate Used(ev: EventId, k: nat) {
    || (k >= 1 && ev == EventId(Propose, Text("old")))
    || (k >= 2 && ev == EventId(Approve, Text("r2")))
    || (k >= 3 && ev == EventId(Disable, Text("r3")))
    || (k >= 4 && ev == EventId(Propose, Text("young")))
    || (k >= 5 && ev == EventId(Approve, Text("r5")))
  }

  lemma TermsOfAsk()
    ensures NormalizedTerms(ASK) == Some(TERMS)
  {
  }

  lemma ProposalCommits(s: Store, rid: string, ends: Option<int>, now: int)
    requires EventId(Propose, Text(rid)) !in s.receipts && IdOf(rid, ends) !in s.proposals
    requires (now == 1_000 && ends == Some(2_000)) || (now == 1_003 && ends == None)
    ensures var o := Attempt(s, Step(Proposing(rid, ends), OPEN_POLICY, now)); var id := IdOf(rid, ends);
      && o.Committed?
      && id in o.store.proposals && o.store.proposals == s.proposals[id := o.store.proposals[id]]
      && var p := o.store.proposals[id];
        && p.state == Pending && p.origin.terms == TERMS && p.origin.linkExpiresAt == ends
        && p.origin.proposalExpiresAt > 2_000
        && forall ev | ev in o.store.receipts :: ev in s.receipts || ev == EventId(Propose, Text(rid))
  {
    TermsOfAsk();
    hide NormalizedTerms;
  }

  lemma Moved(s: Store, id: ProposalId, m: Move)
    requires id in s.proposals && s.proposals[id].origin.proposalId == id
    ensures var s' := Advance(s, id, m);
      && id in s'.proposals && s'.proposals == s.proposals[id := s'.proposals[id]]
      && s'.proposals[id].state == AfterState(m.action) && s'.proposals[id].origin == s.proposals[id].origin
      && (forall ev | ev in s'.receipts :: ev in s.receipts || ev == m.Event())
  {
  }

  lemma ReviewCommits(s: Store, h: History, clock: int, id: ProposalId, rid: RequestId, now: int)
    requires Inv(s, h, clock) && clock <= now && now > 0
    requires id in s.proposals && s.proposals[id].state == Pending && EventId(Approve, rid) !in s.receipts
    requires now < s.proposals[id].origin.proposalExpiresAt && !ApprovedElsewhere(s, id)
    requires s.proposals[id].origin.linkExpiresAt.Some? ==> now < s.proposals[id].origin.linkExpiresAt.value
    ensures var o := ReviewStep(s, OPEN_POLICY, id, Approve, "bob", "ok", RevisionIn(s, id), Some(rid), now);
      && o.Committed?
      && id in o.store.proposals && o.store.proposals == s.proposals[id := o.store.proposals[id]]
      && o.store.proposals[id].state == Approved && o.store.proposals[id].origin == s.proposals[id].origin
      && (forall ev | ev in o.store.receipts :: ev in s.receipts || ev == EventId(Approve, rid))
  {
    ApprovalCommitsIff(s, h, clock, OPEN_POLICY, id, "bob", "ok", rid, now);
    StoredProposal(s, h, clock, id);
    hide Inv, ProposalBound;
    FreshReview(s, id, rid, now);
    var m := ReviewIsMove(s, OPEN_POLICY, id, Approve, "bob", "ok", RevisionIn(s, id), Some(rid), now);
    Moved(s, id, m);
  }

  lemma FreshReview(s: Store, id: ProposalId, rid: RequestId, now: int)
    requires EventId(Approve, rid) !in s.receipts
    ensures var o := ReviewStep(s, OPEN_POLICY, id, Approve, "bob", "ok", RevisionIn(s, id), Some(rid), now);
      o.Committed? ==> !o.answer.idempotentReplay
  {
    hide ProposalBound, Materialize;
  }

  lemma DisableCommits(s: Store, h: History, clock: int, id: ProposalId, rid: RequestId, now: int)
    requires Inv(s, h, clock) && clock <= now && now > 0
    requires id in s.proposals && s.proposals[id].state == Approved && EventId(Disable, rid) !in s.receipts
    ensures var l := s.proposals[id].origin.terms.edge.linkId;
      var o := DeactivateStep(s, Disable, l, "bob", "off", RevisionIn(s, id), Some(rid), true, now);
      && o.Committed?
      && id in o.store.proposals && o.store.proposals == s.proposals[id := o.store.proposals[id]]
      && o.store.proposals[id].state == Disabled && o.store.proposals[id].origin == s.proposals[id].origin
      && (forall ev | ev in o.store.receipts :: ev in s.receipts || ev == EventId(Disable, rid))
  {
    ApprovedOwners(s, h);
    LinkCheckIffNotTaken(s, h, clock, id);
    StoredProposal(s, h, clock, id);
    hide Inv, ProposalBound, CheckLink;
    var l := s.proposals[id].origin.terms.edge.linkId;
    var owner, m := DeactivateIsMove(s, Disable, l, "bob", "off", RevisionIn(s, id), Some(rid), true, now);
    Moved(s, id, m);
  }

  /** The first five calls all commit. */
  lemma {:induction false} StrandingReaches(k: nat) returns (h: History)
    requires k <= 5
    ensures Phase(Run(EMPTY_STORE, Stranding(k)), h, 1_000 + k, k)
  {
    if k == 0 {
      h := EMPTY_HISTORY;
      EmptyStoreInv(1_000);
    } else {
      var h0 := StrandingReaches(k - 1);
      var s := Run(EMPTY_STORE, Stranding(k - 1));
      var last := Stranding(k)[k - 1];
      assert Stranding(k) == Stranding(k - 1) + [last];
      RunAppends(EMPTY_STORE, Stranding(k - 1), last);
      hide Run, Stranding;
      h := PhaseStep(s, h0, k, last);
    }
  }

  /** The `k`-th call of the stranding run, given what the tables hold before it. */
  predicate IsStranding(s: Store, k: nat, step: Step) {
    && step.policy == OPEN_POLICY
    && (k == 1 ==> step.call == Proposing("old", Some(2_000)) && step.now == 1_000)
    && (k == 2 ==> step.call == ReviewCall(OLD, Approve, "bob", "ok", RevisionIn(s, OLD), Some(Text("r2")))
                   && step.now == 1_001)
    && (k == 3 ==> step.call == DeactivateCall(Disable, TERMS.edge.linkId, "bob", "off", RevisionIn(s, OLD),
                                               Some(Text("r3")), true) && step.now == 1_002)
    && (k == 4 ==> step.call == Proposing("young", None) && step.now == 1_003)
    && (k == 5 ==> step.call == ReviewCall(YOUNG, Approve, "bob", "ok", RevisionIn(s, YOUNG), Some(Text("r5")))
                   && step.now == 1_004)
  }

  lemma PhaseStep(s: Store, h: History, k: nat, step: Step) returns (h': History)
    requires 1 <= k <= 5 && Phase(s, h, 1_000 + k - 1, k - 1) && IsStranding(s, k, step)
    ensures Phase(Perform(s, step), h', 1_000 + k, k)
  {
    hide Inv, ProposeStep, ReviewStep, DeactivateStep, CompatStep, ExpirySafe, ApprovalClear;
    var clock := 1_000 + k - 1;
    if k == 1 || k == 4 {
      var rid, ends := if k == 1 then "old" else "young", if k == 1 then Some(2_000) else None;
      ProposalCommits(s, rid, ends, step.now);
      h' := ProposeKeeps(s, h, clock, ASK, "ann", "why", 0, None, ends, Some(Text(rid)), step.now);
    } else if k == 3 {
      DisableCommits(s, h, clock, OLD, Text("r3"), step.now);
      h' := DeactivateKeeps(s, h, clock, Disable, TERMS.edge.linkId, "bob", "off", RevisionIn(s, OLD), Some(Text("r3")),
                            true, step.now);
    } else {
      var id, rid := if k == 2 then OLD else YOUNG, if k == 2 then Text("r2") else Text("r5");
      ReviewCommits(s, h, clock, id, rid, step.now);
      h' := ReviewKeeps(s, h, clock, OPEN_POLICY, id, Approve, "bob", "ok", RevisionIn(s, id), Some(rid), step.now);
    }
    ClockMayAdvance(Perform(s, step), h', step.now, 1_000 + k);
  }

  lemma StrandingClock()
    ensures ClockNeverBack(Stranding(6))
  {
    hide Run;
    var s1, s2, s3, s4, s5 := Stranding(1), Stranding(2), Stranding(3), Stranding(4), Stranding(5);
    assert s2[..1] == s1 && s3[..2] == s2 && s4[..3] == s3 && s5[..4] == s4 && Stranding(6)[..5] == s5;
    assert s1[0].now == 1_000 && s2[1].now == 1_001 && s3[2].now == 1_002 && s4[3].now == 1_003;
    assert s5[4].now == 1_004 && Stranding(6)[5].now == 2_000;
  }

  /** The approval rule is needed: a run whose clock never goes back, but in which a link is
      approved anew while a disabled proposal for it may still expire, ends with a proposal that
      is approved although the expired one owns its link, and no audit of that store passes. */
  lemma StrandedLink(order: seq<EventId>)
    ensures ClockNeverBack(Stranding(6))
    ensures var s := Run(EMPTY_STORE, Stranding(6));
      && YOUNG in s.proposals && s.proposals[YOUNG].state == Approved
      && TERMS.edge.linkId in s.links && s.links[TERMS.edge.linkId].proposalId == OLD
      && s.links[TERMS.edge.linkId].state == Expired
      && (Listing(s, order) ==> !AuditClean(s, order))
  {
    StrandingClock();
    hide ClockNeverBack, AuditClean, Listing, Phase, Perform;
    var h := StrandingReaches(5);
    var s := Run(EMPTY_STORE, Stranding(5));
    var last := Stranding(6)[5];
    assert Stranding(6) == Stranding(5) + [last];
    RunAppends(EMPTY_STORE, Stranding(5), last);
    hide Run, Stranding, AuditClean, Listing, Phase;
    LastSweep(s, h, order);
  }

  lemma LastSweep(s: Store, h: History, order: seq<EventId>)
    requires Phase(s, h, 1_005, 5)
    ensures var s' := Perform(s, Step(SweepCall([OLD, YOUNG], 500), OPEN_POLICY, 2_000));
      && YOUNG in s'.proposals && s'.proposals[YOUNG].state == Approved
      && TERMS.edge.linkId in s'.links && s'.links[TERMS.edge.linkId].proposalId == OLD
      && s'.links[TERMS.edge.linkId].state == Expired
      && (Listing(s', order) ==> !AuditClean(s', order))
  {
    StoredProposal(s, h, 1_005, OLD);
    ExpireAnyCommits(s, h, 1_005, OLD, 2_000);
    ApprovedOwners(s, h);
    var m := ExpireIsMove(s, OLD, 2_000);
    AdvancedRows(s, OLD, m);
    var s' := ExpireOne(s, OLD, 2_000).store;
    assert SweepRows(s', [YOUNG], 2_000, 499) == SweepRows(s', [], 2_000, 499);
    assert SweepRows(s, [OLD, YOUNG], 2_000, 500).store == s';
    hide Inv, ExpireOne, AuditClean, Listing;
    assert !Yields(s, OLD);
    if Listing(s', order) && AuditClean(s', order) {
      CleanTakeoverYields(s, h, 1_005, OLD, 2_000, order);
      assert false;
    }
  }
}
