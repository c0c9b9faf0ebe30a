/** What the integrity audit notices: a change of any single table. */
module GovernanceTamper {
  import opened GovernanceTypes
  import opened GovernanceSteps
  import opened GovernanceInvariant
  import opened GovernanceAudit
  import opened GovernanceTheorems
  import opened Sorting

  /** The audit finds no fault in the tables, read with its ties in this order. */
  ghost predicate Passes(s: Store, order: seq<EventId>) {
    Listing(s, order) && ContentClean(s, order)
  }

  // ----- the receipts of a proposal in a store that the audit passes -----

  /** The receipts of a proposal in order, without a fault. */
  ghost predicate CleanChain(s: Store, id: ProposalId, chain: seq<EventId>) {
    && id in s.proposals && (forall i | 0 <= i < |chain| :: chain[i] in s.receipts)
    && ChainClean(s, s.proposals[id], chain) && ProposalRowClean(id, s.proposals[id])
    && (forall ev :: ev in chain <==> ev in s.receipts && s.receipts[ev].payload.proposalId == id)
  }

  lemma ChainMembers(s: Store, order: seq<EventId>, id: ProposalId)
    requires Listing(s, order)
    ensures forall ev :: ev in Chain(s, order, id) <==> ev in s.receipts && s.receipts[ev].payload.proposalId == id
  {
    EventsOfMembers(s, order, id);
    var events, chain := EventsOf(s, order, id), Chain(s, order, id);
    StableSortSorts(SequenceOf(s), events);
    forall ev
      ensures ev in chain <==> ev in events
    {
      assert ev in multiset(chain) <==> ev in multiset(events);
    }
    hide EventsOf, StableSort;
  }

  lemma AuditedProposal(s: Store, order: seq<EventId>, id: ProposalId)
    requires Passes(s, order) && id in s.proposals
    ensures forall i | 0 <= i < |order| :: order[i] in s.receipts
    ensures ProposalAuditClean(s, order, id) && Listing(s, order)
  {
    hide RowsClean, ProposalAuditClean, LinkAuditClean;
  }

  lemma ChainOf(s: Store, order: seq<EventId>, id: ProposalId)
    returns (chain: seq<EventId>)
    requires Passes(s, order) && id in s.proposals
    ensures CleanChain(s, id, chain)
    ensures forall i | 0 <= i < |order| :: order[i] in s.receipts
    ensures chain == Chain(s, order, id)
  {
    hide Passes, Chain, ChainClean, Listing, MaterializedClean, ApprovedOwnerClean;
    AuditedProposal(s, order, id);
    ChainMembers(s, order, id);
    chain := Chain(s, order, id);
  }

  lemma NumbersWithin(key: EventId -> int, a: seq<EventId>, b: seq<EventId>)
    requires Numbered(key, a) && Numbered(key, b) && forall ev :: ev in a ==> ev in b
    ensures a <= b
  {
    forall k {:trigger a[k]} | 0 <= k < |a|
      ensures k < |b| && b[k] == a[k]
    {
      assert a[k] in b;
      var j :| 0 <= j < |b| && b[j] == a[k];
      assert key(b[j]) == j + 1 && key(a[k]) == k + 1;
    }
    assert |a| > 0 ==> a[|a| - 1] in b;
  }

  lemma NumbersAgree(key: EventId -> int, a: seq<EventId>, b: seq<EventId>)
    requires Numbered(key, a) && Numbered(key, b) && forall ev :: ev in a <==> ev in b
    ensures a == b
  {
    NumbersWithin(key, a, b);
    NumbersWithin(key, b, a);
  }

  lemma ChainNumbered(s: Store, id: ProposalId, chain: seq<EventId>)
    requires CleanChain(s, id, chain)
    ensures Numbered(SequenceOf(s), chain) && |chain| == s.proposals[id].eventCount > 0
  {
    forall k | 0 <= k < |chain|
      ensures SequenceOf(s)(chain[k]) == k + 1
    {
      assert StepClean(s, chain, k);
    }
  }

  // ----- proposals and links are determined by the receipts -----

  lemma ChainInBoth(s: Store, s': Store, id: ProposalId, chain: seq<EventId>, chain': seq<EventId>)
    requires s'.receipts == s.receipts && CleanChain(s, id, chain) && CleanChain(s', id, chain')
    ensures chain' == chain && s'.proposals[id] == s.proposals[id]
  {
    ChainNumbered(s, id, chain);
    ChainNumbered(s', id, chain');
    hide StepClean;
    assert forall ev :: SequenceOf(s')(ev) == SequenceOf(s)(ev);
    assert Numbered(SequenceOf(s), chain');
    NumbersAgree(SequenceOf(s), chain, chain');
  }

  lemma ReceiptHasProposal(s: Store, order: seq<EventId>, ev: EventId)
    requires Passes(s, order) && ev in s.receipts
    ensures s.receipts[ev].payload.proposalId in s.proposals
    ensures EventClean(ev, s.receipts[ev]) && exists known :: LinkEventClean(s.receipts[ev], known)
  {
    hide ProposalAuditClean, LinkAuditClean, EventClean, LinkEventClean, KnownCreation;
    assert ev in order;
    var i :| 0 <= i < |order| && order[i] == ev;
  }

  lemma ProposalHasReceipt(s: Store, order: seq<EventId>, id: ProposalId) returns (ev: EventId)
    requires Passes(s, order) && id in s.proposals
    ensures ev in s.receipts && s.receipts[ev].payload.proposalId == id
  {
    hide Passes;
    var chain := ChainOf(s, order, id);
    ChainNumbered(s, id, chain);
    ev := chain[0];
    assert ev in chain;
  }

  /** Two stores that the audit passes and that have the same receipts have the same proposals. */
  lemma ReceiptsPinProposals(s: Store, order: seq<EventId>, s': Store, order': seq<EventId>)
    requires Passes(s, order) && Passes(s', order') && s'.receipts == s.receipts
    ensures s'.proposals == s.proposals
  {
    hide Passes, CleanChain, EventClean, LinkEventClean;
    forall id
      ensures id in s.proposals <==> id in s'.proposals
    {
      if id in s.proposals {
        var ev := ProposalHasReceipt(s, order, id);
        ReceiptHasProposal(s', order', ev);
      }
      if id in s'.proposals {
        var ev := ProposalHasReceipt(s', order', id);
        ReceiptHasProposal(s, order, ev);
      }
    }
    forall id | id in s.proposals
      ensures s'.proposals[id] == s.proposals[id]
    {
      var chain := ChainOf(s, order, id);
      var chain' := ChainOf(s', order', id);
      ChainInBoth(s, s', id, chain, chain');
    }
  }

  /** What the audit established about a link: its owner, and the owner's receipts. */
  lemma CleanLink(s: Store, order: seq<EventId>, l: LinkId) returns (chain: seq<EventId>)
    requires Passes(s, order) && l in s.links
    ensures s.links[l].proposalId in s.proposals && CleanChain(s, s.links[l].proposalId, chain)
    ensures l in s.durable && ProjectionRowClean(l, s.links[l]) && LinkClean(s, l, chain)
  {
    LinkPassed(s, order, l);
    hide Passes, CleanChain, ProjectionRowClean, Chain;
    chain := ChainOf(s, order, s.links[l].proposalId);
    hide LinkClean;
  }

  lemma LinkPassed(s: Store, order: seq<EventId>, l: LinkId)
    requires Passes(s, order) && l in s.links
    ensures forall i | 0 <= i < |order| :: order[i] in s.receipts
    ensures ProjectionRowClean(l, s.links[l]) && LinkClean(s, l, Chain(s, order, s.links[l].proposalId))
    ensures s.links[l].proposalId in s.proposals && l in s.durable
  {
    hide RowsClean, ProposalAuditClean, Chain;
    assert LinkAuditClean(s, order, l);
  }

  /** A link projection says nothing that the durable row and the owner do not say. */
  lemma SameProjection(s: Store, s': Store, l: LinkId, chain: seq<EventId>, chain': seq<EventId>)
    requires s'.proposals == s.proposals && s'.durable == s.durable && l in s.links && l in s'.links
    requires CleanChain(s, s.links[l].proposalId, chain) && ProjectionRowClean(l, s.links[l])
    requires CleanChain(s', s'.links[l].proposalId, chain') && ProjectionRowClean(l, s'.links[l])
    requires LinkClean(s, l, chain) && LinkClean(s', l, chain')
    ensures s'.links[l] == s.links[l]
  {
    hide ChainClean;
    var p, p' := s.proposals[s.links[l].proposalId], s'.proposals[s'.links[l].proposalId];
    assert BoundEvidence(p.origin.terms.evidence, p)[GOVERNANCE_KEY] == Governance(BindingOf(p));
    assert BoundEvidence(p'.origin.terms.evidence, p')[GOVERNANCE_KEY] == Governance(BindingOf(p'));
  }

  lemma LastLink(s: Store, l: LinkId, chain: seq<EventId>)
    requires l in s.links && s.links[l].proposalId in s.proposals
    requires (forall i | 0 <= i < |chain| :: chain[i] in s.receipts) && LinkClean(s, l, chain)
    ensures |chain| > 0 && l in s.durable
    ensures s.receipts[chain[|chain| - 1]].payload.result.link == Some(s.durable[l])
  {
  }

  lemma LinkKeysAgree(s: Store, order: seq<EventId>)
    requires Passes(s, order)
    ensures s.links.Keys == s.durable.Keys
  {
    forall l | l in s.links
      ensures l in s.durable
    {
      LinkPassed(s, order, l);
    }
    hide RowsClean, ProposalAuditClean, LinkAuditClean;
  }

  /** The audit notices every change of the proposals, of the link projections or of the durable links:
      two stores that it passes, with the same receipts, and with the same projections or the same
      durable links, are the same. */
  lemma TablesAreNoticed(s: Store, order: seq<EventId>, s': Store, order': seq<EventId>)
    requires Passes(s, order) && Passes(s', order')
    requires s'.receipts == s.receipts && (s'.links == s.links || s'.durable == s.durable)
    ensures s' == s
  {
    hide Passes, CleanChain, LinkClean, ProjectionRowClean;
    ReceiptsPinProposals(s, order, s', order');
    LinkKeysAgree(s, order);
    LinkKeysAgree(s', order');
    forall l | l in s.links
      ensures s'.links[l] == s.links[l] && s'.durable[l] == s.durable[l]
    {
      var chain := CleanLink(s, order, l);
      var chain' := CleanLink(s', order', l);
      if s'.durable == s.durable {
        SameProjection(s, s', l, chain, chain');
      } else {
        ChainInBoth(s, s', s.links[l].proposalId, chain, chain');
        ChainKeys(s, s.links[l].proposalId, chain);
        LastLink(s, l, chain);
        LastLink(s', l, chain);
      }
    }
    assert s'.links == s.links && s'.durable == s.durable;
  }

  lemma ChainKeys(s: Store, id: ProposalId, chain: seq<EventId>)
    requires CleanChain(s, id, chain)
    ensures forall i | 0 <= i < |chain| :: chain[i] in s.receipts
    ensures forall ev :: ev in chain <==> ev in s.receipts && s.receipts[ev].payload.proposalId == id
    ensures id in s.proposals && s.proposals[id].eventCount == |chain|
  {
  }

  /** Where the audit finds nothing, every link that a receipt ever approved has both its surfaces, every
      approved proposal owns its link, and a link is on exactly when its owner is approved. */
  lemma ApprovalsHaveLinks(s: Store, order: seq<EventId>, ev: EventId)
    requires Passes(s, order) && ev in s.receipts && s.receipts[ev].payload.afterState == Approved
    ensures s.receipts[ev].payload.proposalId in s.proposals
    ensures var p := s.proposals[s.receipts[ev].payload.proposalId];
      var l := p.origin.terms.edge.linkId;
      && l in s.links && l in s.durable
      && (p.state == Approved ==> s.links[l].proposalId == p.origin.proposalId)
      && s.links[l].proposalId in s.proposals
      && (s.links[l].enabled <==> s.proposals[s.links[l].proposalId].state == Approved)
      && s.durable[l].enabled == s.links[l].enabled
  {
    hide Passes, EventClean, LinkEventClean, Chain, ChainClean;
    ReceiptHasProposal(s, order, ev);
    var id := s.receipts[ev].payload.proposalId;
    AuditedProposal(s, order, id);
    ChainMembers(s, order, id);
    assert ev in Chain(s, order, id);
    var l := s.proposals[id].origin.terms.edge.linkId;
    LinkPassed(s, order, l);
    hide Listing, StructuresMatch, BoundEvidence;
  }

  // ----- no receipt is removed, added or altered -----

  lemma {:induction false} NumberedCount(key: EventId -> int, chain: seq<EventId>)
    requires Numbered(key, chain)
    ensures |set ev | ev in chain| == |chain|
  {
    if chain != [] {
      var n := |chain| - 1;
      NumberedCount(key, chain[..n]);
      assert (set ev | ev in chain) == (set ev | ev in chain[..n]) + {chain[n]};
      assert chain[n] !in chain[..n] by {
        assert key(chain[n]) == n + 1;
      }
    }
  }

  /** A proposal has as many receipts as it counts. */
  lemma ReceiptsCounted(s: Store, order: seq<EventId>, id: ProposalId)
    requires Passes(s, order) && id in s.proposals
    ensures |ReceiptsOf(s, id)| == s.proposals[id].eventCount
  {
    hide Passes;
    var chain := ChainOf(s, order, id);
    ChainNumbered(s, id, chain);
    ChainKeys(s, id, chain);
    NumberedCount(SequenceOf(s), chain);
    hide CleanChain;
    assert (set ev | ev in chain) == ReceiptsOf(s, id);
  }

  /** The receipts of a proposal. */
  ghost function ReceiptsOf(s: Store, id: ProposalId): set<EventId> {
    set ev | ev in s.receipts && s.receipts[ev].payload.proposalId == id
  }

  lemma OneLess(s: Store, s': Store, ev: EventId)
    requires ev in s.receipts
    requires s'.receipts - {ev} == s.receipts - {ev}
    requires ev !in s'.receipts || s'.receipts[ev].payload.proposalId != s.receipts[ev].payload.proposalId
    ensures var id := s.receipts[ev].payload.proposalId; |ReceiptsOf(s', id)| == |ReceiptsOf(s, id)| - 1
  {
    var id := s.receipts[ev].payload.proposalId;
    forall e
      ensures e in ReceiptsOf(s', id) <==> e in ReceiptsOf(s, id) - {ev}
    {
      if e != ev {
        assert e in s'.receipts - {ev} <==> e in s.receipts - {ev};
        assert e in s.receipts ==> (s'.receipts - {ev})[e] == (s.receipts - {ev})[e];
      }
    }
    assert ReceiptsOf(s', id) == ReceiptsOf(s, id) - {ev};
  }

  /** The audit notices a receipt that was removed, added, or moved to another proposal: two stores that
      it passes, with the same proposals, cannot differ in that way. */
  lemma ReceiptsAreCounted(s: Store, order: seq<EventId>, s': Store, order': seq<EventId>, ev: EventId)
    requires Passes(s, order) && Passes(s', order') && s'.proposals == s.proposals
    requires ev in s.receipts && s'.receipts - {ev} == s.receipts - {ev}
    ensures ev in s'.receipts && s'.receipts[ev].payload.proposalId == s.receipts[ev].payload.proposalId
  {
    hide Passes, EventClean, LinkEventClean;
    ReceiptHasProposal(s, order, ev);
    var id := s.receipts[ev].payload.proposalId;
    ReceiptsCounted(s, order, id);
    ReceiptsCounted(s', order', id);
    if ev !in s'.receipts || s'.receipts[ev].payload.proposalId != id {
      OneLess(s, s', ev);
    }
  }

  /** The two receipts differ at most in the creation time of the link that they carry. */
  predicate SameButCreation(r: Receipt, r': Receipt) {
    || r' == r
    || (r.payload.result.link.Some? && r'.payload.result.link.Some?
        && r' == r.(payload := r.payload.(result := r.payload.result.(link :=
             Some(r.payload.result.link.value.(createdAt := r'.payload.result.link.value.createdAt))))))
  }

  /** A numbering cannot give a single element another number. */
  lemma OneRenumbered(key: EventId -> int, key': EventId -> int, a: seq<EventId>, b: seq<EventId>, ev: EventId)
    requires Numbered(key, a) && Numbered(key', b) && (forall e :: e in a <==> e in b)
    requires forall e | e != ev :: key'(e) == key(e)
    ensures a == b
  {
    NumberedCount(key, a);
    NumberedCount(key', b);
    assert (set e | e in a) == set e | e in b;
    forall j | 0 <= j < |a|
      ensures a[j] != ev ==> b[j] == a[j]
      ensures b[j] != ev ==> a[j] == b[j]
    {
      assert a[j] in b && b[j] in a;
      var m :| 0 <= m < |b| && b[m] == a[j];
      var n :| 0 <= n < |a| && a[n] == b[j];
      assert key'(b[m]) == m + 1 && key(a[j]) == j + 1 && key(a[n]) == n + 1 && key'(b[j]) == j + 1;
    }
  }

  lemma SameChain(s: Store, s': Store, ev: EventId, id: ProposalId, chain: seq<EventId>, chain': seq<EventId>)
    requires CleanChain(s, id, chain) && CleanChain(s', id, chain') && s'.proposals == s.proposals
    requires s'.receipts - {ev} == s.receipts - {ev} && ev in s.receipts && ev in s'.receipts
    requires s.receipts[ev].payload.proposalId == id && s'.receipts[ev].payload.proposalId == id
    ensures chain' == chain
  {
    ChainNumbered(s, id, chain);
    ChainNumbered(s', id, chain');
    ChainKeys(s, id, chain);
    ChainKeys(s', id, chain');
    hide CleanChain, Numbered;
    SameElsewhere(s, s', ev);
    hide SequenceOf;
    forall e
      ensures e in chain <==> e in chain'
    {
      assert e != ev && e in s.receipts ==> s'.receipts[e] == s.receipts[e];
    }
    OneRenumbered(SequenceOf(s), SequenceOf(s'), chain, chain', ev);
  }

  lemma SameElsewhere(s: Store, s': Store, ev: EventId)
    requires s'.receipts - {ev} == s.receipts - {ev} && ev in s.receipts && ev in s'.receipts
    ensures forall e :: e in s'.receipts <==> e in s.receipts
    ensures forall e | e in s.receipts && e != ev :: s'.receipts[e] == s.receipts[e]
    ensures forall e | e != ev :: SequenceOf(s')(e) == SequenceOf(s)(e)
  {
    forall e
      ensures e in s'.receipts <==> e in s.receipts
      ensures e in s.receipts && e != ev ==> s'.receipts[e] == s.receipts[e]
    {
      if e != ev {
        assert e in s'.receipts - {ev} <==> e in s.receipts - {ev};
        assert e in s.receipts ==> (s'.receipts - {ev})[e] == (s.receipts - {ev})[e];
      }
    }
  }

  /** The version that a receipt recorded is pinned by the next receipt, or by the stored proposal. */
  lemma SameVersion(s: Store, s': Store, ev: EventId, id: ProposalId, chain: seq<EventId>, k: nat)
    requires CleanChain(s, id, chain) && CleanChain(s', id, chain) && s'.proposals == s.proposals
    requires k < |chain| && chain[k] == ev && s'.receipts - {ev} == s.receipts - {ev}
    requires EventClean(ev, s.receipts[ev]) && EventClean(ev, s'.receipts[ev])
    requires forall j | 0 <= j < |chain| && j != k :: chain[j] != ev
    ensures s'.receipts[ev].payload.result.proposal == s.receipts[ev].payload.result.proposal
    ensures var e, e' := s.receipts[ev].payload, s'.receipts[ev].payload;
      e'.sequence == e.sequence && e'.beforeState == e.beforeState && e'.beforeRevision == e.beforeRevision
  {
    SameElsewhere(s, s', ev);
    assert StepClean(s, chain, k) && StepClean(s', chain, k);
    if k + 1 < |chain| {
      assert StepClean(s, chain, k + 1) && StepClean(s', chain, k + 1);
      assert s'.receipts[chain[k + 1]] == s.receipts[chain[k + 1]];
      var q, q' := s.receipts[ev].payload.result.proposal, s'.receipts[ev].payload.result.proposal;
      assert ProposalDigest(q') == ProposalDigest(q);
      assert q' == q'.(revision := NoRevision).(revision := q'.revision);
      assert q == q.(revision := NoRevision).(revision := q.revision);
    }
    if k > 0 {
      assert s'.receipts[chain[k - 1]] == s.receipts[chain[k - 1]];
    }
    hide Allowed, EnvelopeMatches, ReasonOf, ActorOf;
  }

  /** Everything else in a receipt follows from its identifier, its version and its place. */
  lemma SameContent(ev: EventId, r: Receipt, r': Receipt, known: Option<int>, known': Option<int>)
    requires EventClean(ev, r) && EventClean(ev, r') && LinkEventClean(r, known) && LinkEventClean(r', known')
    requires r'.payload.result.proposal == r.payload.result.proposal
    requires r'.payload.sequence == r.payload.sequence && r'.payload.beforeState == r.payload.beforeState
    requires r'.payload.beforeRevision == r.payload.beforeRevision
    ensures SameButCreation(r, r')
  {
    hide ReasonOf, ActorOf, BoundEvidence, ProposalDigest;
  }

  /** The audit notices every change of one receipt but the creation time of the link that it carries:
      two stores that it passes, with the same proposals and otherwise the same receipts, have receipts
      that agree up to that. */
  lemma ReceiptIsNoticed(s: Store, order: seq<EventId>, s': Store, order': seq<EventId>, ev: EventId)
    requires Passes(s, order) && Passes(s', order') && s'.proposals == s.proposals
    requires ev in s.receipts && s'.receipts - {ev} == s.receipts - {ev}
    ensures ev in s'.receipts && SameButCreation(s.receipts[ev], s'.receipts[ev])
  {
    hide Passes, EventClean, LinkEventClean, CleanChain, SameButCreation;
    ReceiptsAreCounted(s, order, s', order', ev);
    ReceiptHasProposal(s, order, ev);
    ReceiptHasProposal(s', order', ev);
    var id := s.receipts[ev].payload.proposalId;
    var chain := ChainOf(s, order, id);
    var chain' := ChainOf(s', order', id);
    SameChain(s, s', ev, id, chain, chain');
    ChainKeys(s, id, chain);
    ChainNumbered(s, id, chain);
    assert ev in chain;
    var k :| 0 <= k < |chain| && chain[k] == ev;
    forall j | 0 <= j < |chain| && j != k
      ensures chain[j] != ev
    {
      assert SequenceOf(s)(chain[j]) == j + 1 && SequenceOf(s)(chain[k]) == k + 1;
    }
    SameVersion(s, s', ev, id, chain, k);
    var known :| LinkEventClean(s.receipts[ev], known);
    var known' :| LinkEventClean(s'.receipts[ev], known');
    SameContent(ev, s.receipts[ev], s'.receipts[ev], known, known');
  }
}
