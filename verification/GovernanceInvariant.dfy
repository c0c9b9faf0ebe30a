/** What every transaction of bridge governance keeps. */
module GovernanceInvariant {
  import opened GovernanceTypes
  import opened GovernanceSteps

  /** Proof bookkeeping: the receipts of each proposal in order, and for each link the
      approval that first created its durable row. */
  datatype History = History(events: map<ProposalId, seq<EventId>>, first: map<LinkId, EventId>)

  const EMPTY_HISTORY := History(map[], map[])

  // ----- one row -----

  /** An edge between two named contexts whose link id is the hash of its own fields, in their
      stored order. */
  predicate CanonicalEdge(e: Edge) {
    && e.linkId == LinkId(e.source, e.target, e.relation, e.direction) && StableEdge(e)
    && e.source != "" && e.target != "" && e.source != e.target
  }

  predicate ProposalShape(p: Proposal) {
    && p.revision == ProposalDigest(p)
    && CanonicalEdge(p.origin.terms.edge)
    && p.updatedAt > 0
    && p.eventCount >= 1
    && (p.state == Pending ==> p.reviewed == NO_STAMP)
    && (p.state == Approved || p.state == Disabled || p.state == Revoked ==> p.reviewed.at > 0)
  }

  /** The durable row, or the link in a receipt, that belongs to this version of a proposal. */
  predicate LinkShape(row: DurableLink, p: Proposal) {
    && row.edge == p.origin.terms.edge
    && row.confidence == p.origin.terms.weight
    && row.evidence == BoundEvidence(p.origin.terms.evidence, p)
    && row.enabled == (p.state == Approved)
    && row.approvedBy == p.reviewed.actor
    && row.approvedAt == p.reviewed.at
    && row.updatedAt == p.updatedAt
    && 0 < row.createdAt <= row.updatedAt
  }

  predicate ReceiptShape(id: EventId, r: Receipt) {
    var e := r.payload;
    var q := e.result.proposal;
    && e.eventId == id == EventId(e.action, e.requestId)
    && r.operationType == e.action
    && r.contextId == q.origin.terms.edge.source
    && r.beforeRevision == e.beforeRevision
    && r.afterRevision == e.afterRevision == q.revision
    && e.proposalId == q.origin.proposalId
    && e.linkId == q.origin.terms.edge.linkId
    && e.afterState == q.state == e.result.state == AfterState(e.action)
    && e.sequence == q.eventCount
    && e.fingerprint == q.lastFingerprint
    && e.reason == ReasonOf(e.action, q)
    && e.actor == ActorOf(e.action, q)
    && q.lastEventId == id
    && q.updatedAt == r.createdAt
    && ProposalShape(q)
    && EnvelopeMatches(e.action, e.result, q)
    && (e.action == Expire ==> e.requestId == ExpiryOf(e.proposalId, r.createdAt))
    && (e.action == Approve ==> q.reviewed.at == r.createdAt)
    && (e.result.link.Some? ==> LinkShape(e.result.link.value, q))
  }

  /** Receipt `b` is the next transition after receipt `a`. */
  predicate Follows(a: Receipt, b: Receipt) {
    var p := a.payload.result.proposal;
    var e := b.payload;
    && Allowed(Some(p.state), AfterState(e.action))
    && e.beforeState == Some(p.state)
    && e.beforeRevision == p.revision
    && e.result.proposal == Transition(p, e.action, e.eventId, e.actor, e.reason, e.fingerprint, b.createdAt)
  }

  predicate Opens(r: Receipt) {
    var e := r.payload;
    && e.action == Propose
    && e.beforeState == None
    && e.beforeRevision == NoRevision
    && e.result.proposal == NewPending(e.result.proposal.origin, e.eventId, e.fingerprint, r.createdAt)
  }

  // ----- the tables -----

  ghost predicate ReceiptsOk(s: Store, clock: int) {
    forall ev {:trigger ReceiptShape(ev, s.receipts[ev])} | ev in s.receipts ::
      ReceiptShape(ev, s.receipts[ev]) && s.receipts[ev].createdAt <= clock
  }

  ghost predicate ChainOk(s: Store, id: ProposalId, chain: seq<EventId>)
    requires id in s.proposals
  {
    && |chain| == s.proposals[id].eventCount >= 1
    && (forall k | 0 <= k < |chain| ::
          chain[k] in s.receipts && s.receipts[chain[k]].payload.proposalId == id
          && s.receipts[chain[k]].payload.sequence == k + 1)
    && Opens(s.receipts[chain[0]])
    && (forall j, k | 0 <= j && k == j + 1 < |chain| :: Follows(s.receipts[chain[j]], s.receipts[chain[k]]))
    && s.receipts[chain[|chain| - 1]].payload.result.proposal == s.proposals[id]
  }

  /** The receipts of a proposal are exactly the chain that led to its stored projection. */
  ghost predicate HistoryOk(s: Store, h: History) {
    && h.events.Keys == s.proposals.Keys
    && (forall id {:trigger ChainOk(s, id, h.events[id])} | id in h.events :: ChainOk(s, id, h.events[id]))
    && (forall ev {:trigger InChain(s.receipts[ev], ev, h)} | ev in s.receipts :: InChain(s.receipts[ev], ev, h))
  }

  ghost predicate InChain(r: Receipt, ev: EventId, h: History) {
    && r.payload.proposalId in h.events
    && 1 <= r.payload.sequence <= |h.events[r.payload.proposalId]|
    && h.events[r.payload.proposalId][r.payload.sequence - 1] == ev
  }

  /** The link surfaces agree with the proposal that owns them. */
  ghost predicate Owned(s: Store, l: LinkId)
    requires l in s.links && l in s.durable
  {
    var id := s.links[l].proposalId;
    && id in s.proposals
    && var p := s.proposals[id];
      && p.origin.proposalId == id
      && p.origin.terms.edge.linkId == l
      && p.state != Pending && p.state != Rejected
      && s.links[l] == LinkProjectionOf(p, p.state == Approved, p.updatedAt)
      && LinkShape(s.durable[l], p)
      && p.lastEventId in s.receipts
      && s.receipts[p.lastEventId].payload.result.link == Some(s.durable[l])
  }

  ghost predicate CreationOk(s: Store, l: LinkId, ev: EventId)
    requires l in s.durable
  {
    && ev in s.receipts
    && s.receipts[ev].payload.action == Approve
    && s.receipts[ev].payload.result.link.Some?
    && s.receipts[ev].payload.linkId == l
    && s.receipts[ev].createdAt == s.durable[l].createdAt
  }

  ghost predicate LinkReceiptOk(s: Store, r: Receipt) {
    r.payload.result.link.Some? ==>
      && r.payload.linkId in s.durable
      && r.payload.result.link.value.createdAt == s.durable[r.payload.linkId].createdAt <= r.createdAt
  }

  ghost predicate OwnerOf(s: Store, id: ProposalId)
    requires id in s.proposals
  {
    var l := s.proposals[id].origin.terms.edge.linkId;
    l in s.links && s.links[l].proposalId == id
  }

  ghost predicate LinksOk(s: Store, h: History) {
    && s.links.Keys == s.durable.Keys == h.first.Keys
    && (forall l {:trigger Owned(s, l)} | l in s.links :: Owned(s, l))
    && (forall l {:trigger CreationOk(s, l, h.first[l])} | l in s.durable :: CreationOk(s, l, h.first[l]))
    && (forall ev {:trigger LinkReceiptOk(s, s.receipts[ev])} | ev in s.receipts :: LinkReceiptOk(s, s.receipts[ev]))
    && (forall id {:trigger OwnerOf(s, id)} | id in s.proposals && s.proposals[id].state == Approved :: OwnerOf(s, id))
  }

  ghost predicate Inv(s: Store, h: History, clock: int) {
    ReceiptsOk(s, clock) && HistoryOk(s, h) && LinksOk(s, h)
  }

  /** Every disabled proposal that may still expire owns its link. */
  ghost predicate ExpirySafe(s: Store) {
    forall id {:trigger OwnerOf(s, id)} | id in s.proposals && s.proposals[id].state == Disabled
                && s.proposals[id].origin.linkExpiresAt.Some? :: OwnerOf(s, id)
  }

  lemma EmptyStoreInv(clock: int)
    ensures Inv(EMPTY_STORE, EMPTY_HISTORY, clock) && ExpirySafe(EMPTY_STORE)
  {
  }

  // ----- consequences -----

  lemma StoredProposal(s: Store, h: History, clock: int, id: ProposalId)
    requires Inv(s, h, clock) && id in s.proposals
    ensures ProposalBound(s, id)
    ensures s.proposals[id].origin.proposalId == id
    ensures ProposalShape(s.proposals[id])
    ensures s.proposals[id].updatedAt <= clock
    ensures id in h.events && |h.events[id]| == s.proposals[id].eventCount
    ensures s.proposals[id].lastEventId == h.events[id][|h.events[id]| - 1]
  {
    assert ChainOk(s, id, h.events[id]);
    var last := h.events[id][|h.events[id]| - 1];
    assert ReceiptShape(last, s.receipts[last]);
  }

  // ----- a transition -----

  /** One allowed transition of a stored proposal, as review, deactivation and expiry make it;
      `row` is the durable link row when the action touches the link surfaces. */
  datatype Move = Move(action: Action, requestId: RequestId, fingerprint: Fingerprint, actor: Actor, reason: string,
                       row: Option<DurableLink>, at: int)
  {
    function Event(): EventId { EventId(action, requestId) }
  }

  function Next(p: Proposal, m: Move): Proposal {
    Transition(p, m.action, m.Event(), m.actor, m.reason, m.fingerprint, m.at)
  }

  function MoveReceipt(p: Proposal, m: Move): Receipt {
    ReceiptOf(m.action, m.requestId, m.fingerprint, Next(p, m), Some(p.state), p.revision, m.actor, m.reason, m.row,
              m.at)
  }

  /** The part of a move's legality that concerns the proposal and the row alone. */
  predicate GoodMove(p: Proposal, m: Move) {
    && m.at > 0
    && (m.action == Expire ==> m.requestId == ExpiryOf(p.origin.proposalId, m.at))
    && Allowed(Some(p.state), AfterState(m.action))
    && (m.row.Some? <==> m.action == Approve || m.action == Disable || m.action == Revoke
                         || (m.action == Expire && p.state != Pending))
    && (m.row.Some? ==> LinkShape(m.row.value, Next(p, m)))
  }

  predicate OwnedByApproved(s: Store, l: LinkId) {
    && l in s.links && s.links[l].proposalId in s.proposals
    && s.proposals[s.links[l].proposalId].state == Approved
  }

  /** The part that concerns the other rows. */
  ghost predicate FitsLinks(s: Store, id: ProposalId, m: Move)
    requires id in s.proposals
  {
    var l := s.proposals[id].origin.terms.edge.linkId;
    m.row.Some? ==>
      && (if l in s.durable then m.row.value.createdAt == s.durable[l].createdAt
          else m.action == Approve && m.row.value.createdAt == m.at)
      && (l in s.links ==> l in s.durable && (s.links[l].proposalId == id || !OwnedByApproved(s, l)))
  }

  function Advance(s: Store, id: ProposalId, m: Move): Store
    requires id in s.proposals
  {
    Recorded(s, Next(s.proposals[id], m), m.row, MoveReceipt(s.proposals[id], m))
  }

  function AdvanceHistory(s: Store, h: History, id: ProposalId, event: EventId): History
    requires id in s.proposals && id in h.events
  {
    var l := s.proposals[id].origin.terms.edge.linkId;
    History(h.events[id := h.events[id] + [event]],
            if event.action == Approve && l !in h.first then h.first[l := event] else h.first)
  }

  /** `s'` is `s` with one more receipt, for a new version of proposal `id`. */
  ghost predicate Extended(s: Store, s': Store, id: ProposalId, event: EventId) {
    && event !in s.receipts
    && event in s'.receipts
    && (forall ev | ev in s.receipts :: ev in s'.receipts && s'.receipts[ev] == s.receipts[ev])
    && (forall ev | ev in s'.receipts :: ev == event || ev in s.receipts)
    && id in s'.proposals
    && (forall other | other in s.proposals :: other in s'.proposals)
    && (forall other | other in s'.proposals && other != id ::
          other in s.proposals && s'.proposals[other] == s.proposals[other])
    && s'.receipts[event].payload.proposalId == id
    && s'.receipts[event].payload.sequence == s'.proposals[id].eventCount
    && s'.receipts[event].payload.result.proposal == s'.proposals[id]
  }

  lemma ExtendedRows(s: Store, s': Store, id: ProposalId, event: EventId)
    requires Extended(s, s', id, event)
    ensures event in s'.receipts && id in s'.proposals
    ensures forall ev | ev in s'.receipts :: ev == event || ev in s.receipts
    ensures forall other | other in s'.proposals && other != id ::
              other in s.proposals && s'.proposals[other] == s.proposals[other]
    ensures forall other | other in s.proposals :: other in s'.proposals
  {
  }

  lemma ReceiptsExtended(s: Store, s': Store, id: ProposalId, event: EventId, clock: int, now: int)
    requires ReceiptsOk(s, clock) && clock <= now && Extended(s, s', id, event)
    requires ReceiptShape(event, s'.receipts[event]) && s'.receipts[event].createdAt == now
    ensures ReceiptsOk(s', now)
  {
    forall ev | ev in s'.receipts
      ensures ReceiptShape(ev, s'.receipts[ev]) && s'.receipts[ev].createdAt <= now
    {
      assert ev != event ==> ReceiptShape(ev, s.receipts[ev]);
    }
  }

  lemma ChainKept(s: Store, s': Store, id: ProposalId, event: EventId, other: ProposalId, chain: seq<EventId>)
    requires Extended(s, s', id, event)
    requires other in s.proposals && other != id && ChainOk(s, other, chain)
    ensures ChainOk(s', other, chain)
  {
    hide Follows, Opens;
  }

  lemma ChainGrown(s: Store, s': Store, id: ProposalId, event: EventId, chain: seq<EventId>)
    requires Extended(s, s', id, event)
    requires id in s.proposals && ChainOk(s, id, chain)
    requires s'.proposals[id].eventCount == s.proposals[id].eventCount + 1
    requires Follows(s.receipts[chain[|chain| - 1]], s'.receipts[event])
    ensures ChainOk(s', id, chain + [event])
  {
    hide Follows, Opens;
    var longer := chain + [event];
    forall j, k | 0 <= j && k == j + 1 < |longer|
      ensures Follows(s'.receipts[longer[j]], s'.receipts[longer[k]])
    {
      if k < |chain| {
        assert Follows(s.receipts[chain[j]], s.receipts[chain[k]]);
      }
    }
  }

  lemma InChainKept(s: Store, s': Store, h: History, h': History, id: ProposalId, event: EventId, ev: EventId)
    requires Extended(s, s', id, event)
    requires ev in s.receipts && InChain(s.receipts[ev], ev, h)
    requires forall other | other in h.events ::
               other in h'.events && h.events[other] <= h'.events[other]
    ensures InChain(s'.receipts[ev], ev, h')
  {
  }

  lemma ChainFacts(s: Store, h: History, id: ProposalId)
    requires HistoryOk(s, h) && id in s.proposals
    ensures id in h.events && ChainOk(s, id, h.events[id])
    ensures |h.events[id]| == s.proposals[id].eventCount >= 1
    ensures h.events[id][|h.events[id]| - 1] in s.receipts
    ensures s.receipts[h.events[id][|h.events[id]| - 1]].payload.result.proposal == s.proposals[id]
  {
    assert ChainOk(s, id, h.events[id]);
  }

  lemma NewInChain(s: Store, s': Store, h: History, h': History, id: ProposalId, event: EventId)
    requires Extended(s, s', id, event) && id in h.events && |h.events[id]| + 1 == s'.proposals[id].eventCount
    requires h'.events == h.events[id := h.events[id] + [event]]
    ensures InChain(s'.receipts[event], event, h')
  {
  }

  lemma HistoryGrown(s: Store, s': Store, h: History, h': History, id: ProposalId, event: EventId)
    requires HistoryOk(s, h) && Extended(s, s', id, event)
    requires id in s.proposals && id in h.events && |h.events[id]| >= 1
    requires s'.proposals[id].eventCount == s.proposals[id].eventCount + 1
    requires h.events[id][|h.events[id]| - 1] in s.receipts
    requires Follows(s.receipts[h.events[id][|h.events[id]| - 1]], s'.receipts[event])
    requires h'.events == h.events[id := h.events[id] + [event]]
    ensures HistoryOk(s', h')
  {
    hide Follows, ChainOk, InChain, Extended;
    ExtendedRows(s, s', id, event);
    ChainFacts(s, h, id);
    ChainGrown(s, s', id, event, h.events[id]);
    NewInChain(s, s', h, h', id, event);
    forall other | other in h'.events
      ensures ChainOk(s', other, h'.events[other])
    {
      if other != id {
        assert ChainOk(s, other, h.events[other]);
        ChainKept(s, s', id, event, other, h.events[other]);
      }
    }
    forall ev | ev in s'.receipts
      ensures InChain(s'.receipts[ev], ev, h')
    {
      if ev != event {
        assert InChain(s.receipts[ev], ev, h);
        InChainKept(s, s', h, h', id, event, ev);
      }
    }
  }

  // ----- the link surfaces -----

  lemma OwnedKept(s: Store, s': Store, id: ProposalId, event: EventId, l: LinkId)
    requires Extended(s, s', id, event)
    requires l in s.links && l in s.durable && Owned(s, l) && s.links[l].proposalId != id
    requires l in s'.links && l in s'.durable && s'.links[l] == s.links[l] && s'.durable[l] == s.durable[l]
    ensures Owned(s', l)
  {
    hide LinkShape, LinkProjectionOf;
  }

  lemma CreationKept(s: Store, s': Store, id: ProposalId, event: EventId, l: LinkId, first: EventId)
    requires Extended(s, s', id, event)
    requires l in s.durable && l in s'.durable && CreationOk(s, l, first)
    requires s'.durable[l].createdAt == s.durable[l].createdAt
    ensures CreationOk(s', l, first)
  {
  }

  lemma LinkReceiptKept(s: Store, s': Store, id: ProposalId, event: EventId, ev: EventId)
    requires Extended(s, s', id, event) && ev in s.receipts && LinkReceiptOk(s, s.receipts[ev])
    requires forall l | l in s.durable :: l in s'.durable && s'.durable[l].createdAt == s.durable[l].createdAt
    ensures ev in s'.receipts && LinkReceiptOk(s', s'.receipts[ev])
  {
  }

  lemma LinkReceiptsKept(s: Store, s': Store, h: History, id: ProposalId, event: EventId)
    requires LinksOk(s, h) && Extended(s, s', id, event) && LinkReceiptOk(s', s'.receipts[event])
    requires forall l | l in s.durable :: l in s'.durable && s'.durable[l].createdAt == s.durable[l].createdAt
    ensures forall ev {:trigger LinkReceiptOk(s', s'.receipts[ev])} | ev in s'.receipts ::
              LinkReceiptOk(s', s'.receipts[ev])
  {
    hide LinkReceiptOk, Extended;
    ExtendedRows(s, s', id, event);
    forall ev | ev in s'.receipts
      ensures LinkReceiptOk(s', s'.receipts[ev])
    {
      if ev != event {
        assert LinkReceiptOk(s, s.receipts[ev]);
        LinkReceiptKept(s, s', id, event, ev);
      }
    }
  }

  lemma OwnerUntouched(s: Store, s': Store, id: ProposalId, event: EventId, other: ProposalId)
    requires Extended(s, s', id, event) && s'.links == s.links
    requires other in s.proposals && other != id && OwnerOf(s, other)
    ensures other in s'.proposals && OwnerOf(s', other)
  {
  }

  lemma OwnerKept(s: Store, s': Store, id: ProposalId, event: EventId, other: ProposalId)
    requires Extended(s, s', id, event)
    requires other in s.proposals && other != id && OwnerOf(s, other)
    requires var l := s.proposals[other].origin.terms.edge.linkId; l in s'.links && s'.links[l] == s.links[l]
    ensures other in s'.proposals && OwnerOf(s', other)
  {
  }

  /** A step that leaves the link surfaces alone: the proposal was not, and is not, approved. */
  lemma LinksUntouched(s: Store, s': Store, h: History, h': History, id: ProposalId, event: EventId)
    requires LinksOk(s, h) && Extended(s, s', id, event) && h'.first == h.first
    requires s'.links == s.links && s'.durable == s.durable
    requires s'.receipts[event].payload.result.link.None? && s'.proposals[id].state != Approved
    requires forall l | l in s.links :: s.links[l].proposalId != id
    ensures LinksOk(s', h')
  {
    assert LinkReceiptOk(s', s'.receipts[event]);
    hide Owned, Extended, CreationOk, LinkReceiptOk, OwnerOf;
    ExtendedRows(s, s', id, event);
    forall l | l in s'.links
      ensures Owned(s', l)
    {
      assert Owned(s, l);
      OwnedKept(s, s', id, event, l);
    }
    forall l | l in s'.durable
      ensures CreationOk(s', l, h'.first[l])
    {
      assert CreationOk(s, l, h.first[l]);
      CreationKept(s, s', id, event, l, h.first[l]);
    }
    LinkReceiptsKept(s, s', h, id, event);
    forall other | other in s'.proposals && s'.proposals[other].state == Approved
      ensures OwnerOf(s', other)
    {
      assert OwnerOf(s, other);
      OwnerUntouched(s, s', id, event, other);
    }
  }

  /** The surfaces of link `l` are rewritten for proposal `id`, and nothing else is. */
  ghost predicate Rewritten(s: Store, s': Store, id: ProposalId, event: EventId, l: LinkId) {
    && l in s'.links && l in s'.durable && event in s'.receipts
    && (forall k | k in s'.links && k != l :: k in s.links && s'.links[k] == s.links[k])
    && (forall k | k in s'.durable && k != l :: k in s.durable && s'.durable[k] == s.durable[k])
    && (forall k | k in s.links :: k in s'.links)
    && (forall k | k in s.durable :: k in s'.durable)
    && s'.links[l].proposalId == id
    && var r := s'.receipts[event];
      && r.payload.linkId == l
      && r.payload.result.link == Some(s'.durable[l])
      && if l in s.durable then s'.durable[l].createdAt == s.durable[l].createdAt <= r.createdAt
         else r.payload.action == Approve && s'.durable[l].createdAt == r.createdAt
  }

  lemma RewrittenRows(s: Store, s': Store, id: ProposalId, event: EventId, l: LinkId)
    requires Rewritten(s, s', id, event, l)
    ensures l in s'.links && l in s'.durable && s'.links[l].proposalId == id
    ensures forall k | k in s'.links && k != l :: k in s.links && s'.links[k] == s.links[k]
    ensures forall k | k in s'.durable && k != l :: k in s.durable && s'.durable[k] == s.durable[k]
    ensures forall k | k in s.links :: k in s'.links
    ensures forall k | k in s.durable :: k in s'.durable && s'.durable[k].createdAt == s.durable[k].createdAt
    ensures LinkReceiptOk(s', s'.receipts[event])
    ensures l !in s.durable ==> CreationOk(s', l, event)
  {
  }

  lemma LinksRewritten(s: Store, s': Store, h: History, h': History, id: ProposalId, event: EventId, l: LinkId)
    requires LinksOk(s, h) && Extended(s, s', id, event) && Rewritten(s, s', id, event, l)
    requires Owned(s', l)
    requires h'.first == if l in h.first then h.first else h.first[l := event]
    requires forall k | k in s.links && k != l :: s.links[k].proposalId != id
    requires forall other | other in s.proposals && other != id && s.proposals[other].state == Approved
               :: s.proposals[other].origin.terms.edge.linkId != l
    ensures LinksOk(s', h')
  {
    hide Owned, Extended, CreationOk, LinkReceiptOk, Rewritten;
    ExtendedRows(s, s', id, event);
    RewrittenRows(s, s', id, event, l);
    forall k | k in s'.links
      ensures Owned(s', k)
    {
      if k != l {
        assert Owned(s, k);
        OwnedKept(s, s', id, event, k);
      }
    }
    forall k | k in s'.durable
      ensures CreationOk(s', k, h'.first[k])
    {
      if k in s.durable {
        assert CreationOk(s, k, h.first[k]);
        CreationKept(s, s', id, event, k, h.first[k]);
      }
    }
    LinkReceiptsKept(s, s', h, id, event);
    forall other | other in s'.proposals && s'.proposals[other].state == Approved
      ensures OwnerOf(s', other)
    {
      if other != id {
        assert OwnerOf(s, other);
        OwnerKept(s, s', id, event, other);
      } else {
        OwnedEdge(s', l);
      }
    }
  }

  lemma OwnedEdge(s: Store, l: LinkId)
    requires l in s.links && l in s.durable && Owned(s, l)
    ensures s.links[l].proposalId in s.proposals
    ensures s.proposals[s.links[l].proposalId].origin.terms.edge.linkId == l
    ensures s.proposals[s.links[l].proposalId].state != Pending
    ensures s.proposals[s.links[l].proposalId].origin.proposalId == s.links[l].proposalId
  {
  }

  // ----- the whole move -----

  lemma MoveShape(p: Proposal, m: Move)
    requires ProposalShape(p) && GoodMove(p, m)
    ensures ReceiptShape(m.Event(), MoveReceipt(p, m))
  {
  }

  lemma MoveFollows(p: Proposal, m: Move, last: Receipt)
    requires last.payload.result.proposal == p && GoodMove(p, m)
    ensures Follows(last, MoveReceipt(p, m))
  {
  }

  lemma MoveExtends(s: Store, id: ProposalId, m: Move)
    requires id in s.proposals && s.proposals[id].origin.proposalId == id && m.Event() !in s.receipts
    ensures Extended(s, Advance(s, id, m), id, m.Event())
  {
  }

  lemma MoveOwns(s: Store, id: ProposalId, m: Move)
    requires id in s.proposals && s.proposals[id].origin.proposalId == id
    requires GoodMove(s.proposals[id], m) && m.row.Some?
    requires m.action != Approve ==> s.proposals[id].state != Pending
    ensures var l := s.proposals[id].origin.terms.edge.linkId; var s' := Advance(s, id, m);
      l in s'.links && l in s'.durable && Owned(s', l)
  {
  }

  lemma MoveRewrites(s: Store, id: ProposalId, m: Move)
    requires id in s.proposals && s.proposals[id].origin.proposalId == id && m.row.Some? && FitsLinks(s, id, m)
    requires forall l | l in s.durable :: s.durable[l].createdAt <= m.at
    ensures Rewritten(s, Advance(s, id, m), id, m.Event(), s.proposals[id].origin.terms.edge.linkId)
  {
  }

  /** Every legal move keeps the invariant. */
  lemma AdvanceInv(s: Store, h: History, clock: int, id: ProposalId, m: Move)
    requires Inv(s, h, clock) && clock <= m.at
    requires id in s.proposals && id in h.events && m.Event() !in s.receipts
    requires GoodMove(s.proposals[id], m) && FitsLinks(s, id, m)
    ensures Inv(Advance(s, id, m), AdvanceHistory(s, h, id, m.Event()), m.at)
  {
    AdvanceReceiptsInv(s, h, clock, id, m);
    AdvanceHistoryInv(s, h, clock, id, m);
    AdvanceLinksInv(s, h, clock, id, m);
  }

  lemma AdvanceReceiptsInv(s: Store, h: History, clock: int, id: ProposalId, m: Move)
    requires Inv(s, h, clock) && clock <= m.at
    requires id in s.proposals && m.Event() !in s.receipts && GoodMove(s.proposals[id], m)
    ensures ReceiptsOk(Advance(s, id, m), m.at)
  {
    StoredProposal(s, h, clock, id);
    hide GoodMove, ReceiptShape, Extended, HistoryOk, LinksOk, ReceiptsOk, ProposalBound;
    MoveShape(s.proposals[id], m);
    MoveExtends(s, id, m);
    ReceiptsExtended(s, Advance(s, id, m), id, m.Event(), clock, m.at);
  }

  lemma AdvanceHistoryInv(s: Store, h: History, clock: int, id: ProposalId, m: Move)
    requires Inv(s, h, clock) && clock <= m.at
    requires id in s.proposals && id in h.events && m.Event() !in s.receipts && GoodMove(s.proposals[id], m)
    ensures HistoryOk(Advance(s, id, m), AdvanceHistory(s, h, id, m.Event()))
  {
    StoredProposal(s, h, clock, id);
    hide GoodMove, ReceiptShape, Extended, HistoryOk, LinksOk, ReceiptsOk, ProposalBound, Follows;
    ChainFacts(s, h, id);
    MoveFollows(s.proposals[id], m, s.receipts[h.events[id][|h.events[id]| - 1]]);
    MoveExtends(s, id, m);
    HistoryGrown(s, Advance(s, id, m), h, AdvanceHistory(s, h, id, m.Event()), id, m.Event());
  }

  lemma OwnersOfLinks(s: Store, h: History)
    requires LinksOk(s, h)
    ensures forall l | l in s.links ::
              && s.links[l].proposalId in s.proposals
              && s.proposals[s.links[l].proposalId].origin.terms.edge.linkId == l
              && s.proposals[s.links[l].proposalId].state != Pending
  {
    hide Owned;
    forall l | l in s.links
      ensures s.links[l].proposalId in s.proposals
      ensures s.proposals[s.links[l].proposalId].origin.terms.edge.linkId == l
      ensures s.proposals[s.links[l].proposalId].state != Pending
    {
      assert Owned(s, l);
      OwnedEdge(s, l);
    }
  }

  lemma ApprovedOwners(s: Store, h: History)
    requires LinksOk(s, h)
    ensures forall id | id in s.proposals && s.proposals[id].state == Approved ::
              var l := s.proposals[id].origin.terms.edge.linkId; l in s.links && s.links[l].proposalId == id
  {
    hide Owned, CreationOk, LinkReceiptOk;
    forall id | id in s.proposals && s.proposals[id].state == Approved
      ensures var l := s.proposals[id].origin.terms.edge.linkId; l in s.links && s.links[l].proposalId == id
    {
      assert OwnerOf(s, id);
    }
  }

  lemma RowsCreatedBefore(s: Store, h: History, clock: int)
    requires LinksOk(s, h) && ReceiptsOk(s, clock)
    ensures forall l | l in s.durable :: s.durable[l].createdAt <= clock
  {
    hide Owned, LinkReceiptOk, OwnerOf, ReceiptShape;
    forall l | l in s.durable
      ensures s.durable[l].createdAt <= clock
    {
      assert CreationOk(s, l, h.first[l]);
      assert ReceiptShape(h.first[l], s.receipts[h.first[l]]);
    }
  }

  lemma AdvanceLinksInv(s: Store, h: History, clock: int, id: ProposalId, m: Move)
    requires Inv(s, h, clock) && clock <= m.at
    requires id in s.proposals && id in h.events && m.Event() !in s.receipts
    requires GoodMove(s.proposals[id], m) && FitsLinks(s, id, m)
    ensures LinksOk(Advance(s, id, m), AdvanceHistory(s, h, id, m.Event()))
  {
    hide ReceiptShape, Extended, HistoryOk, LinksOk, ReceiptsOk, ProposalBound, LinkShape, Owned, Rewritten;
    hide Transition, LinkProjectionOf, ProposalShape;
    StoredProposal(s, h, clock, id);
    OwnersOfLinks(s, h);
    ApprovedOwners(s, h);
    RowsCreatedBefore(s, h, clock);
    MoveExtends(s, id, m);
    NextState(s.proposals[id], m);
    var s', h' := Advance(s, id, m), AdvanceHistory(s, h, id, m.Event());
    if m.row.Some? {
      MoveOwns(s, id, m);
      MoveRewrites(s, id, m);
      LinkKeys(s, h);
      LinksRewritten(s, s', h, h', id, m.Event(), s.proposals[id].origin.terms.edge.linkId);
    } else {
      LinksUntouched(s, s', h, h', id, m.Event());
    }
  }

  lemma LinkKeys(s: Store, h: History)
    requires LinksOk(s, h)
    ensures s.links.Keys == s.durable.Keys == h.first.Keys
  {
  }

  lemma NextState(p: Proposal, m: Move)
    ensures Next(p, m).state == AfterState(m.action) && Next(p, m).origin == p.origin
    ensures MoveReceipt(p, m).payload.eventId == m.Event() && MoveReceipt(p, m).payload.result.link == m.row
  {
  }

  // ----- a new proposal -----

  function Opening(p: Proposal, rid: RequestId, fp: Fingerprint): Receipt {
    ReceiptOf(Propose, rid, fp, p, None, NoRevision, p.origin.proposedBy, p.origin.proposalReason, None, p.updatedAt)
  }

  function Created(s: Store, origin: Origin, rid: RequestId, fp: Fingerprint, now: int): Store {
    var event := EventId(Propose, rid);
    var p := NewPending(origin, event, fp, now);
    Store(s.proposals[origin.proposalId := p], s.links, s.durable, s.receipts[event := Opening(p, rid, fp)])
  }

  function CreatedHistory(h: History, id: ProposalId, event: EventId): History {
    History(h.events[id := [event]], h.first)
  }

  lemma OpeningShape(origin: Origin, rid: RequestId, fp: Fingerprint, now: int)
    requires CanonicalEdge(origin.terms.edge) && now > 0
    ensures var event := EventId(Propose, rid); var p := NewPending(origin, event, fp, now);
      ReceiptShape(event, Opening(p, rid, fp)) && Opens(Opening(p, rid, fp)) && p.state == Pending && p.eventCount == 1
  {
  }

  lemma CreationExtends(s: Store, origin: Origin, rid: RequestId, fp: Fingerprint, now: int)
    requires EventId(Propose, rid) !in s.receipts
    ensures Extended(s, Created(s, origin, rid, fp, now), origin.proposalId, EventId(Propose, rid))
  {
  }

  lemma ChainStarted(s: Store, s': Store, h': History, id: ProposalId, event: EventId)
    requires Extended(s, s', id, event) && s'.proposals[id].eventCount == 1 && Opens(s'.receipts[event])
    requires id in h'.events && h'.events[id] == [event]
    ensures ChainOk(s', id, [event]) && InChain(s'.receipts[event], event, h')
  {
    hide Opens;
  }

  lemma HistoryStarted(s: Store, s': Store, h: History, h': History, id: ProposalId, event: EventId)
    requires HistoryOk(s, h) && Extended(s, s', id, event)
    requires id !in s.proposals && s'.proposals[id].eventCount == 1 && Opens(s'.receipts[event])
    requires h'.events == h.events[id := [event]]
    ensures HistoryOk(s', h')
  {
    hide Opens, ChainOk, InChain, Extended;
    ChainStarted(s, s', h', id, event);
    ExtendedRows(s, s', id, event);
    forall other | other in h'.events
      ensures ChainOk(s', other, h'.events[other])
    {
      if other != id {
        assert ChainOk(s, other, h.events[other]);
        ChainKept(s, s', id, event, other, h.events[other]);
      }
    }
    forall ev | ev in s'.receipts
      ensures InChain(s'.receipts[ev], ev, h')
    {
      if ev != event {
        assert InChain(s.receipts[ev], ev, h);
        InChainKept(s, s', h, h', id, event, ev);
      }
    }
  }

  lemma CreatedInv(s: Store, h: History, clock: int, origin: Origin, rid: RequestId, fp: Fingerprint, now: int)
    requires Inv(s, h, clock) && clock <= now && now > 0
    requires origin.proposalId !in s.proposals && EventId(Propose, rid) !in s.receipts
    requires CanonicalEdge(origin.terms.edge)
    ensures Inv(Created(s, origin, rid, fp, now), CreatedHistory(h, origin.proposalId, EventId(Propose, rid)), now)
  {
    hide ReceiptShape, Extended, HistoryOk, LinksOk, ReceiptsOk, Opens;
    var event := EventId(Propose, rid);
    var s' := Created(s, origin, rid, fp, now);
    var h' := CreatedHistory(h, origin.proposalId, event);
    OpeningShape(origin, rid, fp, now);
    CreationExtends(s, origin, rid, fp, now);
    ReceiptsExtended(s, s', origin.proposalId, event, clock, now);
    HistoryKeys(s, h);
    HistoryStarted(s, s', h, h', origin.proposalId, event);
    OwnersOfLinks(s, h);
    LinksUntouched(s, s', h, h', origin.proposalId, event);
  }

  lemma HistoryKeys(s: Store, h: History)
    requires HistoryOk(s, h)
    ensures h.events.Keys == s.proposals.Keys
  {
  }
}
