/** The integrity audit of the four tables, and its agreement with the invariant. */
module GovernanceAudit {
  import opened GovernanceTypes
  import opened GovernanceSteps
  import opened GovernanceInvariant
  import opened Sorting

  const MAX_AUDIT_ROWS := 10_000

  /** A listing of the receipt table by creation time; ties may come in any order (the
      program breaks them by the hashed event id). */
  ghost predicate Listing(s: Store, order: seq<EventId>) {
    && (forall i | 0 <= i < |order| :: order[i] in s.receipts)
    && (forall ev | ev in s.receipts :: ev in order)
    && Distinct(order)
    && (forall i, j | 0 <= i < j < |order| :: s.receipts[order[i]].createdAt <= s.receipts[order[j]].createdAt)
  }

  // ----- single rows -----

  predicate ProposalRowClean(id: ProposalId, p: Proposal) {
    p.revision == ProposalDigest(p) && p.origin.proposalId == id
  }

  predicate ProjectionRowClean(l: LinkId, projection: LinkProjection) {
    projection.revision == LinkDigest(projection) && projection.edge.linkId == l
  }

  predicate EventClean(ev: EventId, r: Receipt) {
    var e := r.payload;
    var q := e.result.proposal;
    && e.eventId == ev == EventId(e.action, e.requestId)
    && r.operationType == e.action
    && e.beforeRevision == r.beforeRevision
    && e.afterRevision == r.afterRevision
    && e.result.state == e.afterState == q.state
    && q.origin.proposalId == e.proposalId
    && q.origin.terms.edge.linkId == e.linkId
    && q.revision == e.afterRevision == ProposalDigest(q)
    && EnvelopeMatches(e.action, e.result, q)
    && e.reason == ReasonOf(e.action, q)
    && e.fingerprint == q.lastFingerprint
    && r.createdAt == q.updatedAt
    && e.actor == ActorOf(e.action, q)
    && r.contextId == q.origin.terms.edge.source
  }

  /** `_historical_link_matches`. */
  predicate HistoricalLinkMatches(action: Action, link: DurableLink, p: Proposal, expectedCreation: Option<int>,
                                  requireFirst: bool)
  {
    && link.edge == p.origin.terms.edge
    && link.confidence == p.origin.terms.weight
    && link.evidence == BoundEvidence(p.origin.terms.evidence, p)
    && (action == Approve || action == Disable || action == Revoke || action == Expire)
    && link.enabled == (action == Approve)
    && link.approvedBy == p.reviewed.actor
    && link.approvedAt == p.reviewed.at
    && link.updatedAt == p.updatedAt
    && 0 < link.createdAt <= link.updatedAt
    && (match expectedCreation
        case Some(at) => link.createdAt == at
        case None => requireFirst ==> link.createdAt == p.reviewed.at)
  }

  // ----- the receipts in listing order -----

  predicate LinkEventClean(r: Receipt, known: Option<int>) {
    var e := r.payload;
    e.result.link.Some? ==>
      HistoricalLinkMatches(e.action, e.result.link.value, e.result.proposal, known, known.None? && e.action == Approve)
  }

  /** The creation time the audit has recorded for a link after the rows of `order`. */
  function KnownCreation(s: Store, order: seq<EventId>, l: LinkId): Option<int>
    requires forall i | 0 <= i < |order| :: order[i] in s.receipts
  {
    if |order| == 0 then None
    else
      var known := KnownCreation(s, order[..|order| - 1], l);
      var r := s.receipts[order[|order| - 1]];
      if known.Some? then known
      else if r.payload.result.link.Some? && r.payload.result.proposal.origin.terms.edge.linkId == l
              && LinkEventClean(r, None)
      then Some(r.payload.result.link.value.createdAt)
      else None
  }

  predicate RowsClean(s: Store, order: seq<EventId>)
    requires forall i | 0 <= i < |order| :: order[i] in s.receipts
  {
    forall i | 0 <= i < |order| ::
      && EventClean(order[i], s.receipts[order[i]])
      && LinkEventClean(s.receipts[order[i]],
                        KnownCreation(s, order[..i],
                                      s.receipts[order[i]].payload.result.proposal.origin.terms.edge.linkId))
  }

  // ----- one proposal -----

  /** The receipts of a proposal in listing order. */
  function EventsOf(s: Store, order: seq<EventId>, id: ProposalId): seq<EventId>
    requires forall i | 0 <= i < |order| :: order[i] in s.receipts
  {
    if |order| == 0 then []
    else
      var before := EventsOf(s, order[..|order| - 1], id);
      var last := order[|order| - 1];
      if s.receipts[last].payload.proposalId == id then before + [last] else before
  }

  predicate StepClean(s: Store, events: seq<EventId>, k: nat)
    requires k < |events| && forall i | 0 <= i < |events| :: events[i] in s.receipts
  {
    var e := s.receipts[events[k]].payload;
    && e.sequence == k + 1
    && e.beforeState == (if k == 0 then None else Some(s.receipts[events[k - 1]].payload.afterState))
    && e.beforeRevision == (if k == 0 then NoRevision else s.receipts[events[k - 1]].payload.afterRevision)
    && Allowed(e.beforeState, e.afterState)
    && e.result.proposal.origin == s.receipts[events[0]].payload.result.proposal.origin
  }

  /** The per-proposal part: numbering, chaining, transitions, immutability, last projection. */
  predicate ChainClean(s: Store, p: Proposal, events: seq<EventId>)
    requires forall i | 0 <= i < |events| :: events[i] in s.receipts
  {
    && |events| > 0
    && (forall k | 0 <= k < |events| :: StepClean(s, events, k))
    && var last := s.receipts[events[|events| - 1]].payload;
      && p.lastEventId == last.eventId
      && p.revision == last.afterRevision
      && p.state == last.afterState
      && p.eventCount == |events|
      && last.result.proposal == p
  }

  predicate ApprovedOwnerClean(s: Store, id: ProposalId)
    requires id in s.proposals
  {
    var l := s.proposals[id].origin.terms.edge.linkId;
    s.proposals[id].state == Approved ==> l in s.links && s.links[l].proposalId == id
  }

  /** A link that was ever approved has both of its surfaces. */
  predicate MaterializedClean(s: Store, id: ProposalId, events: seq<EventId>)
    requires id in s.proposals && forall i | 0 <= i < |events| :: events[i] in s.receipts
  {
    var l := s.proposals[id].origin.terms.edge.linkId;
    (exists i | 0 <= i < |events| :: s.receipts[events[i]].payload.afterState == Approved) ==>
      l in s.links && l in s.durable
  }

  // ----- one link -----

  predicate LinkClean(s: Store, l: LinkId, ownerEvents: seq<EventId>)
    requires l in s.links && forall i | 0 <= i < |ownerEvents| :: ownerEvents[i] in s.receipts
  {
    var projection := s.links[l];
    && projection.proposalId in s.proposals
    && l in s.durable
    && var p := s.proposals[projection.proposalId];
      var row := s.durable[l];
      && p.origin.terms.edge.linkId == l
      && projection.proposalRevision == p.revision
      && projection.state == p.state
      && projection.lastEventId == p.lastEventId
      && projection.linkExpiresAt == p.origin.linkExpiresAt
      && projection.updatedAt == p.updatedAt
      && p.state != Pending && p.state != Rejected
      && projection.enabled == (p.state == Approved)
      && row.enabled == (p.state == Approved)
      && StructuresMatch(p, projection, row)
      && row.evidence == BoundEvidence(p.origin.terms.evidence, p)
      && row.approvedBy == p.reviewed.actor
      && row.approvedAt == p.reviewed.at
      && row.updatedAt == p.updatedAt
      && |ownerEvents| > 0
      && s.receipts[ownerEvents[|ownerEvents| - 1]].payload.result.link == Some(row)
  }

  // ----- the whole audit -----

  predicate WithinCapacity(s: Store) {
    && |s.proposals| + |s.links| <= MAX_AUDIT_ROWS
    && |s.receipts| <= MAX_AUDIT_ROWS
    && |s.durable| <= MAX_AUDIT_ROWS
  }

  function SequenceOf(s: Store): EventId -> int {
    ev => if ev in s.receipts then s.receipts[ev].payload.sequence else 0
  }

  /** The receipts of a proposal, sorted by their sequence number. */
  function Chain(s: Store, order: seq<EventId>, id: ProposalId): (events: seq<EventId>)
    requires forall i | 0 <= i < |order| :: order[i] in s.receipts
    ensures forall i | 0 <= i < |events| :: events[i] in s.receipts
  {
    EventsOfMembers(s, order, id);
    var events := EventsOf(s, order, id);
    var sorted := StableSort(SequenceOf(s), events);
    StableSortSorts(SequenceOf(s), events);
    assert forall i | 0 <= i < |sorted| :: sorted[i] in multiset(events);
    sorted
  }

  lemma {:induction false} EventsOfMembers(s: Store, order: seq<EventId>, id: ProposalId)
    requires forall i | 0 <= i < |order| :: order[i] in s.receipts
    ensures forall ev :: ev in EventsOf(s, order, id) <==>
                         ev in order && ev in s.receipts && s.receipts[ev].payload.proposalId == id
  {
    if |order| > 0 {
      EventsOfMembers(s, order[..|order| - 1], id);
      assert order == order[..|order| - 1] + [order[|order| - 1]];
    }
  }

  predicate ProposalAuditClean(s: Store, order: seq<EventId>, id: ProposalId)
    requires id in s.proposals && forall i | 0 <= i < |order| :: order[i] in s.receipts
  {
    && ProposalRowClean(id, s.proposals[id])
    && ChainClean(s, s.proposals[id], Chain(s, order, id))
    && ApprovedOwnerClean(s, id)
    && MaterializedClean(s, id, Chain(s, order, id))
  }

  predicate LinkAuditClean(s: Store, order: seq<EventId>, l: LinkId)
    requires l in s.links && forall i | 0 <= i < |order| :: order[i] in s.receipts
  {
    && ProjectionRowClean(l, s.links[l])
    && LinkClean(s, l, Chain(s, order, s.links[l].proposalId))
  }

  /** All checks of the audit but the row capacity. */
  ghost predicate ContentClean(s: Store, order: seq<EventId>)
    requires forall i | 0 <= i < |order| :: order[i] in s.receipts
  {
    && RowsClean(s, order)
    && (forall i | 0 <= i < |order| :: s.receipts[order[i]].payload.proposalId in s.proposals)
    && (forall id | id in s.proposals :: ProposalAuditClean(s, order, id))
    && (forall l | l in s.links :: LinkAuditClean(s, order, l))
    && (forall l | l in s.durable :: l in s.links)
  }

  /** `audit_integrity` reports no error. */
  ghost predicate AuditClean(s: Store, order: seq<EventId>)
    requires forall i | 0 <= i < |order| :: order[i] in s.receipts
  {
    WithinCapacity(s) && ContentClean(s, order)
  }

  // ----- the sorted receipts of a proposal are its history -----

  lemma {:induction false} EventsOfDistinct(s: Store, order: seq<EventId>, id: ProposalId)
    requires forall i | 0 <= i < |order| :: order[i] in s.receipts
    requires Distinct(order)
    ensures Distinct(EventsOf(s, order, id))
  {
    if |order| > 0 {
      var prefix := order[..|order| - 1];
      EventsOfDistinct(s, prefix, id);
      EventsOfMembers(s, prefix, id);
      assert order[|order| - 1] !in prefix;
      assert order[|order| - 1] !in EventsOf(s, prefix, id);
    }
  }

  lemma ChainNumbers(s: Store, h: History, id: ProposalId)
    requires HistoryOk(s, h) && id in s.proposals
    ensures id in h.events
    ensures forall k | 0 <= k < |h.events[id]| ::
              && h.events[id][k] in s.receipts
              && s.receipts[h.events[id][k]].payload.proposalId == id
              && s.receipts[h.events[id][k]].payload.sequence == k + 1
  {
    hide Opens, Follows;
    assert ChainOk(s, id, h.events[id]);
  }

  lemma SameEvents(s: Store, h: History, order: seq<EventId>, id: ProposalId)
    requires HistoryOk(s, h) && Listing(s, order) && id in h.events
    requires forall k | 0 <= k < |h.events[id]| ::
               h.events[id][k] in s.receipts && s.receipts[h.events[id][k]].payload.proposalId == id
    ensures forall ev :: ev in EventsOf(s, order, id) <==> ev in h.events[id]
  {
    hide ChainOk;
    EventsOfMembers(s, order, id);
    forall ev
      ensures ev in EventsOf(s, order, id) <==> ev in h.events[id]
    {
      if ev in EventsOf(s, order, id) {
        assert InChain(s.receipts[ev], ev, h);
      }
    }
  }

  lemma ChainIsHistory(s: Store, h: History, order: seq<EventId>, id: ProposalId)
    requires HistoryOk(s, h) && Listing(s, order) && id in s.proposals
    ensures id in h.events && Chain(s, order, id) == h.events[id]
  {
    hide ChainOk, InChain;
    ChainNumbers(s, h, id);
    var chain, events := h.events[id], EventsOf(s, order, id);
    SameEvents(s, h, order, id);
    EventsOfDistinct(s, order, id);
    var key := SequenceOf(s);
    assert Numbered(key, chain);
    assert Distinct(chain);
    hide HistoryOk, SequenceOf, Distinct, Numbered;
    SameMembers(events, chain);
    StableSortSorts(key, events);
    OnlyArrangement(key, StableSort(key, events), chain);
  }

  // ----- the invariant passes the audit -----

  lemma ShapeIsClean(ev: EventId, r: Receipt)
    requires ReceiptShape(ev, r)
    ensures EventClean(ev, r)
    ensures r.payload.result.link.Some? ==>
              HistoricalLinkMatches(r.payload.action, r.payload.result.link.value, r.payload.result.proposal,
                                    Some(r.payload.result.link.value.createdAt), false)
    ensures r.payload.result.proposal.origin.terms.edge.linkId == r.payload.linkId
    ensures r.payload.action == Approve ==> r.payload.result.proposal.reviewed.at == r.createdAt
  {
  }

  /** Does this receipt carry the link `l`? */
  predicate Carries(s: Store, ev: EventId, l: LinkId) {
    ev in s.receipts && s.receipts[ev].payload.result.link.Some? && s.receipts[ev].payload.linkId == l
  }

  /** The first listed receipt that carries a link was written when the durable row was created. */
  lemma FirstCarrier(s: Store, h: History, clock: int, order: seq<EventId>, n: nat, l: LinkId)
    requires Inv(s, h, clock) && Listing(s, order) && n < |order|
    requires Carries(s, order[n], l) && forall i | 0 <= i < n :: !Carries(s, order[i], l)
    ensures l in s.durable && s.receipts[order[n]].createdAt == s.durable[l].createdAt
  {
    hide ReceiptsOk, HistoryOk, Owned;
    assert LinkReceiptOk(s, s.receipts[order[n]]);
    var first := h.first[l];
    assert CreationOk(s, l, first);
    assert first in order;
    var j :| 0 <= j < |order| && order[j] == first;
    assert j >= n;
  }

  /** A receipt of a sound store passes the link check of the audit, whatever its position. */
  lemma CarrierClean(s: Store, h: History, clock: int, order: seq<EventId>, n: nat, l: LinkId, known: Option<int>)
    requires Inv(s, h, clock) && Listing(s, order) && n < |order| && Carries(s, order[n], l)
    requires known.Some? ==> l in s.durable && known.value == s.durable[l].createdAt
    requires known.None? ==> forall i | 0 <= i < n :: !Carries(s, order[i], l)
    ensures LinkEventClean(s.receipts[order[n]], known)
    ensures l in s.durable && s.receipts[order[n]].payload.result.link.value.createdAt == s.durable[l].createdAt
  {
    var r := s.receipts[order[n]];
    assert ReceiptShape(order[n], r);
    ShapeIsClean(order[n], r);
    assert LinkReceiptOk(s, r);
    hide Inv, ReceiptShape, EventClean;
    if known.None? {
      FirstCarrier(s, h, clock, order, n, l);
    }
  }

  lemma ReceiptIsClean(s: Store, h: History, clock: int, ev: EventId)
    requires Inv(s, h, clock) && ev in s.receipts
    ensures var r := s.receipts[ev];
      EventClean(ev, r) && r.payload.linkId == r.payload.result.proposal.origin.terms.edge.linkId
  {
    assert ReceiptShape(ev, s.receipts[ev]);
    ShapeIsClean(ev, s.receipts[ev]);
  }

  /** What the audit has recorded for a link is the creation time of its durable row. */
  lemma {:induction false} KnownIsCreation(s: Store, h: History, clock: int, order: seq<EventId>, n: nat, l: LinkId)
    requires Inv(s, h, clock) && Listing(s, order) && n <= |order|
    ensures var known := KnownCreation(s, order[..n], l);
      && (known.Some? ==> l in s.durable && known.value == s.durable[l].createdAt)
      && (known.None? ==> forall i | 0 <= i < n :: !Carries(s, order[i], l))
  {
    if n > 0 {
      KnownIsCreation(s, h, clock, order, n - 1, l);
      assert order[..n][..n - 1] == order[..n - 1];
      var ev := order[n - 1];
      ReceiptIsClean(s, h, clock, ev);
      hide Inv, ReceiptsOk, Listing, ReceiptShape, EventClean, LinkEventClean;
      var before := KnownCreation(s, order[..n - 1], l);
      if before.None? && Carries(s, ev, l) {
        CarrierClean(s, h, clock, order, n - 1, l, None);
      }
    }
  }

  lemma RowsAreClean(s: Store, h: History, clock: int, order: seq<EventId>)
    requires Inv(s, h, clock) && Listing(s, order)
    ensures RowsClean(s, order)
  {
    forall i | 0 <= i < |order|
      ensures EventClean(order[i], s.receipts[order[i]])
      ensures LinkEventClean(s.receipts[order[i]],
                KnownCreation(s, order[..i], s.receipts[order[i]].payload.result.proposal.origin.terms.edge.linkId))
    {
      var r := s.receipts[order[i]];
      assert ReceiptShape(order[i], r);
      ShapeIsClean(order[i], r);
      hide Inv, ReceiptShape, EventClean, HistoricalLinkMatches;
      if r.payload.result.link.Some? {
        var l := r.payload.linkId;
        KnownIsCreation(s, h, clock, order, i, l);
        CarrierClean(s, h, clock, order, i, l, KnownCreation(s, order[..i], l));
      }
    }
  }

  lemma FollowsIsClean(a: Receipt, b: Receipt, eva: EventId, evb: EventId)
    requires ReceiptShape(eva, a) && ReceiptShape(evb, b) && Follows(a, b)
    ensures b.payload.beforeState == Some(a.payload.afterState)
    ensures b.payload.beforeRevision == a.payload.afterRevision
    ensures Allowed(b.payload.beforeState, b.payload.afterState)
    ensures b.payload.result.proposal.origin == a.payload.result.proposal.origin
  {
  }

  lemma OpensIsClean(r: Receipt, ev: EventId)
    requires ReceiptShape(ev, r) && Opens(r)
    ensures r.payload.beforeState == None && r.payload.beforeRevision == NoRevision
    ensures Allowed(r.payload.beforeState, r.payload.afterState)
  {
  }

  lemma {:induction false} ChainLinks(s: Store, h: History, clock: int, id: ProposalId, k: nat)
    requires Inv(s, h, clock) && id in s.proposals && k < |h.events[id]|
    ensures h.events[id][k] in s.receipts && h.events[id][0] in s.receipts
    ensures var e := s.receipts[h.events[id][k]].payload;
      && e.sequence == k + 1
      && Allowed(e.beforeState, e.afterState)
      && e.result.proposal.origin == s.receipts[h.events[id][0]].payload.result.proposal.origin
      && (k == 0 ==> e.beforeState == None && e.beforeRevision == NoRevision)
      && (k > 0 ==> h.events[id][k - 1] in s.receipts
                    && e.beforeState == Some(s.receipts[h.events[id][k - 1]].payload.afterState)
                    && e.beforeRevision == s.receipts[h.events[id][k - 1]].payload.afterRevision)
  {
    ChainNumbers(s, h, id);
    var chain := h.events[id];
    assert ReceiptShape(chain[k], s.receipts[chain[k]]);
    if k == 0 {
      assert ChainOk(s, id, chain);
      OpensIsClean(s.receipts[chain[0]], chain[0]);
    } else {
      ChainLinks(s, h, clock, id, k - 1);
      assert ReceiptShape(chain[k - 1], s.receipts[chain[k - 1]]);
      assert ChainOk(s, id, chain);
      assert Follows(s.receipts[chain[k - 1]], s.receipts[chain[k]]);
      FollowsIsClean(s.receipts[chain[k - 1]], s.receipts[chain[k]], chain[k - 1], chain[k]);
    }
  }

  lemma LastIsClean(s: Store, h: History, clock: int, id: ProposalId)
    requires Inv(s, h, clock) && id in s.proposals
    ensures id in h.events && |h.events[id]| == s.proposals[id].eventCount > 0
    ensures h.events[id][|h.events[id]| - 1] in s.receipts
    ensures var last := s.receipts[h.events[id][|h.events[id]| - 1]].payload;
      var p := s.proposals[id];
      p.lastEventId == last.eventId && p.revision == last.afterRevision && p.state == last.afterState
      && last.result.proposal == p
  {
    ChainFacts(s, h, id);
    var last := h.events[id][|h.events[id]| - 1];
    assert ReceiptShape(last, s.receipts[last]);
  }

  lemma ChainIsClean(s: Store, h: History, clock: int, id: ProposalId)
    requires Inv(s, h, clock) && id in s.proposals && id in h.events
    requires forall i | 0 <= i < |h.events[id]| :: h.events[id][i] in s.receipts
    ensures ChainClean(s, s.proposals[id], h.events[id])
  {
    LastIsClean(s, h, clock, id);
    hide Inv;
    forall k | 0 <= k < |h.events[id]|
      ensures StepClean(s, h.events[id], k)
    {
      ChainLinks(s, h, clock, id, k);
    }
    hide StepClean;
  }

  /** A proposal with an approved receipt has both link surfaces. */
  lemma MaterializedIsClean(s: Store, h: History, clock: int, id: ProposalId)
    requires Inv(s, h, clock) && id in s.proposals && id in h.events
    requires forall i | 0 <= i < |h.events[id]| :: h.events[id][i] in s.receipts
    ensures MaterializedClean(s, id, h.events[id])
  {
    var chain := h.events[id];
    var l := s.proposals[id].origin.terms.edge.linkId;
    if i :| 0 <= i < |chain| && s.receipts[chain[i]].payload.afterState == Approved {
      ChainLinks(s, h, clock, id, i);
      LastIsClean(s, h, clock, id);
      ChainLinks(s, h, clock, id, |chain| - 1);
      assert ReceiptShape(chain[i], s.receipts[chain[i]]);
      assert LinkReceiptOk(s, s.receipts[chain[i]]);
      LinkKeys(s, h);
    }
  }

  lemma LinkIsClean(s: Store, h: History, clock: int, l: LinkId)
    requires Inv(s, h, clock) && l in s.links
    ensures s.links[l].proposalId in s.proposals && s.links[l].proposalId in h.events
    ensures forall i | 0 <= i < |h.events[s.links[l].proposalId]| :: h.events[s.links[l].proposalId][i] in s.receipts
    ensures LinkClean(s, l, h.events[s.links[l].proposalId])
  {
    hide ReceiptsOk, ChainOk;
    assert Owned(s, l);
    var id := s.links[l].proposalId;
    StoredProposal(s, h, clock, id);
    ChainNumbers(s, h, id);
    hide Inv, ProposalBound, StableLinkId, Transition;
  }

  lemma ProposalPasses(s: Store, h: History, clock: int, order: seq<EventId>, id: ProposalId)
    requires Inv(s, h, clock) && Listing(s, order) && id in s.proposals
    ensures ProposalAuditClean(s, order, id)
  {
    StoredProposal(s, h, clock, id);
    hide ProposalBound, Listing, ChainClean, MaterializedClean, Chain;
    ChainIsHistory(s, h, order, id);
    ChainIsClean(s, h, clock, id);
    MaterializedIsClean(s, h, clock, id);
    ApprovedOwners(s, h);
    hide Inv;
  }

  lemma LinkPasses(s: Store, h: History, clock: int, order: seq<EventId>, l: LinkId)
    requires Inv(s, h, clock) && Listing(s, order) && l in s.links
    ensures LinkAuditClean(s, order, l)
  {
    hide Listing, LinkClean, Chain, ProjectionRowClean;
    LinkIsClean(s, h, clock, l);
    ChainIsHistory(s, h, order, s.links[l].proposalId);
    ProjectionIsClean(s, h, l);
    hide Inv;
  }

  lemma TablesAgree(s: Store, h: History, clock: int, order: seq<EventId>)
    requires Inv(s, h, clock) && Listing(s, order)
    ensures s.links.Keys == s.durable.Keys
    ensures forall i | 0 <= i < |order| :: order[i] in s.receipts
    ensures forall i | 0 <= i < |order| :: s.receipts[order[i]].payload.proposalId in s.proposals
  {
    LinkKeys(s, h);
    ReceiptsHaveProposals(s, h, order);
  }

  /** A sound store passes the audit for every listing of its receipts, up to the audit's capacity. */
  lemma SoundIsClean(s: Store, h: History, clock: int, order: seq<EventId>)
    requires Inv(s, h, clock) && Listing(s, order)
    ensures ContentClean(s, order)
    ensures WithinCapacity(s) <==> AuditClean(s, order)
  {
    hide Inv, WithinCapacity, RowsClean, ProposalAuditClean, LinkAuditClean, Listing;
    TablesAgree(s, h, clock, order);
    RowsAreClean(s, h, clock, order);
    forall id | id in s.proposals
      ensures ProposalAuditClean(s, order, id)
    {
      ProposalPasses(s, h, clock, order, id);
    }
    forall l | l in s.links
      ensures LinkAuditClean(s, order, l)
    {
      LinkPasses(s, h, clock, order, l);
    }
  }

  lemma ProjectionIsClean(s: Store, h: History, l: LinkId)
    requires LinksOk(s, h) && l in s.links
    ensures ProjectionRowClean(l, s.links[l])
  {
    hide CreationOk, LinkReceiptOk, OwnerOf, LinkShape;
    assert Owned(s, l);
  }

  lemma ReceiptsHaveProposals(s: Store, h: History, order: seq<EventId>)
    requires HistoryOk(s, h) && Listing(s, order)
    ensures forall i | 0 <= i < |order| :: s.receipts[order[i]].payload.proposalId in s.proposals
  {
    hide ChainOk;
    forall i | 0 <= i < |order|
      ensures s.receipts[order[i]].payload.proposalId in s.proposals
    {
      assert InChain(s.receipts[order[i]], order[i], h);
    }
  }
}
