/** The loops of the integrity audit, which accumulate faults and lookup tables. */
module GovernanceAuditLoops {
  import opened GovernanceTypes
  import opened GovernanceSteps
  import opened GovernanceInvariant
  import opened GovernanceReaders
  import opened GovernanceAudit
  import opened Sorting

  datatype Fault =
    | MetadataCapacity | EventCapacity | DurableCapacity
    | ProposalRevision(id: ProposalId) | ProposalKeyMismatch(id: ProposalId)
    | LinkRevision(l: LinkId) | LinkKeyMismatch(l: LinkId)
    | EventReceipt(ev: EventId) | EventResult(ev: EventId) | EventEnvelope(ev: EventId) | EventLink(ev: EventId)
    | EventReason(ev: EventId) | EventFingerprint(ev: EventId) | EventCreation(ev: EventId) | EventActor(ev: EventId)
    | EventContext(ev: EventId)
    | EventSequence(id: ProposalId) | EventChain(id: ProposalId, k: nat) | EventTransition(id: ProposalId, k: nat)
    | ProposalImmutability(id: ProposalId, k: nat) | MissingHistory(id: ProposalId) | ProjectionEvent(id: ProposalId)
    | OrphanHistory(id: ProposalId)
    | ApprovedWithoutProjection(l: LinkId) | ApprovedOwner(l: LinkId)
    | MaterializedWithoutProjection(l: LinkId) | MaterializedWithoutDurable(l: LinkId)
    | LinkWithoutProposal(l: LinkId) | LinkProposal(l: LinkId) | ImpossibleLinkState(l: LinkId)
    | LinkWithoutDurable(l: LinkId) | ProjectionEnabled(l: LinkId) | RowEnabled(l: LinkId) | LinkStructure(l: LinkId)
    | LinkEvidence(l: LinkId) | LinkProvenance(l: LinkId) | LinkReceipt(l: LinkId)
    | Ungoverned(l: LinkId)

  function Unless(fine: bool, fault: Fault): seq<Fault> {
    if fine then [] else [fault]
  }

  function Lookup<K, V>(m: map<K, V>, k: K): Option<V> {
    if k in m then Some(m[k]) else None
  }

  function ListOf(m: map<ProposalId, seq<EventId>>, id: ProposalId): seq<EventId> {
    if id in m then m[id] else []
  }

  // ----- the three row scans -----

  method ReadLinks(links: map<LinkId, LinkProjection>, keys: seq<LinkId>)
    returns (read: map<LinkId, LinkProjection>, faults: seq<Fault>)
    requires forall i | 0 <= i < |keys| :: keys[i] in links
    ensures forall l :: l in read <==> l in keys
    ensures forall l | l in read :: l in links && read[l] == links[l]
    ensures faults == [] <==> forall l | l in read :: ProjectionRowClean(l, read[l])
  {
    read, faults := map[], [];
    for i := 0 to |keys|
      invariant forall l :: l in read <==> l in keys[..i]
      invariant forall l | l in read :: l in links && read[l] == links[l]
      invariant faults == [] <==> forall l | l in read :: ProjectionRowClean(l, read[l])
    {
      assert keys[..i + 1] == keys[..i] + [keys[i]];
      var l, projection := keys[i], links[keys[i]];
      ghost var before, was := read, faults;
      faults := faults + Unless(projection.revision == LinkDigest(projection), LinkRevision(l));
      read := read[l := projection];
      faults := faults + Unless(projection.edge.linkId == l, LinkKeyMismatch(l));
      assert faults == [] <==> was == [] && ProjectionRowClean(l, projection);
      assert forall k | k in read :: k == l || (k in before && read[k] == before[k]);
      assert forall k | k in before :: read[k] == before[k];
    }
    assert keys[..|keys|] == keys;
  }

  method ReadProposals(proposals: map<ProposalId, Proposal>, keys: seq<ProposalId>)
    returns (read: map<ProposalId, Proposal>, faults: seq<Fault>)
    requires forall i | 0 <= i < |keys| :: keys[i] in proposals
    ensures forall id :: id in read <==> id in keys
    ensures forall id | id in read :: id in proposals && read[id] == proposals[id]
    ensures faults == [] <==> forall id | id in read :: ProposalRowClean(id, read[id])
  {
    read, faults := map[], [];
    for i := 0 to |keys|
      invariant forall id :: id in read <==> id in keys[..i]
      invariant forall id | id in read :: id in proposals && read[id] == proposals[id]
      invariant faults == [] <==> forall id | id in read :: ProposalRowClean(id, read[id])
    {
      assert keys[..i + 1] == keys[..i] + [keys[i]];
      var id, p := keys[i], proposals[keys[i]];
      ghost var before, was := read, faults;
      faults := faults + Unless(p.revision == ProposalDigest(p), ProposalRevision(id));
      read := read[id := p];
      faults := faults + Unless(p.origin.proposalId == id, ProposalKeyMismatch(id));
      assert faults == [] <==> was == [] && ProposalRowClean(id, p);
      assert forall k | k in read :: k == id || (k in before && read[k] == before[k]);
      assert forall k | k in before :: read[k] == before[k];
    }
    assert keys[..|keys|] == keys;
  }

  /** The faults of one receipt row, given the creation time known for its link. */
  function ReceiptFaults(ev: EventId, r: Receipt, known: Option<int>): seq<Fault> {
    var e := r.payload;
    var q := e.result.proposal;
    Unless(e.eventId == ev && EventId(e.action, e.requestId) == ev && r.operationType == e.action
           && e.beforeRevision == r.beforeRevision && e.afterRevision == r.afterRevision, EventReceipt(ev))
    + Unless(e.result.state == e.afterState && q.origin.proposalId == e.proposalId
             && q.origin.terms.edge.linkId == e.linkId && q.revision == e.afterRevision && q.state == e.afterState
             && q.revision == ProposalDigest(q), EventResult(ev))
    + Unless(EnvelopeMatches(e.action, e.result, q), EventEnvelope(ev))
    + Unless(LinkEventClean(r, known), EventLink(ev))
    + Unless(e.reason == ReasonOf(e.action, q), EventReason(ev))
    + Unless(e.fingerprint == q.lastFingerprint, EventFingerprint(ev))
    + Unless(r.createdAt == q.updatedAt, EventCreation(ev))
    + Unless(e.actor == ActorOf(e.action, q), EventActor(ev))
    + Unless(r.contextId == q.origin.terms.edge.source, EventContext(ev))
  }

  lemma NoReceiptFaults(ev: EventId, r: Receipt, known: Option<int>)
    ensures ReceiptFaults(ev, r, known) == [] <==> EventClean(ev, r) && LinkEventClean(r, known)
  {
    hide LinkEventClean, EnvelopeMatches, ReasonOf, ActorOf;
  }

  lemma RowsCleanStep(s: Store, order: seq<EventId>)
    requires |order| > 0 && forall i | 0 <= i < |order| :: order[i] in s.receipts
    ensures var n := |order| - 1; var r := s.receipts[order[n]];
      RowsClean(s, order) <==>
        && RowsClean(s, order[..n])
        && EventClean(order[n], r)
        && LinkEventClean(r, KnownCreation(s, order[..n], r.payload.result.proposal.origin.terms.edge.linkId))
  {
    var n := |order| - 1;
    hide EventClean, LinkEventClean;
    assert forall i | 0 <= i < n :: order[..n][..i] == order[..i] && order[..n][i] == order[i];
  }

  /** Scans the receipts: collects the faults of each row and the receipts of each proposal. */
  method ReadReceipts(s: Store, order: seq<EventId>)
    returns (byProposal: map<ProposalId, seq<EventId>>, faults: seq<Fault>)
    requires forall i | 0 <= i < |order| :: order[i] in s.receipts
    ensures forall id :: ListOf(byProposal, id) == EventsOf(s, order, id)
    ensures forall id | id in byProposal :: byProposal[id] != []
    ensures faults == [] <==> RowsClean(s, order)
  {
    hide EventClean, LinkEventClean, ReceiptFaults, RowsClean;
    byProposal, faults := map[], [];
    var created: map<LinkId, int> := map[];
    RowsCleanAtStart(s);
    for i := 0 to |order|
      invariant forall id :: ListOf(byProposal, id) == EventsOf(s, order[..i], id)
      invariant forall id | id in byProposal :: byProposal[id] != []
      invariant forall l :: Lookup(created, l) == KnownCreation(s, order[..i], l)
      invariant faults == [] <==> RowsClean(s, order[..i])
    {
      assert order[..i + 1][..i] == order[..i];
      var ev, r := order[i], s.receipts[order[i]];
      var e := r.payload;
      var l := e.result.proposal.origin.terms.edge.linkId;
      var known := Lookup(created, l);
      NoReceiptFaults(ev, r, known);
      RowsCleanStep(s, order[..i + 1]);
      faults := faults + ReceiptFaults(ev, r, known);
      if e.result.link.Some? && LinkEventClean(r, known) && known.None? {
        created := created[l := e.result.link.value.createdAt];
      }
      byProposal := byProposal[e.proposalId := ListOf(byProposal, e.proposalId) + [ev]];
    }
    assert order[..|order|] == order;
  }

  lemma RowsCleanAtStart(s: Store)
    ensures RowsClean(s, [])
  {
  }

  // ----- the histories of the proposals -----

  function StepFaults(s: Store, id: ProposalId, events: seq<EventId>, k: nat): seq<Fault>
    requires k < |events| && forall i | 0 <= i < |events| :: events[i] in s.receipts
  {
    var e := s.receipts[events[k]].payload;
    Unless(e.sequence == k + 1, EventSequence(id))
    + Unless(e.beforeState == (if k == 0 then None else Some(s.receipts[events[k - 1]].payload.afterState))
             && e.beforeRevision == (if k == 0 then NoRevision else s.receipts[events[k - 1]].payload.afterRevision),
             EventChain(id, k + 1))
    + Unless(Allowed(e.beforeState, e.afterState), EventTransition(id, k + 1))
    + Unless(e.result.proposal.origin == s.receipts[events[0]].payload.result.proposal.origin,
             ProposalImmutability(id, k + 1))
  }

  lemma NoStepFaults(s: Store, id: ProposalId, events: seq<EventId>, k: nat)
    requires k < |events| && forall i | 0 <= i < |events| :: events[i] in s.receipts
    ensures StepFaults(s, id, events, k) == [] <==> StepClean(s, events, k)
  {
    hide Allowed;
  }

  method CheckHistory(s: Store, id: ProposalId, p: Proposal, events: seq<EventId>) returns (faults: seq<Fault>)
    requires forall i | 0 <= i < |events| :: events[i] in s.receipts
    ensures faults == [] <==> ChainClean(s, p, events)
  {
    faults := [];
    var k := 0;
    while k < |events|
      invariant 0 <= k <= |events|
      invariant faults == [] <==> forall j | 0 <= j < k :: StepClean(s, events, j)
    {
      hide StepClean, StepFaults;
      NoStepFaults(s, id, events, k);
      faults := faults + StepFaults(s, id, events, k);
      k := k + 1;
    }
    hide StepClean;
    if events == [] {
      faults := faults + [MissingHistory(id)];
    } else {
      var last := s.receipts[events[|events| - 1]].payload;
      faults := faults + Unless(p.lastEventId == last.eventId && p.revision == last.afterRevision
                                && p.state == last.afterState && p.eventCount == |events|
                                && last.result.proposal == p, ProjectionEvent(id));
    }
  }

  /** The lists of the audit after the first `n` proposals had theirs sorted. */
  ghost predicate Sorted(s: Store, order: seq<EventId>, byProposal: map<ProposalId, seq<EventId>>,
                         done: seq<ProposalId>)
    requires forall i | 0 <= i < |order| :: order[i] in s.receipts
  {
    forall id :: ListOf(byProposal, id) == if id in done then Chain(s, order, id) else EventsOf(s, order, id)
  }

  /** Sorts the receipts of every proposal and checks its history. */
  method CheckHistories(s: Store, order: seq<EventId>, keys: seq<ProposalId>,
                        collected: map<ProposalId, seq<EventId>>)
    returns (byProposal: map<ProposalId, seq<EventId>>, faults: seq<Fault>)
    requires forall i | 0 <= i < |order| :: order[i] in s.receipts
    requires Distinct(keys) && forall i | 0 <= i < |keys| :: keys[i] in s.proposals
    requires forall id :: ListOf(collected, id) == EventsOf(s, order, id)
    ensures Sorted(s, order, byProposal, keys)
    ensures faults == [] <==>
              forall i | 0 <= i < |keys| :: ChainClean(s, s.proposals[keys[i]], Chain(s, order, keys[i]))
  {
    hide ChainClean, Chain, Sorted, ListOf;
    byProposal, faults := collected, [];
    SortedAtStart(s, order, collected);
    for n := 0 to |keys|
      invariant Sorted(s, order, byProposal, keys[..n])
      invariant faults == [] <==>
                  forall i | 0 <= i < n :: ChainClean(s, s.proposals[keys[i]], Chain(s, order, keys[i]))
    {
      assert keys[..n + 1] == keys[..n] + [keys[n]];
      var id := keys[n];
      assert id !in keys[..n];
      SortsNext(s, order, byProposal, keys[..n], id);
      byProposal := byProposal[id := StableSort(SequenceOf(s), ListOf(byProposal, id))];
      var found := CheckHistory(s, id, s.proposals[id], byProposal[id]);
      faults := faults + found;
    }
    assert keys[..|keys|] == keys;
  }

  lemma SortedAtStart(s: Store, order: seq<EventId>, byProposal: map<ProposalId, seq<EventId>>)
    requires forall i | 0 <= i < |order| :: order[i] in s.receipts
    requires forall id :: ListOf(byProposal, id) == EventsOf(s, order, id)
    ensures Sorted(s, order, byProposal, [])
  {
  }

  lemma SortsNext(s: Store, order: seq<EventId>, byProposal: map<ProposalId, seq<EventId>>, done: seq<ProposalId>,
                  id: ProposalId)
    requires forall i | 0 <= i < |order| :: order[i] in s.receipts
    requires Sorted(s, order, byProposal, done) && id !in done
    ensures var sorted := StableSort(SequenceOf(s), ListOf(byProposal, id));
      sorted == Chain(s, order, id) && Sorted(s, order, byProposal[id := sorted], done + [id])
  {
    hide StableSort, EventsOf, SequenceOf;
    ChainSorts(s, order, id);
    hide Chain;
    assert ListOf(byProposal, id) == EventsOf(s, order, id);
  }

  lemma ChainSorts(s: Store, order: seq<EventId>, id: ProposalId)
    requires forall i | 0 <= i < |order| :: order[i] in s.receipts
    ensures StableSort(SequenceOf(s), EventsOf(s, order, id)) == Chain(s, order, id)
  {
  }

  lemma SortedList(s: Store, order: seq<EventId>, byProposal: map<ProposalId, seq<EventId>>, done: seq<ProposalId>,
                   id: ProposalId)
    requires forall i | 0 <= i < |order| :: order[i] in s.receipts
    requires Sorted(s, order, byProposal, done) && id in done
    ensures ListOf(byProposal, id) == Chain(s, order, id)
  {
    hide Chain;
  }

  /** Reports every proposal that has receipts but no row. */
  method CheckOrphans(s: Store, order: seq<EventId>, byProposal: map<ProposalId, seq<EventId>>)
    returns (faults: seq<Fault>)
    requires forall i | 0 <= i < |order| :: order[i] in s.receipts
    requires forall id :: ListOf(byProposal, id) == EventsOf(s, order, id)
    requires forall id | id in byProposal :: byProposal[id] != []
    ensures faults == [] <==> forall i | 0 <= i < |order| :: s.receipts[order[i]].payload.proposalId in s.proposals
  {
    faults := [];
    var orphans := set id | id in byProposal && id !in s.proposals;
    ghost var all := orphans;
    while orphans != {}
      invariant faults == [] <==> orphans == all
      invariant orphans <= all
      decreases |orphans|
    {
      var id :| id in orphans;
      faults := faults + [OrphanHistory(id)];
      orphans := orphans - {id};
    }
    forall i | 0 <= i < |order|
      ensures s.receipts[order[i]].payload.proposalId in byProposal
    {
      var id := s.receipts[order[i]].payload.proposalId;
      EventsOfMembers(s, order, id);
      assert order[i] in ListOf(byProposal, id);
    }
    forall id | id in byProposal
      ensures exists i :: 0 <= i < |order| && s.receipts[order[i]].payload.proposalId == id
    {
      EventsOfMembers(s, order, id);
      assert ListOf(byProposal, id)[0] in EventsOf(s, order, id);
      var i :| 0 <= i < |order| && order[i] == ListOf(byProposal, id)[0];
    }
    assert forall id | id in byProposal :: id in s.proposals || id in all;
    if all != {} {
      var id :| id in all;
      assert id in byProposal && id !in s.proposals;
    }
  }

  // ----- approved and materialized links -----

  function ApprovedFaults(s: Store, id: ProposalId): seq<Fault>
    requires id in s.proposals
  {
    var l := s.proposals[id].origin.terms.edge.linkId;
    if s.proposals[id].state != Approved then []
    else if l !in s.links then [ApprovedWithoutProjection(l)]
    else Unless(s.links[l].proposalId == id, Fault.ApprovedOwner(l))
  }

  predicate EverApproved(s: Store, events: seq<EventId>)
    requires forall i | 0 <= i < |events| :: events[i] in s.receipts
  {
    exists i | 0 <= i < |events| :: s.receipts[events[i]].payload.afterState == Approved
  }

  /** Some of the first `n` proposals has the link and was ever approved. */
  ghost predicate Needed(s: Store, order: seq<EventId>, keys: seq<ProposalId>, n: nat, l: LinkId)
    requires forall i | 0 <= i < |order| :: order[i] in s.receipts
    requires n <= |keys| && forall i | 0 <= i < |keys| :: keys[i] in s.proposals
  {
    exists i :: 0 <= i < n && s.proposals[keys[i]].origin.terms.edge.linkId == l
                && EverApproved(s, Chain(s, order, keys[i]))
  }

  method CheckApproved(s: Store, order: seq<EventId>, keys: seq<ProposalId>,
                       byProposal: map<ProposalId, seq<EventId>>)
    returns (materialized: set<LinkId>, faults: seq<Fault>)
    requires forall i | 0 <= i < |order| :: order[i] in s.receipts
    requires forall i | 0 <= i < |keys| :: keys[i] in s.proposals
    requires Sorted(s, order, byProposal, keys)
    ensures faults == [] <==> forall i | 0 <= i < |keys| :: ApprovedOwnerClean(s, keys[i])
    ensures forall l :: l in materialized <==> Needed(s, order, keys, |keys|, l)
  {
    hide Chain, EverApproved, Sorted, ListOf;
    faults, materialized := [], {};
    for n := 0 to |keys|
      invariant faults == [] <==> forall i | 0 <= i < n :: ApprovedOwnerClean(s, keys[i])
      invariant forall l :: l in materialized <==> Needed(s, order, keys, n, l)
    {
      var id := keys[n];
      SortedList(s, order, byProposal, keys, id);
      if EverApproved(s, ListOf(byProposal, id)) {
        materialized := materialized + {s.proposals[id].origin.terms.edge.linkId};
      }
      faults := faults + ApprovedFaults(s, id);
    }
  }

  method CheckSurfaces(s: Store, materialized: set<LinkId>) returns (faults: seq<Fault>)
    ensures faults == [] <==> forall l | l in materialized :: l in s.links && l in s.durable
  {
    faults := [];
    var rest := materialized;
    while rest != {}
      invariant rest <= materialized
      invariant faults == [] <==> forall l | l in materialized - rest :: l in s.links && l in s.durable
      decreases |rest|
    {
      var l :| l in rest;
      faults := faults + Unless(l in s.links, MaterializedWithoutProjection(l))
                       + Unless(l in s.durable, MaterializedWithoutDurable(l));
      rest := rest - {l};
    }
  }

  /** All needed links have both surfaces exactly when every proposal passes the check on its link. */
  lemma NeededAreMaterialized(s: Store, order: seq<EventId>, keys: seq<ProposalId>)
    requires forall i | 0 <= i < |order| :: order[i] in s.receipts
    requires forall i | 0 <= i < |keys| :: keys[i] in s.proposals
    ensures (forall l | Needed(s, order, keys, |keys|, l) :: l in s.links && l in s.durable) <==>
            forall i | 0 <= i < |keys| :: MaterializedClean(s, keys[i], Chain(s, order, keys[i]))
  {
    forall i | 0 <= i < |keys|
      ensures MaterializedClean(s, keys[i], Chain(s, order, keys[i])) <==>
              (EverApproved(s, Chain(s, order, keys[i])) ==>
                 s.proposals[keys[i]].origin.terms.edge.linkId in s.links
                 && s.proposals[keys[i]].origin.terms.edge.linkId in s.durable)
    {
      MaterializedMeans(s, keys[i], Chain(s, order, keys[i]));
    }
    hide EverApproved, MaterializedClean, Chain;
  }

  lemma MaterializedMeans(s: Store, id: ProposalId, events: seq<EventId>)
    requires id in s.proposals && forall i | 0 <= i < |events| :: events[i] in s.receipts
    ensures MaterializedClean(s, id, events) <==>
              (EverApproved(s, events) ==>
                 s.proposals[id].origin.terms.edge.linkId in s.links
                 && s.proposals[id].origin.terms.edge.linkId in s.durable)
  {
  }

  // ----- the links -----

  function LinkFaults(s: Store, l: LinkId, ownerEvents: seq<EventId>): seq<Fault>
    requires l in s.links && forall i | 0 <= i < |ownerEvents| :: ownerEvents[i] in s.receipts
  {
    var projection := s.links[l];
    var id := projection.proposalId;
    if id !in s.proposals then [LinkWithoutProposal(l)]
    else
      var p := s.proposals[id];
      Unless(p.origin.terms.edge.linkId == l && projection.proposalRevision == p.revision
             && projection.state == p.state && projection.lastEventId == p.lastEventId
             && projection.linkExpiresAt == p.origin.linkExpiresAt && projection.updatedAt == p.updatedAt,
             LinkProposal(l))
      + Unless(p.state != Pending && p.state != Rejected, ImpossibleLinkState(l))
      + if l !in s.durable then [LinkWithoutDurable(l)]
        else
          var row := s.durable[l];
          Unless(projection.enabled == (p.state == Approved), ProjectionEnabled(l))
          + Unless(row.enabled == (p.state == Approved), RowEnabled(l))
          + Unless(StructuresMatch(p, projection, row), LinkStructure(l))
          + Unless(row.evidence == BoundEvidence(p.origin.terms.evidence, p), LinkEvidence(l))
          + Unless(row.approvedBy == p.reviewed.actor && row.approvedAt == p.reviewed.at
                   && row.updatedAt == p.updatedAt, LinkProvenance(l))
          + Unless(|ownerEvents| > 0
                   && s.receipts[ownerEvents[|ownerEvents| - 1]].payload.result.link == Some(row), LinkReceipt(l))
  }

  lemma NoLinkFaults(s: Store, l: LinkId, ownerEvents: seq<EventId>)
    requires l in s.links && forall i | 0 <= i < |ownerEvents| :: ownerEvents[i] in s.receipts
    ensures LinkFaults(s, l, ownerEvents) == [] <==> LinkClean(s, l, ownerEvents)
  {
    hide StructuresMatch, BoundEvidence;
  }

  method CheckLinks(s: Store, order: seq<EventId>, keys: seq<LinkId>, done: seq<ProposalId>,
                    byProposal: map<ProposalId, seq<EventId>>)
    returns (faults: seq<Fault>)
    requires forall i | 0 <= i < |order| :: order[i] in s.receipts
    requires forall i | 0 <= i < |keys| :: keys[i] in s.links
    requires forall id :: id in done <==> id in s.proposals
    requires Sorted(s, order, byProposal, done)
    ensures faults == [] <==>
              forall i | 0 <= i < |keys| :: LinkClean(s, keys[i], Chain(s, order, s.links[keys[i]].proposalId))
  {
    hide Chain, LinkClean, LinkFaults, Sorted, ListOf;
    faults := [];
    for n := 0 to |keys|
      invariant faults == [] <==>
                  forall i | 0 <= i < n :: LinkClean(s, keys[i], Chain(s, order, s.links[keys[i]].proposalId))
    {
      var owner := s.links[keys[n]].proposalId;
      if owner in s.proposals {
        SortedList(s, order, byProposal, done, owner);
        NoLinkFaults(s, keys[n], ListOf(byProposal, owner));
        faults := faults + LinkFaults(s, keys[n], ListOf(byProposal, owner));
      } else {
        NoOwner(s, keys[n], Chain(s, order, owner));
        faults := faults + [LinkWithoutProposal(keys[n])];
      }
    }
  }

  method CheckUngoverned(s: Store) returns (faults: seq<Fault>)
    ensures faults == [] <==> forall l | l in s.durable :: l in s.links
  {
    faults := [];
    var rest := set l | l in s.durable && l !in s.links;
    ghost var all := rest;
    while rest != {}
      invariant rest <= all
      invariant faults == [] <==> rest == all
      decreases |rest|
    {
      var l :| l in rest;
      faults := faults + [Ungoverned(l)];
      rest := rest - {l};
    }
    assert forall l | l in s.durable :: l in s.links || l in all;
    if all != {} {
      var l :| l in all;
      assert l in s.durable && l !in s.links;
    }
  }

  lemma NoOwner(s: Store, l: LinkId, ownerEvents: seq<EventId>)
    requires l in s.links && forall i | 0 <= i < |ownerEvents| :: ownerEvents[i] in s.receipts
    requires s.links[l].proposalId !in s.proposals
    ensures !LinkClean(s, l, ownerEvents)
  {
  }

  // ----- the whole audit -----

  /** The orders in which the audit's three queries return their rows; in the first, link keys
      sort before proposal keys. */
  datatype RowOrders = RowOrders(links: seq<LinkId>, proposals: seq<ProposalId>, receipts: seq<EventId>,
                                 durable: seq<LinkId>)

  ghost predicate Ordered(s: Store, o: RowOrders) {
    && Distinct(o.links) && (forall l :: l in o.links <==> l in s.links)
    && Distinct(o.proposals) && (forall id :: id in o.proposals <==> id in s.proposals)
    && Distinct(o.durable) && (forall l :: l in o.durable <==> l in s.durable)
    && Listing(s, o.receipts)
  }

  lemma {:induction false} CountKeys<K, V>(keys: seq<K>, m: map<K, V>)
    requires Distinct(keys) && forall k :: k in keys <==> k in m
    ensures |keys| == |m|
  {
    if |keys| > 0 {
      var n := |keys| - 1;
      var rest := map k | k in m && k != keys[n] :: m[k];
      assert keys == keys[..n] + [keys[n]];
      assert keys[n] !in keys[..n];
      CountKeys(keys[..n], rest);
      assert rest.Keys == m.Keys - {keys[n]};
      assert |rest| == |rest.Keys| && |m| == |m.Keys|;
    } else {
      assert m == map[];
    }
  }

  lemma OrdersCount(s: Store, o: RowOrders)
    requires Ordered(s, o)
    ensures WithinCapacity(s) <==> |o.links| + |o.proposals| <= MAX_AUDIT_ROWS
                                   && |o.receipts| <= MAX_AUDIT_ROWS && |o.durable| <= MAX_AUDIT_ROWS
  {
    CountKeys(o.links, s.links);
    CountKeys(o.proposals, s.proposals);
    CountKeys(o.durable, s.durable);
    CountKeys(o.receipts, s.receipts);
  }

  /** The checks on single rows. */
  ghost predicate RowPart(s: Store, order: seq<EventId>)
    requires forall i | 0 <= i < |order| :: order[i] in s.receipts
  {
    && (forall l | l in s.links :: ProjectionRowClean(l, s.links[l]))
    && (forall id | id in s.proposals :: ProposalRowClean(id, s.proposals[id]))
    && RowsClean(s, order)
  }

  /** The checks across rows, in key order. */
  ghost predicate CrossPart(s: Store, order: seq<EventId>, links: seq<LinkId>, proposals: seq<ProposalId>)
    requires forall i | 0 <= i < |order| :: order[i] in s.receipts
    requires forall i | 0 <= i < |links| :: links[i] in s.links
    requires forall i | 0 <= i < |proposals| :: proposals[i] in s.proposals
  {
    && (forall i | 0 <= i < |proposals| :: ChainClean(s, s.proposals[proposals[i]], Chain(s, order, proposals[i])))
    && (forall i | 0 <= i < |order| :: s.receipts[order[i]].payload.proposalId in s.proposals)
    && (forall i | 0 <= i < |proposals| :: ApprovedOwnerClean(s, proposals[i]))
    && (forall i | 0 <= i < |proposals| :: MaterializedClean(s, proposals[i], Chain(s, order, proposals[i])))
    && (forall i | 0 <= i < |links| :: LinkClean(s, links[i], Chain(s, order, s.links[links[i]].proposalId)))
    && (forall l | l in s.durable :: l in s.links)
  }

  /** The content check, spelled out over the key orders. */
  lemma ContentByKeys(s: Store, o: RowOrders)
    requires Ordered(s, o)
    ensures ContentClean(s, o.receipts) <==>
              RowPart(s, o.receipts) && CrossPart(s, o.receipts, o.links, o.proposals)
  {
    hide RowsClean, ProposalRowClean, ChainClean, ApprovedOwnerClean, MaterializedClean, ProjectionRowClean, LinkClean;
    hide Chain, Listing;
    assert forall id | id in s.proposals :: exists i :: 0 <= i < |o.proposals| && o.proposals[i] == id;
    assert forall l | l in s.links :: exists i :: 0 <= i < |o.links| && o.links[i] == l;
    assert forall i | 0 <= i < |o.proposals| :: o.proposals[i] in s.proposals;
    assert forall i | 0 <= i < |o.links| :: o.links[i] in s.links;
  }

  /** The checks across rows. */
  method CheckAcross(s: Store, order: seq<EventId>, links: seq<LinkId>, proposals: seq<ProposalId>,
                     collected: map<ProposalId, seq<EventId>>)
    returns (faults: seq<Fault>)
    requires forall i | 0 <= i < |order| :: order[i] in s.receipts
    requires forall i | 0 <= i < |links| :: links[i] in s.links
    requires Distinct(proposals) && forall id :: id in proposals <==> id in s.proposals
    requires forall id :: ListOf(collected, id) == EventsOf(s, order, id)
    requires forall id | id in collected :: collected[id] != []
    ensures faults == [] <==> CrossPart(s, order, links, proposals)
  {
    hide ChainClean, ApprovedOwnerClean, MaterializedClean, LinkClean, Chain, Sorted, EventsOf, ListOf, Needed;
    var byProposal, historyFaults := CheckHistories(s, order, proposals, collected);
    var orphanFaults := CheckOrphans(s, order, collected);
    var needed, approvedFaults := CheckApproved(s, order, proposals, byProposal);
    var surfaceFaults := CheckSurfaces(s, needed);
    NeededAreMaterialized(s, order, proposals);
    var ownerFaults := CheckLinks(s, order, links, proposals, byProposal);
    var ungoverned := CheckUngoverned(s);
    faults := historyFaults + orphanFaults + approvedFaults + surfaceFaults + ownerFaults + ungoverned;
    assert surfaceFaults == [] <==>
      forall l | Needed(s, order, proposals, |proposals|, l) :: l in s.links && l in s.durable;
    assert faults == [] <==> historyFaults == [] && orphanFaults == [] && approvedFaults == [] && surfaceFaults == []
                             && ownerFaults == [] && ungoverned == [];
  }

  /** The audit of the four tables: no fault exactly when every check passes. */
  method AuditTables(s: Store, o: RowOrders) returns (faults: seq<Fault>)
    requires Ordered(s, o)
    ensures faults == [] <==> AuditClean(s, o.receipts)
  {
    hide RowsClean, ProposalRowClean, ProjectionRowClean, EventsOf, ListOf, ContentClean, WithinCapacity, CrossPart;
    OrdersCount(s, o);
    var linkKeys := Firsts(o.links, MAX_AUDIT_ROWS);
    var proposalKeys := Firsts(o.proposals, MAX_AUDIT_ROWS - |linkKeys|);
    faults := Unless(|o.links| + |o.proposals| <= MAX_AUDIT_ROWS, MetadataCapacity);
    var links, linkFaults := ReadLinks(s.links, linkKeys);
    var proposals, proposalFaults := ReadProposals(s.proposals, proposalKeys);
    faults := faults + linkFaults + proposalFaults;

    var order := Firsts(o.receipts, MAX_AUDIT_ROWS);
    faults := faults + Unless(|o.receipts| <= MAX_AUDIT_ROWS, EventCapacity);
    var collected, receiptFaults := ReadReceipts(s, order);
    faults := faults + receiptFaults;

    var durableKeys := Firsts(o.durable, MAX_AUDIT_ROWS);
    faults := faults + Unless(|o.durable| <= MAX_AUDIT_ROWS, DurableCapacity);
    var durable := map l | l in durableKeys :: s.durable[l];

    var view := Store(proposals, links, durable, s.receipts);
    SameReceipts(s, view, order);
    var crossFaults := CheckAcross(view, order, linkKeys, proposalKeys, collected);
    if WithinCapacity(s) {
      assert view == s && order == o.receipts && linkKeys == o.links && proposalKeys == o.proposals;
      ContentByKeys(s, o);
      assert faults == [] <==> RowPart(s, o.receipts);
    }
    faults := faults + crossFaults;
  }

  lemma {:induction false} SameReceipts(s: Store, s': Store, order: seq<EventId>)
    requires s'.receipts == s.receipts && forall i | 0 <= i < |order| :: order[i] in s.receipts
    ensures forall id :: EventsOf(s', order, id) == EventsOf(s, order, id)
  {
    if |order| > 0 {
      SameReceipts(s, s', order[..|order| - 1]);
    }
  }
}
