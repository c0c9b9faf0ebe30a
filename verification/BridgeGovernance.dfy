/** The governance service: the transactions and readers over the four tables, in place. */
module BridgeGovernanceService {
  import opened GovernanceTypes
  import opened GovernanceSteps
  import opened GovernanceInvariant
  import opened GovernanceRuns
  import opened GovernanceReaders
  import opened GovernanceAudit
  import opened GovernanceAuditLoops

  datatype Reply = Replied(answer: Answer) | Failed(why: Refusal)

  datatype SweepReply = Expiries(expired: seq<Answer>) | SweepFailed(why: Refusal)

  datatype Listed = Listed(rows: seq<DurableLink>) | ListFailed(why: Refusal)

  datatype Recalled = Recalled(records: seq<RecallRecord>) | RecallFailed(why: Refusal)

  /** The tables and the reply after a transaction with this outcome; a refusal rolls back. */
  ghost predicate Applied(before: Store, after: Store, outcome: Outcome, reply: Reply) {
    match outcome
    case Committed(store, answer) => after == store && reply == Replied(answer)
    case Refused(why) => after == before && reply == Failed(why)
  }

  class BridgeGovernance {
    const policy: Policy
    var proposals: map<ProposalId, Proposal>
    var links: map<LinkId, LinkProjection>
    var durable: map<LinkId, DurableLink>
    var receipts: map<EventId, Receipt>

    function Tables(): Store
      reads this
    {
      Store(proposals, links, durable, receipts)
    }

    constructor (policy: Policy)
      ensures this.policy == policy && Tables() == EMPTY_STORE
    {
      this.policy := policy;
      proposals, links, durable, receipts := map[], map[], map[], map[];
    }

    method Propose(ask: LinkAsk, proposedBy: Actor, reason: string, redactions: int, proposalExpiry: Option<int>,
                   linkExpiry: Option<int>, supplied: Option<RequestId>, now: int) returns (reply: Reply)
      modifies this
      ensures Applied(old(Tables()), Tables(),
                      ProposeStep(old(Tables()), ask, proposedBy, reason, redactions, proposalExpiry, linkExpiry,
                                  supplied, now), reply)
    {
      hide ReplayEvent, NormalizedTerms;
      var cleaned := NormalizedTerms(ask);
      if cleaned.None? || proposedBy == "" || reason == "" || now <= 0
         || (proposalExpiry.Some? && proposalExpiry.value <= 0) || (linkExpiry.Some? && linkExpiry.value <= 0)
      {
        return Failed(ValidationError);
      }
      var terms := cleaned.value;
      var fp := Fingerprint(Action.Propose, ProposeRequest(terms, proposedBy, reason, proposalExpiry, linkExpiry));
      var rid := RequestIdFor(supplied, false, fp);
      var id := ReviewedId(rid, fp);
      var event := EventId(Action.Propose, rid);
      match ReplayEvent(Tables(), Action.Propose, rid, fp, now) {
        case ReplayRefused(why) => return Failed(why);
        case Replayed(answer) => return Replied(answer);
        case Fresh =>
      }
      if id in proposals {
        return Failed(Conflict);
      }
      var closes := BoundedExpiry(proposalExpiry, now, Some(now + DEFAULT_PROPOSAL_TTL), MIN_PROPOSAL_TTL,
                                  MAX_PROPOSAL_TTL);
      var ends := BoundedExpiry(linkExpiry, now, None, MIN_LINK_TTL, MAX_LINK_TTL);
      if closes.None? || closes.value.None? || ends.None? {
        return Failed(ValidationError);
      }
      var origin := Origin(id, terms, reason, redactions, proposedBy, now, closes.value.value, ends.value, rid, false);
      var p := NewPending(origin, event, fp, now);
      proposals := proposals[id := p];
      receipts := receipts[event := ReceiptOf(Action.Propose, rid, fp, p, None, NoRevision, proposedBy, reason, None,
                                              now)];
      reply := Replied(FreshAnswer(Action.Propose, p, None));
    }

    /** Inserts or updates the durable row of an approval, or refuses. */
    method MaterializeApprovedLink(p: Proposal, actor: Actor, now: int) returns (done: Materialization)
      modifies this`durable
      ensures done == Materialize(old(Tables()), p, actor, now)
      ensures durable == if done.Materialized? then old(durable)[p.origin.terms.edge.linkId := done.row]
                         else old(durable)
    {
      var edge := p.origin.terms.edge;
      var id := edge.linkId;
      if id in links && links[id].proposalId != p.origin.proposalId && links[id].state == Approved {
        return NotMaterialized(Conflict);
      }
      if id in durable && !(durable[id].edge == edge && StableEdge(durable[id].edge)) {
        return NotMaterialized(IntegrityError);
      }
      if exists other | other in durable ::
           other != id
           && durable[other].edge.source == edge.source && durable[other].edge.target == edge.target
           && durable[other].edge.relation == edge.relation && durable[other].edge.direction == edge.direction
      {
        return NotMaterialized(Conflict);
      }
      var evidence := BoundEvidence(p.origin.terms.evidence, p);
      var row := DurableLink(edge, p.origin.terms.weight, evidence, true, actor, now,
                             if id in durable then durable[id].createdAt else now, now);
      durable := durable[id := row];
      done := Materialized(row);
    }

    /** Writes the new version of a proposal, its link projection when a row is given, and the receipt. */
    method Record(p: Proposal, row: Option<DurableLink>, receipt: Receipt)
      modifies this
      ensures Tables() == Recorded(old(Tables()), p, row, receipt)
    {
      var l := p.origin.terms.edge.linkId;
      proposals := proposals[p.origin.proposalId := p];
      if row.Some? {
        durable := durable[l := row.value];
        links := links[l := LinkProjectionOf(p, p.state == Approved, receipt.createdAt)];
      }
      receipts := receipts[receipt.payload.eventId := receipt];
    }

    method Review(id: ProposalId, decision: Action, reviewedBy: Actor, reason: string, expected: Revision,
                  supplied: Option<RequestId>, now: int) returns (reply: Reply)
      modifies this
      ensures Applied(old(Tables()), Tables(),
                      ReviewStep(old(Tables()), policy, id, decision, reviewedBy, reason, expected, supplied, now),
                      reply)
    {
      hide ReplayEvent, Materialize, ProposalBound, Transition, Recorded, ReceiptOf, FreshAnswer;
      if !(decision == Approve || decision == Reject) || reviewedBy == "" || reason == ""
         || expected.NoRevision? || now <= 0
      {
        return Failed(ValidationError);
      }
      var fp := Fingerprint(decision, ReviewRequest(id, reviewedBy, reason, expected));
      var rid := RequestIdFor(supplied, false, fp);
      match ReplayEvent(Tables(), decision, rid, fp, now) {
        case ReplayRefused(why) => return Failed(why);
        case Replayed(answer) => return Replied(answer);
        case Fresh =>
      }
      if id !in proposals {
        return Failed(NotFound);
      }
      if !ProposalBound(Tables(), id) {
        return Failed(IntegrityError);
      }
      var p := proposals[id];
      if p.revision != expected {
        return Failed(StaleRevision);
      }
      if p.state != Pending {
        return Failed(InvalidTransition);
      }
      if now >= p.origin.proposalExpiresAt
         || (decision == Approve && p.origin.linkExpiresAt.Some? && now >= p.origin.linkExpiresAt.value)
      {
        return Failed(WindowExpired);
      }
      if policy.requireDistinctReviewer && reviewedBy == p.origin.proposedBy {
        return Failed(InvalidTransition);
      }
      var reviewed := Transition(p, decision, EventId(decision, rid), reviewedBy, reason, fp, now);
      ReviewedOrigin(p, decision, EventId(decision, rid), reviewedBy, reason, fp, now);
      var row := None;
      if decision == Approve {
        var done := MaterializeApprovedLink(reviewed, reviewedBy, now);
        if done.NotMaterialized? {
          return Failed(done.why);
        }
        row := Some(done.row);
        RecordsOnce(old(Tables()), reviewed, done.row,
                    ReceiptOf(decision, rid, fp, reviewed, Some(Pending), expected, reviewedBy, reason, row, now));
      }
      Record(reviewed, row,
             ReceiptOf(decision, rid, fp, reviewed, Some(Pending), expected, reviewedBy, reason, row, now));
      reply := Replied(FreshAnswer(decision, reviewed, row));
    }

    method CompatApprove(ask: LinkAsk, approvedBy: Actor, reason: string, redactions: int, linkExpiry: Option<int>,
                         supplied: Option<RequestId>, confirm: bool, now: int) returns (reply: Reply)
      modifies this
      ensures Applied(old(Tables()), Tables(),
                      CompatStep(old(Tables()), policy, ask, approvedBy, reason, redactions, linkExpiry, supplied,
                                 confirm, now), reply)
    {
      hide ReplayEvent, Materialize, NormalizedTerms;
      if !policy.allowCompatibilityApproval || policy.requireDistinctReviewer {
        return Failed(InvalidTransition);
      }
      var cleaned := NormalizedTerms(ask);
      if !confirm || cleaned.None? || approvedBy == "" || reason == "" || now <= 0
         || (linkExpiry.Some? && linkExpiry.value <= 0)
      {
        return Failed(ValidationError);
      }
      var request := CompatRequest(cleaned.value, approvedBy, reason, linkExpiry);
      var proposeFp := Fingerprint(Action.Propose, request);
      var approveFp := Fingerprint(Approve, request);
      var rid := RequestIdFor(supplied, true, approveFp);
      var proposeRid, approveRid := ProposePart(rid), ApprovePart(rid);
      var id := CompatId(rid, approveFp);
      match ReplayEvent(Tables(), Approve, approveRid, approveFp, now) {
        case ReplayRefused(why) => return Failed(why);
        case Replayed(answer) => return Replied(answer);
        case Fresh =>
      }
      if id in proposals {
        return Failed(Conflict);
      }
      var ends := BoundedExpiry(linkExpiry, now, None, MIN_LINK_TTL, MAX_LINK_TTL);
      if ends.None? {
        return Failed(ValidationError);
      }
      var before := Tables();
      var origin := Origin(id, cleaned.value, reason, redactions, approvedBy, now, now + DEFAULT_PROPOSAL_TTL,
                           ends.value, rid, true);
      var pending := NewPending(origin, EventId(Action.Propose, proposeRid), proposeFp, now);
      var approved := Transition(pending, Approve, EventId(Approve, approveRid), approvedBy, reason, approveFp, now);
      var done := MaterializeApprovedLink(approved, approvedBy, now);
      if done.NotMaterialized? {
        return Failed(done.why);
      }
      if EventId(Action.Propose, proposeRid) in receipts {
        durable := before.durable;
        return Failed(DuplicateReceipt);
      }
      proposals := proposals[id := pending];
      receipts := receipts[EventId(Action.Propose, proposeRid) :=
        ReceiptOf(Action.Propose, proposeRid, proposeFp, pending, None, NoRevision, approvedBy, reason, None, now)];
      Record(approved, Some(done.row),
             ReceiptOf(Approve, approveRid, approveFp, approved, Some(Pending), pending.revision, approvedBy, reason,
                       Some(done.row), now));
      reply := Replied(FreshAnswer(Approve, approved, Some(done.row)));
    }

    method Deactivate(action: Action, link: LinkId, actor: Actor, reason: string, expected: Revision,
                      supplied: Option<RequestId>, confirm: bool, now: int) returns (reply: Reply)
      modifies this
      ensures Applied(old(Tables()), Tables(),
                      DeactivateStep(old(Tables()), action, link, actor, reason, expected, supplied, confirm, now),
                      reply)
    {
      hide ReplayEvent, ProposalBound, Transition;
      if !(action == Disable || action == Revoke) || !confirm || actor == "" || reason == ""
         || expected.NoRevision? || now <= 0
      {
        return Failed(ValidationError);
      }
      var fp := Fingerprint(action, DeactivateRequest(link, actor, reason, expected));
      var rid := RequestIdFor(supplied, false, fp);
      match ReplayEvent(Tables(), action, rid, fp, now) {
        case ReplayRefused(why) => return Failed(why);
        case Replayed(answer) => return Replied(answer);
        case Fresh =>
      }
      if link !in links || links[link].proposalId !in proposals {
        return Failed(NotFound);
      }
      var id := links[link].proposalId;
      if !ProposalBound(Tables(), id) {
        return Failed(IntegrityError);
      }
      var p := proposals[id];
      if p.origin.terms.edge.linkId != link || !CheckLink(Tables(), p).GoodLink? {
        return Failed(IntegrityError);
      }
      if p.revision != expected {
        return Failed(StaleRevision);
      }
      if !(p.state == Approved || (action == Revoke && p.state == Disabled)) {
        return Failed(InvalidTransition);
      }
      var next := Transition(p, action, EventId(action, rid), actor, reason, fp, now);
      ReviewedOrigin(p, action, EventId(action, rid), actor, reason, fp, now);
      var row := durable[link].(enabled := false, evidence := BoundEvidence(durable[link].evidence, next),
                                updatedAt := now);
      Record(next, Some(row),
             ReceiptOf(action, rid, fp, next, Some(p.state), expected, actor, reason, Some(row), now));
      reply := Replied(FreshAnswer(action, next, Some(row)));
    }

    method ExpireProjection(id: ProposalId, now: int) returns (reply: Reply)
      requires id in proposals
      modifies this
      ensures Applied(old(Tables()), Tables(), ExpireOne(old(Tables()), id, now), reply)
    {
      hide ReplayEvent, ProposalBound, Transition, Recorded, ReceiptOf, FreshAnswer;
      if !ProposalBound(Tables(), id) {
        return Failed(IntegrityError);
      }
      var p := proposals[id];
      var reason := ExpiryReason(p);
      var fp := Fingerprint(Expire, ExpireRequest(id, p.revision, reason));
      var rid := ExpiryOf(id, now);
      match ReplayEvent(Tables(), Expire, rid, fp, now) {
        case ReplayRefused(why) => return Failed(why);
        case Replayed(answer) => return Replied(answer);
        case Fresh =>
      }
      if !Allowed(Some(p.state), Expired) {
        return Failed(InvalidTransition);
      }
      var next := Transition(p, Expire, EventId(Expire, rid), SYSTEM_ACTOR, reason, fp, now);
      var link := p.origin.terms.edge.linkId;
      var row := None;
      if p.state == Approved || p.state == Disabled {
        if link !in durable {
          return Failed(IntegrityError);
        }
        row := Some(durable[link].(enabled := false, evidence := BoundEvidence(durable[link].evidence, next),
                                   updatedAt := now));
      }
      Record(next, row, ReceiptOf(Expire, rid, fp, next, Some(p.state), p.revision, SYSTEM_ACTOR, reason, row, now));
      reply := Replied(FreshAnswer(Expire, next, row));
    }

    /** The sweep over the proposal keys in row order; a refusal undoes all of it. */
    method ExpireDue(rows: seq<ProposalId>, limit: int, now: int) returns (reply: SweepReply)
      modifies this
      ensures match SweepStep(old(Tables()), rows, limit, now)
              case Swept(store, expired) => Tables() == store && reply == Expiries(expired)
              case SweepRefused(why) => Tables() == old(Tables()) && reply == SweepFailed(why)
    {
      hide ExpireOne, Due;
      if now <= 0 || limit < 1 || limit > MAX_LIST_LIMIT {
        return SweepFailed(ValidationError);
      }
      var before := Tables();
      var expired: seq<Answer> := [];
      for i := 0 to |rows|
        invariant |expired| <= limit
        invariant SweepRows(before, rows, now, limit)
               == After(expired, SweepRows(Tables(), rows[i..], now, limit - |expired|))
      {
        assert rows[i..][0] == rows[i] && rows[i..][1..] == rows[i + 1..];
        if |expired| == limit {
          break;
        }
        if rows[i] in proposals && Due(proposals[rows[i]], now) {
          var step := ExpireProjection(rows[i], now);
          match step {
            case Failed(why) =>
              proposals, links, durable, receipts := before.proposals, before.links, before.durable, before.receipts;
              return SweepFailed(why);
            case Replied(answer) =>
              expired := expired + [answer];
          }
        }
      }
      reply := Expiries(expired);
    }

    /** The active links in key order, up to the limit. */
    method ListActiveNamespaceLinks(keys: seq<LinkId>, context: Option<Context>, limit: int, now: int)
      returns (r: Listed)
      requires forall i | 0 <= i < |keys| :: keys[i] in links
      ensures r == if context == Some("") || now <= 0 || limit < 1 || limit > MAX_LIST_LIMIT
                   then ListFailed(ValidationError)
                   else Listed(Firsts(ShownRows(Tables(), keys, context, now), limit))
    {
      hide Shown, CheckLink;
      if context == Some("") || now <= 0 || limit < 1 || limit > MAX_LIST_LIMIT {
        return ListFailed(ValidationError);
      }
      var rows: seq<DurableLink> := [];
      for i := 0 to |keys|
        invariant rows == ShownRows(Tables(), keys[..i], context, now) && |rows| < limit
      {
        assert keys[..i + 1][..i] == keys[..i];
        if Shown(Tables(), keys[i], context, now) {
          ShownIsChecked(Tables(), keys[i], context, now);
          rows := rows + [CheckLink(Tables(), proposals[links[keys[i]].proposalId]).row];
          if |rows| >= limit {
            ShownRowsGrow(Tables(), keys, context, now, i + 1);
            return Listed(rows);
          }
        }
      }
      assert keys[..|keys|] == keys;
      r := Listed(rows);
    }

    /** Connected recall for one context. */
    method ResolveRecallContexts(keys: seq<LinkId>, context: Context, now: int) returns (r: Recalled)
      requires forall i | 0 <= i < |keys| :: keys[i] in links
      ensures r == if context == "" || now <= 0 then RecallFailed(ValidationError)
                   else Recalled(Recall(Firsts(ShownRows(Tables(), keys, Some(context), now), RECALL_LIMIT), context))
    {
      hide Shown, ShownRows, SortedByName;
      if context == "" {
        return RecallFailed(ValidationError);
      }
      var listed := ListActiveNamespaceLinks(keys, Some(context), RECALL_LIMIT, now);
      if listed.ListFailed? {
        return RecallFailed(listed.why);
      }
      var met: seq<RecallRecord> := [];
      var seen := {context};
      for i := 0 to |listed.rows|
        invariant met == Met(listed.rows[..i], context)
        invariant forall c :: c in seen <==> c == context || Names(met, c)
      {
        assert listed.rows[..i + 1][..i] == listed.rows[..i];
        var edge := listed.rows[i].edge;
        var neighbour := Neighbour(edge, context);
        if neighbour.Some? && neighbour.value != "" && neighbour.value !in seen && neighbour.value != GLOBAL {
          seen := seen + {neighbour.value};
          NamesGrow(met, RecallRecord(neighbour.value, Connected, Some(edge)));
          met := met + [RecallRecord(neighbour.value, Connected, Some(edge))];
        }
      }
      assert listed.rows[..|listed.rows|] == listed.rows;
      var records := [RecallRecord(context, Local, None)] + SortedByName(met);
      NeverMeetsGlobal(listed.rows, context);
      if GLOBAL !in seen {
        records := records + [RecallRecord(GLOBAL, Global, None)];
      }
      r := Recalled(records);
    }

    /** The integrity audit, for the row orders of its queries. */
    method AuditIntegrity(o: RowOrders) returns (faults: seq<Fault>)
      requires Ordered(Tables(), o)
      ensures faults == [] <==> AuditClean(Tables(), o.receipts)
    {
      faults := AuditTables(Tables(), o);
    }
  }

  /** A sweep whose first answers are already known. */
  function After(expired: seq<Answer>, rest: Sweep): Sweep {
    match rest
    case SweepRefused(why) => SweepRefused(why)
    case Swept(store, answers) => Swept(store, expired + answers)
  }

  lemma {:induction false} NeverMeetsGlobal(rows: seq<DurableLink>, context: Context)
    ensures forall k | 0 <= k < |Met(rows, context)| :: Met(rows, context)[k].context != GLOBAL
  {
    if |rows| > 0 {
      NeverMeetsGlobal(rows[..|rows| - 1], context);
    }
  }

  lemma ShownIsChecked(s: Store, l: LinkId, context: Option<Context>, now: int)
    requires l in s.links && Shown(s, l, context, now)
    ensures s.links[l].proposalId in s.proposals && CheckLink(s, s.proposals[s.links[l].proposalId]).GoodLink?
  {
    hide ProposalBound, CheckLink;
  }

  lemma NamesGrow(records: seq<RecallRecord>, r: RecallRecord)
    ensures forall c :: Names(records + [r], c) <==> Names(records, c) || c == r.context
  {
    var longer := records + [r];
    forall c
      ensures Names(longer, c) <==> Names(records, c) || c == r.context
    {
      if Names(records, c) {
        var k :| 0 <= k < |records| && records[k].context == c;
        assert longer[k].context == c;
      }
      assert longer[|records|] == r;
    }
  }

  /** Writing the durable row of an approval before the rest makes no difference. */
  lemma RecordsOnce(s: Store, p: Proposal, row: DurableLink, receipt: Receipt)
    ensures Recorded(s.(durable := s.durable[p.origin.terms.edge.linkId := row]), p, Some(row), receipt)
         == Recorded(s, p, Some(row), receipt)
  {
  }

  lemma ReviewedOrigin(p: Proposal, action: Action, event: EventId, actor: Actor, reason: string, fp: Fingerprint,
                       now: int)
    ensures Transition(p, action, event, actor, reason, fp, now).origin == p.origin
  {
  }
}
