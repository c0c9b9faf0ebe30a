/** The governance transactions as functions of the four tables. */
module GovernanceSteps {
  import opened GovernanceTypes
  import opened TextOrder

  const DEFAULT_PROPOSAL_TTL := 7 * 24 * 60 * 60
  const MIN_PROPOSAL_TTL := 60
  const MAX_PROPOSAL_TTL := 30 * 24 * 60 * 60
  const MIN_LINK_TTL := 60
  const MAX_LINK_TTL := 366 * 24 * 60 * 60
  const MAX_LIST_LIMIT := 2_000
  const WEIGHT_SCALE := 1_000_000

  datatype Policy = Policy(requireDistinctReviewer: bool, allowCompatibilityApproval: bool)

  /** The arguments that describe a link in a propose or compatibility call. */
  datatype LinkAsk = LinkAsk(
    source: Context,
    target: Context,
    relation: string,
    direction: Direction,
    weight: int,
    evidence: Evidence,
    evidenceRedactions: int)

  // ----- values -----

  predicate Allowed(before: Option<State>, after: State) {
    match before
    case None => after == Pending
    case Some(Pending) => after == Approved || after == Rejected || after == Expired
    case Some(Approved) => after == Disabled || after == Revoked || after == Expired
    case Some(Disabled) => after == Revoked || after == Expired
    case Some(_) => false
  }

  function AfterState(action: Action): State {
    match action
    case Propose => Pending
    case Approve => Approved
    case Reject => Rejected
    case Disable => Disabled
    case Revoke => Revoked
    case Expire => Expired
  }

  /** The actor a receipt of this action must name (the program's actor-field table). */
  function ActorOf(action: Action, p: Proposal): Actor {
    match action
    case Propose => p.origin.proposedBy
    case Approve => p.reviewed.actor
    case Reject => p.reviewed.actor
    case Disable => p.disabled.actor
    case Revoke => p.revoked.actor
    case Expire => p.expired.actor
  }

  function ReasonOf(action: Action, p: Proposal): string {
    if action == Propose then p.origin.proposalReason else p.decisionReason
  }

  function ProposalDigest(p: Proposal): Revision {
    OfProposal(p.(revision := NoRevision))
  }

  function LinkDigest(l: LinkProjection): Revision {
    OfLink(l.(revision := NoRevision))
  }

  function SignProposal(p: Proposal): Proposal {
    p.(revision := ProposalDigest(p))
  }

  function SignLink(l: LinkProjection): LinkProjection {
    l.(revision := LinkDigest(l))
  }

  function StableLinkId(source: Context, target: Context, relation: string, direction: Direction): LinkId {
    if direction == Bidirectional && Precedes(target, source) then
      LinkId(target, source, relation, direction)
    else
      LinkId(source, target, relation, direction)
  }

  predicate StableEdge(e: Edge) {
    e.linkId == StableLinkId(e.source, e.target, e.relation, e.direction)
  }

  function NormalizedTerms(ask: LinkAsk): Option<Terms> {
    if ask.source == "" || ask.target == "" || ask.source == ask.target then None
    else if ask.weight < 0 || ask.weight > WEIGHT_SCALE then None
    else
      var swap := ask.direction == Bidirectional && Precedes(ask.target, ask.source);
      var source := if swap then ask.target else ask.source;
      var target := if swap then ask.source else ask.target;
      Some(Terms(
        Edge(StableLinkId(source, target, ask.relation, ask.direction), source, target, ask.relation, ask.direction),
        ask.weight, ask.evidence, ask.evidenceRedactions))
  }

  function RequestIdFor(supplied: Option<RequestId>, compatLane: bool, fp: Fingerprint): RequestId {
    match supplied
    case Some(rid) => rid
    case None => Automatic(compatLane, fp)
  }

  function BindingOf(p: Proposal): Binding {
    Binding(p.origin.proposalId, p.revision, p.state, p.origin.linkExpiresAt, p.lastEventId)
  }

  /** The evidence a durable row must hold for this proposal. */
  function BoundEvidence(evidence: Evidence, p: Proposal): Evidence {
    evidence[GOVERNANCE_KEY := Governance(BindingOf(p))]
  }

  function EffectiveState(p: Proposal, now: int): State {
    if p.state == Pending && now >= p.origin.proposalExpiresAt then Expired
    else if (p.state == Approved || p.state == Disabled)
            && p.origin.linkExpiresAt.Some? && now >= p.origin.linkExpiresAt.value then Expired
    else p.state
  }

  predicate Due(p: Proposal, now: int) {
    || (p.state == Pending && now >= p.origin.proposalExpiresAt)
    || ((p.state == Approved || p.state == Disabled)
        && p.origin.linkExpiresAt.Some? && now >= p.origin.linkExpiresAt.value)
  }

  /** A proposal in its first state. */
  function NewPending(origin: Origin, event: EventId, fp: Fingerprint, now: int): Proposal {
    SignProposal(Proposal(
      origin, Pending, NoRevision, NO_STAMP, "", NO_STAMP, NO_STAMP, NO_STAMP,
      event, 1, fp, now, NoRevision))
  }

  /** The next projection of a proposal; callers make sure that the transition is allowed. */
  function Transition(p: Proposal, action: Action, event: EventId, actor: Actor, reason: string,
                      fp: Fingerprint, now: int): Proposal
  {
    var stamp := Stamp(actor, now);
    SignProposal(p.(
      state := AfterState(action),
      previousRevision := p.revision,
      reviewed := if action == Approve || action == Reject then stamp else p.reviewed,
      decisionReason := reason,
      disabled := if action == Disable then stamp else p.disabled,
      revoked := if action == Revoke then stamp else p.revoked,
      expired := if action == Expire then stamp else p.expired,
      lastEventId := event,
      eventCount := p.eventCount + 1,
      lastFingerprint := fp,
      updatedAt := now))
  }

  function LinkProjectionOf(p: Proposal, enabled: bool, now: int): LinkProjection {
    SignLink(LinkProjection(
      p.origin.terms.edge, p.origin.terms.weight, p.origin.proposalId, p.revision, p.state, enabled,
      p.origin.linkExpiresAt, p.lastEventId, now, NoRevision))
  }

  function AuthorizationActive(p: Proposal, link: Option<DurableLink>): bool {
    p.state == Approved && link.Some? && link.value.enabled
  }

  function FreshAnswer(action: Action, p: Proposal, link: Option<DurableLink>): Answer {
    Answer(action, p, p.state, AuthorizationActive(p, link), false, p.origin.compatibilityMode, link, None, false)
  }

  function ReceiptOf(action: Action, rid: RequestId, fp: Fingerprint, p: Proposal, beforeState: Option<State>,
                     beforeRevision: Revision, actor: Actor, reason: string, link: Option<DurableLink>,
                     now: int): Receipt
  {
    Receipt(
      action, p.origin.terms.edge.source, beforeRevision, p.revision,
      Payload(
        EventId(action, rid), action, rid, fp, p.origin.proposalId, p.origin.terms.edge.linkId, actor, reason,
        beforeState, p.state, beforeRevision, p.revision, p.eventCount,
        StoredResult(action, p, p.state, AuthorizationActive(p, link), false, p.origin.compatibilityMode, link)),
      now)
  }

  // ----- integrity checks made while reading -----

  /** `_result_envelope_matches`. */
  predicate EnvelopeMatches(action: Action, result: StoredResult, p: Proposal) {
    && (match action
        case Propose => result.link.None?
        case Reject => result.link.None?
        case Approve => result.link.Some?
        case Disable => result.link.Some?
        case Revoke => result.link.Some?
        case Expire => result.link.Some? <==> p.reviewed.at != 0)
    && result.action == action
    && result.state == p.state
    && result.linkActive == AuthorizationActive(p, result.link)
    && !result.idempotentReplay
    && result.compatibilityMode == p.origin.compatibilityMode
  }

  /** `_validated_proposal_conn` on a stored proposal: it is bound to its last receipt. */
  predicate ProposalBound(s: Store, id: ProposalId)
    requires id in s.proposals
  {
    var p := s.proposals[id];
    && p.origin.proposalId == id
    && p.revision == ProposalDigest(p)
    && p.eventCount >= 1
    && p.lastEventId in s.receipts
    && var r := s.receipts[p.lastEventId]; var e := r.payload;
      && e.eventId == p.lastEventId
      && EventId(e.action, e.requestId) == p.lastEventId
      && r.operationType == e.action
      && r.contextId == p.origin.terms.edge.source
      && r.beforeRevision == e.beforeRevision
      && r.afterRevision == p.revision
      && r.createdAt == p.updatedAt
      && e.afterRevision == p.revision
      && e.afterState == p.state
      && e.proposalId == id
      && e.linkId == p.origin.terms.edge.linkId
      && e.sequence == p.eventCount
      && e.fingerprint == p.lastFingerprint
      && e.reason == ReasonOf(e.action, p)
      && e.result.state == p.state
      && e.result.proposal == p
      && EnvelopeMatches(e.action, e.result, p)
      && e.actor == ActorOf(e.action, p)
  }

  predicate StructuresMatch(p: Proposal, projection: LinkProjection, row: DurableLink) {
    && p.origin.terms.edge == projection.edge == row.edge
    && p.origin.terms.weight == projection.weight == row.confidence
    && StableEdge(row.edge)
  }

  datatype LinkCheck = NoLink | BadLink | GoodLink(row: DurableLink)

  /** `_validated_link_conn` for a stored proposal. */
  function CheckLink(s: Store, p: Proposal): LinkCheck {
    var id := p.origin.terms.edge.linkId;
    if id !in s.links && id !in s.durable then NoLink
    else if id !in s.links || id !in s.durable then BadLink
    else
      var projection := s.links[id];
      var row := s.durable[id];
      if
        && projection.revision == LinkDigest(projection)
        && projection.proposalId == p.origin.proposalId
        && projection.proposalRevision == p.revision
        && projection.state == p.state
        && projection.lastEventId == p.lastEventId
        && projection.linkExpiresAt == p.origin.linkExpiresAt
        && projection.updatedAt == p.updatedAt
        && StructuresMatch(p, projection, row)
        && projection.enabled == (p.state == Approved)
        && row.enabled == (p.state == Approved)
        && GOVERNANCE_KEY in row.evidence
        && row.evidence[GOVERNANCE_KEY] == Governance(BindingOf(p))
        && p.lastEventId in s.receipts
        && s.receipts[p.lastEventId].payload.result.link == Some(row)
      then GoodLink(row)
      else BadLink
  }

  datatype Replay = Fresh | Replayed(answer: Answer) | ReplayRefused(why: Refusal)

  /** `_replay_event`. */
  function ReplayEvent(s: Store, action: Action, rid: RequestId, fp: Fingerprint, now: int): Replay {
    var id := EventId(action, rid);
    if id !in s.receipts then Fresh
    else
      var r := s.receipts[id];
      var e := r.payload;
      if !(e.eventId == id && e.action == action && e.requestId == rid && e.fingerprint == fp
           && r.operationType == action)
      then ReplayRefused(Conflict)
      else
        var recorded := e.result.proposal;
        if !(&& recorded.origin.proposalId == e.proposalId
             && recorded.origin.terms.edge.linkId == e.linkId
             && recorded.revision == e.afterRevision
             && recorded.state == e.afterState
             && recorded.revision == ProposalDigest(recorded)
             && r.createdAt == recorded.updatedAt
             && e.result.state == e.afterState
             && EnvelopeMatches(action, e.result, recorded)
             && e.reason == ReasonOf(action, recorded)
             && e.fingerprint == recorded.lastFingerprint
             && e.actor == ActorOf(action, recorded))
        then ReplayRefused(IntegrityError)
        else if e.proposalId !in s.proposals then ReplayRefused(NotFound)
        else if !ProposalBound(s, e.proposalId) then ReplayRefused(IntegrityError)
        else
          var current := s.proposals[e.proposalId];
          var effective := EffectiveState(current, now);
          match CheckLink(s, current)
          case BadLink => ReplayRefused(IntegrityError)
          case NoLink =>
            if current.state == Approved || current.state == Disabled then ReplayRefused(IntegrityError)
            else
              Replayed(Answer(action, current, effective, false, true, e.result.compatibilityMode, None,
                              Some(e.result.state), effective != current.state))
          case GoodLink(row) =>
            var pending := effective != current.state;
            var shown := if pending then row.(enabled := false) else row;
            Replayed(Answer(action, current, effective, effective == Approved && shown.enabled, true,
                            e.result.compatibilityMode, Some(shown), Some(e.result.state), pending))
  }

  // ----- transactions -----

  function BoundedExpiry(value: Option<int>, now: int, fallback: Option<int>, minimum: int, maximum: int)
    : Option<Option<int>>
  {
    match value
    case None => Some(fallback)
    case Some(at) =>
      if at <= 0 || at - now < minimum || at - now > maximum then None else Some(Some(at))
  }

  function ProposeStep(s: Store, ask: LinkAsk, proposedBy: Actor, reason: string, reasonRedactions: int,
                       proposalExpiry: Option<int>, linkExpiry: Option<int>, supplied: Option<RequestId>,
                       now: int): Outcome
  {
    var terms := NormalizedTerms(ask);
    if terms.None? || proposedBy == "" || reason == "" || now <= 0
       || (proposalExpiry.Some? && proposalExpiry.value <= 0) || (linkExpiry.Some? && linkExpiry.value <= 0)
    then Refused(ValidationError)
    else
      var fp := Fingerprint(Propose, ProposeRequest(terms.value, proposedBy, reason, proposalExpiry, linkExpiry));
      var rid := RequestIdFor(supplied, false, fp);
      var id := ReviewedId(rid, fp);
      match ReplayEvent(s, Propose, rid, fp, now)
      case ReplayRefused(why) => Refused(why)
      case Replayed(answer) => Committed(s, answer)
      case Fresh =>
        if id in s.proposals then Refused(Conflict)
        else
          var closes := BoundedExpiry(proposalExpiry, now, Some(now + DEFAULT_PROPOSAL_TTL),
                                      MIN_PROPOSAL_TTL, MAX_PROPOSAL_TTL);
          var ends := BoundedExpiry(linkExpiry, now, None, MIN_LINK_TTL, MAX_LINK_TTL);
          if closes.None? || closes.value.None? || ends.None? then Refused(ValidationError)
          else
            var origin := Origin(id, terms.value, reason, reasonRedactions, proposedBy, now, closes.value.value,
                                 ends.value, rid, false);
            var p := NewPending(origin, EventId(Propose, rid), fp, now);
            Committed(
              Store(s.proposals[id := p], s.links, s.durable,
                    s.receipts[EventId(Propose, rid) :=
                      ReceiptOf(Propose, rid, fp, p, None, NoRevision, proposedBy, reason, None, now)]),
              FreshAnswer(Propose, p, None))
  }

  datatype Materialization = Materialized(row: DurableLink) | NotMaterialized(why: Refusal)

  /** `_materialize_approved_link`: the row that an approval inserts or updates. */
  function Materialize(s: Store, p: Proposal, actor: Actor, now: int): Materialization {
    var edge := p.origin.terms.edge;
    var id := edge.linkId;
    if id in s.links && s.links[id].proposalId != p.origin.proposalId && s.links[id].state == Approved then
      NotMaterialized(Conflict)
    else if id in s.durable && !(s.durable[id].edge == edge && StableEdge(s.durable[id].edge)) then
      NotMaterialized(IntegrityError)
    else if exists other | other in s.durable ::
        other != id
        && s.durable[other].edge.source == edge.source && s.durable[other].edge.target == edge.target
        && s.durable[other].edge.relation == edge.relation && s.durable[other].edge.direction == edge.direction
    then NotMaterialized(Conflict)
    else
      var evidence := BoundEvidence(p.origin.terms.evidence, p);
      var weight := p.origin.terms.weight;
      if id in s.durable then
        Materialized(s.durable[id].(confidence := weight, evidence := evidence, enabled := true,
                                    approvedBy := actor, approvedAt := now, updatedAt := now))
      else
        Materialized(DurableLink(edge, weight, evidence, true, actor, now, now, now))
  }

  /** Writes a proposal, the link surfaces when the step touches them, and its receipt. */
  function Recorded(s: Store, p: Proposal, row: Option<DurableLink>, receipt: Receipt): Store {
    var id := p.origin.terms.edge.linkId;
    Store(
      s.proposals[p.origin.proposalId := p],
      if row.Some? then s.links[id := LinkProjectionOf(p, p.state == Approved, receipt.createdAt)] else s.links,
      if row.Some? then s.durable[id := row.value] else s.durable,
      s.receipts[receipt.payload.eventId := receipt])
  }

  function ReviewStep(s: Store, policy: Policy, id: ProposalId, decision: Action, reviewedBy: Actor, reason: string,
                      expected: Revision, supplied: Option<RequestId>, now: int): Outcome
  {
    if !(decision == Approve || decision == Reject) || reviewedBy == "" || reason == ""
       || expected.NoRevision? || now <= 0
    then Refused(ValidationError)
    else
      var fp := Fingerprint(decision, ReviewRequest(id, reviewedBy, reason, expected));
      var rid := RequestIdFor(supplied, false, fp);
      var event := EventId(decision, rid);
      match ReplayEvent(s, decision, rid, fp, now)
      case ReplayRefused(why) => Refused(why)
      case Replayed(answer) => Committed(s, answer)
      case Fresh =>
        if id !in s.proposals then Refused(NotFound)
        else if !ProposalBound(s, id) then Refused(IntegrityError)
        else
          var p := s.proposals[id];
          if p.revision != expected then Refused(StaleRevision)
          else if p.state != Pending then Refused(InvalidTransition)
          else if now >= p.origin.proposalExpiresAt then Refused(WindowExpired)
          else if decision == Approve && p.origin.linkExpiresAt.Some? && now >= p.origin.linkExpiresAt.value then
            Refused(WindowExpired)
          else if policy.requireDistinctReviewer && reviewedBy == p.origin.proposedBy then
            Refused(InvalidTransition)
          else
            var reviewed := Transition(p, decision, event, reviewedBy, reason, fp, now);
            if decision == Reject then
              Committed(
                Recorded(s, reviewed, None,
                         ReceiptOf(Reject, rid, fp, reviewed, Some(Pending), expected, reviewedBy, reason, None, now)),
                FreshAnswer(Reject, reviewed, None))
            else
              match Materialize(s, reviewed, reviewedBy, now)
              case NotMaterialized(why) => Refused(why)
              case Materialized(row) =>
                Committed(
                  Recorded(s, reviewed, Some(row),
                           ReceiptOf(Approve, rid, fp, reviewed, Some(Pending), expected, reviewedBy, reason,
                                     Some(row), now)),
                  FreshAnswer(Approve, reviewed, Some(row)))
  }

  /** The compatibility lane: a proposal and its approval in one transaction. */
  function CompatStep(s: Store, policy: Policy, ask: LinkAsk, approvedBy: Actor, reason: string,
                      reasonRedactions: int, linkExpiry: Option<int>, supplied: Option<RequestId>, confirm: bool,
                      now: int): Outcome
  {
    if !policy.allowCompatibilityApproval || policy.requireDistinctReviewer then Refused(InvalidTransition)
    else
      var terms := NormalizedTerms(ask);
      if !confirm || terms.None? || approvedBy == "" || reason == "" || now <= 0
         || (linkExpiry.Some? && linkExpiry.value <= 0)
      then Refused(ValidationError)
      else
        var request := CompatRequest(terms.value, approvedBy, reason, linkExpiry);
        var proposeFp := Fingerprint(Propose, request);
        var approveFp := Fingerprint(Approve, request);
        var rid := RequestIdFor(supplied, true, approveFp);
        var proposeRid := ProposePart(rid);
        var approveRid := ApprovePart(rid);
        var id := CompatId(rid, approveFp);
        match ReplayEvent(s, Approve, approveRid, approveFp, now)
        case ReplayRefused(why) => Refused(why)
        case Replayed(answer) => Committed(s, answer)
        case Fresh =>
          if id in s.proposals then Refused(Conflict)
          else
            var ends := BoundedExpiry(linkExpiry, now, None, MIN_LINK_TTL, MAX_LINK_TTL);
            if ends.None? then Refused(ValidationError)
            else
              var origin := Origin(id, terms.value, reason, reasonRedactions, approvedBy, now,
                                   now + DEFAULT_PROPOSAL_TTL, ends.value, rid, true);
              var pending := NewPending(origin, EventId(Propose, proposeRid), proposeFp, now);
              var approved := Transition(pending, Approve, EventId(Approve, approveRid), approvedBy, reason,
                                         approveFp, now);
              match Materialize(s, approved, approvedBy, now)
              case NotMaterialized(why) => Refused(why)
              case Materialized(row) =>
                if EventId(Propose, proposeRid) in s.receipts then Refused(DuplicateReceipt)
                else
                  var first := Store(s.proposals[id := pending], s.links, s.durable,
                                     s.receipts[EventId(Propose, proposeRid) :=
                                       ReceiptOf(Propose, proposeRid, proposeFp, pending, None, NoRevision,
                                                 approvedBy, reason, None, now)]);
                  Committed(
                    Recorded(first, approved, Some(row),
                             ReceiptOf(Approve, approveRid, approveFp, approved, Some(Pending), pending.revision,
                                       approvedBy, reason, Some(row), now)),
                    FreshAnswer(Approve, approved, Some(row)))
  }

  /** `disable` and `revoke`. */
  function DeactivateStep(s: Store, action: Action, linkId: LinkId, actor: Actor, reason: string,
                          expected: Revision, supplied: Option<RequestId>, confirm: bool, now: int): Outcome
  {
    if !(action == Disable || action == Revoke) || !confirm || actor == "" || reason == ""
       || expected.NoRevision? || now <= 0
    then Refused(ValidationError)
    else
      var fp := Fingerprint(action, DeactivateRequest(linkId, actor, reason, expected));
      var rid := RequestIdFor(supplied, false, fp);
      var event := EventId(action, rid);
      match ReplayEvent(s, action, rid, fp, now)
      case ReplayRefused(why) => Refused(why)
      case Replayed(answer) => Committed(s, answer)
      case Fresh =>
        if linkId !in s.links then Refused(NotFound)
        else
          var id := s.links[linkId].proposalId;
          if id !in s.proposals then Refused(NotFound)
          else if !ProposalBound(s, id) then Refused(IntegrityError)
          else
            var p := s.proposals[id];
            if p.origin.terms.edge.linkId != linkId || !CheckLink(s, p).GoodLink? then Refused(IntegrityError)
            else if p.revision != expected then Refused(StaleRevision)
            else if !(p.state == Approved || (action == Revoke && p.state == Disabled)) then
              Refused(InvalidTransition)
            else
              var next := Transition(p, action, event, actor, reason, fp, now);
              var row := s.durable[linkId];
              var updated := row.(enabled := false, evidence := BoundEvidence(row.evidence, next), updatedAt := now);
              Committed(
                Recorded(s, next, Some(updated),
                         ReceiptOf(action, rid, fp, next, Some(p.state), expected, actor, reason, Some(updated), now)),
                FreshAnswer(action, next, Some(updated)))
  }

  const SYSTEM_ACTOR: Actor := "system-expiry"

  function ExpiryReason(p: Proposal): string {
    if p.state == Pending then "proposal review window expired" else "approved namespace link expired"
  }

  /** `_expire_projection_conn` for one selected proposal. */
  function ExpireOne(s: Store, id: ProposalId, now: int): Outcome
    requires id in s.proposals
  {
    if !ProposalBound(s, id) then Refused(IntegrityError)
    else
      var p := s.proposals[id];
      var reason := ExpiryReason(p);
      var fp := Fingerprint(Expire, ExpireRequest(id, p.revision, reason));
      var rid := ExpiryOf(id, now);
      var event := EventId(Expire, rid);
      match ReplayEvent(s, Expire, rid, fp, now)
      case ReplayRefused(why) => Refused(why)
      case Replayed(answer) => Committed(s, answer)
      case Fresh =>
        if !Allowed(Some(p.state), Expired) then Refused(InvalidTransition)
        else
          var next := Transition(p, Expire, event, SYSTEM_ACTOR, reason, fp, now);
          var linkId := p.origin.terms.edge.linkId;
          if p.state == Pending then
            Committed(
              Recorded(s, next, None,
                       ReceiptOf(Expire, rid, fp, next, Some(p.state), p.revision, SYSTEM_ACTOR, reason, None, now)),
              FreshAnswer(Expire, next, None))
          else if linkId !in s.durable then Refused(IntegrityError)
          else
            var row := s.durable[linkId];
            var updated := row.(enabled := false, evidence := BoundEvidence(row.evidence, next), updatedAt := now);
            Committed(
              Recorded(s, next, Some(updated),
                       ReceiptOf(Expire, rid, fp, next, Some(p.state), p.revision, SYSTEM_ACTOR, reason,
                                 Some(updated), now)),
              FreshAnswer(Expire, next, Some(updated)))
  }

  datatype Sweep = Swept(store: Store, expired: seq<Answer>) | SweepRefused(why: Refusal)

  /** `expire_due` over the proposal keys in row order, which the query fixes before any write. */
  function SweepRows(s: Store, rows: seq<ProposalId>, now: int, limit: nat): Sweep
    decreases |rows|
  {
    if |rows| == 0 || limit == 0 then Swept(s, [])
    else if rows[0] !in s.proposals || !Due(s.proposals[rows[0]], now) then SweepRows(s, rows[1..], now, limit)
    else
      match ExpireOne(s, rows[0], now)
      case Refused(why) => SweepRefused(why)
      case Committed(s', answer) =>
        match SweepRows(s', rows[1..], now, limit - 1)
        case SweepRefused(why) => SweepRefused(why)
        case Swept(s'', answers) => Swept(s'', [answer] + answers)
  }

  /** `expire_due`: the whole sweep is one transaction. */
  function SweepStep(s: Store, rows: seq<ProposalId>, limit: int, now: int): Sweep {
    if now <= 0 || limit < 1 || limit > MAX_LIST_LIMIT then SweepRefused(ValidationError)
    else SweepRows(s, rows, now, limit)
  }
}
