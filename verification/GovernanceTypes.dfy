/** The durable entities of cross-namespace bridge governance.

    A digest or a stable identifier of the program is a constructor applied to what is
    hashed: two of them are equal exactly when their pre-images are.  Timestamps and
    weights are integers.  Constant fields (schema names, the flag that is always false)
    are not represented. */
module GovernanceTypes {

  datatype Option<+T> = None | Some(value: T)

  type Context = string
  type Actor = string

  datatype Direction = Bidirectional | Directed

  datatype State = Pending | Approved | Rejected | Disabled | Revoked | Expired

  datatype Action = Propose | Approve | Reject | Disable | Revoke | Expire

  /** The hash of a normalized edge. */
  datatype LinkId = LinkId(source: Context, target: Context, relation: string, direction: Direction)

  datatype Edge = Edge(linkId: LinkId, source: Context, target: Context, relation: string, direction: Direction)

  /** A top-level value of an evidence object; only the governance binding has structure. */
  datatype EvidenceValue = Json(text: string) | Governance(binding: Binding)

  type Evidence = map<string, EvidenceValue>

  const GOVERNANCE_KEY := "governance"

  datatype Binding = Binding(
    proposalId: ProposalId,
    proposalRevision: Revision,
    state: State,
    linkExpiresAt: Option<int>,
    lastEventId: EventId)

  datatype Stamp = Stamp(actor: Actor, at: int)

  const NO_STAMP := Stamp("", 0)

  /** A cleaned link request. */
  datatype Terms = Terms(edge: Edge, weight: int, evidence: Evidence, evidenceRedactions: int)

  /** The fields of a proposal that no transition may change. */
  datatype Origin = Origin(
    proposalId: ProposalId,
    terms: Terms,
    proposalReason: string,
    reasonRedactions: int,
    proposedBy: Actor,
    proposedAt: int,
    proposalExpiresAt: int,
    linkExpiresAt: Option<int>,
    createdRequestId: RequestId,
    compatibilityMode: bool)

  datatype Proposal = Proposal(
    origin: Origin,
    state: State,
    previousRevision: Revision,
    reviewed: Stamp,
    decisionReason: string,
    disabled: Stamp,
    revoked: Stamp,
    expired: Stamp,
    lastEventId: EventId,
    eventCount: int,
    lastFingerprint: Fingerprint,
    updatedAt: int,
    revision: Revision)

  datatype LinkProjection = LinkProjection(
    edge: Edge,
    weight: int,
    proposalId: ProposalId,
    proposalRevision: Revision,
    state: State,
    enabled: bool,
    linkExpiresAt: Option<int>,
    lastEventId: EventId,
    updatedAt: int,
    revision: Revision)

  /** The digest of a projection without its own revision field. */
  datatype Revision =
    | NoRevision
    | OfProposal(unsignedProposal: Proposal)
    | OfLink(unsignedLink: LinkProjection)

  /** What a caller asked for, as far as the request fingerprint covers it. */
  datatype Request =
    | ProposeRequest(terms: Terms, proposedBy: Actor, reason: string, proposalExpiry: Option<int>,
                     linkExpiry: Option<int>)
    | CompatRequest(terms: Terms, approvedBy: Actor, reason: string, linkExpiry: Option<int>)
    | ReviewRequest(proposalId: ProposalId, reviewedBy: Actor, reason: string, expectedRevision: Revision)
    | DeactivateRequest(linkId: LinkId, actor: Actor, reason: string, expectedRevision: Revision)
    | ExpireRequest(proposalId: ProposalId, beforeRevision: Revision, reason: string)

  datatype Fingerprint = Fingerprint(action: Action, request: Request)

  /** A request id.  A caller may supply any of these: also one spelled like an automatic
      id, like an expiry id, or like the two ids the compatibility lane derives. */
  datatype RequestId =
    | Text(text: string)
    | Automatic(compatLane: bool, fingerprint: Fingerprint)
    | ProposePart(base: RequestId)
    | ApprovePart(base: RequestId)
    | ExpiryOf(proposalId: ProposalId, at: int)

  datatype EventId = EventId(action: Action, requestId: RequestId)

  datatype ProposalId =
    | ReviewedId(requestId: RequestId, fingerprint: Fingerprint)
    | CompatId(requestId: RequestId, fingerprint: Fingerprint)

  /** A row of the durable link table; a link returned to a caller carries the same columns. */
  datatype DurableLink = DurableLink(
    edge: Edge,
    confidence: int,
    evidence: Evidence,
    enabled: bool,
    approvedBy: Actor,
    approvedAt: int,
    createdAt: int,
    updatedAt: int)

  datatype StoredResult = StoredResult(
    action: Action,
    proposal: Proposal,
    state: State,
    linkActive: bool,
    idempotentReplay: bool,
    compatibilityMode: bool,
    link: Option<DurableLink>)

  datatype Payload = Payload(
    eventId: EventId,
    action: Action,
    requestId: RequestId,
    fingerprint: Fingerprint,
    proposalId: ProposalId,
    linkId: LinkId,
    actor: Actor,
    reason: string,
    beforeState: Option<State>,
    afterState: State,
    beforeRevision: Revision,
    afterRevision: Revision,
    sequence: int,
    result: StoredResult)

  /** A row of the append-only receipt table. */
  datatype Receipt = Receipt(
    operationType: Action,
    contextId: Context,
    beforeRevision: Revision,
    afterRevision: Revision,
    payload: Payload,
    createdAt: int)

  /** The four tables. */
  datatype Store = Store(
    proposals: map<ProposalId, Proposal>,
    links: map<LinkId, LinkProjection>,
    durable: map<LinkId, DurableLink>,
    receipts: map<EventId, Receipt>)

  const EMPTY_STORE := Store(map[], map[], map[], map[])

  datatype Refusal =
    | ValidationError
    | NotFound
    | Conflict
    | StaleRevision
    | WindowExpired
    | InvalidTransition
    | IntegrityError
    | DuplicateReceipt

  /** What a committed call returns.  `historicalState` is set on a replay only. */
  datatype Answer = Answer(
    action: Action,
    proposal: Proposal,
    state: State,
    authorizationActive: bool,
    idempotentReplay: bool,
    compatibilityMode: bool,
    link: Option<DurableLink>,
    historicalState: Option<State>,
    materializationPending: bool)

  /** One transaction: a new store and an answer, or a refusal that rolls everything back. */
  datatype Outcome = Committed(store: Store, answer: Answer) | Refused(why: Refusal)
}
