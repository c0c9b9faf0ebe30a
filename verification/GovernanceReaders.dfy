/** The readers of the active links: the link listing and connected recall. */
module GovernanceReaders {
  import opened GovernanceTypes
  import opened GovernanceSteps
  import opened GovernanceInvariant
  import opened GovernanceRuns
  import opened GovernanceTheorems
  import opened GovernanceReplay
  import opened TextOrder

  // ----- the link listing -----

  predicate Touches(e: Edge, context: Option<Context>) {
    context.Some? ==> context.value == e.source || context.value == e.target
  }

  /** The tests that `list_active_namespace_links` makes on one link projection. */
  predicate Shown(s: Store, l: LinkId, context: Option<Context>, now: int)
    requires l in s.links
  {
    var projection := s.links[l];
    && projection.revision == LinkDigest(projection)
    && projection.state == Approved && projection.enabled
    && (projection.linkExpiresAt.Some? ==> now < projection.linkExpiresAt.value)
    && Touches(projection.edge, context)
    && projection.proposalId in s.proposals && ProposalBound(s, projection.proposalId)
    && var p := s.proposals[projection.proposalId];
      && p.revision == ProposalDigest(p)
      && p.state == Approved && EffectiveState(p, now) == Approved
      && p.origin.terms.edge.linkId == projection.edge.linkId
      && p.revision == projection.proposalRevision && p.lastEventId == projection.lastEventId
      && CheckLink(s, p).GoodLink? && CheckLink(s, p).row.enabled
  }

  /** The listed rows for a prefix of the link keys, without a limit. */
  function ShownRows(s: Store, keys: seq<LinkId>, context: Option<Context>, now: int): (rows: seq<DurableLink>)
    requires forall i | 0 <= i < |keys| :: keys[i] in s.links
  {
    if |keys| == 0 then []
    else
      var before := ShownRows(s, keys[..|keys| - 1], context, now);
      var l := keys[|keys| - 1];
      if Shown(s, l, context, now) then before + [CheckLink(s, s.proposals[s.links[l].proposalId]).row] else before
  }

  function Firsts<T>(rows: seq<T>, limit: nat): seq<T> {
    if |rows| <= limit then rows else rows[..limit]
  }

  lemma {:induction false} ShownRowsGrow(s: Store, keys: seq<LinkId>, context: Option<Context>, now: int, n: nat)
    requires n <= |keys| && forall i | 0 <= i < |keys| :: keys[i] in s.links
    ensures ShownRows(s, keys[..n], context, now) <= ShownRows(s, keys, context, now)
  {
    if n < |keys| {
      ShownRowsGrow(s, keys[..|keys| - 1], context, now, n);
      assert keys[..|keys| - 1][..n] == keys[..n];
    } else {
      assert keys[..n] == keys;
    }
  }

  // ----- the listing shows the effectively approved links -----

  /** Some proposal for the link is effectively approved. */
  ghost predicate Authorized(s: Store, l: LinkId, now: int) {
    exists id | id in s.proposals ::
      s.proposals[id].origin.terms.edge.linkId == l && EffectiveState(s.proposals[id], now) == Approved
  }

  lemma AuthorizedIffOwner(s: Store, h: History, clock: int, l: LinkId, now: int)
    requires Inv(s, h, clock)
    ensures Authorized(s, l, now) <==>
              (l in s.links && s.links[l].proposalId in s.proposals
               && EffectiveState(s.proposals[s.links[l].proposalId], now) == Approved)
  {
    ApprovedOwners(s, h);
    OwnersOfLinks(s, h);
  }

  /** In a sound store the tests on a projection pass exactly when some proposal for the link is
      effectively approved and the link touches the asked context. */
  lemma ShownIffAuthorized(s: Store, h: History, clock: int, l: LinkId, context: Option<Context>, now: int)
    requires Inv(s, h, clock) && l in s.links
    ensures Shown(s, l, context, now) <==> Authorized(s, l, now) && Touches(s.links[l].edge, context)
    ensures Shown(s, l, context, now) ==>
              l in s.durable && CheckLink(s, s.proposals[s.links[l].proposalId]) == GoodLink(s.durable[l])
              && s.durable[l].edge == s.links[l].edge && s.links[l].edge.linkId == l
              && CanonicalEdge(s.links[l].edge)
  {
    OwnedLink(s, h, clock, l);
    AuthorizedIffOwner(s, h, clock, l, now);
    hide Inv, ProposalBound, CheckLink;
  }

  lemma OwnedLink(s: Store, h: History, clock: int, l: LinkId)
    requires Inv(s, h, clock) && l in s.links
    ensures s.links[l].proposalId in s.proposals && ProposalBound(s, s.links[l].proposalId)
    ensures l in s.durable
    ensures var p := s.proposals[s.links[l].proposalId];
      && CheckLink(s, p) == GoodLink(s.durable[l])
      && p.revision == ProposalDigest(p)
      && s.links[l] == LinkProjectionOf(p, p.state == Approved, p.updatedAt)
      && s.durable[l].enabled == (p.state == Approved)
      && s.durable[l].edge == p.origin.terms.edge && p.origin.terms.edge.linkId == l
      && CanonicalEdge(p.origin.terms.edge)
  {
    LinkKeys(s, h);
    assert Owned(s, l);
    StoredProposal(s, h, clock, s.links[l].proposalId);
    LinkCheckIffNotTaken(s, h, clock, s.links[l].proposalId);
    hide Inv, ProposalBound, CheckLink;
  }

  /** The row is the durable row of an authorized link among the keys that touches the context. */
  ghost predicate Entitled(s: Store, keys: seq<LinkId>, context: Option<Context>, now: int, row: DurableLink)
    requires forall i | 0 <= i < |keys| :: keys[i] in s.links
  {
    exists i :: 0 <= i < |keys| && Authorized(s, keys[i], now) && Touches(s.links[keys[i]].edge, context)
                && keys[i] in s.durable && s.durable[keys[i]] == row
  }

  lemma EntitledStep(s: Store, keys: seq<LinkId>, context: Option<Context>, now: int, row: DurableLink)
    requires |keys| > 0 && forall i | 0 <= i < |keys| :: keys[i] in s.links
    ensures var l := keys[|keys| - 1];
      Entitled(s, keys, context, now, row) <==>
        Entitled(s, keys[..|keys| - 1], context, now, row)
        || (Authorized(s, l, now) && Touches(s.links[l].edge, context) && l in s.durable && s.durable[l] == row)
  {
    hide Authorized, Touches;
    var prefix := keys[..|keys| - 1];
    if Entitled(s, prefix, context, now, row) {
      var i :| 0 <= i < |prefix| && Authorized(s, prefix[i], now) && Touches(s.links[prefix[i]].edge, context)
        && prefix[i] in s.durable && s.durable[prefix[i]] == row;
      assert keys[i] == prefix[i];
    }
    if i :| 0 <= i < |keys| && Authorized(s, keys[i], now) && Touches(s.links[keys[i]].edge, context)
            && keys[i] in s.durable && s.durable[keys[i]] == row {
      if i < |prefix| {
        assert prefix[i] == keys[i];
      }
    }
  }

  /** The listing in key order, before the limit, is exactly the durable rows of the authorized
      links that touch the context. */
  lemma {:induction false} ListingIsExact(s: Store, h: History, clock: int, keys: seq<LinkId>,
                                          context: Option<Context>, now: int)
    requires Inv(s, h, clock) && forall i | 0 <= i < |keys| :: keys[i] in s.links
    ensures forall row :: row in ShownRows(s, keys, context, now) <==> Entitled(s, keys, context, now, row)
  {
    hide Inv, Shown, CheckLink, Authorized, Touches, CanonicalEdge, EffectiveState;
    if |keys| > 0 {
      var n := |keys| - 1;
      ListingIsExact(s, h, clock, keys[..n], context, now);
      ShownIffAuthorized(s, h, clock, keys[n], context, now);
      hide Entitled;
      forall row
        ensures row in ShownRows(s, keys, context, now) <==> Entitled(s, keys, context, now, row)
      {
        EntitledStep(s, keys, context, now, row);
      }
    }
  }

  // ----- connected recall -----

  const GLOBAL: Context := "global"
  const RECALL_LIMIT := 1_000

  datatype Provenance = Local | Connected | Global

  datatype RecallRecord = RecallRecord(context: Context, provenance: Provenance, via: Option<Edge>)

  /** Where a link leads from a context: along its direction, or either way when bidirectional. */
  function Neighbour(e: Edge, context: Context): Option<Context> {
    if e.source == context then Some(e.target)
    else if e.target == context && e.direction == Bidirectional then Some(e.source)
    else None
  }

  predicate Usable(e: Edge, context: Context) {
    && Neighbour(e, context).Some?
    && Neighbour(e, context).value != "" && Neighbour(e, context).value != context
    && Neighbour(e, context).value != GLOBAL
  }

  /** The neighbours met along the listing, each at its first link. */
  function Met(rows: seq<DurableLink>, context: Context): seq<RecallRecord> {
    if |rows| == 0 then []
    else
      var before := Met(rows[..|rows| - 1], context);
      var e := rows[|rows| - 1].edge;
      if Usable(e, context) && (forall i | 0 <= i < |before| :: before[i].context != Neighbour(e, context).value)
      then before + [RecallRecord(Neighbour(e, context).value, Connected, Some(e))]
      else before
  }

  function InsertedByName(sorted: seq<RecallRecord>, r: RecallRecord): seq<RecallRecord> {
    if |sorted| == 0 || Precedes(sorted[|sorted| - 1].context, r.context) then sorted + [r]
    else InsertedByName(sorted[..|sorted| - 1], r) + [sorted[|sorted| - 1]]
  }

  function SortedByName(records: seq<RecallRecord>): seq<RecallRecord> {
    if |records| == 0 then []
    else InsertedByName(SortedByName(records[..|records| - 1]), records[|records| - 1])
  }

  /** `resolve_recall_contexts` in connected scope, from the listed links. */
  function Recall(rows: seq<DurableLink>, context: Context): seq<RecallRecord> {
    [RecallRecord(context, Local, None)] + SortedByName(Met(rows, context))
    + (if context == GLOBAL then [] else [RecallRecord(GLOBAL, Global, None)])
  }

  predicate OneEach(records: seq<RecallRecord>) {
    forall i, j | 0 <= i < j < |records| :: records[i].context != records[j].context
  }

  predicate NamesAscend(records: seq<RecallRecord>) {
    forall i, j | 0 <= i < j < |records| :: Precedes(records[i].context, records[j].context)
  }

  lemma {:induction false} InsertedByNameSorts(sorted: seq<RecallRecord>, r: RecallRecord)
    requires NamesAscend(sorted) && forall i | 0 <= i < |sorted| :: sorted[i].context != r.context
    ensures NamesAscend(InsertedByName(sorted, r))
    ensures forall x :: x in InsertedByName(sorted, r) <==> x in sorted || x == r
  {
    if |sorted| > 0 {
      var prefix, last := sorted[..|sorted| - 1], sorted[|sorted| - 1];
      assert sorted == prefix + [last];
      if Precedes(last.context, r.context) {
        forall i | 0 <= i < |sorted|
          ensures Precedes(sorted[i].context, r.context)
        {
          if i < |sorted| - 1 {
            PrecedesIsTransitive(sorted[i].context, last.context, r.context);
          }
        }
      } else {
        PrecedesIsTotal(last.context, r.context);
        InsertedByNameSorts(prefix, r);
        var result := InsertedByName(prefix, r);
        forall i | 0 <= i < |result|
          ensures Precedes(result[i].context, last.context)
        {
          assert result[i] in result;
        }
      }
    }
  }

  lemma {:induction false} SortedByNameSorts(records: seq<RecallRecord>)
    requires OneEach(records)
    ensures NamesAscend(SortedByName(records))
    ensures forall x :: x in SortedByName(records) <==> x in records
  {
    if |records| > 0 {
      var prefix := records[..|records| - 1];
      SortedByNameSorts(prefix);
      assert records == prefix + [records[|records| - 1]];
      forall i | 0 <= i < |SortedByName(prefix)|
        ensures SortedByName(prefix)[i].context != records[|records| - 1].context
      {
        assert SortedByName(prefix)[i] in prefix;
      }
      InsertedByNameSorts(SortedByName(prefix), records[|records| - 1]);
    }
  }

  /** The row at some position leads from the context to the other context. */
  ghost predicate LeadsTo(rows: seq<DurableLink>, context: Context, other: Context) {
    exists i :: 0 <= i < |rows| && Usable(rows[i].edge, context) && Neighbour(rows[i].edge, context) == Some(other)
  }

  predicate Names(records: seq<RecallRecord>, c: Context) {
    exists i :: 0 <= i < |records| && records[i].context == c
  }

  predicate FromLink(r: RecallRecord, rows: seq<DurableLink>, context: Context) {
    && r.provenance == Connected && r.via.Some?
    && Usable(r.via.value, context) && Neighbour(r.via.value, context) == Some(r.context)
    && exists i :: 0 <= i < |rows| && rows[i].edge == r.via.value
  }

  lemma {:induction false} MetOnce(rows: seq<DurableLink>, context: Context)
    ensures OneEach(Met(rows, context))
  {
    if |rows| > 0 {
      hide Usable, Neighbour;
      MetOnce(rows[..|rows| - 1], context);
    }
  }

  lemma {:induction false} MetFromLinks(rows: seq<DurableLink>, context: Context)
    ensures forall k | 0 <= k < |Met(rows, context)| :: FromLink(Met(rows, context)[k], rows, context)
  {
    if |rows| > 0 {
      hide Usable, Neighbour;
      var n := |rows| - 1;
      MetFromLinks(rows[..n], context);
      var before, met := Met(rows[..n], context), Met(rows, context);
      assert rows[n].edge == rows[n].edge;
      forall k | 0 <= k < |met|
        ensures FromLink(met[k], rows, context)
      {
        if k < |before| {
          assert FromLink(before[k], rows[..n], context);
          var i :| 0 <= i < n && rows[..n][i].edge == before[k].via.value;
          assert rows[i].edge == met[k].via.value;
        }
      }
    }
  }

  lemma {:induction false} LinksAreMet(rows: seq<DurableLink>, context: Context, i: nat)
    requires i < |rows| && Usable(rows[i].edge, context)
    ensures Names(Met(rows, context), Neighbour(rows[i].edge, context).value)
  {
    hide Neighbour;
    var n := |rows| - 1;
    var before, met := Met(rows[..n], context), Met(rows, context);
    var c := Neighbour(rows[i].edge, context).value;
    assert before <= met;
    if i < n {
      LinksAreMet(rows[..n], context, i);
      var k :| 0 <= k < |before| && before[k].context == c;
      assert met[k].context == c;
    } else if met == before {
      var k :| 0 <= k < |before| && before[k].context == c;
      assert met[k].context == c;
    } else {
      assert met[|before|].context == c;
    }
  }

  /** The neighbours met are exactly the contexts that usable links lead to. */
  lemma MetIsExact(rows: seq<DurableLink>, context: Context, c: Context)
    ensures Names(Met(rows, context), c) <==> LeadsTo(rows, context, c)
  {
    hide Met, Neighbour, Usable;
    MetFromLinks(rows, context);
    if Names(Met(rows, context), c) {
      var k :| 0 <= k < |Met(rows, context)| && Met(rows, context)[k].context == c;
      assert FromLink(Met(rows, context)[k], rows, context);
    }
    if LeadsTo(rows, context, c) {
      var i :| 0 <= i < |rows| && Usable(rows[i].edge, context) && Neighbour(rows[i].edge, context) == Some(c);
      LinksAreMet(rows, context, i);
    }
  }

  lemma SameNames(a: seq<RecallRecord>, b: seq<RecallRecord>, c: Context)
    requires forall x :: x in a <==> x in b
    ensures Names(a, c) <==> Names(b, c)
  {
    if Names(a, c) {
      var k :| 0 <= k < |a| && a[k].context == c;
      assert a[k] in b;
    }
    if Names(b, c) {
      var k :| 0 <= k < |b| && b[k].context == c;
      assert b[k] in a;
    }
  }

  /** What the sorted middle part of a recall answer holds. */
  lemma Middle(rows: seq<DurableLink>, context: Context)
    ensures var middle := SortedByName(Met(rows, context));
      && NamesAscend(middle)
      && (forall i | 0 <= i < |middle| ::
            middle[i].context != context && middle[i].context != GLOBAL && FromLink(middle[i], rows, context))
      && (forall c :: Names(middle, c) <==> LeadsTo(rows, context, c))
  {
    MetOnce(rows, context);
    MetFromLinks(rows, context);
    var met := Met(rows, context);
    var middle := SortedByName(met);
    SortedByNameSorts(met);
    hide Met, SortedByName, Neighbour, LeadsTo;
    forall i | 0 <= i < |middle|
      ensures middle[i].context != context && middle[i].context != GLOBAL && FromLink(middle[i], rows, context)
    {
      assert middle[i] in met;
    }
    forall c
      ensures Names(middle, c) <==> LeadsTo(rows, context, c)
    {
      SameNames(middle, met, c);
      MetIsExact(rows, context, c);
    }
  }

  /** A recall answer names the context, then the contexts that usable links lead to in name
      order, then the global context, each once. */
  lemma RecallParts(rows: seq<DurableLink>, context: Context)
    ensures var records := Recall(rows, context);
      && OneEach(records) && records[0] == RecallRecord(context, Local, None)
      && (forall i, j | 1 <= i < j < |records| && records[j].provenance == Connected ::
            Precedes(records[i].context, records[j].context))
      && (context != GLOBAL ==> records[|records| - 1] == RecallRecord(GLOBAL, Global, None))
      && (forall i | 0 <= i < |records| && records[i].provenance == Connected :: FromLink(records[i], rows, context))
      && (forall c :: Names(records, c) <==> c == context || c == GLOBAL || LeadsTo(rows, context, c))
  {
    Middle(rows, context);
    var middle := SortedByName(Met(rows, context));
    var records := Recall(rows, context);
    hide Met, SortedByName, FromLink, LeadsTo, Precedes;
    AscendingOnce(middle);
    forall c
      ensures Names(records, c) <==> c == context || c == GLOBAL || LeadsTo(rows, context, c)
    {
      if Names(middle, c) {
        var k :| 0 <= k < |middle| && middle[k].context == c;
        assert records[k + 1].context == c;
      }
      if Names(records, c) {
        var k :| 0 <= k < |records| && records[k].context == c;
        if 0 < k <= |middle| {
          assert middle[k - 1].context == c;
        }
      }
      assert records[0].context == context;
      assert records[|records| - 1].context == GLOBAL || context == GLOBAL;
    }
  }

  lemma AscendingOnce(records: seq<RecallRecord>)
    requires NamesAscend(records)
    ensures OneEach(records)
  {
    forall i, j | 0 <= i < j < |records|
      ensures records[i].context != records[j].context
    {
      if records[i].context == records[j].context {
        PrecedesIsAsymmetric(records[i].context, records[j].context);
      }
    }
  }

  /** The link is effectively approved and leads from the context to the other: along its direction,
      or either way when it has none. */
  ghost predicate HopOver(s: Store, l: LinkId, context: Context, other: Context, now: int) {
    && l in s.links && Authorized(s, l, now)
    && var e := s.links[l].edge;
      || (e.source == context && e.target == other)
      || (e.direction == Bidirectional && e.target == context && e.source == other)
  }

  lemma HopIsNeighbour(e: Edge, context: Context, other: Context)
    requires CanonicalEdge(e)
    ensures Neighbour(e, context) == Some(other) <==>
              || (e.source == context && e.target == other)
              || (e.direction == Bidirectional && e.target == context && e.source == other)
  {
  }

  ghost predicate OneHopAmong(s: Store, keys: seq<LinkId>, context: Context, other: Context, now: int) {
    exists i | 0 <= i < |keys| :: HopOver(s, keys[i], context, other, now)
  }

  ghost predicate OneHop(s: Store, context: Context, other: Context, now: int) {
    exists l :: HopOver(s, l, context, other, now)
  }

  predicate KeysOf(s: Store, keys: seq<LinkId>) {
    forall i | 0 <= i < |keys| :: keys[i] in s.links
  }

  lemma OneHopIsListed(s: Store, h: History, clock: int, keys: seq<LinkId>, context: Context, other: Context, now: int)
    requires Inv(s, h, clock) && KeysOf(s, keys) && OneHopAmong(s, keys, context, other, now) && other != GLOBAL
    ensures LeadsTo(ShownRows(s, keys, Some(context), now), context, other)
  {
    hide Inv, Shown, CheckLink, Authorized, ShownRows, StableEdge;
    ListingIsExact(s, h, clock, keys, Some(context), now);
    var rows := ShownRows(s, keys, Some(context), now);
    var i :| 0 <= i < |keys| && HopOver(s, keys[i], context, other, now);
    var l := keys[i];
    OwnedLink(s, h, clock, l);
    HopIsNeighbour(s.links[l].edge, context, other);
    ShownIffAuthorized(s, h, clock, l, Some(context), now);
    assert Entitled(s, keys, Some(context), now, s.durable[l]);
    assert s.durable[l] in rows;
    var k :| 0 <= k < |rows| && rows[k] == s.durable[l];
    assert Usable(rows[k].edge, context);
  }

  lemma ListedIsOneHop(s: Store, h: History, clock: int, keys: seq<LinkId>, context: Context, other: Context, now: int)
    requires Inv(s, h, clock) && KeysOf(s, keys)
    requires LeadsTo(ShownRows(s, keys, Some(context), now), context, other)
    ensures OneHopAmong(s, keys, context, other, now)
  {
    ListingIsExact(s, h, clock, keys, Some(context), now);
    var rows := ShownRows(s, keys, Some(context), now);
    hide Inv, ShownRows, Authorized;
    var i :| 0 <= i < |rows| && Usable(rows[i].edge, context) && Neighbour(rows[i].edge, context) == Some(other);
    assert rows[i] in rows;
    var k :| 0 <= k < |keys| && Authorized(s, keys[k], now) && Touches(s.links[keys[k]].edge, Some(context))
      && keys[k] in s.durable && s.durable[keys[k]] == rows[i];
    ShownIffAuthorized(s, h, clock, keys[k], Some(context), now);
    HopIsNeighbour(s.links[keys[k]].edge, context, other);
    hide Inv, Shown, CheckLink, Authorized, Neighbour;
    assert HopOver(s, keys[k], context, other, now);
  }

  /** The first rows of a listing are the listing of the first keys. */
  lemma {:induction false} FirstRows(s: Store, keys: seq<LinkId>, context: Option<Context>, now: int, limit: nat)
    returns (n: nat)
    requires KeysOf(s, keys)
    ensures n <= |keys| && Firsts(ShownRows(s, keys, context, now), limit) == ShownRows(s, keys[..n], context, now)
    ensures n < |keys| ==> |ShownRows(s, keys[..n], context, now)| == limit
    ensures |ShownRows(s, keys, context, now)| <= limit ==> n == |keys|
  {
    hide Shown, CheckLink;
    n := |keys|;
    assert keys[..n] == keys;
    var rows := ShownRows(s, keys, context, now);
    if |rows| > limit {
      n := FirstRows(s, keys[..|keys| - 1], context, now, limit);
      assert keys[..|keys| - 1][..n] == keys[..n];
      ShownRowsGrow(s, keys, context, now, |keys| - 1);
    }
  }

  /** Connected recall in a sound store names the context, the global context and the neighbours
      over effectively approved links, each once: those over all links of the context when the
      listing fits the reader's limit, and those over the links of its first 1,000 rows otherwise. */
  lemma RecallIsExact(s: Store, h: History, clock: int, keys: seq<LinkId>, context: Context, now: int)
    returns (n: nat)
    requires Inv(s, h, clock) && KeysOf(s, keys)
    ensures n <= |keys| && (n < |keys| ==> |ShownRows(s, keys[..n], Some(context), now)| == RECALL_LIMIT)
    ensures |ShownRows(s, keys, Some(context), now)| <= RECALL_LIMIT ==> n == |keys|
    ensures var records := Recall(Firsts(ShownRows(s, keys, Some(context), now), RECALL_LIMIT), context);
      && OneEach(records) && records[0].context == context
      && (forall c ::
            Names(records, c) <==> c == context || c == GLOBAL || OneHopAmong(s, keys[..n], context, c, now))
      && (forall c :: Names(records, c) ==> c == context || c == GLOBAL || OneHop(s, context, c, now))
      && (n == |keys| && (forall l | l in s.links :: l in keys) ==>
            forall c :: Names(records, c) <==> c == context || c == GLOBAL || OneHop(s, context, c, now))
  {
    n := FirstRows(s, keys, Some(context), now, RECALL_LIMIT);
    var rows := ShownRows(s, keys[..n], Some(context), now);
    var records := Recall(rows, context);
    RecallParts(rows, context);
    hide Inv, ShownRows, Recall, LeadsTo, HopOver, OneHopAmong, OneHop, Names, OneEach, Firsts;
    forall c
      ensures Names(records, c) <==> c == context || c == GLOBAL || OneHopAmong(s, keys[..n], context, c, now)
      ensures OneHopAmong(s, keys[..n], context, c, now) ==> OneHop(s, context, c, now)
      ensures n == |keys| && (forall l | l in s.links :: l in keys) && OneHop(s, context, c, now) ==>
                OneHopAmong(s, keys[..n], context, c, now)
    {
      if c != GLOBAL && OneHopAmong(s, keys[..n], context, c, now) {
        OneHopIsListed(s, h, clock, keys[..n], context, c, now);
      }
      if LeadsTo(rows, context, c) {
        ListedIsOneHop(s, h, clock, keys[..n], context, c, now);
      }
      HopsAmongAll(s, keys[..n], context, c, now);
    }
  }

  lemma HopsAmongAll(s: Store, keys: seq<LinkId>, context: Context, other: Context, now: int)
    ensures OneHopAmong(s, keys, context, other, now) ==> OneHop(s, context, other, now)
    ensures (forall l | l in s.links :: l in keys) && OneHop(s, context, other, now) ==>
              OneHopAmong(s, keys, context, other, now)
  {
    hide Authorized, Neighbour;
    if OneHop(s, context, other, now) && forall l | l in s.links :: l in keys {
      var l :| HopOver(s, l, context, other, now);
      var i :| 0 <= i < |keys| && keys[i] == l;
    }
  }
}
