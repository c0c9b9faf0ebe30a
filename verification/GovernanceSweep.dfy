/** The expiry sweep is invisible to readers, and repeated sweeps leave nothing due. */
module GovernanceSweep {
  import opened GovernanceTypes
  import opened GovernanceSteps
  import opened GovernanceInvariant
  import opened GovernanceRuns
  import opened GovernanceReaders
  import opened Sorting

  // ----- the sweep is silent -----

  /** Every link row is as before, unless its projection now says expired. */
  ghost predicate OnlyExpired(s: Store, s': Store) {
    && s'.links.Keys == s.links.Keys
    && forall l | l in s.links ::
         s'.links[l].state == Expired
         || (s'.links[l] == s.links[l] && (l in s.durable ==> l in s'.durable && s'.durable[l] == s.durable[l]))
  }

  lemma ExpireLinks(s: Store, h: History, clock: int, id: ProposalId, now: int)
    requires Inv(s, h, clock) && Sweepable(s, id, now)
    ensures ExpireOne(s, id, now).Committed? && OnlyExpired(s, ExpireOne(s, id, now).store)
  {
    hide ReceiptsOk, HistoryOk, LinksOk, ProposalBound, LinkShape, ExpireOne, OnlyExpired, Advance, Yields;
    ExpireCommits(s, h, clock, id, now);
    var m := ExpireIsMove(s, id, now);
    LinkKeys(s, h);
    ExpiryLinks(s, id, m);
  }

  lemma ExpiryLinks(s: Store, id: ProposalId, m: Move)
    requires id in s.proposals && m.action == Expire
    requires m.row.Some? ==> s.proposals[id].origin.terms.edge.linkId in s.links
    ensures OnlyExpired(s, Advance(s, id, m))
  {
    hide BoundEvidence, ReceiptOf;
  }

  lemma {:induction false} SweepLinks(s: Store, h: History, clock: int, rows: seq<ProposalId>, now: int, limit: nat)
    requires Inv(s, h, clock) && SweepYields(s, rows, now, limit) && clock <= now && now > 0
    ensures SweepRows(s, rows, now, limit).Swept? && OnlyExpired(s, SweepRows(s, rows, now, limit).store)
    decreases |rows|
  {
    hide Inv, ExpirySafe, ExpireOne, Sweepable;
    if |rows| == 0 || limit == 0 {
    } else if rows[0] !in s.proposals || !Due(s.proposals[rows[0]], now) {
      SweepLinks(s, h, clock, rows[1..], now, limit);
    } else {
      var h1 := ExpireKeeps(s, h, clock, rows[0], now);
      ExpireLinks(s, h, clock, rows[0], now);
      SweepLinks(ExpireOne(s, rows[0], now).store, h1, now, rows[1..], now, limit - 1);
    }
  }

  lemma SameEffectiveStates(s: Store, s': Store, now: int, later: int)
    requires SweptFrom(s, s', now) && now <= later
    ensures forall id | id in s.proposals ::
              id in s'.proposals && EffectiveState(s'.proposals[id], later) == EffectiveState(s.proposals[id], later)
              && s'.proposals[id].origin == s.proposals[id].origin
  {
  }

  lemma SameAuthorization(s: Store, s': Store, now: int, later: int, l: LinkId)
    requires SweptFrom(s, s', now) && now <= later
    ensures Authorized(s', l, later) <==> Authorized(s, l, later)
  {
    SameEffectiveStates(s, s', now, later);
    hide EffectiveState;
  }

  /** A listed link that the sweep rewrote would be an expired one. */
  lemma SameShown(s: Store, h: History, clock: int, s': Store, h': History, clock': int, now: int, later: int,
                  l: LinkId, context: Option<Context>)
    requires Inv(s, h, clock) && Inv(s', h', clock')
    requires SweptFrom(s, s', now) && now <= later && OnlyExpired(s, s') && l in s.links
    ensures l in s'.links && (Shown(s', l, context, later) <==> Shown(s, l, context, later))
    ensures Shown(s, l, context, later) ==>
              CheckLink(s', s'.proposals[s'.links[l].proposalId]) == CheckLink(s, s.proposals[s.links[l].proposalId])
  {
    hide Inv, CheckLink, Authorized, SweptFrom, ProposalBound, CanonicalEdge;
    SameAuthorization(s, s', now, later, l);
    ShownIffAuthorized(s, h, clock, l, context, later);
    ShownIffAuthorized(s', h', clock', l, context, later);
    if s'.links[l].state == Expired {
      ShownIffAuthorized(s', h', clock', l, None, later);
    }
  }

  lemma {:induction false} SameListing(s: Store, h: History, clock: int, s': Store, h': History, clock': int, now: int,
                                       later: int, keys: seq<LinkId>, context: Option<Context>)
    requires Inv(s, h, clock) && Inv(s', h', clock')
    requires SweptFrom(s, s', now) && now <= later && OnlyExpired(s, s')
    requires forall i | 0 <= i < |keys| :: keys[i] in s.links
    ensures forall i | 0 <= i < |keys| :: keys[i] in s'.links
    ensures ShownRows(s', keys, context, later) == ShownRows(s, keys, context, later)
  {
    assert s'.links.Keys == s.links.Keys;
    if |keys| > 0 {
      SameListing(s, h, clock, s', h', clock', now, later, keys[..|keys| - 1], context);
      SameShown(s, h, clock, s', h', clock', now, later, keys[|keys| - 1], context);
      hide Inv, SweptFrom, OnlyExpired, Shown, CheckLink;
    }
  }

  /** At every later time, a sweep has changed neither the effective state of any proposal nor
      the answer of the link listing, so connected recall answers the same. */
  lemma SweepIsSilent(s: Store, h: History, clock: int, rows: seq<ProposalId>, now: int, limit: nat, later: int,
                      keys: seq<LinkId>, context: Option<Context>)
    requires Inv(s, h, clock) && SweepYields(s, rows, now, limit) && clock <= now <= later && now > 0
    requires forall i | 0 <= i < |keys| :: keys[i] in s.links
    ensures var w := SweepRows(s, rows, now, limit);
      && w.Swept?
      && (forall id | id in s.proposals ::
            id in w.store.proposals
            && EffectiveState(w.store.proposals[id], later) == EffectiveState(s.proposals[id], later))
      && (forall i | 0 <= i < |keys| :: keys[i] in w.store.links)
      && ShownRows(w.store, keys, context, later) == ShownRows(s, keys, context, later)
  {
    var h' := SweepKeeps(s, h, clock, rows, now, limit);
    SweepLinks(s, h, clock, rows, now, limit);
    var s' := SweepRows(s, rows, now, limit).store;
    SameEffectiveStates(s, s', now, later);
    SameListing(s, h, clock, s', h', now, now, later, keys, context);
    hide Inv, SweepRows, SweepYields, EffectiveState, ShownRows, SweptFrom, OnlyExpired;
  }

  // ----- the sweep drains -----

  function DueIds(s: Store, now: int): set<ProposalId> {
    set id | id in s.proposals && Due(s.proposals[id], now)
  }

  /** Nothing is due exactly when every pending proposal is still open, and the link of every approved
      or disabled one has not run out. */
  lemma NothingDueIff(s: Store, now: int)
    ensures DueIds(s, now) == {} <==>
              forall id | id in s.proposals ::
                var p := s.proposals[id];
                && (p.state == Pending ==> now < p.origin.proposalExpiresAt)
                && (p.origin.linkExpiresAt.Some? && (p.state == Approved || p.state == Disabled) ==>
                      now < p.origin.linkExpiresAt.value)
  {
    forall id | id in s.proposals
      ensures id in DueIds(s, now) <==> Due(s.proposals[id], now)
    {
    }
  }

  function DueAmong(s: Store, rows: seq<ProposalId>, now: int): set<ProposalId> {
    set id | id in rows && id in s.proposals && Due(s.proposals[id], now)
  }

  lemma ExpireLeavesDue(s: Store, h: History, clock: int, id: ProposalId, now: int)
    requires Inv(s, h, clock) && Sweepable(s, id, now)
    ensures ExpireOne(s, id, now).Committed?
    ensures DueIds(ExpireOne(s, id, now).store, now) == DueIds(s, now) - {id}
  {
    ExpireCommits(s, h, clock, id, now);
    ExpireEffect(s, h, clock, id, now);
    hide Inv, ExpireOne, Yields;
  }

  lemma DueTail(s: Store, s': Store, rows: seq<ProposalId>, now: int)
    requires |rows| > 0 && Distinct(rows) && rows[0] in DueIds(s, now)
    requires DueIds(s', now) == DueIds(s, now) - {rows[0]}
    ensures |DueAmong(s', rows[1..], now)| == |DueAmong(s, rows, now)| - 1
    ensures |DueIds(s', now)| == |DueIds(s, now)| - 1
  {
    assert rows == [rows[0]] + rows[1..];
    assert DueAmong(s', rows[1..], now) == DueAmong(s, rows, now) - {rows[0]} by {
      forall id
        ensures id in DueAmong(s', rows[1..], now) <==> id in DueAmong(s, rows, now) - {rows[0]}
      {
        assert id in DueAmong(s', rows[1..], now) <==> id in rows[1..] && id in DueIds(s', now);
        assert id in DueAmong(s, rows, now) <==> id in rows && id in DueIds(s, now);
        assert id in rows <==> id == rows[0] || id in rows[1..];
      }
    }
    assert rows[0] in DueAmong(s, rows, now);
  }

  lemma NotDueTail(s: Store, rows: seq<ProposalId>, now: int)
    requires |rows| > 0 && (rows[0] !in s.proposals || !Due(s.proposals[rows[0]], now))
    ensures DueAmong(s, rows[1..], now) == DueAmong(s, rows, now)
  {
    assert rows == [rows[0]] + rows[1..];
  }

  lemma EmptyDue(s: Store, now: int)
    ensures DueAmong(s, [], now) == {}
  {
  }

  lemma DueIsCounted(s: Store, id: ProposalId, now: int)
    requires id in s.proposals && Due(s.proposals[id], now)
    ensures id in DueIds(s, now)
  {
  }

  /** A sweep expires as many proposals as are due, up to its limit, and each leaves the due set. */
  lemma {:induction false} SweepCounts(s: Store, h: History, clock: int, rows: seq<ProposalId>, now: int, limit: nat)
    requires Inv(s, h, clock) && SweepYields(s, rows, now, limit) && clock <= now && now > 0 && Distinct(rows)
    ensures var w := SweepRows(s, rows, now, limit); var due := |DueAmong(s, rows, now)|;
      && w.Swept?
      && |w.expired| == (if due <= limit then due else limit)
      && DueIds(w.store, now) <= DueIds(s, now)
      && |DueIds(w.store, now)| == |DueIds(s, now)| - |w.expired|
    decreases |rows|
  {
    hide Inv, ExpirySafe, ExpireOne, DueIds, DueAmong, Sweepable, Due;
    if |rows| == 0 {
      EmptyDue(s, now);
    } else if limit == 0 {
    } else if rows[0] !in s.proposals || !Due(s.proposals[rows[0]], now) {
      SweepCounts(s, h, clock, rows[1..], now, limit);
      NotDueTail(s, rows, now);
    } else {
      var h1 := ExpireKeeps(s, h, clock, rows[0], now);
      ExpireLeavesDue(s, h, clock, rows[0], now);
      var s1 := ExpireOne(s, rows[0], now).store;
      SweepCounts(s1, h1, now, rows[1..], now, limit - 1);
      DueIsCounted(s, rows[0], now);
      DueTail(s, s1, rows, now);
    }
  }

  /** A key order of the proposal table. */
  ghost predicate AllProposals(s: Store, rows: seq<ProposalId>) {
    Distinct(rows) && (forall id | id in s.proposals :: id in rows)
  }

  function SweepAll(s: Store, orders: seq<seq<ProposalId>>, limit: int, now: int): Store
    decreases |orders|
  {
    if |orders| == 0 then s
    else
      var w := SweepStep(s, orders[0], limit, now);
      SweepAll(if w.Swept? then w.store else s, orders[1..], limit, now)
  }

  /** Repeated sweeps with any admissible limit leave nothing due once together they could have
      taken as many proposals as were due. */
  lemma {:induction false} SweepsDrain(s: Store, h: History, clock: int, orders: seq<seq<ProposalId>>, limit: int,
                                       now: int)
    requires Inv(s, h, clock) && ExpirySafe(s) && clock <= now && now > 0 && 1 <= limit <= MAX_LIST_LIMIT
    requires forall i | 0 <= i < |orders| :: AllProposals(s, orders[i])
    ensures |DueIds(SweepAll(s, orders, limit, now), now)| ==
              if |DueIds(s, now)| <= |orders| * limit then 0 else |DueIds(s, now)| - |orders| * limit
    decreases |orders|
  {
    hide Inv, ExpirySafe, SweepRows, SweepYields, DueIds, DueAmong;
    if |orders| > 0 {
      var w := SweepStep(s, orders[0], limit, now);
      assert AllProposals(s, orders[0]);
      SafeSweepYields(s, h, clock, orders[0], now, limit);
      var h' := SweepKeeps(s, h, clock, orders[0], now, limit);
      SweepCounts(s, h, clock, orders[0], now, limit);
      AllDue(s, orders[0], now);
      forall i | 0 <= i < |orders[1..]|
        ensures AllProposals(w.store, orders[1..][i])
      {
        assert AllProposals(s, orders[i + 1]);
      }
      SweepsDrain(w.store, h', now, orders[1..], limit, now);
      assert |orders| * limit == |orders[1..]| * limit + limit;
    }
  }

  lemma AllDue(s: Store, rows: seq<ProposalId>, now: int)
    requires AllProposals(s, rows)
    ensures DueAmong(s, rows, now) == DueIds(s, now)
  {
  }
}
