/** The request journal: which mutations may have run, kept so that none is started twice. */
module RequestJournal {

  datatype Option<+T> = None | Some(value: T)

  datatype Key = Key(caller: string, requestId: string)

  datatype State = Accepted | Completed | Failed | Ambiguous

  datatype Row = Row(operation: string, fingerprint: string, epoch: string, state: State, resultKind: Option<string>,
                     safeError: Option<string>, acceptedAt: int, finishedAt: Option<int>)

  type Rows = map<Key, Row>

  datatype Config = Config(maxRows: int, maxAcceptedRows: int, retentionSeconds: int, epoch: string)

  /** What the constructor demands of a configuration. */
  predicate ValidConfig(config: Config) {
    1 <= config.maxAcceptedRows <= config.maxRows && config.retentionSeconds >= 0
  }

  datatype Refusal = Invalid | AtCapacity | NotAccepted

  /** `Fresh` means that the caller may run the mutation. */
  datatype Decision = Fresh | Existing(state: State) | Conflict(state: State) | Refused(why: Refusal)

  const SAFE_ERROR_CODES := {
    "authentication_failed", "deadline_exceeded", "invalid_request", "operation_failed", "operation_unavailable",
    "outcome_unknown", "path_not_authorized", "protocol_violation", "request_conflict", "service_unavailable"}

  predicate Letter(c: char) { 'a' <= c <= 'z' || 'A' <= c <= 'Z' }

  predicate Digit(c: char) { '0' <= c <= '9' }

  predicate ValidIdentifier(s: string) {
    && 1 <= |s| <= 128 && (Letter(s[0]) || Digit(s[0]))
    && forall i | 0 <= i < |s| :: Letter(s[i]) || Digit(s[i]) || s[i] in "._:-"
  }

  predicate ValidFingerprint(s: string) {
    |s| == 64 && forall i | 0 <= i < |s| :: Digit(s[i]) || 'a' <= s[i] <= 'f'
  }

  /** Dots, underscores, colons and dashes may stand behind the first character, nothing else may,
      and the length is bounded on both sides. */
  lemma IdentifierExamples(s: string)
    ensures ValidIdentifier("core.v1:Req_2-Z") && ValidIdentifier("7") && !ValidIdentifier(".v1")
    ensures !ValidIdentifier("v1 2") && !ValidIdentifier("v1/2") && !ValidIdentifier("")
    ensures |s| > 128 ==> !ValidIdentifier(s)
  {
    assert "v1 2"[2] == ' ' && "v1/2"[2] == '/';
  }

  predicate ValidRequest(k: Key, operation: string, fingerprint: string) {
    ValidIdentifier(k.caller) && ValidIdentifier(k.requestId) && ValidIdentifier(operation)
    && ValidFingerprint(fingerprint)
  }

  /** The request has ended, and is only remembered. */
  predicate Terminal(r: Row) {
    r.state == Completed || r.state == Failed
  }

  /** The rows that pruning never removes. */
  function Unprunable(rows: Rows): set<Key> {
    set k | k in rows && !Terminal(rows[k])
  }

  predicate Expired(r: Row, now: int, config: Config) {
    Terminal(r) && r.finishedAt.Some? && r.finishedAt.value < now - config.retentionSeconds * 1000
  }

  function Pruned(rows: Rows, now: int, config: Config): Rows {
    map k | k in rows && !Expired(rows[k], now, config) :: rows[k]
  }

  function Decide(rows: Rows, k: Key, operation: string, fingerprint: string, config: Config): Decision {
    if k in rows then
      if rows[k].operation != operation || rows[k].fingerprint != fingerprint then Conflict(rows[k].state)
      else Existing(rows[k].state)
    else if |Unprunable(rows)| >= config.maxAcceptedRows || |rows| >= config.maxRows then Refused(AtCapacity)
    else Fresh
  }

  function Acceptance(rows: Rows, k: Key, operation: string, fingerprint: string, now: int, config: Config): Rows {
    rows[k := Row(operation, fingerprint, config.epoch, Accepted, None, None, now, None)]
  }

  function Ended(r: Row, kind: string, safeError: Option<string>, now: int): Row {
    r.(state := if safeError == None then Completed else if safeError == Some("outcome_unknown") then Ambiguous
                else Failed,
       resultKind := if safeError == None then Some(kind) else None,
       safeError := safeError,
       finishedAt := Some(if now >= r.acceptedAt then now else r.acceptedAt))
  }

  predicate MayFinish(rows: Rows, k: Key, operation: string, fingerprint: string) {
    k in rows && rows[k].state == Accepted && rows[k].operation == operation && rows[k].fingerprint == fingerprint
  }

  // ----- calls and runs -----

  datatype Call =
    | AcceptCall(k: Key, operation: string, fingerprint: string)
    | FinishCall(k: Key, operation: string, fingerprint: string, kind: string, safeError: Option<string>)
    | PruneCall
    | OpenCall(prunes: bool)

  /** A call to a journal opened with some configuration, at the time its clock showed.  A run
      mixes calls of any number of processes that opened the journal one after the other. */
  datatype Event = Event(call: Call, config: Config, now: int)

  function AfterCall(rows: Rows, e: Event): Rows {
    match e.call
    case AcceptCall(k, operation, fingerprint) =>
      if !ValidRequest(k, operation, fingerprint) then rows
      else
        var kept := Pruned(rows, e.now, e.config);
        if Decide(kept, k, operation, fingerprint, e.config) == Fresh
        then Acceptance(kept, k, operation, fingerprint, e.now, e.config)
        else kept
    case FinishCall(k, operation, fingerprint, kind, safeError) =>
      if !ValidRequest(k, operation, fingerprint) || (safeError.Some? && safeError.value !in SAFE_ERROR_CODES)
         || !MayFinish(rows, k, operation, fingerprint)
      then rows
      else Pruned(rows[k := Ended(rows[k], kind, safeError, e.now)], e.now, e.config)
    case PruneCall => Pruned(rows, e.now, e.config)
    case OpenCall(prunes) => if prunes then Pruned(rows, e.now, e.config) else rows
  }

  /** The call was an acceptance of this key that let the mutation run. */
  predicate Accepts(rows: Rows, e: Event, k: Key) {
    && e.call.AcceptCall? && e.call.k == k && ValidRequest(k, e.call.operation, e.call.fingerprint)
    && Decide(Pruned(rows, e.now, e.config), k, e.call.operation, e.call.fingerprint, e.config) == Fresh
  }

  function Run(rows: Rows, events: seq<Event>): Rows
    decreases |events|
  {
    if |events| == 0 then rows else AfterCall(Run(rows, events[..|events| - 1]), events[|events| - 1])
  }

  /** The clock never goes back, and no process keeps ended requests for less than the horizon. */
  predicate Timely(events: seq<Event>, horizon: int) {
    && (forall i, j | 0 <= i < j < |events| :: events[i].now <= events[j].now)
    && (forall i | 0 <= i < |events| :: events[i].config.retentionSeconds >= horizon)
  }

  predicate ValidRun(events: seq<Event>) {
    forall i | 0 <= i < |events| :: ValidConfig(events[i].config)
  }

  /** The rows before event `i` of a run. */
  function Before(rows: Rows, events: seq<Event>, i: nat): Rows
    requires i <= |events|
  {
    Run(rows, events[..i])
  }

  lemma BeforeNext(rows: Rows, events: seq<Event>, i: nat)
    requires i < |events|
    ensures Before(rows, events, i + 1) == AfterCall(Before(rows, events, i), events[i])
  {
    assert events[..i + 1][..i] == events[..i];
  }

  // ----- what a single call keeps -----

  /** Every ended row has its end time, not before its acceptance. */
  predicate WellDated(rows: Rows) {
    forall k | k in rows ::
      (rows[k].state == Accepted <==> rows[k].finishedAt.None?)
      && (rows[k].finishedAt.Some? ==> rows[k].finishedAt.value >= rows[k].acceptedAt)
  }

  predicate WithinBounds(rows: Rows, config: Config) {
    |rows| <= config.maxRows && |Unprunable(rows)| <= config.maxAcceptedRows
  }

  /** A process with configuration `a` admits no more rows than `b` does. */
  predicate NoLarger(a: Config, b: Config) {
    a.maxRows <= b.maxRows && a.maxAcceptedRows <= b.maxAcceptedRows
  }

  /** Same request, whatever became of it. */
  predicate SameRequest(a: Row, b: Row) {
    a.operation == b.operation && a.fingerprint == b.fingerprint && a.epoch == b.epoch && a.acceptedAt == b.acceptedAt
  }

  /** What may happen to the row of a key in one call: nothing, its end, or its removal after the
      horizon; accepted and ambiguous rows are never removed, ended rows never change. */
  predicate Evolves(before: Rows, after: Rows, k: Key, e: Event)
    requires k in before
  {
    || (k in after && after[k] == before[k])
    || (before[k].state == Accepted && e.call.FinishCall? && e.call.k == k && k in after
        && after[k].state != Accepted && SameRequest(before[k], after[k]))
    || (k !in after && Expired(before[k], e.now, e.config))
    || (Expired(before[k], e.now, e.config) && k in after && Accepts(before, e, k))
  }

  lemma CallKeepsDates(rows: Rows, e: Event)
    requires WellDated(rows)
    ensures WellDated(AfterCall(rows, e))
  {
  }

  lemma CallEvolves(rows: Rows, e: Event, k: Key)
    requires WellDated(rows) && ValidConfig(e.config) && k in rows
    ensures Evolves(rows, AfterCall(rows, e), k, e)
  {
  }

  /** A key that was not there is there afterwards exactly when it was accepted. */
  lemma NewOnlyByAcceptance(rows: Rows, e: Event, k: Key)
    requires k !in rows
    ensures k in AfterCall(rows, e) <==> Accepts(rows, e, k)
  {
  }

  lemma AcceptanceStands(rows: Rows, e: Event, k: Key)
    requires Accepts(rows, e, k)
    ensures k in AfterCall(rows, e)
    ensures AfterCall(rows, e)[k]
         == Row(e.call.operation, e.call.fingerprint, e.config.epoch, Accepted, None, None, e.now, None)
  {
  }

  // ----- when a call takes effect, and what it records -----

  /** The row ended, and was kept for the whole retention since. */
  predicate PastRetention(r: Row, now: int, config: Config) {
    && (r.state == Completed || r.state == Failed) && r.finishedAt.Some?
    && now - r.finishedAt.value > config.retentionSeconds * 1000
  }

  /** A prune removes the ended requests past their retention, and nothing else. */
  lemma PruneForgets(rows: Rows, now: int, config: Config, k: Key)
    ensures var after := AfterCall(rows, Event(PruneCall, config, now));
      && (k in after <==> k in rows && !PastRetention(rows[k], now, config))
      && (k in after ==> after[k] == rows[k])
  {
  }

  /** A mutation may run exactly when the request is well-formed, its key is not remembered, and
      there is room for one more row and for one more that has no outcome yet. */
  lemma AcceptsIff(rows: Rows, k: Key, operation: string, fingerprint: string, config: Config, now: int)
    ensures Accepts(rows, Event(AcceptCall(k, operation, fingerprint), config, now), k) <==>
              && ValidRequest(k, operation, fingerprint)
              && (k in rows ==> PastRetention(rows[k], now, config))
              && |set m | m in rows && !PastRetention(rows[m], now, config)| < config.maxRows
              && |set m | m in rows && (rows[m].state == Accepted || rows[m].state == Ambiguous)|
                 < config.maxAcceptedRows
  {
    var kept := Pruned(rows, now, config);
    assert kept.Keys == set m | m in rows && !PastRetention(rows[m], now, config);
    assert |kept| == |kept.Keys|;
    assert Unprunable(kept) == set m | m in rows && (rows[m].state == Accepted || rows[m].state == Ambiguous);
  }

  /** Every other row is kept, unless it is past its retention. */
  ghost predicate OthersForgotten(before: Rows, after: Rows, k: Key, now: int, config: Config) {
    forall m | m != k ::
      && (m in after <==> m in before && !PastRetention(before[m], now, config))
      && (m in after ==> after[m] == before[m])
  }

  /** What an acceptance leaves: one new row of this request, and the rows that are not forgotten; a
      well-formed call that does not accept leaves only the latter, a malformed one everything. */
  lemma AcceptRecords(rows: Rows, e: Event)
    requires e.call.AcceptCall?
    ensures !ValidRequest(e.call.k, e.call.operation, e.call.fingerprint) ==> AfterCall(rows, e) == rows
    ensures ValidRequest(e.call.k, e.call.operation, e.call.fingerprint) ==>
              var k, after := e.call.k, AfterCall(rows, e);
              && OthersForgotten(rows, after, k, e.now, e.config)
              && (Accepts(rows, e, k) ==>
                    k in after && after[k] == Row(e.call.operation, e.call.fingerprint, e.config.epoch, Accepted, None,
                                                  None, e.now, None))
              && (!Accepts(rows, e, k) ==>
                    && (k in after <==> k in rows && !PastRetention(rows[k], e.now, e.config))
                    && (k in after ==> after[k] == rows[k]))
  {
    hide ValidRequest;
  }

  /** A finish is recorded for an accepted row of the same request, and only then. */
  predicate Records(rows: Rows, e: Event) {
    && e.call.FinishCall? && ValidRequest(e.call.k, e.call.operation, e.call.fingerprint)
    && (e.call.safeError.Some? ==> e.call.safeError.value in SAFE_ERROR_CODES)
    && e.call.k in rows && rows[e.call.k].state == Accepted
    && rows[e.call.k].operation == e.call.operation && rows[e.call.k].fingerprint == e.call.fingerprint
  }

  /** What a recorded finish leaves: the outcome as it was reported, at a time not before the
      acceptance.  Any other finish changes nothing. */
  lemma FinishRecords(rows: Rows, e: Event)
    requires e.call.FinishCall? && ValidConfig(e.config)
    ensures !Records(rows, e) ==> AfterCall(rows, e) == rows
    ensures Records(rows, e) ==>
              var k, error := e.call.k, e.call.safeError;
              k in AfterCall(rows, e) &&
              var before, after := rows[k], AfterCall(rows, e)[k];
              && SameRequest(before, after)
              && (after.state == Completed <==> error == None)
              && (after.state == Ambiguous <==> error == Some("outcome_unknown"))
              && (after.state == Failed <==> error.Some? && error.value != "outcome_unknown")
              && after.resultKind == (if error == None then Some(e.call.kind) else None) && after.safeError == error
              && after.finishedAt.Some?
              && after.finishedAt.value >= e.now && after.finishedAt.value >= before.acceptedAt
              && (after.finishedAt.value == e.now || after.finishedAt.value == before.acceptedAt)
              && OthersForgotten(rows, AfterCall(rows, e), k, e.now, e.config)
  {
    hide ValidRequest;
  }

  /** The outcome of a row fits its state. */
  predicate Consistent(r: Row) {
    match r.state
    case Accepted => r.resultKind == None && r.safeError == None && r.finishedAt == None
    case Completed => r.resultKind.Some? && r.safeError == None
    case Ambiguous => r.resultKind == None && r.safeError == Some("outcome_unknown")
    case Failed =>
      r.resultKind == None && r.safeError.Some? && r.safeError.value in SAFE_ERROR_CODES - {"outcome_unknown"}
  }

  lemma CallKeepsConsistent(rows: Rows, e: Event)
    requires ValidConfig(e.config) && forall k | k in rows :: Consistent(rows[k])
    ensures forall k | k in AfterCall(rows, e) :: Consistent(AfterCall(rows, e)[k])
  {
    hide ValidRequest;
    if e.call.FinishCall? {
      FinishRecords(rows, e);
    }
  }

  // ----- capacity -----

  lemma SubsetSize<K, V>(small: map<K, V>, large: map<K, V>)
    requires small.Keys <= large.Keys
    ensures |small| <= |large|
  {
    SetSize(small.Keys, large.Keys);
    assert |small| == |small.Keys| && |large| == |large.Keys|;
  }

  lemma {:induction false} SetSize<T>(small: set<T>, large: set<T>)
    requires small <= large
    ensures |small| <= |large|
  {
    assert large == small + (large - small);
  }

  lemma PruneBounds(rows: Rows, now: int, config: Config)
    ensures |Pruned(rows, now, config)| <= |rows|
    ensures Unprunable(Pruned(rows, now, config)) == Unprunable(rows)
  {
    SubsetSize(Pruned(rows, now, config), rows);
  }

  lemma EndBounds(rows: Rows, k: Key, kind: string, safeError: Option<string>, now: int)
    requires k in rows
    ensures |rows[k := Ended(rows[k], kind, safeError, now)]| == |rows|
    ensures rows[k].state == Accepted ==>
              |Unprunable(rows[k := Ended(rows[k], kind, safeError, now)])| <= |Unprunable(rows)|
  {
    var ended := rows[k := Ended(rows[k], kind, safeError, now)];
    assert ended.Keys == rows.Keys;
    assert |ended| == |ended.Keys| && |rows| == |rows.Keys|;
    if rows[k].state == Accepted {
      SetSize(Unprunable(ended), Unprunable(rows));
    }
  }

  lemma AcceptBounds(rows: Rows, k: Key, operation: string, fingerprint: string, now: int, config: Config)
    requires k !in rows
    ensures |Acceptance(rows, k, operation, fingerprint, now, config)| == |rows| + 1
    ensures |Unprunable(Acceptance(rows, k, operation, fingerprint, now, config))| == |Unprunable(rows)| + 1
  {
    var after := Acceptance(rows, k, operation, fingerprint, now, config);
    assert after.Keys == rows.Keys + {k};
    assert |after| == |after.Keys| && |rows| == |rows.Keys|;
    assert Unprunable(after) == Unprunable(rows) + {k};
  }

  /** Both capacity bounds of a configuration survive every call of a process whose own bounds are
      no larger. */
  lemma CallKeepsBounds(rows: Rows, e: Event, config: Config)
    requires WithinBounds(rows, config) && NoLarger(e.config, config)
    ensures WithinBounds(AfterCall(rows, e), config)
  {
    hide Unprunable, ValidRequest, Ended, Acceptance;
    PruneBounds(rows, e.now, e.config);
    match e.call {
      case AcceptCall(k, operation, fingerprint) =>
        var kept := Pruned(rows, e.now, e.config);
        if k !in kept {
          AcceptBounds(kept, k, operation, fingerprint, e.now, e.config);
        }
        hide Pruned;
      case FinishCall(k, operation, fingerprint, kind, safeError) =>
        hide Pruned;
        if MayFinish(rows, k, operation, fingerprint) {
          EndBounds(rows, k, kind, safeError, e.now);
          PruneBounds(rows[k := Ended(rows[k], kind, safeError, e.now)], e.now, e.config);
        }
      case PruneCall =>
      case OpenCall(prunes) =>
    }
  }

  // ----- whole runs -----

  lemma {:induction false} RunKeepsDates(rows: Rows, events: seq<Event>)
    requires WellDated(rows)
    ensures WellDated(Run(rows, events))
    decreases |events|
  {
    if |events| > 0 {
      RunKeepsDates(rows, events[..|events| - 1]);
      CallKeepsDates(Run(rows, events[..|events| - 1]), events[|events| - 1]);
    }
  }

  /** Over any run with restarts, both bounds of a configuration hold throughout if they hold at the
      start and no process opens the journal with larger ones. */
  lemma {:induction false} RunKeepsBounds(rows: Rows, events: seq<Event>, config: Config)
    requires WithinBounds(rows, config)
    requires forall i | 0 <= i < |events| :: NoLarger(events[i].config, config)
    ensures WithinBounds(Run(rows, events), config)
    decreases |events|
  {
    if |events| > 0 {
      RunKeepsBounds(rows, events[..|events| - 1], config);
      CallKeepsBounds(Run(rows, events[..|events| - 1]), events[|events| - 1], config);
    }
  }

  /** An ambiguous request stays exactly as it is, for ever. */
  lemma {:induction false} AmbiguousForever(rows: Rows, events: seq<Event>, k: Key)
    requires WellDated(rows) && ValidRun(events) && k in rows && rows[k].state == Ambiguous
    ensures k in Run(rows, events) && Run(rows, events)[k] == rows[k]
    decreases |events|
  {
    if |events| > 0 {
      var prefix := events[..|events| - 1];
      AmbiguousForever(rows, prefix, k);
      RunKeepsDates(rows, prefix);
      CallEvolves(Run(rows, prefix), events[|events| - 1], k);
      hide AfterCall;
    }
  }

  /** In every run the outcome of each row fits its state. */
  lemma {:induction false} RunKeepsConsistent(rows: Rows, events: seq<Event>)
    requires ValidRun(events) && forall k | k in rows :: Consistent(rows[k])
    ensures forall k | k in Run(rows, events) :: Consistent(Run(rows, events)[k])
    decreases |events|
  {
    if |events| > 0 {
      RunKeepsConsistent(rows, events[..|events| - 1]);
      CallKeepsConsistent(Run(rows, events[..|events| - 1]), events[|events| - 1]);
    }
  }

  lemma {:induction false} RunSplits(rows: Rows, events: seq<Event>, i: nat)
    requires i <= |events|
    ensures Run(rows, events) == Run(Before(rows, events, i), events[i..])
    decreases |events|
  {
    if i == |events| {
      assert events[..i] == events;
    } else {
      var prefix := events[..|events| - 1];
      RunSplits(rows, prefix, i);
      assert prefix[..i] == events[..i] && events[i..][..|events| - 1 - i] == prefix[i..];
    }
  }

  /** A mutation whose outcome was reported as unknown is never run again: no later call of any run
      accepts its key. */
  lemma UnknownIsNeverAccepted(rows: Rows, events: seq<Event>, i: nat, j: nat)
    requires WellDated(rows) && ValidRun(events) && i < j < |events|
    requires events[i].call.FinishCall? && events[i].call.safeError == Some("outcome_unknown")
    requires Records(Before(rows, events, i), events[i])
    ensures !Accepts(Before(rows, events, j), events[j], events[i].call.k)
  {
    var k, m := events[i].call.k, i + 1;
    FinishRecords(Before(rows, events, i), events[i]);
    BeforeNext(rows, events, i);
    RunKeepsDates(rows, events[..m]);
    var suffix := events[..j][m..];
    RunSplits(rows, events[..j], m);
    assert events[..j][..m] == events[..m];
    hide AfterCall, Run, Records;
    AmbiguousForever(Before(rows, events, m), suffix, k);
  }

  /** An accepted request stays accepted until it ends, whatever else happens. */
  lemma {:induction false} AcceptedUntilEnded(rows: Rows, events: seq<Event>, k: Key)
    requires WellDated(rows) && ValidRun(events) && k in rows && rows[k].state == Accepted
    requires forall i | 0 <= i < |events| :: !(events[i].call.FinishCall? && events[i].call.k == k)
    ensures k in Run(rows, events) && Run(rows, events)[k] == rows[k]
    decreases |events|
  {
    if |events| > 0 {
      var prefix := events[..|events| - 1];
      AcceptedUntilEnded(rows, prefix, k);
      RunKeepsDates(rows, prefix);
      CallEvolves(Run(rows, prefix), events[|events| - 1], k);
      hide AfterCall;
    }
  }

  /** An ended request is remembered unchanged at least until the horizon has passed. */
  lemma {:induction false} RememberedForHorizon(rows: Rows, events: seq<Event>, k: Key, horizon: int)
    requires WellDated(rows) && ValidRun(events) && Timely(events, horizon) && horizon >= 0
    requires k in rows && Terminal(rows[k])
    requires |events| > 0 ==> events[|events| - 1].now - horizon * 1000 <= rows[k].finishedAt.value
    ensures k in Run(rows, events) && Run(rows, events)[k] == rows[k]
    decreases |events|
  {
    if |events| > 0 {
      var prefix := events[..|events| - 1];
      var last := events[|events| - 1];
      RememberedForHorizon(rows, prefix, k, horizon);
      RunKeepsDates(rows, prefix);
      CallEvolves(Run(rows, prefix), last, k);
      assert last.config.retentionSeconds * 1000 >= horizon * 1000;
      hide AfterCall;
    }
  }

  /** The row still belongs to the acceptance made by this event. */
  predicate StandsFrom(rows: Rows, k: Key, accepting: Event) {
    && k in rows && accepting.call.AcceptCall?
    && rows[k].acceptedAt == accepting.now && rows[k].epoch == accepting.config.epoch
    && rows[k].operation == accepting.call.operation && rows[k].fingerprint == accepting.call.fingerprint
  }

  /** No request comes from nowhere: every row of a journal that began empty belongs to an
      acceptance of its key in the run. */
  lemma {:induction false} EveryRowWasAccepted(events: seq<Event>, k: Key) returns (i: nat)
    requires ValidRun(events) && k in Run(map[], events)
    ensures i < |events| && Accepts(Before(map[], events, i), events[i], k)
    ensures StandsFrom(Run(map[], events), k, events[i])
    decreases |events|
  {
    var prefix, last := events[..|events| - 1], events[|events| - 1];
    var rows := Run(map[], prefix);
    assert Before(map[], events, |prefix|) == rows;
    if Accepts(rows, last, k) {
      i := |prefix|;
      AcceptanceStands(rows, last, k);
    } else {
      if k !in rows {
        NewOnlyByAcceptance(rows, last, k);
        assert false;
      }
      i := EveryRowWasAccepted(prefix, k);
      assert prefix[..i] == events[..i];
      RunKeepsDates(map[], prefix);
      CallEvolves(rows, last, k);
      hide AfterCall;
    }
  }

  /** After an acceptance the key is remembered with that request, until an event finds it ended
      and past its retention. */
  lemma {:induction false} StandsUntilExpired(rows: Rows, events: seq<Event>, i: nat, j: nat, k: Key)
    returns (m: nat)
    requires WellDated(rows) && ValidRun(events) && i < j <= |events|
    requires Accepts(Before(rows, events, i), events[i], k)
    ensures i < m <= j
    ensures StandsFrom(Before(rows, events, m), k, events[i])
    ensures m < j ==> Expired(Before(rows, events, m)[k], events[m].now, events[m].config)
    decreases j
  {
    if j == i + 1 {
      m := j;
      BeforeNext(rows, events, i);
      AcceptanceStands(Before(rows, events, i), events[i], k);
    } else {
      m := StandsUntilExpired(rows, events, i, j - 1, k);
      if m == j - 1 {
        RunKeepsDates(rows, events[..m]);
        BeforeNext(rows, events, m);
        CallEvolves(Before(rows, events, m), events[m], k);
        hide AfterCall, Run;
        if !Expired(Before(rows, events, m)[k], events[m].now, events[m].config) {
          m := j;
        }
      }
    }
  }

  /** A key is accepted a second time only after a call that found it ended and past its
      retention, so with a clock that never goes back the two acceptances are further apart than
      the horizon. */
  lemma AcceptedAtMostOnce(rows: Rows, events: seq<Event>, i: nat, j: nat, k: Key, horizon: int) returns (m: nat)
    requires WellDated(rows) && ValidRun(events) && i < j < |events|
    requires Accepts(Before(rows, events, i), events[i], k)
    requires Accepts(Before(rows, events, j), events[j], k)
    ensures i < m <= j && StandsFrom(Before(rows, events, m), k, events[i])
    ensures Expired(Before(rows, events, m)[k], events[m].now, events[m].config)
    ensures Timely(events, horizon) ==> events[j].now - events[i].now > horizon * 1000
  {
    m := StandsUntilExpired(rows, events, i, j, k);
    RunKeepsDates(rows, events[..m]);
    hide Run, AfterCall;
    if Timely(events, horizon) {
      assert events[m].config.retentionSeconds * 1000 >= horizon * 1000;
      assert events[m].now <= events[j].now || m == j;
    }
  }

  /** Between an acceptance and the end of its retention, asking again is answered from memory:
      the same request as existing, any other request under the key as a conflict. */
  lemma AskedAgain(rows: Rows, events: seq<Event>, i: nat, j: nat, k: Key, operation: string, fingerprint: string)
    requires WellDated(rows) && ValidRun(events) && i < j < |events|
    requires Accepts(Before(rows, events, i), events[i], k)
    requires forall m | i < m <= j && k in Before(rows, events, m) ::
               !Expired(Before(rows, events, m)[k], events[m].now, events[m].config)
    ensures k in Before(rows, events, j)
    ensures var kept := Pruned(Before(rows, events, j), events[j].now, events[j].config);
      var state := Before(rows, events, j)[k].state;
      Decide(kept, k, operation, fingerprint, events[j].config) ==
        if operation == events[i].call.operation && fingerprint == events[i].call.fingerprint then Existing(state)
        else Conflict(state)
  {
    var m := StandsUntilExpired(rows, events, i, j, k);
    hide Run, AfterCall;
  }
}
