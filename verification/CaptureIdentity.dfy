/** A captured document keeps the identity and the content of its records over all retries. */
module CaptureIdentity {

  datatype Option<+T> = None | Some(value: T)

  const MAX_COUNT := 1_000_000
  const SCALE := 1_000_000

  datatype Cleaned = Cleaned(text: string, removals: nat)

  /** The redaction and naming rules of other modules. */
  datatype Rules = Rules(
    cleanText: string -> Cleaned,
    cleanMetadata: string -> Cleaned,
    cleanTag: string -> string,
    cleanContext: string -> string,
    cleanSpeaker: string -> string,
    unknownRemovals: seq<string> -> nat)

  /** Cleaning something clean changes and removes nothing; names are never empty. */
  ghost predicate ValidRules(rules: Rules) {
    && (forall t :: rules.cleanText(rules.cleanText(t).text) == Cleaned(rules.cleanText(t).text, 0))
    && (forall t :: rules.cleanMetadata(rules.cleanMetadata(t).text) == Cleaned(rules.cleanMetadata(t).text, 0))
    && (forall t :: rules.cleanTag(rules.cleanTag(t)) == rules.cleanTag(t) != "")
    && (forall t :: rules.cleanContext(rules.cleanContext(t)) == rules.cleanContext(t) != "")
    && (forall t :: rules.cleanSpeaker(rules.cleanSpeaker(t)) == rules.cleanSpeaker(t) != "")
    && rules.unknownRemovals([]) == 0
  }

  /** One record; an absent text field is empty, as the program treats it. */
  datatype Payload = Payload(version: int, captureId: string, text: string, contextId: string, sourceTag: string,
                             tag: string, speaker: string, threshold: int, minSentences: int, metadata: string,
                             redactions: int, dropped: int, unknown: seq<string>, createdAt: Option<int>)

  predicate CanonicalId(id: string) {
    |id| == 38 && id[..6] == "s2cap_"
    && forall i | 6 <= i < 38 :: '0' <= id[i] <= '9' || 'a' <= id[i] <= 'f'
  }

  function Clamped(n: int, low: int, high: int): int {
    if n < low then low else if n > high then high else n
  }

  function OrElse(s: string, fallback: string): string {
    if s == "" then fallback else s
  }

  /** The redaction counter of a record after one pass. */
  function Redactions(rules: Rules, p: Payload): int {
    Clamped(p.redactions, 0, MAX_COUNT) + rules.cleanText(p.text).removals + rules.cleanMetadata(p.metadata).removals
    + rules.unknownRemovals(p.unknown)
  }

  /** One pass of `_prepare_payload_document` over a record; `created` is the new identity that a
      first-version record without one receives. */
  function Prepared(rules: Rules, p: Payload, created: string, stem: string): Option<Payload> {
    if p.version != 1 && p.version != 2 then None
    else
      var id := if p.version == 1 && p.captureId == "" then created else p.captureId;
      if !CanonicalId(id) then None
      else
        var text := rules.cleanText(p.text);
        if text.text == "" then None
        else
          var metadata := rules.cleanMetadata(p.metadata);
          var tag := OrElse(OrElse(p.sourceTag, p.tag), if p.version == 2 then "capture-daemon" else stem);
          Some(Payload(
            p.version, id, text.text,
            rules.cleanContext(OrElse(p.contextId, "default")),
            rules.cleanTag(tag), "",
            rules.cleanSpeaker(OrElse(p.speaker, "capture-daemon")),
            Clamped(p.threshold, 0, SCALE),
            if p.minSentences < 1 then 1 else p.minSentences,
            metadata.text,
            Redactions(rules, p),
            Clamped(p.dropped, 0, MAX_COUNT) + |p.unknown|,
            [], p.createdAt))
  }

  /** A record is prepared exactly when its version is known, it has an identity or, in the first
      version, may be given one, and text is left after cleaning. */
  lemma PreparedIff(rules: Rules, p: Payload, created: string, stem: string)
    ensures Prepared(rules, p, created, stem).Some? <==>
              && (p.version == 1 || p.version == 2)
              && (CanonicalId(p.captureId) || (p.version == 1 && p.captureId == "" && CanonicalId(created)))
              && rules.cleanText(p.text).text != ""
  {
  }

  /** A prepared record is the cleaned input, field by field: what was given is kept, what was not is
      filled in, numbers are brought into range, and unknown fields are counted and dropped. */
  lemma PreparedShows(rules: Rules, p: Payload, created: string, stem: string)
    requires Prepared(rules, p, created, stem).Some?
    ensures var q := Prepared(rules, p, created, stem).value;
      && q.version == p.version && q.createdAt == p.createdAt && q.unknown == []
      && q.captureId == (if p.captureId == "" then created else p.captureId)
      && q.text == rules.cleanText(p.text).text && q.metadata == rules.cleanMetadata(p.metadata).text
      && (p.contextId != "" ==> q.contextId == rules.cleanContext(p.contextId))
      && (p.contextId == "" ==> q.contextId == rules.cleanContext("default"))
      && (p.sourceTag != "" ==> q.sourceTag == rules.cleanTag(p.sourceTag))
      && (p.sourceTag == "" && p.tag != "" ==> q.sourceTag == rules.cleanTag(p.tag))
      && (p.sourceTag == p.tag == "" ==>
            q.sourceTag == rules.cleanTag(if p.version == 1 then stem else "capture-daemon"))
      && (p.speaker != "" ==> q.speaker == rules.cleanSpeaker(p.speaker))
      && (p.speaker == "" ==> q.speaker == rules.cleanSpeaker("capture-daemon"))
      && 0 <= q.threshold <= SCALE && (0 <= p.threshold <= SCALE ==> q.threshold == p.threshold)
      && q.minSentences >= 1 && (p.minSentences >= 1 ==> q.minSentences == p.minSentences)
      && (0 <= p.dropped <= MAX_COUNT ==> q.dropped == p.dropped + |p.unknown|)
      && (0 <= p.redactions <= MAX_COUNT ==>
            q.redactions == p.redactions + rules.cleanText(p.text).removals + rules.cleanMetadata(p.metadata).removals
                            + rules.unknownRemovals(p.unknown))
  {
  }

  /** The counters of a record are small enough to survive another pass. */
  predicate CountsFit(p: Payload) {
    p.redactions <= MAX_COUNT && p.dropped <= MAX_COUNT
  }

  /** The record with both counters cut to the clamp. */
  function Counted(p: Payload): Payload {
    p.(redactions := Clamped(p.redactions, 0, MAX_COUNT), dropped := Clamped(p.dropped, 0, MAX_COUNT))
  }

  /** Preparing a prepared record again only cuts its counters, so it changes nothing exactly when
      they are within the clamp. */
  lemma PreparedAgainIff(rules: Rules, p: Payload, created: string, again: string, stem: string)
    requires ValidRules(rules) && Prepared(rules, p, created, stem).Some?
    ensures var q := Prepared(rules, p, created, stem).value;
      && Prepared(rules, q, again, stem) == Some(Counted(q))
      && (Prepared(rules, q, again, stem) == Some(q) <==> CountsFit(q))
      && q.redactions == Redactions(rules, p) >= 0 && q.dropped >= 0
  {
    var q := Prepared(rules, p, created, stem).value;
    assert rules.cleanText(q.text) == Cleaned(q.text, 0);
    assert rules.cleanMetadata(q.metadata) == Cleaned(q.metadata, 0);
    assert rules.cleanTag(q.sourceTag) == q.sourceTag != "";
    assert rules.cleanContext(q.contextId) == q.contextId != "";
    assert rules.cleanSpeaker(q.speaker) == q.speaker != "";
    hide CanonicalId;
  }

  // ----- documents -----

  predicate DistinctIds(payloads: seq<Payload>) {
    forall i, j | 0 <= i < j < |payloads| :: payloads[i].captureId != payloads[j].captureId
  }

  predicate HasId(payloads: seq<Payload>, id: string) {
    exists i :: 0 <= i < |payloads| && payloads[i].captureId == id
  }

  /** The records in order, each with the new identity at its place, or a refusal. */
  function PreparedAll(rules: Rules, doc: seq<Payload>, created: seq<string>, stem: string)
    : (prepared: Option<seq<Payload>>)
    requires |created| == |doc|
    ensures prepared.Some? ==> |prepared.value| == |doc|
  {
    if doc == [] then Some([])
    else
      var n := |doc| - 1;
      match PreparedAll(rules, doc[..n], created[..n], stem)
      case None => None
      case Some(before) =>
        match Prepared(rules, doc[n], created[n], stem)
        case None => None
        case Some(q) =>
          if HasId(before, q.captureId) then None
          else Some(before + [q])
  }

  lemma {:induction false} PreparedAllIs(rules: Rules, doc: seq<Payload>, created: seq<string>, stem: string)
    requires |created| == |doc| && PreparedAll(rules, doc, created, stem).Some?
    ensures var ps := PreparedAll(rules, doc, created, stem).value;
      && |ps| == |doc| && DistinctIds(ps)
      && forall i | 0 <= i < |doc| :: Prepared(rules, doc[i], created[i], stem) == Some(ps[i])
  {
    if doc != [] {
      hide Prepared;
      var n := |doc| - 1;
      PreparedAllIs(rules, doc[..n], created[..n], stem);
    }
  }

  /** The identity under which a record is prepared. */
  function IdOf(p: Payload, created: string): string {
    if p.captureId == "" then created else p.captureId
  }

  predicate OwnIds(doc: seq<Payload>, created: seq<string>)
    requires |created| == |doc|
  {
    forall i, j | 0 <= i < j < |doc| :: IdOf(doc[i], created[i]) != IdOf(doc[j], created[j])
  }

  /** A document is prepared exactly when each of its records is and their identities differ. */
  lemma {:induction false} DocumentPreparedIff(rules: Rules, doc: seq<Payload>, created: seq<string>, stem: string)
    requires |created| == |doc|
    ensures PreparedAll(rules, doc, created, stem).Some? <==>
              && (forall i | 0 <= i < |doc| :: Prepared(rules, doc[i], created[i], stem).Some?)
              && OwnIds(doc, created)
  {
    hide Prepared, IdOf, HasId, OwnIds;
    if doc == [] {
      NoIds();
    } else {
      var n := |doc| - 1;
      DocumentPreparedIff(rules, doc[..n], created[..n], stem);
      OneMoreId(doc, created);
      if PreparedAll(rules, doc[..n], created[..n], stem).Some? && Prepared(rules, doc[n], created[n], stem).Some? {
        var before := PreparedAll(rules, doc[..n], created[..n], stem).value;
        PreparedAllIs(rules, doc[..n], created[..n], stem);
        forall i | 0 <= i < n
          ensures before[i].captureId == IdOf(doc[i], created[i])
        {
          PreparedId(rules, doc[i], created[i], stem);
        }
        PreparedId(rules, doc[n], created[n], stem);
        KnownId(before, doc, created);
      }
    }
  }

  lemma NoIds()
    ensures OwnIds([], [])
  {
  }

  lemma OneMoreId(doc: seq<Payload>, created: seq<string>)
    requires doc != [] && |created| == |doc|
    ensures var n := |doc| - 1;
      OwnIds(doc, created) <==>
        OwnIds(doc[..n], created[..n]) && forall i | 0 <= i < n :: IdOf(doc[i], created[i]) != IdOf(doc[n], created[n])
  {
    hide IdOf;
    var n := |doc| - 1;
    if OwnIds(doc, created) {
      forall i, j | 0 <= i < j < n
        ensures IdOf(doc[..n][i], created[..n][i]) != IdOf(doc[..n][j], created[..n][j])
      {
      }
    } else {
      var i, j :| 0 <= i < j < |doc| && IdOf(doc[i], created[i]) == IdOf(doc[j], created[j]);
      if j < n {
        assert IdOf(doc[..n][i], created[..n][i]) == IdOf(doc[..n][j], created[..n][j]);
      }
    }
  }

  lemma PreparedId(rules: Rules, p: Payload, created: string, stem: string)
    requires Prepared(rules, p, created, stem).Some?
    ensures Prepared(rules, p, created, stem).value.captureId == IdOf(p, created)
  {
  }

  lemma KnownId(before: seq<Payload>, doc: seq<Payload>, created: seq<string>)
    requires |before| < |doc| == |created|
    requires forall i | 0 <= i < |before| :: before[i].captureId == IdOf(doc[i], created[i])
    ensures forall id :: HasId(before, id) <==> exists i :: 0 <= i < |before| && IdOf(doc[i], created[i]) == id
  {
    hide IdOf;
  }

  lemma LastIsNew(doc: seq<Payload>)
    requires doc != [] && DistinctIds(doc)
    ensures !HasId(doc[..|doc| - 1], doc[|doc| - 1].captureId)
  {
  }

  /** One more record of a document. */
  lemma PreparedNext(rules: Rules, doc: seq<Payload>, created: seq<string>, stem: string, i: nat)
    requires |created| == |doc| && i < |doc|
    ensures PreparedAll(rules, doc[..i + 1], created[..i + 1], stem) ==
              match PreparedAll(rules, doc[..i], created[..i], stem)
              case None => None
              case Some(before) =>
                match Prepared(rules, doc[i], created[i], stem)
                case None => None
                case Some(q) => if HasId(before, q.captureId) then None else Some(before + [q])
  {
    hide Prepared, HasId;
    assert doc[..i + 1][..i] == doc[..i] && created[..i + 1][..i] == created[..i];
  }

  /** Every record of the document is as a pass leaves it, up to its counters. */
  ghost predicate PreparedDocument(rules: Rules, doc: seq<Payload>, stem: string) {
    DistinctIds(doc)
    && forall i, created | 0 <= i < |doc| :: Prepared(rules, doc[i], created, stem) == Some(Counted(doc[i]))
  }

  function CountedAll(doc: seq<Payload>): (counted: seq<Payload>)
    ensures |counted| == |doc| && forall i | 0 <= i < |doc| :: counted[i] == Counted(doc[i])
  {
    seq(|doc|, i requires 0 <= i < |doc| => Counted(doc[i]))
  }

  lemma PreparedPrefix(rules: Rules, doc: seq<Payload>, stem: string)
    requires |doc| > 0 && PreparedDocument(rules, doc, stem)
    ensures PreparedDocument(rules, doc[..|doc| - 1], stem)
    ensures !HasId(CountedAll(doc[..|doc| - 1]), doc[|doc| - 1].captureId)
  {
    hide Prepared;
    LastIsNew(doc);
  }

  lemma {:induction false} PassOverPrepared(rules: Rules, doc: seq<Payload>, created: seq<string>, stem: string)
    requires |created| == |doc| && PreparedDocument(rules, doc, stem)
    ensures PreparedAll(rules, doc, created, stem) == Some(CountedAll(doc))
  {
    if doc != [] {
      var n := |doc| - 1;
      PreparedPrefix(rules, doc, stem);
      PassOverPrepared(rules, doc[..n], created[..n], stem);
      assert Prepared(rules, doc[n], created[n], stem) == Some(Counted(doc[n]));
      hide Prepared, HasId, PreparedDocument;
      assert CountedAll(doc) == CountedAll(doc[..n]) + [Counted(doc[n])];
    }
  }

  /** After one pass, every further pass with whatever new identities only cuts the counters, and
      after the second no pass changes anything. */
  lemma PassSettles(rules: Rules, doc: seq<Payload>, created: seq<string>, stem: string)
    requires ValidRules(rules) && |created| == |doc| && PreparedAll(rules, doc, created, stem).Some?
    ensures var ps := PreparedAll(rules, doc, created, stem).value;
      && PreparedDocument(rules, ps, stem) && PreparedDocument(rules, CountedAll(ps), stem)
      && CountedAll(CountedAll(ps)) == CountedAll(ps)
      && (CountedAll(ps) == ps <==> forall i | 0 <= i < |ps| :: CountsFit(ps[i]))
      && (forall i | 0 <= i < |ps| :: ps[i].redactions == Redactions(rules, doc[i]) >= 0)
  {
    hide Prepared, PreparedAll, ValidRules, Redactions, Counted, CountsFit;
    PreparedAllIs(rules, doc, created, stem);
    var ps := PreparedAll(rules, doc, created, stem).value;
    forall i, again | 0 <= i < |ps|
      ensures Prepared(rules, ps[i], again, stem) == Some(Counted(ps[i]))
    {
      PreparedAgainIff(rules, doc[i], created[i], again, stem);
    }
    assert PreparedDocument(rules, ps, stem);
    CountedIsPrepared(rules, ps, stem);
    forall i | 0 <= i < |ps|
      ensures ps[i].redactions == Redactions(rules, doc[i]) >= 0 && ps[i].dropped >= 0
    {
      PreparedAgainIff(rules, doc[i], created[i], "", stem);
    }
    CountedTwice(ps);
    CountedIffAll(ps);
  }

  lemma CountedTwice(doc: seq<Payload>)
    ensures CountedAll(CountedAll(doc)) == CountedAll(doc)
  {
  }

  lemma CountedIffAll(doc: seq<Payload>)
    requires forall i | 0 <= i < |doc| :: doc[i].redactions >= 0 && doc[i].dropped >= 0
    ensures CountedAll(doc) == doc <==> forall i | 0 <= i < |doc| :: CountsFit(doc[i])
  {
    forall i | 0 <= i < |doc|
      ensures Counted(doc[i]) == doc[i] <==> CountsFit(doc[i])
    {
    }
    hide CountsFit, Counted;
  }

  lemma CountedIsPrepared(rules: Rules, doc: seq<Payload>, stem: string)
    requires ValidRules(rules) && PreparedDocument(rules, doc, stem)
    ensures PreparedDocument(rules, CountedAll(doc), stem)
  {
    var counted := CountedAll(doc);
    forall i, again | 0 <= i < |counted|
      ensures Prepared(rules, counted[i], again, stem) == Some(Counted(counted[i]))
    {
      assert Prepared(rules, doc[i], again, stem) == Some(counted[i]);
      PreparedAgainIff(rules, doc[i], again, again, stem);
    }
    hide Prepared;
  }

  method PrepareDocument(rules: Rules, doc: seq<Payload>, created: seq<string>, stem: string)
    returns (payloads: Option<seq<Payload>>, changed: bool)
    requires |created| == |doc|
    ensures payloads == PreparedAll(rules, doc, created, stem)
    ensures payloads.Some? ==> (changed <==> payloads.value != doc)
  {
    hide Prepared, PreparedAll;
    var done: seq<Payload> := [];
    var ids: set<string> := {};
    changed := false;
    NothingPrepared(rules, doc, created, stem);
    for i := 0 to |doc|
      invariant PreparedAll(rules, doc[..i], created[..i], stem) == Some(done) && |done| == i
      invariant forall id :: id in ids <==> HasId(done, id)
      invariant changed <==> done != doc[..i]
    {
      PreparedNext(rules, doc, created, stem, i);
      var p := Prepared(rules, doc[i], created[i], stem);
      if p.None? || p.value.captureId in ids {
        RefusedForGood(rules, doc, created, stem, i + 1);
        return None, changed;
      }
      IdsGrow(done, p.value);
      SamePrefix(done, p.value, doc, i);
      ids := ids + {p.value.captureId};
      changed := changed || p.value != doc[i];
      done := done + [p.value];
    }
    assert doc[..|doc|] == doc && created[..|doc|] == created;
    payloads := Some(done);
  }

  lemma NothingPrepared(rules: Rules, doc: seq<Payload>, created: seq<string>, stem: string)
    requires |created| == |doc|
    ensures PreparedAll(rules, doc[..0], created[..0], stem) == Some([])
  {
  }

  lemma IdsGrow(done: seq<Payload>, p: Payload)
    ensures forall id :: HasId(done + [p], id) <==> HasId(done, id) || id == p.captureId
  {
    var longer := done + [p];
    assert longer[|done|] == p;
    forall id
      ensures HasId(longer, id) <==> HasId(done, id) || id == p.captureId
    {
      if HasId(done, id) {
        var i :| 0 <= i < |done| && done[i].captureId == id;
        assert longer[i].captureId == id;
      }
    }
  }

  lemma SamePrefix(done: seq<Payload>, p: Payload, doc: seq<Payload>, i: nat)
    requires |done| == i < |doc|
    ensures done + [p] == doc[..i + 1] <==> done == doc[..i] && p == doc[i]
  {
    assert doc[..i + 1] == doc[..i] + [doc[i]];
  }

  lemma {:induction false} RefusedForGood(rules: Rules, doc: seq<Payload>, created: seq<string>, stem: string, n: nat)
    requires |created| == |doc| && n <= |doc| && PreparedAll(rules, doc[..n], created[..n], stem).None?
    ensures PreparedAll(rules, doc, created, stem).None?
    decreases |doc| - n
  {
    hide Prepared;
    if n < |doc| {
      PreparedNext(rules, doc, created, stem, n);
      RefusedForGood(rules, doc, created, stem, n + 1);
    } else {
      assert doc[..n] == doc && created[..n] == created;
    }
  }

  // ----- what reaches the backend -----

  /** `_canonical_capture_request`, with its counter. */
  datatype Request = Request(captureId: string, text: string, contextId: string, sourceTag: string, speaker: string,
                             threshold: int, minSentences: int, metadata: string, redactions: int)

  function RequestOf(rules: Rules, p: Payload): Request {
    var text, metadata := rules.cleanText(p.text), rules.cleanMetadata(p.metadata);
    Request(p.captureId, text.text, rules.cleanContext(OrElse(p.contextId, "default")),
            rules.cleanTag(OrElse(p.sourceTag, "capture-daemon")),
            rules.cleanSpeaker(OrElse(p.speaker, "capture-daemon")), p.threshold, p.minSentences, metadata.text,
            p.redactions + text.removals + metadata.removals)
  }

  /** The request for a prepared record carries the record as it is. */
  lemma RequestShows(rules: Rules, p: Payload, created: string, stem: string)
    requires ValidRules(rules) && Prepared(rules, p, created, stem).Some?
    ensures var q := Prepared(rules, p, created, stem).value;
      RequestOf(rules, q) == Request(q.captureId, q.text, q.contextId, q.sourceTag, q.speaker, q.threshold,
                                     q.minSentences, q.metadata, q.redactions)
  {
    var q := Prepared(rules, p, created, stem).value;
    assert rules.cleanText(q.text) == Cleaned(q.text, 0);
    assert rules.cleanMetadata(q.metadata) == Cleaned(q.metadata, 0);
    assert rules.cleanTag(q.sourceTag) == q.sourceTag != "";
    assert rules.cleanContext(q.contextId) == q.contextId != "";
    assert rules.cleanSpeaker(q.speaker) == q.speaker != "";
    hide CanonicalId;
  }

  datatype Sending = Sending(ordinal: nat, request: Request)

  /** The claimed document and everything that was sent for it so far. */
  datatype Claim = Claim(doc: seq<Payload>, sent: seq<Sending>)

  /** One attempt to process the claim: it may be cut off before the prepared document is stored,
      or after any number of its records were sent. */
  datatype Attempt = Attempt(created: seq<string>, stores: bool, sends: nat)

  function Sendings(rules: Rules, doc: seq<Payload>, n: nat): seq<Sending>
    requires n <= |doc|
  {
    if n == 0 then [] else Sendings(rules, doc, n - 1) + [Sending(n - 1, RequestOf(rules, doc[n - 1]))]
  }

  function AfterAttempt(rules: Rules, c: Claim, a: Attempt, stem: string): (after: Claim)
    requires |a.created| == |c.doc|
    ensures |after.doc| == |c.doc|
  {
    match PreparedAll(rules, c.doc, a.created, stem)
    case None => c
    case Some(ps) =>
      if !a.stores && ps != c.doc then c
      else Claim(ps, c.sent + Sendings(rules, ps, if a.sends <= |ps| then a.sends else |ps|))
  }

  /** Nothing was sent yet, or the stored document is settled and everything that was sent is what
      it says. */
  ghost predicate Settled(rules: Rules, c: Claim) {
    c.sent == [] ||
    (DistinctIds(c.doc)
     && forall k | 0 <= k < |c.sent| ::
          c.sent[k].ordinal < |c.doc| && c.sent[k].request == RequestOf(rules, c.doc[c.sent[k].ordinal]))
  }

  lemma {:induction false} SendingsAre(rules: Rules, doc: seq<Payload>, n: nat)
    requires n <= |doc|
    ensures |Sendings(rules, doc, n)| == n
    ensures forall k | 0 <= k < n :: Sendings(rules, doc, n)[k] == Sending(k, RequestOf(rules, doc[k]))
  {
    if n > 0 {
      hide RequestOf;
      SendingsAre(rules, doc, n - 1);
    }
  }

  /** The redaction counters are within the clamp. */
  predicate RedactionsWithin(doc: seq<Payload>) {
    forall i | 0 <= i < |doc| :: 0 <= doc[i].redactions <= MAX_COUNT
  }

  /** A prepared document whose redaction counters fit, and everything sent is what it says. */
  ghost predicate Steady(rules: Rules, c: Claim, stem: string) {
    PreparedDocument(rules, c.doc, stem) && RedactionsWithin(c.doc) && Settled(rules, c)
  }

  /** The counter of dropped fields is not part of a request. */
  lemma CountedAgrees(rules: Rules, c: Claim)
    requires Settled(rules, c) && RedactionsWithin(c.doc)
    ensures Settled(rules, Claim(CountedAll(c.doc), c.sent)) && RedactionsWithin(CountedAll(c.doc))
  {
    var counted := CountedAll(c.doc);
    forall i | 0 <= i < |c.doc|
      ensures RequestOf(rules, counted[i]) == RequestOf(rules, c.doc[i])
    {
    }
    hide RequestOf;
  }

  lemma SteadyAttempt(rules: Rules, c: Claim, a: Attempt, stem: string)
    requires ValidRules(rules) && |a.created| == |c.doc| && Steady(rules, c, stem)
    ensures var c' := AfterAttempt(rules, c, a, stem);
      Steady(rules, c', stem) && (c'.doc == c.doc || c'.doc == CountedAll(c.doc)) && c.sent <= c'.sent
  {
    PassOverPrepared(rules, c.doc, a.created, stem);
    CountedIsPrepared(rules, c.doc, stem);
    assert DistinctIds(CountedAll(c.doc));
    CountedAgrees(rules, c);
    hide PreparedAll, Prepared, PreparedDocument, ValidRules, RedactionsWithin;
    MoreSent(rules, Claim(CountedAll(c.doc), c.sent), if a.sends <= |c.doc| then a.sends else |c.doc|);
    hide Settled, Sendings, DistinctIds;
  }

  lemma MoreSent(rules: Rules, c: Claim, n: nat)
    requires n <= |c.doc| && DistinctIds(c.doc) && Settled(rules, c)
    ensures Settled(rules, Claim(c.doc, c.sent + Sendings(rules, c.doc, n)))
  {
    SendingsAre(rules, c.doc, n);
    hide RequestOf, Sendings;
  }

  function Run(rules: Rules, c: Claim, attempts: seq<Attempt>, stem: string): Claim
    requires forall i | 0 <= i < |attempts| :: |attempts[i].created| == |c.doc|
    decreases |attempts|
  {
    if attempts == [] then c
    else
      var c' := AfterAttempt(rules, c, attempts[0], stem);
      Run(rules, c', attempts[1..], stem)
  }

  /** Through all further attempts a prepared document stays as it is or gets its counters cut, and
      everything sent is what it says. */
  lemma {:induction false} SteadyRun(rules: Rules, c: Claim, attempts: seq<Attempt>, stem: string)
    requires forall i | 0 <= i < |attempts| :: |attempts[i].created| == |c.doc|
    requires ValidRules(rules) && Steady(rules, c, stem)
    ensures var last := Run(rules, c, attempts, stem);
      Steady(rules, last, stem) && (last.doc == c.doc || last.doc == CountedAll(c.doc))
    decreases |attempts|
  {
    hide Steady, AfterAttempt, ValidRules;
    if attempts != [] {
      SteadyAttempt(rules, c, attempts[0], stem);
      CountedTwice(c.doc);
      SteadyRun(rules, AfterAttempt(rules, c, attempts[0], stem), attempts[1..], stem);
    }
  }

  /** No record's redaction counter passes the clamp in its first pass. */
  predicate RedactionsFit(rules: Rules, doc: seq<Payload>) {
    forall i | 0 <= i < |doc| :: Redactions(rules, doc[i]) <= MAX_COUNT
  }

  /** Each record was sent with one identity and one request, and different records with
      different identities. */
  predicate OnePerRecord(sent: seq<Sending>) {
    forall i, j | 0 <= i < |sent| && 0 <= j < |sent| ::
      (sent[i].ordinal == sent[j].ordinal <==> sent[i].request.captureId == sent[j].request.captureId)
      && (sent[i].ordinal == sent[j].ordinal ==> sent[i].request == sent[j].request)
  }

  /** Over all crashes and retries, every record reaches the backend with one identity and one
      request, and different records with different identities. */
  lemma {:induction false} OneRequestPerRecord(rules: Rules, doc: seq<Payload>, attempts: seq<Attempt>, stem: string)
    requires ValidRules(rules) && RedactionsFit(rules, doc)
    requires forall i | 0 <= i < |attempts| :: |attempts[i].created| == |doc|
    ensures OnePerRecord(Run(rules, Claim(doc, []), attempts, stem).sent)
    decreases |attempts|
  {
    hide OnePerRecord, AfterAttempt, Steady, Settled, ValidRules, RedactionsFit;
    if attempts != [] {
      var c := Claim(doc, []);
      var c' := AfterAttempt(rules, c, attempts[0], stem);
      FirstIsSteady(rules, c, attempts[0], stem);
      if c' == c {
        OneRequestPerRecord(rules, doc, attempts[1..], stem);
      } else {
        SteadyRun(rules, c', attempts[1..], stem);
        SettledMeans(rules, Run(rules, c', attempts[1..], stem), stem);
      }
    } else {
      NothingSent();
    }
  }

  /** Without a stored pass nothing was sent; with one the document is prepared. */
  lemma FirstIsSteady(rules: Rules, c: Claim, a: Attempt, stem: string)
    requires ValidRules(rules) && RedactionsFit(rules, c.doc) && |a.created| == |c.doc| && c.sent == []
    ensures var c' := AfterAttempt(rules, c, a, stem);
      c' == c || (Steady(rules, c', stem) && |c'.doc| == |c.doc|)
  {
    if PreparedAll(rules, c.doc, a.created, stem).Some? {
      var ps := PreparedAll(rules, c.doc, a.created, stem).value;
      PassSettles(rules, c.doc, a.created, stem);
      hide Prepared, PreparedAll, Settled, Sendings, ValidRules, Redactions;
      NothingSettled(rules, Claim(ps, []));
      MoreSent(rules, Claim(ps, []), if a.sends <= |ps| then a.sends else |ps|);
    }
  }

  lemma NothingSent()
    ensures OnePerRecord([])
  {
  }

  lemma NothingSettled(rules: Rules, c: Claim)
    requires c.sent == []
    ensures Settled(rules, c)
  {
  }

  lemma SettledMeans(rules: Rules, c: Claim, stem: string)
    requires Steady(rules, c, stem)
    ensures OnePerRecord(c.sent)
  {
    forall k | 0 <= k < |c.sent|
      ensures c.sent[k].request.captureId == c.doc[c.sent[k].ordinal].captureId
    {
      assert c.sent[k].request == RequestOf(rules, c.doc[c.sent[k].ordinal]);
    }
    hide RequestOf;
  }

  // ----- a ledger keyed by the identity -----

  /** The backend's ledger: an identity is applied once, with the request that came first. */
  function Ledger(sent: seq<Sending>): map<string, Request> {
    if sent == [] then map[]
    else
      var before := Ledger(sent[..|sent| - 1]);
      var r := sent[|sent| - 1].request;
      if r.captureId in before then before else before[r.captureId := r]
  }

  /** When every identity comes with one request, the ledger holds exactly the requests sent, so each
      record has at most one effect and no replay is ever answered with a conflict. */
  lemma {:induction false} LedgerHoldsAll(sent: seq<Sending>)
    requires OnePerRecord(sent)
    ensures forall k | 0 <= k < |sent| ::
              sent[k].request.captureId in Ledger(sent) && Ledger(sent)[sent[k].request.captureId] == sent[k].request
    ensures forall id | id in Ledger(sent) ::
              exists k :: 0 <= k < |sent| && sent[k].request == Ledger(sent)[id] && sent[k].request.captureId == id
  {
    if sent != [] {
      var prefix := sent[..|sent| - 1];
      LedgerHoldsAll(prefix);
      forall k | 0 <= k < |sent|
        ensures sent[k].request.captureId in Ledger(sent)
                && Ledger(sent)[sent[k].request.captureId] == sent[k].request
      {
        var id := sent[k].request.captureId;
        if k < |prefix| {
          assert prefix[k] == sent[k];
        } else if id in Ledger(prefix) {
          var j :| 0 <= j < |prefix| && prefix[j].request == Ledger(prefix)[id] && prefix[j].request.captureId == id;
          assert sent[j] == prefix[j];
        }
      }
      forall id | id in Ledger(sent)
        ensures exists k :: 0 <= k < |sent| && sent[k].request == Ledger(sent)[id] && sent[k].request.captureId == id
      {
        if id in Ledger(prefix) {
          var j :| 0 <= j < |prefix| && prefix[j].request == Ledger(prefix)[id] && prefix[j].request.captureId == id;
          assert sent[j].request == Ledger(sent)[id];
        } else {
          assert sent[|sent| - 1].request == Ledger(sent)[id];
        }
      }
    }
  }

  /** Over all crashes and retries, the ledger applied exactly one request for each record that was
      sent, and that is the request every sending of the record carried. */
  lemma OneEffectPerRecord(rules: Rules, doc: seq<Payload>, attempts: seq<Attempt>, stem: string)
    requires ValidRules(rules) && RedactionsFit(rules, doc)
    requires forall i | 0 <= i < |attempts| :: |attempts[i].created| == |doc|
    ensures var sent := Run(rules, Claim(doc, []), attempts, stem).sent;
      && (forall k | 0 <= k < |sent| ::
            sent[k].request.captureId in Ledger(sent) && Ledger(sent)[sent[k].request.captureId] == sent[k].request)
      && (forall i, j | 0 <= i < |sent| && 0 <= j < |sent| && sent[i].ordinal == sent[j].ordinal ::
            sent[i].request == sent[j].request)
  {
    OneRequestPerRecord(rules, doc, attempts, stem);
    hide Run, AfterAttempt, RedactionsFit, ValidRules, Ledger;
    LedgerHoldsAll(Run(rules, Claim(doc, []), attempts, stem).sent);
  }

  // ----- exactly when retries agree -----

  /** A record whose redaction counter passes the clamp is sent with another counter after a retry,
      under the same identity. */
  lemma LargeCountChangesRequest(rules: Rules, p: Payload, created: string, again: string, stem: string)
    requires ValidRules(rules) && Prepared(rules, p, created, stem).Some?
    ensures var q := Prepared(rules, p, created, stem).value;
      var retried := Prepared(rules, q, again, stem);
      && retried.Some? && RequestOf(rules, retried.value).captureId == RequestOf(rules, q).captureId
      && (RequestOf(rules, retried.value) == RequestOf(rules, q) <==> Redactions(rules, p) <= MAX_COUNT)
  {
    PreparedAgainIff(rules, p, created, again, stem);
    hide Prepared, Redactions, ValidRules;
  }

  predicate Fitting(attempts: seq<Attempt>, doc: seq<Payload>) {
    forall i | 0 <= i < |attempts| :: |attempts[i].created| == |doc|
  }

  /** Two undisturbed attempts send every record twice, the second time with its counters cut. */
  lemma TwoAttempts(rules: Rules, doc: seq<Payload>, created: seq<string>, stem: string)
    requires ValidRules(rules) && |created| == |doc| && PreparedAll(rules, doc, created, stem).Some?
    ensures var ps := PreparedAll(rules, doc, created, stem).value;
      var a := Attempt(created, true, |doc|);
      Run(rules, Claim(doc, []), [a, a], stem).sent
      == Sendings(rules, ps, |doc|) + Sendings(rules, CountedAll(ps), |doc|)
  {
    hide PreparedAll, PreparedDocument, Sendings, ValidRules, Redactions, Counted, AfterAttempt, Run, CountsFit;
    hide CountedAll, DistinctIds;
    var ps := PreparedAll(rules, doc, created, stem).value;
    PassSettles(rules, doc, created, stem);
    PassOverPrepared(rules, ps, created, stem);
    FullAttempt(rules, Claim(doc, []), created, stem);
    FullAttempt(rules, Claim(ps, [] + Sendings(rules, ps, |doc|)), created, stem);
    TwoRuns(rules, Claim(doc, []), Attempt(created, true, |doc|), stem);
    assert [] + Sendings(rules, ps, |doc|) == Sendings(rules, ps, |doc|);
  }

  lemma SentTwice(rules: Rules, ps: seq<Payload>, i: nat)
    requires i < |ps|
    ensures var sent := Sendings(rules, ps, |ps|) + Sendings(rules, CountedAll(ps), |ps|);
      && |sent| == 2 * |ps|
      && sent[i] == Sending(i, RequestOf(rules, ps[i]))
      && sent[|ps| + i] == Sending(i, RequestOf(rules, Counted(ps[i])))
  {
    hide Sendings, RequestOf, Counted;
    SendingsAre(rules, ps, |ps|);
    SendingsAre(rules, CountedAll(ps), |ps|);
  }

  /** An undisturbed attempt stores the prepared document and sends all its records. */
  lemma FullAttempt(rules: Rules, c: Claim, created: seq<string>, stem: string)
    requires |created| == |c.doc| && PreparedAll(rules, c.doc, created, stem).Some?
    ensures var ps := PreparedAll(rules, c.doc, created, stem).value;
      AfterAttempt(rules, c, Attempt(created, true, |c.doc|), stem) == Claim(ps, c.sent + Sendings(rules, ps, |c.doc|))
  {
    hide PreparedAll, Sendings;
  }

  lemma TwoRuns(rules: Rules, c: Claim, a: Attempt, stem: string)
    requires |a.created| == |c.doc|
    ensures Run(rules, c, [a, a], stem) == AfterAttempt(rules, AfterAttempt(rules, c, a, stem), a, stem)
  {
    hide AfterAttempt;
    var c' := AfterAttempt(rules, c, a, stem);
    assert [a, a][1..] == [a] && [a][1..] == [];
    assert Run(rules, c', [a], stem) == Run(rules, AfterAttempt(rules, c', a, stem), [], stem);
  }

  /** The exact condition: for a document that can be prepared, all crashes and retries send each
      record as one request if and only if no redaction counter passes the clamp in the first pass. */
  lemma RetriesAgreeIff(rules: Rules, doc: seq<Payload>, created: seq<string>, stem: string)
    requires ValidRules(rules) && |created| == |doc| && PreparedAll(rules, doc, created, stem).Some?
    ensures RedactionsFit(rules, doc) <==>
              forall attempts {:trigger Fitting(attempts, doc)} | Fitting(attempts, doc) ::
                OnePerRecord(Run(rules, Claim(doc, []), attempts, stem).sent)
  {
    hide ValidRules, Run, PreparedAll, Prepared, RequestOf, OnePerRecord;
    forall attempts | Fitting(attempts, doc) && RedactionsFit(rules, doc)
      ensures OnePerRecord(Run(rules, Claim(doc, []), attempts, stem).sent)
    {
      OneRequestPerRecord(rules, doc, attempts, stem);
    }
    if !RedactionsFit(rules, doc) {
      var i :| 0 <= i < |doc| && Redactions(rules, doc[i]) > MAX_COUNT;
      var attempts := [Attempt(created, true, |doc|), Attempt(created, true, |doc|)];
      assert Fitting(attempts, doc);
      TwoAttempts(rules, doc, created, stem);
      PreparedAllIs(rules, doc, created, stem);
      SentTwice(rules, PreparedAll(rules, doc, created, stem).value, i);
      PreparedAgainIff(rules, doc[i], created[i], created[i], stem);
      LargeCountChangesRequest(rules, doc[i], created[i], created[i], stem);
      TwiceIsNotOne(Run(rules, Claim(doc, []), attempts, stem).sent, i, |doc| + i);
    }
  }

  lemma TwiceIsNotOne(sent: seq<Sending>, i: nat, j: nat)
    requires i < |sent| && j < |sent| && sent[i].ordinal == sent[j].ordinal && sent[i].request != sent[j].request
    ensures !OnePerRecord(sent)
  {
  }
}
