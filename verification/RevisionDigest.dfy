/** The bytes that a journal revision hashes, and why equal bytes mean the same revision. */
module RevisionDigest {
  import opened RequestJournal
  import opened JournalInventory
  import opened CanonicalJson
  import BigEndian
  import Utf8

  const INVENTORY_SCHEMA := "synapse-s2.request-journal-inventory.v1"
  const ENTRY_SCHEMA := "synapse-s2.request-journal-entry-revision.v1"

  // ----- the records -----

  function StateText(state: State): string {
    match state
    case Accepted => "accepted"
    case Ambiguous => "ambiguous"
    case Completed => "completed"
    case Failed => "failed"
  }

  /** The states of a filter in the program's fixed order. */
  function StateList(states: set<State>): seq<Value> {
    (if Accepted in states then [Str(StateText(Accepted))] else [])
    + (if Ambiguous in states then [Str(StateText(Ambiguous))] else [])
    + (if Completed in states then [Str(StateText(Completed))] else [])
    + (if Failed in states then [Str(StateText(Failed))] else [])
  }

  function OptionalText(s: RequestJournal.Option<string>): Value {
    if s.Some? then Str(s.value) else Null
  }

  /** The ten columns of a row, in their order. */
  function RowRecord(e: Entry): Value {
    Arr([Str(e.k.caller), Str(e.k.requestId), Str(e.row.operation), Str(e.row.fingerprint), Str(e.row.epoch),
         Str(StateText(e.row.state)), OptionalText(e.row.resultKind), OptionalText(e.row.safeError),
         Int(e.row.acceptedAt), if e.row.finishedAt.Some? then Int(e.row.finishedAt.value) else Null])
  }

  function BindingMembers(schema: string, b: Binding): seq<Member> {
    [Member("schema", Str(schema)), Member("journal_id", Str(b.journalId)),
     Member("store_identity", OptionalText(b.storeIdentity))]
  }

  function Header(r: Revision): Value {
    match r
    case SnapshotRevision(b, f, _) =>
      Obj(BindingMembers(INVENTORY_SCHEMA, b)
          + [Member("states", Arr(StateList(f.states))), Member("caller", OptionalText(f.caller)),
             Member("operation", OptionalText(f.operation))])
    case EntryRevision(b, _) => Obj(BindingMembers(ENTRY_SCHEMA, b))
  }

  function EntriesOf(r: Revision): seq<Entry> {
    if r.SnapshotRevision? then r.entries else [r.entry]
  }

  /** One record as canonical JSON.  The texts of a journal are identifiers, digests and fixed words,
      all of printable ASCII, which the program's ASCII-only encoder leaves as they are. */
  function RecordBytes(v: Value): seq<Utf8.byte> {
    Utf8.Encode(Printed(Normal(v)))
  }

  function Records(r: Revision): (records: seq<seq<Utf8.byte>>)
    ensures |records| == 1 + |EntriesOf(r)|
  {
    [RecordBytes(Header(r))]
    + seq(|EntriesOf(r)|, i requires 0 <= i < |EntriesOf(r)| => RecordBytes(RowRecord(EntriesOf(r)[i])))
  }

  /** What `_revision_digest` hashes for a snapshot or for one entry. */
  function ImageOf(r: Revision): seq<Utf8.byte> {
    BigEndian.PreImage(Records(r))
  }

  // ----- what the journal stores -----

  predicate ShortText(s: string) {
    |s| <= 128
  }

  predicate ShortOption(s: RequestJournal.Option<string>) {
    s.Some? ==> ShortText(s.value)
  }

  predicate ColumnsFit(e: Entry) {
    && ShortText(e.k.caller) && ShortText(e.k.requestId)
    && ShortText(e.row.operation) && ShortText(e.row.fingerprint) && ShortText(e.row.epoch)
    && ShortOption(e.row.resultKind) && ShortOption(e.row.safeError)
    && -MAX_INTEGER <= e.row.acceptedAt <= MAX_INTEGER
    && (e.row.finishedAt.Some? ==> -MAX_INTEGER <= e.row.finishedAt.value <= MAX_INTEGER)
  }

  /** Short texts and 64-bit times, as the journal's columns demand, and records whose length fits
      the eight bytes before them. */
  predicate Storable(r: Revision) {
    && ShortText(r.binding.journalId) && ShortOption(r.binding.storeIdentity)
    && (r.SnapshotRevision? ==> ShortOption(r.filter.caller) && ShortOption(r.filter.operation))
    && (forall i | 0 <= i < |EntriesOf(r)| :: ColumnsFit(EntriesOf(r)[i]))
    && BigEndian.ShortRecords(Records(r))
  }

  // ----- such records are admissible values in normal form -----

  predicate Atom(v: Value) {
    v.Null? || (v.Int? && -MAX_INTEGER <= v.n <= MAX_INTEGER) || (v.Str? && |v.s| <= 128)
  }

  lemma {:induction false} EncodedLength(s: string)
    ensures |Utf8.Encode(s)| <= 4 * |s|
  {
    if s != "" {
      EncodedLength(s[1..]);
    }
  }

  lemma AtomIsAdmissible(v: Value, depth: nat)
    requires Atom(v) && depth <= MAX_JSON_DEPTH
    ensures Admissible(v, depth) && Normal(v) == v
  {
    if v.Str? {
      EncodedLength(v.s);
    }
  }

  lemma AtomsAreNormal(items: seq<Value>, depth: nat)
    requires |items| <= MAX_CONTAINER_ITEMS && depth < MAX_JSON_DEPTH
    requires forall i | 0 <= i < |items| :: Atom(items[i])
    ensures Admissible(Arr(items), depth) && Normal(Arr(items)) == Arr(items)
  {
    forall i | 0 <= i < |items|
      ensures Admissible(items[i], depth + 1) && Normal(items[i]) == items[i]
    {
      AtomIsAdmissible(items[i], depth + 1);
    }
    hide Atom;
    assert NormalItems(Arr(items), items) == items;
  }

  lemma RowIsNormal(e: Entry)
    requires ColumnsFit(e)
    ensures Admissible(RowRecord(e), 0) && Normal(RowRecord(e)) == RowRecord(e)
  {
    AtomsAreNormal(RowRecord(e).items, 0);
  }

  /** The value of a header member. */
  predicate Plain(v: Value) {
    Admissible(v, 1) && Normal(v) == v
  }

  lemma StatesArePlain(states: set<State>)
    ensures Plain(Arr(StateList(states)))
  {
    AtomsAreNormal(StateList(states), 1);
  }

  lemma MembersAreAdmissible(members: seq<Member>)
    requires |members| <= MAX_CONTAINER_ITEMS && DistinctKeys(members)
    requires forall i | 0 <= i < |members| :: |members[i].key| <= 64 && Plain(members[i].value)
    ensures Admissible(Obj(members), 0)
    ensures NormalMembers(Obj(members), members) == members
  {
    forall i | 0 <= i < |members|
      ensures |Utf8.Encode(members[i].key)| <= MAX_KEY_BYTES && Admissible(members[i].value, 1)
    {
      EncodedLength(members[i].key);
    }
  }

  lemma TextIsPlain(s: string)
    requires ShortText(s)
    ensures Plain(Str(s))
  {
    AtomIsAdmissible(Str(s), 1);
  }

  lemma OptionIsPlain(s: RequestJournal.Option<string>)
    requires ShortOption(s)
    ensures Plain(OptionalText(s))
  {
    AtomIsAdmissible(OptionalText(s), 1);
  }

  lemma HeaderIsPlain(r: Revision)
    requires Storable(r)
    ensures Header(r).Obj? && forall i | 0 <= i < |Header(r).members| :: Plain(Header(r).members[i].value)
  {
    hide BigEndian.ShortRecords, Records, ColumnsFit, Plain, OptionalText, StateList, ShortOption;
    TextIsPlain(INVENTORY_SCHEMA);
    TextIsPlain(ENTRY_SCHEMA);
    TextIsPlain(r.binding.journalId);
    OptionIsPlain(r.binding.storeIdentity);
    if r.SnapshotRevision? {
      StatesArePlain(r.filter.states);
      OptionIsPlain(r.filter.caller);
      OptionIsPlain(r.filter.operation);
    }
  }

  lemma HeaderKeys(r: Revision)
    ensures Header(r).Obj? && |Header(r).members| == if r.SnapshotRevision? then 6 else 3
    ensures var keys := ["schema", "journal_id", "store_identity", "states", "caller", "operation"];
      forall i | 0 <= i < |Header(r).members| :: Header(r).members[i].key == keys[i] && |keys[i]| <= 64
    ensures DistinctKeys(Header(r).members)
  {
    hide OptionalText, StateList;
    assert "schema"[0] == 's' && "schema"[1] == 'c' && "store_identity"[2] == 'o' && "states"[2] == 'a';
  }

  lemma HeaderIsAdmissible(r: Revision)
    requires Storable(r)
    ensures Header(r).Obj? && Admissible(Header(r), 0)
    ensures NormalMembers(Header(r), Header(r).members) == Header(r).members
  {
    HeaderKeys(r);
    HeaderIsPlain(r);
    hide Plain, Storable, Header, DistinctKeys, Admissible, NormalMembers;
    MembersAreAdmissible(Header(r).members);
    assert Header(r) == Obj(Header(r).members);
  }

  /** The members of a header can be read off its bytes. */
  lemma SameMembers(a: Revision, b: Revision)
    requires Storable(a) && Storable(b) && RecordBytes(Header(a)) == RecordBytes(Header(b))
    ensures forall m :: m in Header(a).members <==> m in Header(b).members
  {
    hide Storable, Header, Admissible, NormalMembers, Normal, Printed, Utf8.Encode;
    HeaderIsAdmissible(a);
    HeaderIsAdmissible(b);
    OneWireForm(Header(a), Header(b));
    SameObjectIff(Header(a), Header(b), 0);
  }

  lemma MemberAt(a: Revision, b: Revision, i: nat)
    requires forall m :: m in Header(a).members <==> m in Header(b).members
    requires i < |Header(a).members| && i < |Header(b).members|
    ensures Header(a).members[i].value == Header(b).members[i].value
  {
    HeaderKeys(a);
    HeaderKeys(b);
    hide Header;
    assert Header(a).members[i] in Header(b).members;
    var j :| 0 <= j < |Header(b).members| && Header(b).members[j] == Header(a).members[i];
    assert Header(b).members[j].key == Header(b).members[i].key;
  }

  lemma SameStates(a: set<State>, b: set<State>)
    requires StateList(a) == StateList(b)
    ensures a == b
  {
    forall s: State
      ensures s in a <==> Str(StateText(s)) in StateList(a)
      ensures s in b <==> Str(StateText(s)) in StateList(b)
    {
    }
  }

  lemma SameHeader(a: Revision, b: Revision)
    requires Storable(a) && Storable(b) && RecordBytes(Header(a)) == RecordBytes(Header(b))
    ensures a.SnapshotRevision? == b.SnapshotRevision? && a.binding == b.binding
    ensures a.SnapshotRevision? ==> a.filter == b.filter
  {
    SameMembers(a, b);
    hide Storable, RecordBytes, StateList;
    MemberAt(a, b, 0);
    assert |INVENTORY_SCHEMA| != |ENTRY_SCHEMA|;
    MemberAt(a, b, 1);
    MemberAt(a, b, 2);
    if a.SnapshotRevision? {
      MemberAt(a, b, 3);
      SameStates(a.filter.states, b.filter.states);
      MemberAt(a, b, 4);
      MemberAt(a, b, 5);
    }
  }

  lemma SameRow(a: Entry, b: Entry)
    requires ColumnsFit(a) && ColumnsFit(b) && RecordBytes(RowRecord(a)) == RecordBytes(RowRecord(b))
    ensures a == b
  {
    RowIsNormal(a);
    RowIsNormal(b);
    OneWireForm(RowRecord(a), RowRecord(b));
    hide ColumnsFit, Admissible, Normal, Printed, Utf8.Encode;
    SameColumns(a, b);
  }

  lemma SameColumns(a: Entry, b: Entry)
    requires RowRecord(a) == RowRecord(b)
    ensures a == b
  {
    var items, items' := RowRecord(a).items, RowRecord(b).items;
    assert items[0] == items'[0] && items[1] == items'[1] && items[2] == items'[2] && items[3] == items'[3];
    assert items[4] == items'[4] && items[5] == items'[5] && items[6] == items'[6] && items[7] == items'[7];
    assert items[8] == items'[8] && items[9] == items'[9];
    SameState(a.row.state, b.row.state);
    hide StateText;
  }

  lemma SameState(a: State, b: State)
    ensures StateText(a) == StateText(b) <==> a == b
  {
    assert "accepted"[1] == 'c' && "ambiguous"[1] == 'm' && "completed"[0] == 'c' && "failed"[0] == 'f';
  }

  // ----- equal bytes, equal revisions -----

  /** Two revisions hash the same bytes exactly when they are the same: the same kind, the same
      journal and store, the same filter, and the same rows in the same order. */
  lemma SameImageIff(a: Revision, b: Revision)
    requires Storable(a) && Storable(b)
    ensures ImageOf(a) == ImageOf(b) <==> a == b
  {
    hide RecordBytes, Header, RowRecord, ShortText, ShortOption, ColumnsFit;
    if ImageOf(a) == ImageOf(b) {
      BigEndian.PreImageIsInjective(Records(a), Records(b));
      assert Records(a)[0] == Records(b)[0];
      SameHeader(a, b);
      var es, es' := EntriesOf(a), EntriesOf(b);
      assert |es| == |es'|;
      forall i | 0 <= i < |es|
        ensures es[i] == es'[i]
      {
        assert Records(a)[i + 1] == Records(b)[i + 1];
        SameRow(es[i], es'[i]);
      }
      assert es == es';
    }
  }

  /** So a snapshot that is presented again vouches for the same filter over the same rows. */
  lemma SameSnapshotImageIff(b: Binding, rows: Rows, f: Filter, rows': Rows, f': Filter)
    requires Storable(SnapshotOf(b, rows, f)) && Storable(SnapshotOf(b, rows', f'))
    ensures ImageOf(SnapshotOf(b, rows, f)) == ImageOf(SnapshotOf(b, rows', f')) <==>
              f == f' && Filtered(rows, f) == Filtered(rows', f')
  {
    SameImageIff(SnapshotOf(b, rows, f), SnapshotOf(b, rows', f'));
    SameSnapshotIff(b, rows, f, rows', f');
    hide Storable, ImageOf, SnapshotOf, Filtered;
  }
}
