/** Archiving of classified capture errors under a two-phase manifest, which a later run resumes
    after a crash. */
module ErrorResolution {
  import opened CrashDisk

  datatype Category = Terminal | Historical | Unsafe

  /** An artifact in the error directory, an archived artifact, a manifest, or an unfinished
      manifest under a hidden name. */
  datatype Name = Error(name: string) | Archive(number: nat) | ManifestAt(number: nat) | Hidden(number: nat)

  /** An artifact with its inode and the category its content is classified as, a manifest, or the
      beginning of one. */
  datatype Content = Artifact(text: string, inode: nat, category: Category) | Listed(manifest: Manifest) | Torn

  /** The digest of a path and the identity of the file it names. */
  datatype Token = Token(name: string, file: Content)

  datatype Phase = Prepared | Complete

  datatype Item = Item(source: Token, category: Category, archive: nat, expected: Content, moved: bool)

  /** What an operator confirmed: the digest of the reason, the scope and the selected sources. */
  datatype Fence = Fence(reason: string, historical: bool, sources: set<Token>, unsafeCount: nat)

  datatype Manifest = Manifest(phase: Phase, reason: string, historical: bool, fence: Fence, items: seq<Item>)

  datatype Ending = Done(resolved: nat) | Raised | Crashed

  type Files = map<Name, Content>

  function Broken(fate: Fate): Ending
    requires fate != Works
  {
    if fate == Dies then Crashed else Raised
  }

  // ----- the error directory -----

  predicate IsArtifact(files: Files, n: Name) {
    n in files && files[n].Artifact?
  }

  /** The category under which a file in the error directory is recorded. */
  function CategoryOf(content: Content): Category {
    if content.Artifact? then content.category else Unsafe
  }

  function UnsafeNames(files: Files): set<Name> {
    set n | n in files && n.Error? && CategoryOf(files[n]) == Unsafe
  }

  predicate InScope(category: Category, historical: bool) {
    category == Terminal || (historical && category == Historical)
  }

  function Selected(files: Files, historical: bool): set<Token> {
    set n | n in files && n.Error? && InScope(CategoryOf(files[n]), historical) :: Token(n.name, files[n])
  }

  function Preflight(files: Files, reason: string, historical: bool): Fence {
    Fence(reason, historical, Selected(files, historical), |UnsafeNames(files)|)
  }

  // ----- what a confirmation covers, by category and name -----

  /** The artifacts of a category in the error directory. */
  function Artifacts(files: Files, category: Category): set<Name> {
    set n | n in files && n.Error? && files[n].Artifact? && files[n].category == category
  }

  /** Something in the error directory is no artifact, or one whose content must not be archived. */
  predicate UnsafePresent(files: Files) {
    exists n :: n in files && n.Error? && (!files[n].Artifact? || files[n].category == Unsafe)
  }

  lemma UnsafeIff(files: Files)
    ensures UnsafePresent(files) <==> UnsafeNames(files) != {}
  {
    if UnsafePresent(files) {
      var n :| n in files && n.Error? && (!files[n].Artifact? || files[n].category == Unsafe);
      assert n in UnsafeNames(files);
    }
  }

  /** How many artifacts a resolution of this scope archives. */
  function Covered(files: Files, historical: bool): nat {
    |Artifacts(files, Terminal)| + if historical then |Artifacts(files, Historical)| else 0
  }

  function TokensOf(files: Files, names: set<Name>): set<Token>
    requires forall n | n in names :: n in files && n.Error?
  {
    set n | n in names :: Token(n.name, files[n])
  }

  lemma {:induction false} TokenCount(files: Files, names: set<Name>)
    requires forall n | n in names :: n in files && n.Error?
    ensures |TokensOf(files, names)| == |names|
    decreases |names|
  {
    if names != {} {
      var n :| n in names;
      TokenCount(files, names - {n});
      assert TokensOf(files, names) == TokensOf(files, names - {n}) + {Token(n.name, files[n])};
      assert Token(n.name, files[n]) !in TokensOf(files, names - {n}) by {
        forall other | other in names - {n}
          ensures Token(other.name, files[other]) != Token(n.name, files[n])
        {
          assert other == Error(other.name) && n == Error(n.name);
        }
      }
    }
  }

  /** The selection is the terminal artifacts, and the historical ones when they were asked for. */
  lemma SelectedAre(files: Files, historical: bool)
    ensures forall n | n in files && n.Error? ::
              Token(n.name, files[n]) in Selected(files, historical) <==>
                n in Artifacts(files, Terminal) || (historical && n in Artifacts(files, Historical))
    ensures |Selected(files, historical)| == Covered(files, historical)
  {
    var terminal, historic := Artifacts(files, Terminal), Artifacts(files, Historical);
    var names := terminal + if historical then historic else {};
    assert Selected(files, historical) == TokensOf(files, names) by {
      forall t
        ensures t in Selected(files, historical) <==> t in TokensOf(files, names)
      {
        var n := Error(t.name);
        assert t in Selected(files, historical) <==> n in names && files[n] == t.file;
      }
    }
    TokenCount(files, names);
    assert terminal * historic == {};
    forall n | n in files && n.Error?
      ensures Token(n.name, files[n]) in TokensOf(files, names) <==> n in names
    {
      if Token(n.name, files[n]) in TokensOf(files, names) {
        var other :| other in names && Token(other.name, files[other]) == Token(n.name, files[n]);
        assert other == Error(other.name) && n == Error(n.name);
      }
    }
  }

  /** Two preflights agree exactly when reason, scope and number of unsafe artifacts do, and the same
      artifacts of the scope lie in the error directory. */
  lemma SamePreflightIff(files: Files, reason: string, historical: bool, files': Files, reason': string,
                         historical': bool)
    ensures Preflight(files, reason, historical) == Preflight(files', reason', historical') <==>
              && reason == reason' && historical == historical' && |UnsafeNames(files)| == |UnsafeNames(files')|
              && (forall n | n in Artifacts(files, Terminal) + Artifacts(files', Terminal) ::
                    At(files, n) == At(files', n))
              && (historical ==> forall n | n in Artifacts(files, Historical) + Artifacts(files', Historical) ::
                    At(files, n) == At(files', n))
  {
    SelectedAre(files, historical);
    SelectedAre(files', historical');
    SelectedArtifacts(files, historical);
    SelectedArtifacts(files', historical');
    hide Covered;
    if Preflight(files, reason, historical) == Preflight(files', reason', historical') {
      assert Selected(files, historical) == Selected(files', historical);
      forall n | n in Artifacts(files, Terminal) || (historical && n in Artifacts(files, Historical))
        ensures At(files', n) == At(files, n)
      {
        assert Token(n.name, files[n]) in Selected(files', historical);
        assert Error(n.name) == n;
      }
      forall n | n in Artifacts(files', Terminal) || (historical && n in Artifacts(files', Historical))
        ensures At(files', n) == At(files, n)
      {
        assert Token(n.name, files'[n]) in Selected(files, historical);
        assert Error(n.name) == n;
      }
    } else if reason == reason' && historical == historical' && |UnsafeNames(files)| == |UnsafeNames(files')|
              && (forall n | n in Artifacts(files, Terminal) + Artifacts(files', Terminal) ::
                    At(files, n) == At(files', n))
              && (historical ==> forall n | n in Artifacts(files, Historical) + Artifacts(files', Historical) ::
                    At(files, n) == At(files', n))
    {
      forall t
        ensures t in Selected(files, historical) <==> t in Selected(files', historical)
      {
        var n := Error(t.name);
        if t in Selected(files, historical) {
          assert n in Artifacts(files, Terminal) || (historical && n in Artifacts(files, Historical));
          assert At(files', n) == At(files, n);
          assert Token(n.name, files'[n]) in Selected(files', historical);
        }
        if t in Selected(files', historical) {
          assert n in Artifacts(files', Terminal) || (historical && n in Artifacts(files', Historical));
          assert At(files', n) == At(files, n);
          assert Token(n.name, files[n]) in Selected(files, historical);
        }
      }
    }
  }

  // ----- manifests -----

  function Sources(items: seq<Item>): set<Token> {
    set i | 0 <= i < |items| :: items[i].source
  }

  predicate WellFormed(m: Manifest) {
    && m.items != []
    && (forall i, j | 0 <= i < j < |m.items| ::
          m.items[i].source != m.items[j].source && m.items[i].archive != m.items[j].archive)
    && (forall i | 0 <= i < |m.items| :: InScope(m.items[i].category, m.historical))
    && m.fence == Fence(m.reason, m.historical, Sources(m.items), 0)
  }

  predicate AtSource(files: Files, item: Item) {
    At(files, Error(item.source.name)) == Some(item.source.file)
  }

  predicate AtArchive(files: Files, item: Item) {
    At(files, Archive(item.archive)) == Some(item.source.file)
  }

  predicate Faithful(item: Item) {
    item.expected == item.source.file && item.source.file.Artifact? && item.source.file.category == item.category
  }

  /** The artifact is at exactly one of its two places. */
  predicate AtOnePlace(files: Files, item: Item) {
    || (AtSource(files, item) && Archive(item.archive) !in files)
    || (AtArchive(files, item) && !AtSource(files, item))
  }

  predicate ItemKept(files: Files, phase: Phase, item: Item) {
    && Faithful(item)
    && match phase
       case Prepared => AtOnePlace(files, item) && (item.moved ==> AtArchive(files, item))
       case Complete => AtArchive(files, item)
  }

  predicate ManifestKept(files: Files, busy: Option<nat>, id: nat) {
    ManifestAt(id) in files && files[ManifestAt(id)].Listed? && WellFormed(files[ManifestAt(id)].manifest) ==>
      var m := files[ManifestAt(id)].manifest;
      && (m.phase == Prepared ==> busy == Some(id))
      && forall i | 0 <= i < |m.items| :: ItemKept(files, m.phase, m.items[i])
  }

  /** What holds between any two file operations: at most one well-formed manifest is prepared, its
      artifacts are each at one place, and those of complete manifests are archived.  Files that
      are no manifest, or a malformed one, may lie anywhere among them. */
  ghost predicate Kept(files: Files, busy: Option<nat>) {
    forall id {:trigger ManifestKept(files, busy, id)} :: ManifestKept(files, busy, id)
  }

  /** What a validated recovery of one manifest demands; `seen` is the error directory as the
      recovery found it. */
  predicate ItemValid(files: Files, seen: Files, m: Manifest, item: Item) {
    && InScope(item.category, m.historical)
    && var recorded := AtSource(seen, item);
      var archived := IsArtifact(files, Archive(item.archive));
      && !(recorded && archived)
      && (recorded ==> CategoryOf(item.source.file) == item.category && item.expected == item.source.file)
      && (!recorded ==> archived && files[Archive(item.archive)] == item.expected
                        && CategoryOf(item.expected) == item.category)
  }

  predicate Validated(files: Files, seen: Files, m: Manifest) {
    && UnsafeNames(seen) == {}
    && m.items != []
    && (forall i, j | 0 <= i < j < |m.items| ::
          m.items[i].source != m.items[j].source && m.items[i].archive != m.items[j].archive)
    && (forall i | 0 <= i < |m.items| :: ItemValid(files, seen, m, m.items[i]))
    && m.fence == Fence(m.reason, m.historical, Sources(m.items), 0)
  }

  /** A prepared manifest is accepted for resumption exactly when it is well-formed and no unsafe
      artifact lies in the error directory. */
  lemma ValidatedIff(files: Files, busy: Option<nat>, id: nat)
    requires Kept(files, busy) && ManifestAt(id) in files
    requires files[ManifestAt(id)].Listed? && files[ManifestAt(id)].manifest.phase == Prepared
    ensures Validated(files, files, files[ManifestAt(id)].manifest) <==>
              UnsafeNames(files) == {} && WellFormed(files[ManifestAt(id)].manifest)
  {
    assert ManifestKept(files, busy, id);
    var m := files[ManifestAt(id)].manifest;
    ValidatedIsWellFormed(files, files, m);
    if WellFormed(m) {
      forall i | 0 <= i < |m.items|
        ensures ItemValid(files, files, m, m.items[i])
      {
        assert ItemKept(files, m.phase, m.items[i]);
      }
    }
    hide ItemValid, ItemKept;
  }

  lemma ValidatedIsWellFormed(files: Files, seen: Files, m: Manifest)
    ensures Validated(files, seen, m) ==> WellFormed(m)
  {
    if Validated(files, seen, m) {
      forall i | 0 <= i < |m.items|
        ensures InScope(m.items[i].category, m.historical)
      {
        assert ItemValid(files, seen, m, m.items[i]);
      }
    }
  }

  // ----- single file operations -----

  function WithMoved(m: Manifest, i: nat): Manifest
    requires i < |m.items|
  {
    m.(items := m.items[i := m.items[i].(moved := true)])
  }

  predicate MovedAside(before: Files, after: Files, item: Item) {
    && AtSource(before, item)
    && after == (before - {Error(item.source.name)})[Archive(item.archive) := item.source.file]
  }

  lemma OtherManifestKept(before: Files, after: Files, busy: Option<nat>, id: nat)
    requires ManifestKept(before, busy, id) && busy != Some(id)
    requires At(after, ManifestAt(id)) == At(before, ManifestAt(id))
    requires forall n: Name | n.Archive? && n in before :: At(after, n) == At(before, n)
    ensures forall busy' :: ManifestKept(after, busy', id)
  {
    if ManifestAt(id) in after && after[ManifestAt(id)].Listed? && WellFormed(after[ManifestAt(id)].manifest) {
      var m := after[ManifestAt(id)].manifest;
      forall i | 0 <= i < |m.items|
        ensures ItemKept(after, m.phase, m.items[i])
      {
        assert ItemKept(before, m.phase, m.items[i]);
      }
    }
  }

  lemma MoveKeeps(files: Files, busy: Option<nat>, id: nat, i: nat)
    requires Kept(files, busy) && ManifestAt(id) in files
    requires files[ManifestAt(id)].Listed? && files[ManifestAt(id)].manifest.phase == Prepared
    requires WellFormed(files[ManifestAt(id)].manifest)
    requires i < |files[ManifestAt(id)].manifest.items|
    requires AtSource(files, files[ManifestAt(id)].manifest.items[i])
    ensures var item := files[ManifestAt(id)].manifest.items[i];
      var after := (files - {Error(item.source.name)})[Archive(item.archive) := item.source.file];
      && busy == Some(id) && Archive(item.archive) !in files
      && Kept(after, busy) && AtArchive(after, item) && !AtSource(after, item)
  {
    var m := files[ManifestAt(id)].manifest;
    var item := m.items[i];
    var after := (files - {Error(item.source.name)})[Archive(item.archive) := item.source.file];
    assert ManifestKept(files, busy, id);
    assert ItemKept(files, m.phase, item);
    forall k | 0 <= k < |m.items|
      ensures ItemKept(after, m.phase, m.items[k])
    {
      assert ItemKept(files, m.phase, m.items[k]);
      if k != i {
        assert m.items[k].source != item.source && m.items[k].archive != item.archive;
      }
    }
    forall other
      ensures ManifestKept(after, busy, other)
    {
      if other != id {
        assert ManifestKept(files, busy, other);
        OtherManifestKept(files, after, busy, other);
      }
    }
  }

  lemma MarkKeeps(files: Files, busy: Option<nat>, id: nat, i: nat)
    requires Kept(files, busy) && ManifestAt(id) in files
    requires files[ManifestAt(id)].Listed? && files[ManifestAt(id)].manifest.phase == Prepared
    requires WellFormed(files[ManifestAt(id)].manifest)
    requires i < |files[ManifestAt(id)].manifest.items|
    requires AtArchive(files, files[ManifestAt(id)].manifest.items[i])
    ensures Kept(files[ManifestAt(id) := Listed(WithMoved(files[ManifestAt(id)].manifest, i))], busy)
  {
    var m := files[ManifestAt(id)].manifest;
    var marked := WithMoved(m, i);
    var after := files[ManifestAt(id) := Listed(marked)];
    assert ManifestKept(files, busy, id);
    MarkedSources(m, i);
    forall k | 0 <= k < |m.items|
      ensures ItemKept(after, Prepared, marked.items[k])
    {
      assert ItemKept(files, Prepared, m.items[k]);
    }
    forall other
      ensures ManifestKept(after, busy, other)
    {
      if other != id {
        assert ManifestKept(files, busy, other);
        OtherManifestKept(files, after, busy, other);
      }
    }
  }

  lemma MarkedSources(m: Manifest, i: nat)
    requires i < |m.items|
    ensures Sources(WithMoved(m, i).items) == Sources(m.items)
    ensures WellFormed(m) ==> WellFormed(WithMoved(m, i))
  {
    var marked := WithMoved(m, i);
    assert forall k | 0 <= k < |m.items| :: marked.items[k].source == m.items[k].source;
  }

  lemma CompletionKeeps(files: Files, busy: Option<nat>, id: nat)
    requires Kept(files, busy) && ManifestAt(id) in files
    requires files[ManifestAt(id)].Listed? && files[ManifestAt(id)].manifest.phase == Prepared
    requires WellFormed(files[ManifestAt(id)].manifest)
    requires forall i | 0 <= i < |files[ManifestAt(id)].manifest.items| ::
               AtArchive(files, files[ManifestAt(id)].manifest.items[i])
    ensures Kept(files[ManifestAt(id) := Listed(files[ManifestAt(id)].manifest.(phase := Complete))], None)
  {
    var m := files[ManifestAt(id)].manifest;
    var after := files[ManifestAt(id) := Listed(m.(phase := Complete))];
    assert ManifestKept(files, busy, id);
    forall i | 0 <= i < |m.items|
      ensures ItemKept(after, Complete, m.items[i])
    {
      assert ItemKept(files, Prepared, m.items[i]);
    }
    forall other
      ensures ManifestKept(after, None, other)
    {
      if other != id {
        assert ManifestKept(files, busy, other);
        OtherManifestKept(files, after, busy, other);
      }
    }
  }

  lemma HiddenKeeps(files: Files, busy: Option<nat>, number: nat, content: Content)
    requires Kept(files, busy)
    ensures Kept(files[Hidden(number) := content], busy) && Kept(files - {Hidden(number)}, busy)
  {
    forall id, after | after == files[Hidden(number) := content] || after == files - {Hidden(number)}
      ensures ManifestKept(after, busy, id)
    {
      assert ManifestKept(files, busy, id);
      if ManifestAt(id) in files && files[ManifestAt(id)].Listed? && WellFormed(files[ManifestAt(id)].manifest) {
        var m := files[ManifestAt(id)].manifest;
        forall i | 0 <= i < |m.items|
          ensures ItemKept(after, m.phase, m.items[i])
        {
          assert ItemKept(files, m.phase, m.items[i]);
        }
      }
    }
  }

  /** The first manifest of a resolution lists sources that are all still in place. */
  lemma BeginKeeps(files: Files, id: nat, m: Manifest)
    requires Kept(files, None) && ManifestAt(id) !in files && WellFormed(m) && m.phase == Prepared
    requires forall i | 0 <= i < |m.items| ::
               Faithful(m.items[i]) && AtSource(files, m.items[i]) && Archive(m.items[i].archive) !in files
               && !m.items[i].moved
    ensures Kept(files[ManifestAt(id) := Listed(m)], Some(id))
  {
    var after := files[ManifestAt(id) := Listed(m)];
    forall i | 0 <= i < |m.items|
      ensures ItemKept(after, Prepared, m.items[i])
    {
    }
    forall other
      ensures ManifestKept(after, Some(id), other)
    {
      if other != id {
        assert ManifestKept(files, None, other);
        OtherManifestKept(files, after, None, other);
      }
    }
  }

  // ----- names and conservation -----

  predicate NameBelow(n: Name, next: nat) {
    n.Error? || n.number < next
  }

  /** Random names are never used twice: every number on the disk or in a manifest is below `next`. */
  predicate NumbersBelow(files: Files, next: nat) {
    && (forall n | n in files :: NameBelow(n, next))
    && (forall n | n in files && files[n].Listed? ::
          forall i | 0 <= i < |files[n].manifest.items| :: files[n].manifest.items[i].archive < next)
  }

  ghost predicate SomewhereArchived(files: Files, content: Content) {
    exists a :: Archive(a) in files && files[Archive(a)] == content
  }

  /** No artifact is lost: archived ones stay, and one in the error directory stays there or is
      archived, which never happens to an unsafe one. */
  ghost predicate Preserved(before: Files, after: Files) {
    && (forall n: Name | n.Archive? && n in before :: At(after, n) == At(before, n))
    && (forall n: Name | n.Error? && n in before ::
          At(after, n) == At(before, n)
          || (n !in after && CategoryOf(before[n]) != Unsafe && SomewhereArchived(after, before[n])))
    && (forall n: Name | n.Error? && n in after :: n in before)
  }

  lemma PreservedAtStart(files: Files)
    ensures Preserved(files, files)
  {
  }

  lemma PreservedThen(f: Files, g: Files, h: Files)
    requires Preserved(f, g) && Preserved(g, h)
    ensures Preserved(f, h)
  {
    forall n: Name | n.Error? && n in f
      ensures At(h, n) == At(f, n) || (n !in h && CategoryOf(f[n]) != Unsafe && SomewhereArchived(h, f[n]))
    {
      if n !in g {
        var a :| Archive(a) in g && g[Archive(a)] == f[n];
        assert At(h, Archive(a)) == At(g, Archive(a));
      }
    }
  }

  lemma MovePreserves(files: Files, item: Item)
    requires AtSource(files, item) && Faithful(item) && item.category != Unsafe && Archive(item.archive) !in files
    ensures Preserved(files, (files - {Error(item.source.name)})[Archive(item.archive) := item.source.file])
  {
    var after := (files - {Error(item.source.name)})[Archive(item.archive) := item.source.file];
    assert Archive(item.archive) in after && after[Archive(item.archive)] == item.source.file;
  }

  /** The manifest on the disk is the given one, up to flags that say which items were moved. */
  predicate SameItems(a: seq<Item>, b: seq<Item>) {
    |a| == |b| && forall i | 0 <= i < |a| :: a[i].(moved := true) == b[i].(moved := true)
  }

  predicate Underway(files: Files, id: nat, items: seq<Item>) {
    && ManifestAt(id) in files && files[ManifestAt(id)].Listed?
    && files[ManifestAt(id)].manifest.phase == Prepared && WellFormed(files[ManifestAt(id)].manifest)
    && SameItems(files[ManifestAt(id)].manifest.items, items)
  }

  lemma UnderwayItem(files: Files, busy: Option<nat>, id: nat, items: seq<Item>, i: nat)
    requires Kept(files, busy) && Underway(files, id, items) && i < |items|
    ensures busy == Some(id) && Faithful(items[i])
    ensures InScope(items[i].category, files[ManifestAt(id)].manifest.historical)
    ensures AtOnePlace(files, items[i])
    ensures WellFormed(files[ManifestAt(id)].manifest)
  {
    assert ManifestKept(files, busy, id);
    var m := files[ManifestAt(id)].manifest;
    assert ItemKept(files, m.phase, m.items[i]);
    assert m.items[i].(moved := true) == items[i].(moved := true);
  }

  /** Writing a manifest took effect, or changed nothing but a hidden file. */
  predicate Wrote(before: Files, after: Files, id: nat, m: Manifest, number: nat) {
    || after == before
    || after == before[Hidden(number) := Torn]
    || after == before[Hidden(number) := Listed(m)]
    || after == before[ManifestAt(id) := Listed(m)]
  }

  lemma WroteKeeps(before: Files, after: Files, busy: Option<nat>, busy': Option<nat>, id: nat, m: Manifest,
                   number: nat)
    requires Wrote(before, after, id, m, number) && Kept(before, busy)
    requires Kept(before[ManifestAt(id) := Listed(m)], busy')
    requires NumbersBelow(before, number) && id < number + 1
    requires forall i | 0 <= i < |m.items| :: m.items[i].archive < number + 1
    ensures Kept(after, if after == before[ManifestAt(id) := Listed(m)] then busy' else busy)
    ensures NumbersBelow(after, number + 1)
    ensures Preserved(before, after)
  {
    HiddenKeeps(before, busy, number, Torn);
    HiddenKeeps(before, busy, number, Listed(m));
    hide Kept;
  }

  lemma ArchivesBelow(files: Files, id: nat, next: nat)
    requires NumbersBelow(files, next) && ManifestAt(id) in files && files[ManifestAt(id)].Listed?
    ensures id < next
    ensures forall i | 0 <= i < |files[ManifestAt(id)].manifest.items| ::
              files[ManifestAt(id)].manifest.items[i].archive < next
  {
  }

  lemma ArchivedStays(before: Files, after: Files, item: Item)
    requires Preserved(before, after)
    ensures AtArchive(before, item) ==> AtArchive(after, item)
  {
  }

  lemma AllArchivedStay(before: Files, after: Files, items: seq<Item>)
    requires Preserved(before, after)
    ensures forall k | 0 <= k < |items| && AtArchive(before, items[k]) :: AtArchive(after, items[k])
  {
    hide Preserved;
    forall k | 0 <= k < |items| && AtArchive(before, items[k])
      ensures AtArchive(after, items[k])
    {
      ArchivedStays(before, after, items[k]);
    }
  }

  /** The prepared manifest has become complete, and all its artifacts are archived. */
  predicate Completed(before: Files, after: Files, id: nat) {
    && ManifestAt(id) in before && before[ManifestAt(id)].Listed?
    && ManifestAt(id) in after && after[ManifestAt(id)].Listed?
    && after[ManifestAt(id)].manifest.phase == Complete
    && SameItems(before[ManifestAt(id)].manifest.items, after[ManifestAt(id)].manifest.items)
    && forall i | 0 <= i < |before[ManifestAt(id)].manifest.items| ::
         AtArchive(after, before[ManifestAt(id)].manifest.items[i])
         && !AtSource(after, before[ManifestAt(id)].manifest.items[i])
  }

  /** There is a manifest with this number, and it is well-formed if it is still prepared. */
  predicate ListedAt(files: Files, id: nat) {
    && ManifestAt(id) in files && files[ManifestAt(id)].Listed?
    && (files[ManifestAt(id)].manifest.phase == Prepared ==> WellFormed(files[ManifestAt(id)].manifest))
  }

  predicate PreparedAt(files: Files, id: nat) {
    && ManifestAt(id) in files && files[ManifestAt(id)].Listed?
    && files[ManifestAt(id)].manifest.phase == Prepared
  }

  /** An interrupted resolution that can be resumed. */
  predicate ResumableAt(files: Files, id: nat) {
    PreparedAt(files, id) && ListedAt(files, id)
  }

  predicate SomeResumable(files: Files) {
    exists n :: n in files && n.ManifestAt? && ResumableAt(files, n.number)
  }

  predicate SomePrepared(files: Files) {
    exists n :: n in files && n.ManifestAt? && PreparedAt(files, n.number)
  }

  lemma ResumableIsPrepared(files: Files)
    ensures SomeResumable(files) ==> SomePrepared(files)
  {
  }

  /** Every file under a manifest's name is a manifest, and none is malformed and prepared. */
  predicate AllListed(files: Files) {
    forall n | n in files && n.ManifestAt? :: ListedAt(files, n.number)
  }

  /** All manifests but one are as before. */
  predicate OtherManifests(before: Files, after: Files, id: Option<nat>) {
    && (forall n | n in before && n.ManifestAt? && Some(n.number) != id :: n in after && after[n] == before[n])
    && (forall n | n in after && n.ManifestAt? && Some(n.number) != id :: n in before)
  }

  ghost predicate SameErrors(before: Files, after: Files) {
    forall n: Name | n.Error? :: At(after, n) == At(before, n)
  }

  /** What is gone from the error directory are sources of these items. */
  predicate OnlyLeaves(before: Files, after: Files, items: seq<Item>) {
    forall n | n in before && n.Error? && n !in after :: Token(n.name, before[n]) in Sources(items)
  }

  /** What is gone from the error directory was in the scope of the resolution. */
  predicate OnlySelectedGone(before: Files, after: Files, historical: bool) {
    forall n | n in before && n.Error? && n !in after :: Token(n.name, before[n]) in Selected(before, historical)
  }

  lemma SelectedLeave(start: Files, begun: Files, after: Files, items: seq<Item>, historical: bool)
    requires SameErrors(start, begun) && OnlyLeaves(begun, after, items)
    requires Sources(items) == Selected(start, historical)
    ensures OnlySelectedGone(start, after, historical)
  {
    hide Sources, Selected;
    forall n | n in start && n.Error? && n !in after
      ensures Token(n.name, start[n]) in Selected(start, historical)
    {
      assert At(begun, n) == At(start, n);
    }
  }

  lemma LeavesThen(f: Files, g: Files, h: Files, items: seq<Item>)
    requires OnlyLeaves(f, g, items) && OnlyLeaves(g, h, items) && Preserved(f, g)
    ensures OnlyLeaves(f, h, items)
  {
    hide Sources;
    forall n | n in f && n.Error? && n !in h
      ensures Token(n.name, f[n]) in Sources(items)
    {
      assert n in g ==> At(g, n) == At(f, n);
    }
  }

  lemma SameErrorsLeave(before: Files, after: Files, items: seq<Item>)
    requires SameErrors(before, after)
    ensures OnlyLeaves(before, after, items)
  {
    forall n | n in before && n.Error?
      ensures n in after
    {
      assert At(after, n) == At(before, n);
    }
  }

  lemma ItemLeaves(before: Files, after: Files, items: seq<Item>, i: nat)
    requires i < |items| && (after == before || MovedAside(before, after, items[i]))
    ensures OnlyLeaves(before, after, items)
  {
    assert items[i].source in Sources(items);
  }

  /** The operator's confirmation, as the manifest recorded it, names this file, of a category in its
      scope and with nothing unsafe beside it. */
  predicate Confirmed(m: Manifest, name: string, content: Content) {
    && Token(name, content) in m.fence.sources && m.fence.unsafeCount == 0
    && m.fence.reason == m.reason && m.fence.historical == m.historical
    && content.Artifact? && (content.category == Terminal || (content.category == Historical && m.historical))
  }

  lemma SourcesConfirmed(files: Files, busy: Option<nat>, id: nat)
    requires Kept(files, busy) && ResumableAt(files, id)
    ensures var m := files[ManifestAt(id)].manifest;
      forall t | t in Sources(m.items) :: Confirmed(m, t.name, t.file)
  {
    assert ManifestKept(files, busy, id);
    var m := files[ManifestAt(id)].manifest;
    forall t | t in Sources(m.items)
      ensures Confirmed(m, t.name, t.file)
    {
      var i :| 0 <= i < |m.items| && m.items[i].source == t;
      assert ItemKept(files, m.phase, m.items[i]);
    }
  }

  /** Only the manifest that can be resumed is touched, and only artifacts that its confirmation
      covers are moved. */
  ghost predicate OnlyResumed(before: Files, after: Files) {
    && (forall n | n in before && n.Error? && n !in after ::
          exists id :: ResumableAt(before, id) && Confirmed(before[ManifestAt(id)].manifest, n.name, before[n]))
    && (forall id | !ResumableAt(before, id) :: At(after, ManifestAt(id)) == At(before, ManifestAt(id)))
  }

  lemma NothingResumed(files: Files)
    ensures OnlyResumed(files, files)
  {
  }

  lemma ResumedOnly(before: Files, after: Files, id: nat)
    requires ResumableAt(before, id) && OnlyLeaves(before, after, before[ManifestAt(id)].manifest.items)
    requires OtherManifests(before, after, Some(id))
    requires var m := before[ManifestAt(id)].manifest; forall t | t in Sources(m.items) :: Confirmed(m, t.name, t.file)
    ensures OnlyResumed(before, after)
  {
    hide Sources, Confirmed;
    forall n | n in before && n.Error? && n !in after
      ensures Confirmed(before[ManifestAt(id)].manifest, n.name, before[n])
    {
      var t := Token(n.name, before[n]);
      assert t in Sources(before[ManifestAt(id)].manifest.items);
    }
    forall other | !ResumableAt(before, other)
      ensures At(after, ManifestAt(other)) == At(before, ManifestAt(other))
    {
      assert ManifestAt(other).ManifestAt? && ManifestAt(other).number == other;
    }
  }

  lemma OnlyBusyPrepared(files: Files, busy: Option<nat>)
    requires Kept(files, busy)
    ensures forall id: nat | ResumableAt(files, id) :: busy == Some(id)
  {
    forall id: nat | ResumableAt(files, id)
      ensures busy == Some(id)
    {
      assert ManifestKept(files, busy, id);
    }
  }

  function ManifestIds(files: Files): set<nat> {
    set n | n in files && n.ManifestAt? :: n.number
  }

  lemma ManifestIdIn(files: Files, id: nat)
    ensures id in ManifestIds(files) <==> ManifestAt(id) in files
  {
    assert ManifestAt(id) in files ==> ManifestAt(id).number == id;
  }

  /** How far a reconciliation has come: the manifests in `ids` are still to be visited. */
  ghost predicate Progressed(seen: Files, files: Files, all: set<nat>, ids: set<nat>, failed: nat) {
    && all == ManifestIds(seen) == ManifestIds(files)
    && (forall id | id in all :: ListedAt(files, id) <==> ListedAt(seen, id))
    && (forall id | id in all && PreparedAt(files, id) :: PreparedAt(seen, id))
    && (failed == 0 ==> forall id | id in all - ids :: ListedAt(files, id) && !PreparedAt(files, id))
  }

  lemma UnlistedIsSeen(seen: Files, files: Files, all: set<nat>, ids: set<nat>, failed: nat, id: nat)
    requires Progressed(seen, files, all, ids, failed) && id in ids && ids <= all && !ListedAt(files, id)
    ensures !AllListed(seen)
  {
    ManifestIdIn(seen, id);
  }

  lemma PreparedIsSeen(seen: Files, files: Files, all: set<nat>, ids: set<nat>, failed: nat, id: nat)
    requires Progressed(seen, files, all, ids, failed) && id in ids && ids <= all && ResumableAt(files, id)
    ensures ResumableAt(seen, id) && SomeResumable(seen)
  {
    assert ManifestAt(id).number == id;
  }

  lemma ProgressStep(seen: Files, before: Files, after: Files, all: set<nat>, ids: set<nat>, id: nat, was: nat,
                     failed: nat)
    requires Progressed(seen, before, all, ids, was) && id in ids && ids <= all && was <= failed
    requires OtherManifests(before, after, Some(id)) && (ListedAt(after, id) <==> ListedAt(before, id))
    requires ManifestAt(id) in after
    requires PreparedAt(after, id) ==> PreparedAt(before, id)
    requires failed == was ==> ListedAt(after, id) && !PreparedAt(after, id)
    ensures Progressed(seen, after, all, ids - {id}, failed)
  {
    forall other
      ensures other in ManifestIds(after) <==> other in ManifestIds(before)
      ensures other != id && other in all ==>
                (ListedAt(after, other) <==> ListedAt(before, other))
                && (PreparedAt(after, other) <==> PreparedAt(before, other))
    {
      ManifestIdIn(before, other);
      ManifestIdIn(after, other);
      ManifestIdIn(before, id);
      if other != id && ManifestAt(other) in before {
        assert ManifestAt(other).ManifestAt?;
      }
      if other != id && ManifestAt(other) in after {
        assert ManifestAt(other).ManifestAt?;
      }
    }
  }

  lemma SameIsOther(files: Files)
    ensures OtherManifests(files, files, None)
  {
  }

  lemma ListedStays(seen: Files, before: Files, after: Files, all: set<nat>, ids: set<nat>, failed: nat,
                    id: Option<nat>)
    requires Progressed(seen, before, all, ids, failed) && OtherManifests(before, after, id)
    requires id.Some? ==> ListedAt(after, id.value)
    ensures AllListed(seen) ==> AllListed(after)
  {
    if AllListed(seen) {
      forall n | n in after && n.ManifestAt?
        ensures ListedAt(after, n.number)
      {
        ManifestIdIn(before, n.number);
        ManifestIdIn(seen, n.number);
        assert n == ManifestAt(n.number);
        if Some(n.number) != id {
          assert n in before && ListedAt(seen, n.number);
        }
      }
    }
  }

  /** Nothing unsafe appears where nothing was added. */
  lemma SafeStays(before: Files, after: Files)
    requires Preserved(before, after) && UnsafeNames(before) == {}
    ensures UnsafeNames(after) == {}
  {
    forall n | n in after && n.Error?
      ensures CategoryOf(after[n]) != Unsafe
    {
      assert n in before && after[n] == before[n];
      assert n !in UnsafeNames(before);
    }
  }

  lemma ProgressEnd(seen: Files, files: Files, all: set<nat>, failed: nat)
    requires Progressed(seen, files, all, {}, failed)
    ensures failed == 0 ==> !SomePrepared(files) && AllListed(files)
  {
    forall n | n in files && n.ManifestAt?
      ensures n.number in all
    {
      ManifestIdIn(files, n.number);
    }
  }

  lemma SourcesGrow(items: seq<Item>, item: Item)
    ensures Sources(items + [item]) == Sources(items) + {item.source}
  {
    var longer := items + [item];
    assert forall i | 0 <= i < |items| :: longer[i] == items[i];
    assert longer[|items|] == item;
  }

  predicate AllPresent(files: Files, tokens: set<Token>) {
    forall t | t in tokens :: At(files, Error(t.name)) == Some(t.file) && t.file.Artifact?
  }

  lemma PresentOne(files: Files, tokens: set<Token>, t: Token)
    requires AllPresent(files, tokens) && t in tokens
    ensures At(files, Error(t.name)) == Some(t.file) && t.file.Artifact?
  {
  }

  lemma SelectedArtifacts(files: Files, historical: bool)
    ensures forall t | t in Selected(files, historical) ::
              At(files, Error(t.name)) == Some(t.file) && t.file.Artifact? && InScope(t.file.category, historical)
  {
    forall t | t in Selected(files, historical)
      ensures At(files, Error(t.name)) == Some(t.file) && t.file.Artifact? && InScope(t.file.category, historical)
    {
      var n :| n in files && n.Error? && InScope(CategoryOf(files[n]), historical) && t == Token(n.name, files[n]);
      assert n == Error(t.name);
    }
  }

  lemma NewIsWellFormed(files: Files, m: Manifest)
    requires m.items != [] && Sources(m.items) == Selected(files, m.historical)
    requires forall i, j | 0 <= i < j < |m.items| ::
               m.items[i].source != m.items[j].source && m.items[i].archive != m.items[j].archive
    requires forall i | 0 <= i < |m.items| :: Faithful(m.items[i])
    requires m.fence == Preflight(files, m.reason, m.historical) && UnsafeNames(files) == {}
    ensures WellFormed(m)
  {
    SelectedArtifacts(files, m.historical);
    forall i | 0 <= i < |m.items|
      ensures InScope(m.items[i].category, m.historical)
    {
      assert m.items[i].source in Sources(m.items);
    }
  }

  lemma NothingBusy(files: Files, busy: Option<nat>)
    requires Kept(files, busy) && !SomePrepared(files)
    ensures Kept(files, None)
  {
    forall id
      ensures ManifestKept(files, None, id)
    {
      assert ManifestKept(files, busy, id);
      assert PreparedAt(files, id) ==> ManifestAt(id).number == id;
    }
  }

  lemma AllResolved(start: Files, begun: Files, after: Files, id: nat, m: Manifest)
    requires !SomePrepared(start) && begun == start[ManifestAt(id) := Listed(m)]
    requires Sources(m.items) == Selected(start, m.historical)
    requires Preserved(start, after) && OtherManifests(begun, after, Some(id)) && Completed(begun, after, id)
    ensures !SomePrepared(after) && Selected(after, m.historical) == {}
  {
    forall n | n in after && n.ManifestAt?
      ensures !PreparedAt(after, n.number)
    {
      if n.number != id {
        assert n == ManifestAt(n.number) && n in begun && n in start;
        assert !PreparedAt(start, n.number);
      }
    }
    NoSourceLeft(start, after, m);
    SelectedWas(start, after, m.historical);
  }

  lemma NoSourceLeft(start: Files, after: Files, m: Manifest)
    requires Sources(m.items) == Selected(start, m.historical)
    requires forall i | 0 <= i < |m.items| :: !AtSource(after, m.items[i])
    ensures forall t | t in Selected(start, m.historical) :: At(after, Error(t.name)) != Some(t.file)
  {
    forall t | t in Selected(start, m.historical)
      ensures At(after, Error(t.name)) != Some(t.file)
    {
      var i :| 0 <= i < |m.items| && m.items[i].source == t;
    }
  }

  lemma SelectedWas(start: Files, after: Files, historical: bool)
    requires Preserved(start, after)
    ensures forall t | t in Selected(after, historical) ::
              t in Selected(start, historical) && At(after, Error(t.name)) == Some(t.file)
  {
    SelectedArtifacts(after, historical);
    forall t | t in Selected(after, historical)
      ensures t in Selected(start, historical)
    {
      var n := Error(t.name);
      assert n in start && start[n] == t.file;
      assert t == Token(n.name, start[n]);
    }
  }

  lemma NoSources()
    ensures Sources([]) == {}
  {
  }

  predicate NewItem(files: Files, item: Item, next: nat) {
    && Faithful(item) && AtSource(files, item) && Archive(item.archive) !in files
    && !item.moved && item.archive < next
  }

  lemma UnusedNumber(files: Files, next: nat)
    requires NumbersBelow(files, next)
    ensures Archive(next) !in files && NumbersBelow(files, next + 1)
  {
  }

  /** One more new item, for an artifact that is not listed yet. */
  lemma NewItemNext(files: Files, items: seq<Item>, t: Token, next: nat)
    requires NumbersBelow(files, next) && t !in Sources(items)
    requires At(files, Error(t.name)) == Some(t.file) && t.file.Artifact?
    requires forall i | 0 <= i < |items| :: NewItem(files, items[i], next)
    requires forall i, j | 0 <= i < j < |items| ::
               items[i].source != items[j].source && items[i].archive != items[j].archive
    ensures NumbersBelow(files, next + 1)
    ensures var longer := items + [Item(t, t.file.category, next, t.file, false)];
      && Sources(longer) == Sources(items) + {t}
      && (forall i | 0 <= i < |longer| :: NewItem(files, longer[i], next + 1))
      && (forall i, j | 0 <= i < j < |longer| ::
            longer[i].source != longer[j].source && longer[i].archive != longer[j].archive)
  {
    UnusedNumber(files, next);
    hide NumbersBelow;
    SourcesGrow(items, Item(t, t.file.category, next, t.file, false));
    forall i | 0 <= i < |items|
      ensures items[i].source != t && items[i].archive != next
    {
      assert NewItem(files, items[i], next) && items[i].source in Sources(items);
    }
  }

  // ----- where runs begin, and what may happen between them -----

  /** Where no resolution ever ran the state is sound, whatever lies in the error directory. */
  lemma FreshDirectoryKept(files: Files)
    requires forall n | n in files :: n.Error?
    ensures Kept(files, None)
  {
    forall id
      ensures ManifestKept(files, None, id)
    {
      assert ManifestAt(id) !in files;
    }
  }

  /** No manifest lists this very file. */
  predicate Unlisted(files: Files, content: Content) {
    forall n | n in files && files[n].Listed? ::
      forall i | 0 <= i < |files[n].manifest.items| :: files[n].manifest.items[i].source.file != content
  }

  /** New errors may be recorded at any time, also while a resolution is interrupted: their files are
      new, so no manifest lists them yet. */
  lemma NewErrorsKeep(before: Files, busy: Option<nat>, after: Files)
    requires Kept(before, busy)
    requires forall n: Name | !n.Error? || n in before :: At(after, n) == At(before, n)
    requires forall n | n in after && n !in before :: Unlisted(before, after[n])
    ensures Kept(after, busy)
  {
    forall id
      ensures ManifestKept(after, busy, id)
    {
      assert ManifestKept(before, busy, id);
      assert At(after, ManifestAt(id)) == At(before, ManifestAt(id));
      if ManifestAt(id) in before && before[ManifestAt(id)].Listed? && WellFormed(before[ManifestAt(id)].manifest) {
        var m := before[ManifestAt(id)].manifest;
        forall i | 0 <= i < |m.items|
          ensures ItemKept(after, m.phase, m.items[i])
        {
          NewErrorsSpare(before, after, ManifestAt(id), i);
          assert ItemKept(before, m.phase, m.items[i]);
        }
      }
    }
  }

  lemma NewErrorsSpare(before: Files, after: Files, n: Name, i: nat)
    requires n in before && before[n].Listed? && i < |before[n].manifest.items|
    requires forall n: Name | !n.Error? || n in before :: At(after, n) == At(before, n)
    requires forall n | n in after && n !in before :: Unlisted(before, after[n])
    ensures var item := before[n].manifest.items[i];
      && (AtSource(after, item) <==> AtSource(before, item)) && (AtArchive(after, item) <==> AtArchive(before, item))
      && (Archive(item.archive) in after <==> Archive(item.archive) in before)
  {
    var item := before[n].manifest.items[i];
    var source := Error(item.source.name);
    if source in after && source !in before {
      assert Unlisted(before, after[source]);
    }
    assert At(after, Archive(item.archive)) == At(before, Archive(item.archive));
    assert source in before ==> At(after, source) == At(before, source);
  }

  lemma NoneSelected(files: Files, historical: bool)
    ensures Selected(files, historical) == {} ==>
              Artifacts(files, Terminal) == {} && (historical ==> Artifacts(files, Historical) == {})
  {
    forall n | n in Artifacts(files, Terminal) || (historical && n in Artifacts(files, Historical))
      ensures Selected(files, historical) != {}
    {
      assert Token(n.name, files[n]) in Selected(files, historical);
    }
  }

  /** What the scope leaves out stays where it is. */
  lemma HistoricalStay(before: Files, after: Files, historical: bool)
    requires OnlySelectedGone(before, after, historical) && Preserved(before, after)
    ensures !historical ==> forall n | n in Artifacts(before, Historical) :: At(after, n) == At(before, n)
  {
    SelectedAre(before, historical);
    hide Selected, Covered;
    if !historical {
      forall n | n in Artifacts(before, Historical)
        ensures At(after, n) == At(before, n)
      {
        assert Token(n.name, before[n]) !in Selected(before, historical);
      }
    }
  }

  class Resolver {
    const disk: Disk<Name, Content>
    var next: nat
    ghost var busy: Option<nat>

    ghost predicate Valid()
      reads this, disk
    {
      Kept(disk.files, busy) && NumbersBelow(disk.files, next)
    }

    constructor (disk: Disk<Name, Content>, next: nat, ghost busy: Option<nat>)
      requires Kept(disk.files, busy) && NumbersBelow(disk.files, next)
      ensures this.disk == disk && this.next == next && this.busy == busy && Valid()
    {
      this.disk, this.next, this.busy := disk, next, busy;
    }

    /** `_atomic_write_private_text` of a manifest. */
    method WriteManifest(id: nat, m: Manifest) returns (fate: Fate)
      requires forall n | n in disk.files :: NameBelow(n, next)
      modifies this`next, disk
      ensures next == old(next) + 1
      ensures fate == Works ==> disk.files == old(disk.files)[ManifestAt(id) := Listed(m)]
      ensures Wrote(old(disk.files), disk.files, id, m, old(next))
      ensures Calm(old(disk.fates)) ==> fate == Works && Calm(disk.fates)
    {
      hide Calm, First, Rest;
      var hidden := Hidden(next);
      assert hidden !in disk.files;
      next := next + 1;
      fate := disk.Write(hidden, Torn);
      if fate != Works {
        return;
      }
      fate := disk.Write(hidden, Listed(m));
      if fate == Works {
        fate := disk.Replace(hidden, ManifestAt(id));
        assert fate == Works ==> disk.files == old(disk.files)[ManifestAt(id) := Listed(m)];
        if fate == Works {
          fate := disk.Sync();
          return;
        }
      }
      if fate == Fails {
        fate := disk.Unlink(hidden);
        fate := if fate == Dies then Dies else Fails;
        assert hidden !in disk.files ==> disk.files == old(disk.files);
      }
    }

    /** Moves one artifact to the archive, if it still lies in the error directory. */
    method MoveItem(item: Item) returns (fate: Fate)
      requires Valid() && AtSource(disk.files, item) && Archive(item.archive) !in disk.files
      requires item.archive < next && Faithful(item) && item.category != Unsafe
      requires Kept((disk.files - {Error(item.source.name)})[Archive(item.archive) := item.source.file], busy)
      modifies disk
      ensures Valid() && Preserved(old(disk.files), disk.files)
      ensures disk.files == old(disk.files) || MovedAside(old(disk.files), disk.files, item)
      ensures OtherManifests(old(disk.files), disk.files, None)
      ensures fate == Works ==> MovedAside(old(disk.files), disk.files, item)
      ensures Calm(old(disk.fates)) ==> fate == Works && Calm(disk.fates)
    {
      hide Kept;
      PreservedAtStart(disk.files);
      MovePreserves(disk.files, item);
      fate := disk.Replace(Error(item.source.name), Archive(item.archive));
      if fate == Works {
        fate := disk.Sync();
      }
      if fate == Works {
        fate := disk.Sync();
      }
    }

    /** Records in the manifest that an item was moved. */
    method RecordMoved(id: nat, i: nat, ghost items: seq<Item>) returns (r: Ending)
      requires Valid() && Underway(disk.files, id, items) && i < |items| && AtArchive(disk.files, items[i])
      modifies this`next, disk
      ensures Valid() && next >= old(next) && Underway(disk.files, id, items)
      ensures Preserved(old(disk.files), disk.files) && OtherManifests(old(disk.files), disk.files, Some(id))
      ensures SameErrors(old(disk.files), disk.files)
      ensures r == Done(0) || r == Raised || r == Crashed
      ensures Calm(old(disk.fates)) ==> r.Done? && Calm(disk.fates)
    {
      hide Kept, Calm, WellFormed, Preserved;
      var m := disk.files[ManifestAt(id)].manifest;
      ArchivesBelow(disk.files, id, next);
      assert m.items[i].(moved := true) == items[i].(moved := true);
      MarkKeeps(disk.files, busy, id, i);
      MarkedSources(m, i);
      ghost var before := disk.files;
      var fate := WriteManifest(id, WithMoved(m, i));
      WroteKeeps(before, disk.files, busy, busy, id, WithMoved(m, i), next - 1);
      r := if fate == Works then Done(0) else Broken(fate);
    }

    /** One item of a prepared manifest: the move, then the manifest that records it. */
    method ResumeItem(id: nat, i: nat, ghost items: seq<Item>) returns (r: Ending)
      requires Valid() && Underway(disk.files, id, items) && i < |items|
      modifies this`next, disk
      ensures Valid() && next >= old(next) && Underway(disk.files, id, items)
      ensures Preserved(old(disk.files), disk.files) && OtherManifests(old(disk.files), disk.files, Some(id))
      ensures OnlyLeaves(old(disk.files), disk.files, items)
      ensures r.Done? ==> AtArchive(disk.files, items[i])
      ensures Calm(old(disk.fates)) ==> r.Done? && Calm(disk.fates)
    {
      hide Kept, Calm, WellFormed, Preserved, NumbersBelow, OnlyLeaves, SameErrors;
      var item := disk.files[ManifestAt(id)].manifest.items[i];
      UnderwayItem(disk.files, busy, id, items, i);
      assert item.(moved := true) == items[i].(moved := true);
      ArchivesBelow(disk.files, id, next);
      PreservedAtStart(disk.files);
      ghost var before := disk.files;
      ItemLeaves(before, before, items, i);
      if AtSource(disk.files, item) {
        if Archive(item.archive) in disk.files {
          return Raised;
        }
        MoveKeeps(disk.files, busy, id, i);
        var fate := MoveItem(item);
        ItemLeaves(before, disk.files, items, i);
        if fate != Works {
          return Broken(fate);
        }
      }
      ghost var moved := disk.files;
      r := RecordMoved(id, i, items);
      PreservedThen(before, moved, disk.files);
      SameErrorsLeave(moved, disk.files, items);
      LeavesThen(before, moved, disk.files, items);
      ArchivedStays(moved, disk.files, items[i]);
    }

    /** Carries a prepared manifest to its end: every item archived, then the manifest complete. */
    method Resume(id: nat) returns (r: Ending)
      requires Valid() && PreparedAt(disk.files, id) && WellFormed(disk.files[ManifestAt(id)].manifest)
      modifies this, disk
      ensures Valid() && next >= old(next) && Preserved(old(disk.files), disk.files)
      ensures OtherManifests(old(disk.files), disk.files, Some(id)) && ListedAt(disk.files, id)
      ensures OnlyLeaves(old(disk.files), disk.files, old(disk.files)[ManifestAt(id)].manifest.items)
      ensures r.Done? ==> busy == None && Completed(old(disk.files), disk.files, id) && !PreparedAt(disk.files, id)
      ensures Calm(old(disk.fates)) ==> r.Done? && Calm(disk.fates)
    {
      hide Kept, Calm, WellFormed, Preserved, NumbersBelow, OnlyLeaves, SameErrors;
      ghost var start := disk.files;
      SameErrorsLeave(start, start, disk.files[ManifestAt(id)].manifest.items);
      var count := |disk.files[ManifestAt(id)].manifest.items|;
      ghost var items := disk.files[ManifestAt(id)].manifest.items;
      PreservedAtStart(start);
      for i := 0 to count
        invariant Valid() && next >= old(next) && Underway(disk.files, id, items) && Preserved(start, disk.files)
        invariant OtherManifests(start, disk.files, Some(id)) && OnlyLeaves(start, disk.files, items)
        invariant forall k | 0 <= k < i :: AtArchive(disk.files, items[k])
        invariant Calm(old(disk.fates)) ==> Calm(disk.fates)
      {
        ghost var before := disk.files;
        r := ResumeItem(id, i, items);
        PreservedThen(start, before, disk.files);
        LeavesThen(start, before, disk.files, items);
        AllArchivedStay(before, disk.files, items);
        if !r.Done? {
          return;
        }
      }
      ghost var moved := disk.files;
      r := CompleteManifest(id, items);
      SameErrorsLeave(moved, disk.files, items);
      LeavesThen(start, moved, disk.files, items);
      if r.Done? {
        r := Done(count);
      }
    }

    method CompleteManifest(id: nat, ghost items: seq<Item>) returns (r: Ending)
      requires Valid() && Underway(disk.files, id, items)
      requires forall k | 0 <= k < |items| :: AtArchive(disk.files, items[k])
      modifies this, disk
      ensures Valid() && next >= old(next)
      ensures forall start: Files | Preserved(start, old(disk.files)) :: Preserved(start, disk.files)
      ensures OtherManifests(old(disk.files), disk.files, Some(id)) && ListedAt(disk.files, id)
      ensures SameErrors(old(disk.files), disk.files)
      ensures r.Done? ==> busy == None
      ensures r.Done? ==> At(disk.files, ManifestAt(id)) ==
                          Some(Listed(old(disk.files)[ManifestAt(id)].manifest.(phase := Complete)))
      ensures r.Done? ==>
                forall k | 0 <= k < |items| :: AtArchive(disk.files, items[k]) && !AtSource(disk.files, items[k])
      ensures Calm(old(disk.fates)) ==> r.Done? && Calm(disk.fates)
    {
      hide Kept, Calm, WellFormed, Preserved;
      var m := disk.files[ManifestAt(id)].manifest;
      ArchivesBelow(disk.files, id, next);
      forall k | 0 <= k < |m.items|
        ensures AtArchive(disk.files, m.items[k])
      {
        assert m.items[k].(moved := true) == items[k].(moved := true);
      }
      CompletionKeeps(disk.files, busy, id);
      ghost var before := disk.files;
      forall k | 0 <= k < |items|
        ensures !AtSource(before, items[k])
      {
        UnderwayItem(before, busy, id, items, k);
      }
      var fate := WriteManifest(id, m.(phase := Complete));
      WroteKeeps(before, disk.files, busy, None, id, m.(phase := Complete), next - 1);
      if disk.files == before[ManifestAt(id) := Listed(m.(phase := Complete))] {
        busy := None;
      }
      forall start: Files | Preserved(start, before)
        ensures Preserved(start, disk.files)
      {
        PreservedThen(start, before, disk.files);
      }
      AllArchivedStay(before, disk.files, items);
      r := if fate == Works then Done(0) else Broken(fate);
    }

    /** `_reconcile_error_resolutions`: carries the interrupted resolution to its end, if it can be
        validated; a manifest that is refused has nothing moved for it. */
    method Reconcile() returns (r: Ending, failed: nat)
      requires Valid()
      modifies this, disk
      ensures Valid() && next >= old(next) && Preserved(old(disk.files), disk.files)
      ensures r.Done? || r.Crashed?
      ensures OnlyResumed(old(disk.files), disk.files)
      ensures UnsafePresent(old(disk.files)) || !SomeResumable(old(disk.files)) ==>
                r.Done? && disk.files == old(disk.files) && disk.fates == old(disk.fates)
      ensures r.Done? && failed == 0 ==> !SomePrepared(disk.files) && AllListed(disk.files)
      ensures AllListed(old(disk.files)) ==> AllListed(disk.files)
      ensures Calm(old(disk.fates)) ==> r.Done? && Calm(disk.fates)
      ensures Calm(old(disk.fates)) && AllListed(old(disk.files)) && UnsafeNames(old(disk.files)) == {} ==> failed == 0
    {
      hide Kept, Calm, Preserved, NumbersBelow, Validated, UnsafeNames, Completed, OtherManifests, AllListed;
      hide SomePrepared, SomeResumable, WellFormed, OnlyResumed, OnlyLeaves, UnsafePresent;
      var seen := disk.files;
      var ids := ManifestIds(seen);
      ghost var all := ids;
      PreservedAtStart(seen);
      NothingResumed(seen);
      UnsafeIff(seen);
      OnlyBusyPrepared(seen, busy);
      failed := 0;
      while ids != {}
        invariant Valid() && next >= old(next) && Preserved(seen, disk.files)
        invariant ids <= all && Progressed(seen, disk.files, all, ids, failed) && OnlyResumed(seen, disk.files)
        invariant UnsafeNames(seen) != {} || !SomeResumable(seen)
                  || (exists id :: id in ids && ResumableAt(seen, id)) ==>
                    disk.files == seen && disk.fates == old(disk.fates)
        invariant Calm(old(disk.fates)) ==> Calm(disk.fates)
        invariant Calm(old(disk.fates)) && AllListed(seen) && UnsafeNames(seen) == {} ==> failed == 0
        decreases |ids|
      {
        var id :| id in ids;
        ManifestIdIn(seen, id);
        ManifestIdIn(disk.files, id);
        ghost var before, was, failures := disk.files, ids, failed;
        ids := ids - {id};
        if !ListedAt(disk.files, id) {
          UnlistedIsSeen(seen, disk.files, all, was, failed, id);
        }
        if !disk.files[ManifestAt(id)].Listed? {
          failed := failed + 1;
        } else if disk.files[ManifestAt(id)].manifest.phase == Prepared {
          var m := disk.files[ManifestAt(id)].manifest;
          ValidatedIsWellFormed(disk.files, seen, m);
          if ListedAt(disk.files, id) {
            PreparedIsSeen(seen, disk.files, all, was, failed, id);
            ValidatedIff(seen, busy, id);
          }
          if !Validated(disk.files, seen, m) {
            failed := failed + 1;
          } else {
            SourcesConfirmed(seen, busy, id);
            r := Resume(id);
            ResumedOnly(seen, disk.files, id);
            if r.Crashed? {
              ListedStays(seen, before, disk.files, all, was, failed, Some(id));
              return;
            }
            if r.Raised? {
              failed := failed + 1;
            }
          }
        }
        ProgressStep(seen, before, disk.files, all, was, id, failures, failed);
      }
      ProgressEnd(seen, disk.files, all, failed);
      SameIsOther(disk.files);
      ListedStays(seen, disk.files, disk.files, all, ids, failed, None);
      r := Done(0);
    }

    /** One new item for every selected artifact. */
    method ListItems(selected: set<Token>) returns (items: seq<Item>)
      requires Valid() && AllPresent(disk.files, selected)
      modifies this`next
      ensures Valid() && next >= old(next) && |items| == |selected| && Sources(items) == selected
      ensures forall i | 0 <= i < |items| :: NewItem(disk.files, items[i], next)
      ensures forall i, j | 0 <= i < j < |items| ::
                items[i].source != items[j].source && items[i].archive != items[j].archive
    {
      hide Kept, NumbersBelow, NewItem, Sources, AllPresent;
      items := [];
      NoSources();
      var rest := selected;
      while rest != {}
        invariant Valid() && next >= old(next) && rest <= selected && Sources(items) == selected - rest
        invariant |items| + |rest| == |selected|
        invariant forall i | 0 <= i < |items| :: NewItem(disk.files, items[i], next)
        invariant forall i, j | 0 <= i < j < |items| ::
                    items[i].source != items[j].source && items[i].archive != items[j].archive
        decreases |rest|
      {
        var t :| t in rest;
        PresentOne(disk.files, selected, t);
        NewItemNext(disk.files, items, t, next);
        items := items + [Item(t, t.file.category, next, t.file, false)];
        rest := rest - {t};
        next := next + 1;
      }
    }

    /** The new resolution itself, with nothing interrupted and nothing unsafe in the way. */
    method ArchiveSelected(token: Fence, reason: string, historical: bool) returns (r: Ending)
      requires Valid() && busy == None && UnsafeNames(disk.files) == {} && !SomePrepared(disk.files)
      requires token == Preflight(disk.files, reason, historical)
      modifies this, disk
      ensures Valid() && next >= old(next) && Preserved(old(disk.files), disk.files)
      ensures OnlySelectedGone(old(disk.files), disk.files, historical)
      ensures r.Done? ==> !SomePrepared(disk.files) && Selected(disk.files, historical) == {}
      ensures r.Done? ==> r.resolved == |Selected(old(disk.files), historical)|
      ensures Calm(old(disk.fates)) ==> r.Done?
    {
      hide Kept, Calm, Preserved, SomePrepared, Completed, OtherManifests;
      ghost var start := disk.files;
      PreservedAtStart(start);
      var selected := Selected(disk.files, historical);
      if selected == {} {
        return Done(0);
      }
      SelectedArtifacts(start, historical);
      var items := ListItems(selected);
      var id := next;
      next := next + 1;
      var m := Manifest(Prepared, reason, historical, token, items);
      NewIsWellFormed(start, m);
      assert ManifestAt(id) !in disk.files;
      BeginKeeps(disk.files, id, m);
      var fate := WriteManifest(id, m);
      WroteKeeps(start, disk.files, None, Some(id), id, m, next - 1);
      if disk.files == start[ManifestAt(id) := Listed(m)] {
        busy := Some(id);
      }
      if fate != Works {
        return Broken(fate);
      }
      ghost var begun := disk.files;
      r := Resume(id);
      SelectedLeave(start, begun, disk.files, items, historical);
      PreservedThen(start, begun, disk.files);
      if r.Done? {
        AllResolved(start, begun, disk.files, id, m);
        r := Done(|selected|);
      }
    }

    /** `resolve_error_artifacts`: archives what the confirmed preflight selected. */
    method Resolve(token: Fence, reason: string, historical: bool, confirm: bool) returns (r: Ending)
      requires Valid()
      modifies this, disk
      ensures Valid() && next >= old(next) && Preserved(old(disk.files), disk.files)
      ensures UnsafePresent(old(disk.files)) ==> !r.Done? && disk.files == old(disk.files)
      ensures r.Done? ==> confirm && reason != "" && !SomePrepared(disk.files)
                          && Artifacts(disk.files, Terminal) == {}
                          && (historical ==> Artifacts(disk.files, Historical) == {})
      ensures !SomePrepared(old(disk.files)) && !historical ==>
                forall n | n in Artifacts(old(disk.files), Historical) :: At(disk.files, n) == At(old(disk.files), n)
      ensures !SomePrepared(old(disk.files)) ==> OnlySelectedGone(old(disk.files), disk.files, historical)
      ensures !SomePrepared(old(disk.files)) && r.Done? ==>
                token == Preflight(old(disk.files), reason, historical)
                && r.resolved == Covered(old(disk.files), historical)
      ensures !SomePrepared(old(disk.files)) && AllListed(old(disk.files)) && Calm(old(disk.fates)) ==>
                (r.Done? <==> confirm && reason != "" && !UnsafePresent(old(disk.files))
                              && token == Preflight(old(disk.files), reason, historical))
    {
      hide Kept, Calm, Preserved, NumbersBelow, UnsafeNames, Completed, AllListed, SomePrepared, Selected;
      hide SomeResumable, UnsafePresent;
      PreservedAtStart(disk.files);
      UnsafeIff(disk.files);
      if !confirm || reason == "" {
        return Raised;
      }
      ResumableIsPrepared(disk.files);
      var failed;
      r, failed := Reconcile();
      if r.Crashed? {
        return;
      }
      if failed > 0 {
        return Raised;
      }
      ghost var mid := disk.files;
      if token != Preflight(disk.files, reason, historical) {
        return Raised;
      }
      if UnsafeNames(disk.files) != {} {
        return Raised;
      }
      NothingBusy(disk.files, busy);
      busy := None;
      r := ArchiveSelected(token, reason, historical);
      PreservedThen(old(disk.files), mid, disk.files);
      SelectedAre(mid, historical);
      SelectedAre(disk.files, historical);
      NoneSelected(disk.files, historical);
      HistoricalStay(mid, disk.files, historical);
    }

    /** Reconciliation on each of many starts, each with its own failures and its own crash: no
        artifact is ever lost, and one undisturbed start finishes whatever was interrupted. */
    method ReconcileOnEachStart(starts: seq<seq<Fate>>)
      requires Valid() && AllListed(disk.files) && UnsafeNames(disk.files) == {}
      modifies this, disk
      ensures Valid() && Preserved(old(disk.files), disk.files)
      ensures (exists i :: 0 <= i < |starts| && Calm(starts[i])) ==> !SomePrepared(disk.files)
    {
      hide Kept, Calm, Preserved, NumbersBelow, UnsafeNames, AllListed, SomePrepared, SomeResumable;
      ghost var start := disk.files;
      PreservedAtStart(start);
      for i := 0 to |starts|
        invariant Valid() && AllListed(disk.files) && UnsafeNames(disk.files) == {} && Preserved(start, disk.files)
        invariant (exists k :: 0 <= k < i && Calm(starts[k])) ==> !SomePrepared(disk.files)
      {
        ghost var before := disk.files;
        disk.fates := starts[i];
        ResumableIsPrepared(before);
        var r, failed := Reconcile();
        PreservedThen(start, before, disk.files);
        SafeStays(before, disk.files);
      }
    }
  }
}
