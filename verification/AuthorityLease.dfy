/** Leases on the memory store: a core lease excludes every other one, across processes, forks
    and outside replacement of the lock file. */
module AuthorityLease {

  datatype Option<+T> = None | Some(value: T)

  type Pid = nat
  type Inode = nat

  /** An open file description: what a descriptor and its copies in forked processes share. */
  type Description = nat

  /** A local lease locks the file shared, a core lease locks it exclusively. */
  datatype Role = Local | Core

  /** What the operating system knows: the file at the lock path and at the database path, the
      file behind each open description, and the lock each description holds. */
  datatype Kernel = Kernel(path: Option<Inode>, database: Option<Inode>, files: map<Description, Inode>,
                           locks: map<Description, Role>)

  /** A lease object lives in a process; a fork gives the child objects with the same serials. */
  datatype Key = Key(process: Pid, serial: nat)

  datatype Lease = Lease(owner: Pid, description: Description, inode: Inode, role: Role, database: Option<Inode>,
                         registered: bool, closed: bool, forkInvalidated: bool)

  datatype World = World(kernel: Kernel, leases: map<Key, Lease>)

  const EMPTY_WORLD := World(Kernel(None, None, map[], map[]), map[])

  /** `assert_active_for`, evaluated in the process that holds the object. */
  predicate Passes(kernel: Kernel, process: Pid, lease: Lease) {
    && !lease.closed && !lease.forkInvalidated
    && lease.owner == process
    && kernel.path == Some(lease.inode)
    && (lease.database.Some? ==> kernel.database == lease.database)
  }

  predicate Active(w: World, k: Key) {
    k in w.leases && Passes(w.kernel, k.process, w.leases[k])
  }

  /** The kernel grants the lock unless another description of the same file is in the way. */
  predicate Grants(kernel: Kernel, d: Description, role: Role)
    requires d in kernel.files
  {
    forall other | other in kernel.locks && other != d && other in kernel.files
                   && kernel.files[other] == kernel.files[d] ::
      role == Local && kernel.locks[other] == Local
  }

  function Unlock(kernel: Kernel, d: Description): Kernel {
    kernel.(locks := kernel.locks - {d})
  }

  // ----- the lease object -----

  /** `_invalidate_after_fork`, for an object the registry knows. */
  function Invalidated(lease: Lease): Lease {
    if lease.closed then lease else lease.(forkInvalidated := true, closed := true)
  }

  /** What a fork makes of the parent's object in the child. */
  function Inherited(lease: Lease): Lease {
    if lease.registered then Invalidated(lease) else lease
  }

  // ----- steps of the world -----

  datatype Step =
    | Open(d: Description, created: Inode)
    | Acquire(k: Key, d: Description, role: Role)
    | Register(k: Key)
    | Close(k: Key)
    | Fork(parent: Pid, child: Pid)
    | Exit(process: Pid)
    | ReplaceLock(file: Option<Inode>)
    | ReplaceDatabase(file: Option<Inode>)

  predicate UsesDescription(w: World, d: Description) {
    exists k :: k in w.leases && w.leases[k].description == d
  }

  predicate KnowsProcess(w: World, p: Pid) {
    exists k :: k in w.leases && (k.process == p || w.leases[k].owner == p)
  }

  /** What the operating system and the allocator guarantee: new descriptions, objects and process
      identifiers are new, and a created lock file has a new inode. */
  predicate Possible(w: World, step: Step) {
    match step
    case Open(d, created) =>
      d !in w.kernel.files && !UsesDescription(w, d)
      && (w.kernel.path.None? ==> created !in w.kernel.files.Values)
    case Acquire(k, d, _) => k !in w.leases && d in w.kernel.files && !UsesDescription(w, d) && d !in w.kernel.locks
    case Fork(_, child) => !KnowsProcess(w, child)
    case _ => true
  }

  predicate HeldElsewhere(w: World, p: Pid, d: Description) {
    exists k :: k in w.leases && k.process != p && !w.leases[k].closed && w.leases[k].description == d
  }

  predicate HeldBy(w: World, p: Pid, d: Description) {
    exists k :: k in w.leases && k.process == p && !w.leases[k].closed && w.leases[k].description == d
  }

  /** The objects that the child of a fork finds. */
  function Copies(w: World, parent: Pid, child: Pid): map<Key, Lease> {
    map k | k in w.leases && k.process == parent ::
      Key(child, k.serial) := Inherited(w.leases[Key(parent, k.serial)])
  }

  function After(w: World, step: Step): World {
    match step
    case Open(d, created) =>
      var inode := if w.kernel.path.Some? then w.kernel.path.value else created;
      w.(kernel := w.kernel.(path := Some(inode), files := w.kernel.files[d := inode]))
    case Acquire(k, d, role) =>
      if d !in w.kernel.files || !Grants(w.kernel, d, role) then w
      else
        var lease := Lease(k.process, d, w.kernel.files[d], role, w.kernel.database, false, false, false);
        if !Passes(w.kernel, k.process, lease) then w.(kernel := w.kernel.(files := w.kernel.files - {d}))
        else World(w.kernel.(locks := w.kernel.locks[d := role]), w.leases[k := lease])
    case Register(k) => if k in w.leases then w.(leases := w.leases[k := w.leases[k].(registered := true)]) else w
    case Close(k) =>
      if k !in w.leases || w.leases[k].closed then w
      else World(Unlock(w.kernel, w.leases[k].description), w.leases[k := w.leases[k].(closed := true)])
    case Fork(parent, child) =>
      w.(leases := w.leases + Copies(w, parent, child))
    case Exit(p) =>
      World(w.kernel.(locks := map d | d in w.kernel.locks && (!HeldBy(w, p, d) || HeldElsewhere(w, p, d)) ::
                                 w.kernel.locks[d]),
            map k | k in w.leases && k.process != p :: w.leases[k])
    case ReplaceLock(file) => w.(kernel := w.kernel.(path := file))
    case ReplaceDatabase(file) => w.(kernel := w.kernel.(database := file))
  }

  // ----- what every step keeps -----

  /** The object is in the process that acquired it, and still open. */
  predicate Genuine(w: World, k: Key) {
    k in w.leases && w.leases[k].owner == k.process && !w.leases[k].closed
  }

  /** An open object knows the file behind its description; a genuine one holds its lock. */
  predicate LeaseSound(w: World, k: Key)
    requires k in w.leases
  {
    var lease := w.leases[k];
    && (!lease.closed ==> lease.description in w.kernel.files && w.kernel.files[lease.description] == lease.inode)
    && (Genuine(w, k) ==> lease.description in w.kernel.locks && w.kernel.locks[lease.description] == lease.role)
  }

  predicate LocksCompatible(kernel: Kernel) {
    && (forall d | d in kernel.locks :: d in kernel.files)
    && (forall a, b | a in kernel.locks && b in kernel.locks && a != b && kernel.files[a] == kernel.files[b] ::
          kernel.locks[a] == Local && kernel.locks[b] == Local)
  }

  ghost predicate Sound(w: World) {
    && LocksCompatible(w.kernel)
    && (forall k | k in w.leases :: LeaseSound(w, k))
    && (forall a, b | Genuine(w, a) && Genuine(w, b) && w.leases[a].description == w.leases[b].description :: a == b)
  }

  /** The object shares its description with the lease that some other process acquired and still holds. */
  predicate SharesWithOwner(w: World, k: Key)
    requires k in w.leases
  {
    exists g :: g in w.leases && g != k && Genuine(w, g) && w.leases[g].description == w.leases[k].description
  }

  /** No open object is closed while its description is also that of its owner's open lease. */
  predicate Proper(w: World, step: Step) {
    step.Close? && step.k in w.leases && !w.leases[step.k].closed ==> !SharesWithOwner(w, step.k)
  }

  lemma ForkMembers(w: World, parent: Pid, child: Pid, k: Key)
    requires !KnowsProcess(w, child)
    ensures var w' := After(w, Fork(parent, child));
      && w'.kernel == w.kernel
      && (k in w'.leases <==> k in w.leases || (k.process == child && Key(parent, k.serial) in w.leases))
      && (k in w.leases ==> w'.leases[k] == w.leases[k])
      && (k.process == child && Key(parent, k.serial) in w.leases ==>
            w'.leases[k] == Inherited(w.leases[Key(parent, k.serial)])
            && w.leases[Key(parent, k.serial)].owner != child)
  {
    var copies, source := Copies(w, parent, child), Key(parent, k.serial);
    if k.process == child && source in w.leases {
      assert Key(child, source.serial) == k && source.process == parent;
      assert Key(child, source.serial) in copies;
    }
  }

  lemma ForkKeeps(w: World, parent: Pid, child: Pid)
    requires Sound(w) && !KnowsProcess(w, child)
    ensures Sound(After(w, Fork(parent, child)))
  {
    var w' := After(w, Fork(parent, child));
    forall k
      ensures k in w'.leases ==> LeaseSound(w', k)
      ensures Genuine(w', k) ==> Genuine(w, k) && w'.leases[k] == w.leases[k]
    {
      ForkMembers(w, parent, child, k);
      if k in w.leases {
        assert LeaseSound(w, k);
      } else if k in w'.leases {
        assert LeaseSound(w, Key(parent, k.serial));
      }
    }
  }

  lemma ExitKeeps(w: World, p: Pid)
    requires Sound(w)
    ensures Sound(After(w, Exit(p)))
  {
    var w' := After(w, Exit(p));
    forall k | k in w'.leases
      ensures LeaseSound(w', k)
    {
      assert LeaseSound(w, k);
      if Genuine(w', k) {
        assert Genuine(w, k) && HeldElsewhere(w, p, w.leases[k].description);
      }
    }
    forall a, b | Genuine(w', a) && Genuine(w', b) && w'.leases[a].description == w'.leases[b].description
      ensures a == b
    {
      assert Genuine(w, a) && Genuine(w, b);
    }
  }

  /** The exact condition: closing an open object keeps the world sound if and only if it does not
      share its description with its owner's open lease. */
  lemma CloseKeepsIffProper(w: World, k: Key)
    requires Sound(w)
    ensures Sound(After(w, Close(k))) <==> Proper(w, Close(k))
  {
    var w' := After(w, Close(k));
    if k in w.leases && !w.leases[k].closed {
      if SharesWithOwner(w, k) {
        var g :| g in w.leases && g != k && Genuine(w, g) && w.leases[g].description == w.leases[k].description;
        assert Genuine(w', g) && !LeaseSound(w', g);
      } else {
        forall other | other in w'.leases
          ensures LeaseSound(w', other)
        {
          assert LeaseSound(w, other);
          assert Genuine(w', other) ==> Genuine(w, other) && other != k;
        }
        forall a, b | Genuine(w', a) && Genuine(w', b) && w'.leases[a].description == w'.leases[b].description
          ensures a == b
        {
          assert Genuine(w, a) && Genuine(w, b);
        }
      }
    }
  }

  lemma AcquireKeeps(w: World, k: Key, d: Description, role: Role)
    requires Sound(w) && Possible(w, Acquire(k, d, role))
    ensures Sound(After(w, Acquire(k, d, role)))
  {
    var w' := After(w, Acquire(k, d, role));
    forall other | other in w'.leases
      ensures LeaseSound(w', other)
      ensures Genuine(w', other) && other != k ==> Genuine(w, other)
      ensures other != k ==> w'.leases[other].description != d
    {
      if other in w.leases {
        assert LeaseSound(w, other);
        assert w.leases[other].description != d;
      }
    }
  }

  lemma OthersKeep(w: World, step: Step)
    requires Sound(w) && Possible(w, step)
    requires step.Open? || step.Register? || step.ReplaceLock? || step.ReplaceDatabase?
    ensures Sound(After(w, step))
  {
    var w' := After(w, step);
    forall k | k in w'.leases
      ensures LeaseSound(w', k)
      ensures Genuine(w', k) ==> Genuine(w, k)
    {
      assert LeaseSound(w, k);
    }
  }

  /** Every step that can happen keeps the world sound, but for an improper close. */
  lemma StepKeepsIffProper(w: World, step: Step)
    requires Sound(w) && Possible(w, step)
    ensures Sound(After(w, step)) <==> Proper(w, step)
  {
    hide Sound, After, SharesWithOwner;
    match step {
      case Acquire(k, d, role) => AcquireKeeps(w, k, d, role);
      case Close(k) => CloseKeepsIffProper(w, k);
      case Fork(parent, child) => ForkKeeps(w, parent, child);
      case Exit(p) => ExitKeeps(w, p);
      case _ => OthersKeep(w, step);
    }
  }

  // ----- safety over all interleavings -----

  function Run(w: World, steps: seq<Step>): World
    decreases |steps|
  {
    if steps == [] then w else Run(After(w, steps[0]), steps[1..])
  }

  ghost predicate Interleaving(w: World, steps: seq<Step>)
    decreases |steps|
  {
    steps == [] || (Possible(w, steps[0]) && Proper(w, steps[0]) && Interleaving(After(w, steps[0]), steps[1..]))
  }

  /** The steps are possible one after the other; objects may be closed anywhere. */
  ghost predicate Reachable(w: World, steps: seq<Step>)
    decreases |steps|
  {
    steps == [] || (Possible(w, steps[0]) && Reachable(After(w, steps[0]), steps[1..]))
  }

  ghost predicate StaysSound(w: World, steps: seq<Step>)
    decreases |steps|
  {
    Sound(w) && (steps == [] || StaysSound(After(w, steps[0]), steps[1..]))
  }

  /** Steps that can happen one after the other keep the world sound throughout if and only if no
      close among them is improper. */
  lemma {:induction false} RunStaysSoundIffProper(w: World, steps: seq<Step>)
    requires Sound(w) && Reachable(w, steps)
    ensures StaysSound(w, steps) <==> Interleaving(w, steps)
    ensures Interleaving(w, steps) ==> Sound(Run(w, steps))
    decreases |steps|
  {
    hide Sound, After, Possible, Proper;
    if steps != [] {
      StepKeepsIffProper(w, steps[0]);
      if Sound(After(w, steps[0])) {
        RunStaysSoundIffProper(After(w, steps[0]), steps[1..]);
      }
    }
  }

  lemma {:induction false} InterleavingIsReachable(w: World, steps: seq<Step>)
    requires Interleaving(w, steps)
    ensures Reachable(w, steps)
    decreases |steps|
  {
    hide After, Possible, Proper;
    if steps != [] {
      InterleavingIsReachable(After(w, steps[0]), steps[1..]);
    }
  }

  lemma CoreExcludesOthers(w: World, a: Key, b: Key)
    requires Sound(w) && Active(w, a) && Active(w, b) && w.leases[a].role == Core
    ensures a == b
  {
    assert LeaseSound(w, a) && LeaseSound(w, b);
    assert Genuine(w, a) && Genuine(w, b);
  }

  /** In every interleaving of acquiring, closing, forking, exiting and outside replacement, while
      a core lease passes its check no other lease of the store does. */
  lemma CoreIsAlone(steps: seq<Step>, a: Key, b: Key)
    requires Interleaving(EMPTY_WORLD, steps)
    requires Active(Run(EMPTY_WORLD, steps), a) && Active(Run(EMPTY_WORLD, steps), b)
    requires Run(EMPTY_WORLD, steps).leases[a].role == Core
    ensures a == b
  {
    InterleavingIsReachable(EMPTY_WORLD, steps);
    RunStaysSoundIffProper(EMPTY_WORLD, steps);
    CoreExcludesOthers(Run(EMPTY_WORLD, steps), a, b);
  }

  /** An object that was inherited through a fork, as long as its process lives. */
  predicate Foreign(w: World, k: Key) {
    k in w.leases && w.leases[k].owner != k.process
  }

  lemma ForeignStays(w: World, step: Step, k: Key)
    requires Foreign(w, k) && Possible(w, step)
    ensures k in After(w, step).leases ==> Foreign(After(w, step), k)
  {
    if step.Fork? {
      ForkMembers(w, step.parent, step.child, k);
    }
  }

  /** No object that a fork gave to a child ever passes its check, whatever the child does later. */
  lemma {:induction false} ChildNeverPasses(w: World, parent: Pid, child: Pid, serial: nat, later: seq<Step>)
    requires !KnowsProcess(w, child) && Key(parent, serial) in w.leases
    requires Reachable(After(w, Fork(parent, child)), later)
    requires forall i | 0 <= i < |later| :: !(later[i].Exit? && later[i].process == child)
    ensures var w' := Run(After(w, Fork(parent, child)), later);
      Foreign(w', Key(child, serial)) && !Active(w', Key(child, serial))
  {
    ForkMembers(w, parent, child, Key(child, serial));
    ForeignForever(After(w, Fork(parent, child)), later, Key(child, serial));
  }

  lemma {:induction false} ForeignForever(w: World, steps: seq<Step>, k: Key)
    requires Foreign(w, k) && Reachable(w, steps)
    requires forall i | 0 <= i < |steps| :: !(steps[i].Exit? && steps[i].process == k.process)
    ensures Foreign(Run(w, steps), k)
    decreases |steps|
  {
    if steps != [] {
      ForeignStays(w, steps[0], k);
      StaysPresent(w, steps[0], k);
      hide After, Possible;
      ForeignForever(After(w, steps[0]), steps[1..], k);
    }
  }

  lemma StaysPresent(w: World, step: Step, k: Key)
    requires k in w.leases && Possible(w, step) && !(step.Exit? && step.process == k.process)
    ensures k in After(w, step).leases
  {
    if step.Fork? {
      ForkMembers(w, step.parent, step.child, k);
    }
  }

  // ----- who gets a lease, who keeps it, and who gets it next -----

  /** A lock is granted and passes exactly when the description is of the visible file, and no other
      lock on that file stands, or all that stand are local and so is the new one. */
  lemma LeaseGrantedIff(w: World, k: Key, d: Description, role: Role)
    requires Sound(w) && Possible(w, Acquire(k, d, role))
    ensures var w' := After(w, Acquire(k, d, role));
      && (Active(w', k) <==>
            && w.kernel.path == Some(w.kernel.files[d])
            && forall other | other in w.kernel.locks && w.kernel.files[other] == w.kernel.files[d] ::
                 role == Local && w.kernel.locks[other] == Local)
      && (Active(w', k) ==> w'.leases[k].role == role && w'.kernel.locks[d] == role)
      && forall other | other in w.leases ::
           other in w'.leases && w'.leases[other] == w.leases[other] && (Active(w, other) ==> Active(w', other))
  {
  }

  /** A passing lease passes until it is closed, its process exits, or the lock file, or the database
      it is bound to, is no longer the same file. */
  lemma StaysActiveIff(w: World, step: Step, k: Key)
    requires Active(w, k) && Possible(w, step)
    ensures Active(After(w, step), k) <==>
              && step != Close(k) && step != Exit(k.process)
              && (step.ReplaceLock? ==> step.file == Some(w.leases[k].inode))
              && (step.ReplaceDatabase? && w.leases[k].database.Some? ==> step.file == w.leases[k].database)
  {
    if step.Fork? {
      ForkMembers(w, step.parent, step.child, k);
    }
  }

  /** When a core lease is closed, or its process exits, the next one to ask gets a lease, core or
      local, exactly when no copy of it is still open in a forked process after an exit. */
  lemma CoreMakesRoomIff(w: World, k: Key, last: Step, d: Description, created: Inode, next: Key, role: Role)
    requires Sound(w) && Active(w, k) && w.leases[k].role == Core
    requires last == Close(k) || last == Exit(k.process)
    requires d !in w.kernel.files && !UsesDescription(w, d) && next !in w.leases
    ensures var released := After(w, last);
      var reopened := After(released, Open(d, created));
      && Possible(released, Open(d, created)) && Possible(reopened, Acquire(next, d, role))
      && (Active(After(reopened, Acquire(next, d, role)), next) <==>
            (last.Exit? ==> !HeldElsewhere(w, k.process, w.leases[k].description)))
  {
    assert LeaseSound(w, k) && Genuine(w, k);
    var own := w.leases[k].description;
    var released := After(w, last);
    var reopened := After(released, Open(d, created));
    forall other | other in w.leases
      ensures w.leases[other].description != d
    {
    }
    assert HeldBy(w, k.process, own);
    assert d !in reopened.kernel.locks;
    if last.Exit? && HeldElsewhere(w, k.process, own) {
      assert own in reopened.kernel.locks && reopened.kernel.files[own] == reopened.kernel.files[d];
      assert !Grants(reopened.kernel, d, role);
    } else {
      forall other | other in reopened.kernel.locks
        ensures other in w.kernel.locks && other != d && reopened.kernel.files[other] != reopened.kernel.files[d]
      {
        assert other in w.kernel.locks && other != own;
      }
    }
  }

  // ----- why an inherited object must not be closed under its owner -----

  /** Closed in the child, an inherited object unlocks the file under the lease of its owner.  When
      that lease was a core lease, or the only local one, another process then gets a core lease
      that passes its check beside it. */
  lemma ImproperCloseLetsCoreIn(w: World, k: Key, inherited: Key, d: Description, created: Inode, second: Key)
    requires Sound(w) && Active(w, k)
    requires inherited in w.leases && !w.leases[inherited].closed && inherited != k
    requires w.leases[inherited].description == w.leases[k].description
    requires w.leases[k].role == Core || OnlyLock(w.kernel, w.leases[k].description)
    requires d !in w.kernel.files && !UsesDescription(w, d) && second !in w.leases
    ensures var unlocked := After(w, Close(inherited));
      var reopened := After(unlocked, Open(d, created));
      var w' := After(reopened, Acquire(second, d, Core));
      && !Proper(w, Close(inherited))
      && Possible(w, Close(inherited)) && Possible(unlocked, Open(d, created))
      && Possible(reopened, Acquire(second, d, Core))
      && Active(w', k) && w'.leases[k] == w.leases[k]
      && Active(w', second) && w'.leases[second].role == Core && second != k
  {
    assert LeaseSound(w, k) && LeaseSound(w, inherited) && Genuine(w, k);
    var unlocked := After(w, Close(inherited));
    var reopened := After(unlocked, Open(d, created));
    forall other | other in w.leases
      ensures w.leases[other].description != d
    {
    }
    forall other | other in reopened.kernel.locks && other != d && other in reopened.kernel.files
      ensures reopened.kernel.files[other] != reopened.kernel.files[d]
    {
      assert other in w.kernel.locks && other != w.leases[k].description;
    }
    assert d !in reopened.kernel.locks;
  }

  /** No other description holds a lock on the same file. */
  predicate OnlyLock(kernel: Kernel, d: Description)
    requires d in kernel.files
  {
    forall other | other in kernel.locks && other in kernel.files && other != d ::
      kernel.files[other] != kernel.files[d]
  }

  /** A process takes a lease, forks before it registered it, and the child closes its copy; then a
      third process asks for the core lease. */
  function BreakingRun(role: Role): seq<Step> {
    [Open(0, 5), Acquire(Key(0, 0), 0, role), Fork(0, 1), Close(Key(1, 0)), Open(1, 6), Acquire(Key(2, 0), 1, Core)]
  }

  lemma FromHere(w: World, steps: seq<Step>, i: nat)
    requires i < |steps|
    ensures Run(w, steps[i..]) == Run(After(w, steps[i]), steps[i + 1..])
    ensures Reachable(w, steps[i..]) <==> Possible(w, steps[i]) && Reachable(After(w, steps[i]), steps[i + 1..])
  {
    hide After, Possible;
    assert steps[i..][1..] == steps[i + 1..];
  }

  /** The world after the fork: parent and child hold objects with one description. */
  function Forked(role: Role): World {
    var own := Lease(0, 0, 5, role, None, false, false, false);
    World(Kernel(Some(5), None, map[0 := 5], map[0 := role]), map[Key(0, 0) := own, Key(1, 0) := own])
  }

  function Opened(): World {
    World(Kernel(Some(5), None, map[0 := 5], map[]), map[])
  }

  function Taken(role: Role): World {
    World(Forked(role).kernel, map[Key(0, 0) := Forked(role).leases[Key(0, 0)]])
  }

  lemma ForkedComesAbout(role: Role)
    ensures Possible(EMPTY_WORLD, Open(0, 5)) && After(EMPTY_WORLD, Open(0, 5)) == Opened()
    ensures Possible(Opened(), Acquire(Key(0, 0), 0, role))
    ensures After(Opened(), Acquire(Key(0, 0), 0, role)) == Taken(role)
    ensures Possible(Taken(role), Fork(0, 1)) && After(Taken(role), Fork(0, 1)) == Forked(role)
  {
    assert Copies(Taken(role), 0, 1) == map[Key(1, 0) := Taken(role).leases[Key(0, 0)]];
  }

  lemma ReachesFork(role: Role)
    ensures Run(EMPTY_WORLD, BreakingRun(role)) == Run(Forked(role), BreakingRun(role)[3..])
    ensures Reachable(EMPTY_WORLD, BreakingRun(role)) <==> Reachable(Forked(role), BreakingRun(role)[3..])
  {
    ForkedComesAbout(role);
    hide Run, Reachable, After, Possible, Opened, Taken, Forked;
    var steps := BreakingRun(role);
    assert steps[0..] == steps;
    FromHere(EMPTY_WORLD, steps, 0);
    FromHere(Opened(), steps, 1);
    FromHere(Taken(role), steps, 2);
  }

  lemma ForkedBreaks(role: Role)
    ensures var w4 := After(Forked(role), Close(Key(1, 0)));
      var w5 := After(w4, Open(1, 6));
      var w6 := After(w5, Acquire(Key(2, 0), 1, Core));
      && Possible(Forked(role), Close(Key(1, 0))) && Possible(w4, Open(1, 6))
      && Possible(w5, Acquire(Key(2, 0), 1, Core))
      && Active(w6, Key(0, 0)) && w6.leases[Key(0, 0)].role == role
      && Active(w6, Key(2, 0)) && w6.leases[Key(2, 0)].role == Core
  {
    ForkedIsSound(role);
    hide Sound, After, Possible, Proper, Passes, SharesWithOwner, OnlyLock;
    ImproperCloseLetsCoreIn(Forked(role), Key(0, 0), Key(1, 0), 1, 6, Key(2, 0));
  }

  lemma ThreeMore(w: World, steps: seq<Step>)
    requires |steps| == 6
    ensures var w4 := After(w, steps[3]); var w5 := After(w4, steps[4]);
      && Run(w, steps[3..]) == After(w5, steps[5])
      && (Reachable(w, steps[3..]) <==> Possible(w, steps[3]) && Possible(w4, steps[4]) && Possible(w5, steps[5]))
  {
    var w4 := After(w, steps[3]);
    var w5 := After(w4, steps[4]);
    FromHere(w, steps, 3);
    FromHere(w4, steps, 4);
    FromHere(w5, steps, 5);
    hide After, Possible;
    assert steps[6..] == [];
  }

  /** From an empty world this run can happen, and it ends with the first lease and a core lease
      passing side by side. */
  lemma LeaseBesideACore(role: Role)
    ensures Reachable(EMPTY_WORLD, BreakingRun(role))
    ensures var w := Run(EMPTY_WORLD, BreakingRun(role));
      && Active(w, Key(0, 0)) && w.leases[Key(0, 0)].role == role
      && Active(w, Key(2, 0)) && w.leases[Key(2, 0)].role == Core
  {
    ReachesFork(role);
    ForkedBreaks(role);
    ThreeMore(Forked(role), BreakingRun(role));
    hide Run, Reachable, After, Possible, Passes;
  }

  lemma ForkedIsSound(role: Role)
    ensures Sound(Forked(role)) && Active(Forked(role), Key(0, 0))
    ensures OnlyLock(Forked(role).kernel, 0)
  {
    var w := Forked(role);
    forall k | k in w.leases
      ensures LeaseSound(w, k) && (Genuine(w, k) ==> k == Key(0, 0))
    {
    }
  }

  // ----- when no inherited object can be closed -----

  /** Every inherited object was invalidated. */
  ghost predicate Tidy(w: World) {
    forall k | Foreign(w, k) :: w.leases[k].closed
  }

  /** A process forks only while all its objects are registered or closed. */
  predicate ForksRegistered(w: World, step: Step) {
    step.Fork? ==> forall k | k in w.leases && k.process == step.parent :: w.leases[k].registered || w.leases[k].closed
  }

  lemma TidyStep(w: World, step: Step)
    requires Sound(w) && Tidy(w) && Possible(w, step) && ForksRegistered(w, step)
    ensures Proper(w, step) && Tidy(After(w, step))
  {
    var w' := After(w, step);
    if step.Close? && step.k in w.leases && !w.leases[step.k].closed {
      assert !Foreign(w, step.k) && Genuine(w, step.k);
    }
    forall k | Foreign(w', k)
      ensures w'.leases[k].closed
    {
      if step.Fork? {
        ForkMembers(w, step.parent, step.child, k);
        if k !in w.leases {
          assert w.leases[Key(step.parent, k.serial)].registered || w.leases[Key(step.parent, k.serial)].closed;
        }
      }
      if k in w.leases {
        assert Foreign(w, k) ==> w.leases[k].closed;
      }
    }
  }

  ghost predicate ForksWait(w: World, steps: seq<Step>)
    decreases |steps|
  {
    steps == [] || (Possible(w, steps[0]) && ForksRegistered(w, steps[0]) && ForksWait(After(w, steps[0]), steps[1..]))
  }

  lemma {:induction false} WaitingIsProper(w: World, steps: seq<Step>)
    requires Sound(w) && Tidy(w) && ForksWait(w, steps)
    ensures Interleaving(w, steps)
    decreases |steps|
  {
    hide Sound, Tidy, Possible, Proper, ForksRegistered, After;
    if steps != [] {
      TidyStep(w, steps[0]);
      StepKeepsIffProper(w, steps[0]);
      WaitingIsProper(After(w, steps[0]), steps[1..]);
    }
  }

  /** As long as no process forks between taking a lock and registering the lease, a core lease is
      alone whatever object any process closes. */
  lemma CoreIsAloneIfForksWait(steps: seq<Step>, a: Key, b: Key)
    requires ForksWait(EMPTY_WORLD, steps)
    requires Active(Run(EMPTY_WORLD, steps), a) && Active(Run(EMPTY_WORLD, steps), b)
    requires Run(EMPTY_WORLD, steps).leases[a].role == Core
    ensures a == b
  {
    WaitingIsProper(EMPTY_WORLD, steps);
    CoreIsAlone(steps, a, b);
  }

  // ----- the lease object, in place -----

  class OperatingSystem {
    var kernel: Kernel

    constructor (kernel: Kernel)
      ensures this.kernel == kernel
    {
      this.kernel := kernel;
    }
  }

  class CoreAuthorityLease {
    const owner: Pid
    const description: Description
    const inode: Inode
    const role: Role
    var database: Option<Inode>
    var registered: bool
    var closed: bool
    var forkInvalidated: bool

    function Record(): Lease
      reads this
    {
      Lease(owner, description, inode, role, database, registered, closed, forkInvalidated)
    }

    constructor (owner: Pid, description: Description, inode: Inode, role: Role)
      ensures Record() == Lease(owner, description, inode, role, None, false, false, false)
    {
      this.owner, this.description, this.inode, this.role := owner, description, inode, role;
      database, registered, closed, forkInvalidated := None, false, false, false;
    }

    method AssertActiveFor(os: OperatingSystem, process: Pid) returns (passes: bool)
      ensures passes <==> Passes(os.kernel, process, Record())
    {
      if closed || forkInvalidated || owner != process {
        return false;
      }
      if os.kernel.path != Some(inode) {
        return false;
      }
      passes := database.None? || os.kernel.database == database;
    }

    /** Pins the lease to the file now at the database path; once pinned it never moves. */
    method BindDatabaseIdentity(os: OperatingSystem, process: Pid) returns (bound: bool)
      modifies this
      ensures bound <==> Passes(os.kernel, process, old(Record())) && os.kernel.database.Some?
      ensures Record() == if bound then old(Record()).(database := os.kernel.database) else old(Record())
      ensures bound ==> Passes(os.kernel, process, Record())
    {
      var passes := AssertActiveFor(os, process);
      if !passes || os.kernel.database.None? {
        return false;
      }
      database := os.kernel.database;
      bound := true;
    }

    method InvalidateAfterFork()
      modifies this
      ensures Record() == Invalidated(old(Record()))
    {
      if !closed {
        forkInvalidated, closed := true, true;
      }
    }

    method Close(os: OperatingSystem)
      modifies this, os
      ensures Record() == old(Record()).(closed := true)
      ensures os.kernel == if old(closed) then old(os.kernel) else Unlock(old(os.kernel), description)
    {
      if !closed {
        closed := true;
        os.kernel := os.kernel.(locks := os.kernel.locks - {description});
      }
    }
  }

  /** One attempt of `_acquire` on an open description of the lock file. */
  method TryAcquire(os: OperatingSystem, process: Pid, d: Description, role: Role)
    returns (lease: CoreAuthorityLease?)
    requires d in os.kernel.files && d !in os.kernel.locks
    modifies os
    ensures lease != null ==> fresh(lease)
    ensures var kernel := old(os.kernel);
      var wanted := Lease(process, d, kernel.files[d], role, kernel.database, false, false, false);
      if !Grants(kernel, d, role) then lease == null && os.kernel == kernel
      else if !Passes(kernel, process, wanted) then
        lease == null && os.kernel == kernel.(files := kernel.files - {d})
      else lease != null && lease.Record() == wanted && os.kernel == kernel.(locks := kernel.locks[d := role])
  {
    if exists other | other in os.kernel.locks && other != d && other in os.kernel.files ::
         os.kernel.files[other] == os.kernel.files[d] && !(role == Local && os.kernel.locks[other] == Local)
    {
      return null;
    }
    var before := os.kernel;
    os.kernel := before.(locks := before.locks[d := role]);
    lease := new CoreAuthorityLease(process, d, before.files[d], role);
    var passes := lease.AssertActiveFor(os, process);
    if !passes {
      lease.closed := true;
      os.kernel := before.(files := before.files - {d}, locks := os.kernel.locks - {d});
      assert os.kernel.locks == before.locks;
      return null;
    }
    if os.kernel.database.Some? {
      var bound := lease.BindDatabaseIdentity(os, process);
    }
  }
}
