/** A directory tree as a map from paths to contents, in a process whose file operations may
    fail with an error, or may be cut off because the process dies. */
module CrashDisk {

  datatype Option<+T> = None | Some(value: T)

  function At<P, C>(files: map<P, C>, p: P): Option<C> {
    if p in files then Some(files[p]) else None
  }

  /** What becomes of a file operation. */
  datatype Fate = Works | Fails | Dies

  /** Nothing is going to go wrong. */
  predicate Calm(fates: seq<Fate>) {
    forall i | 0 <= i < |fates| :: fates[i] == Works
  }

  function First(fates: seq<Fate>): Fate {
    if fates == [] then Works else fates[0]
  }

  function Rest(fates: seq<Fate>): seq<Fate> {
    if fates == [] then [] else fates[1..]
  }

  /** `fates` holds the fates of the coming operations; after they are used up all operations
      work.  A caller does nothing more once an operation reported that the process died. */
  class Disk<P(==), C> {
    var files: map<P, C>
    var fates: seq<Fate>

    constructor (files: map<P, C>, fates: seq<Fate>)
      ensures this.files == files && this.fates == fates
    {
      this.files, this.fates := files, fates;
    }

    method Write(p: P, content: C) returns (fate: Fate)
      modifies this
      ensures fate == First(old(fates)) && fates == Rest(old(fates))
      ensures Calm(old(fates)) ==> fate == Works && Calm(fates)
      ensures files == if fate == Works then old(files)[p := content] else old(files)
    {
      fate := First(fates);
      fates := Rest(fates);
      if fate == Works {
        files := files[p := content];
      }
    }

    method Unlink(p: P) returns (fate: Fate)
      modifies this
      ensures fate == First(old(fates)) && fates == Rest(old(fates))
      ensures Calm(old(fates)) ==> fate == Works && Calm(fates)
      ensures files == if fate == Works then old(files) - {p} else old(files)
    {
      fate := First(fates);
      fates := Rest(fates);
      if fate == Works {
        files := files - {p};
      }
    }

    /** Moves a file over whatever stands at the destination. */
    method Replace(source: P, destination: P) returns (fate: Fate)
      requires source in files && source != destination
      modifies this
      ensures fate == First(old(fates)) && fates == Rest(old(fates))
      ensures Calm(old(fates)) ==> fate == Works && Calm(fates)
      ensures files == if fate == Works then (old(files) - {source})[destination := old(files)[source]] else old(files)
    {
      fate := First(fates);
      fates := Rest(fates);
      if fate == Works {
        files := (files - {source})[destination := files[source]];
      }
    }

    /** Flushes a directory: nothing visible changes, but the call may fail or be cut off. */
    method Sync() returns (fate: Fate)
      modifies this
      ensures fate == First(old(fates)) && fates == Rest(old(fates))
      ensures Calm(old(fates)) ==> fate == Works && Calm(fates)
      ensures files == old(files)
    {
      fate := First(fates);
      fates := Rest(fates);
    }
  }
}
