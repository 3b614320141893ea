/** What one request can and cannot do to the shared directory. */
module RunOnceFiles {
  import opened Wrappers
  import opened RunOnceMachine
  import opened RunOnceWorld

  /** The paths a request may bind, unbind or write. */
  predicate Touches(request: Request, path: Path) {
    match request
    case AskCreateExclusive(p, _) => p == path
    case AskWriteText(p, _) => p == path
    case AskRemove(p) => p == path
    case AskRename(from, to) => from == path || to == path
    case _ => false
  }

  /** `path` names the same inode in both disks, with the same contents and time. */
  ghost predicate SameFile(d: Disk, d': Disk, path: Path) {
    && (path in d.paths <==> path in d'.paths)
    && (path in d.paths ==> d'.paths[path] == d.paths[path])
    && d'.FileAt(path) == d.FileAt(path)
  }

  lemma ServeKeepsUntouched(d: Disk, clock: int, nonce: Nonce, request: Request, o: Oracle, path: Path)
    requires d.Valid() && !request.AskRun? && !Touches(request, path)
    ensures SameFile(d, Serve(d, clock, nonce, request, o).disk, path)
  {
  }

  lemma ServeKeepsValid(d: Disk, clock: int, nonce: Nonce, request: Request, o: Oracle)
    requires d.Valid() && !request.AskRun?
    ensures
      var r := Serve(d, clock, nonce, request, o);
      && r.disk.Valid()
      && d.nextInode <= r.disk.nextInode
      && d.inodes.Keys <= r.disk.inodes.Keys
      && (forall id :: id in r.disk.inodes ==>
            || (id in d.inodes && r.disk.inodes[id] == d.inodes[id])
            || r.disk.inodes[id] == Inode(Garbled(""), clock))
      && (r.deferred.Some? ==> r.deferred.value.id in r.disk.inodes)
  {
    var r := Serve(d, clock, nonce, request, o);
    match request {
      case AskRename(from, to) =>
        if !o.fault && from in d.paths {
          forall p, q | p in r.disk.paths && q in r.disk.paths && r.disk.paths[p] == r.disk.paths[q] ensures p == q {
            assert d.paths[if p == to then from else p] == d.paths[if q == to then from else q];
          }
        }
      case _ =>
    }
  }

  /** A deferred write targets a file nobody else has named: a fresh inode, or the one at the written path. */
  lemma DeferredTarget(d: Disk, clock: int, nonce: Nonce, request: Request, o: Oracle, path: Path)
    requires d.Valid() && !request.AskRun? && !Touches(request, path) && path in d.paths
    ensures
      var r := Serve(d, clock, nonce, request, o);
      r.deferred.Some? ==> r.deferred.value.id != d.paths[path]
  {
  }

  lemma LandKeeps(d: Disk, deferred: Option<Deferred>, stamp: Option<int>)
    requires d.Valid()
    ensures
      var d' := d.Land(deferred, stamp);
      && d'.Valid() && d'.paths == d.paths && d'.nextInode == d.nextInode && d'.inodes.Keys == d.inodes.Keys
      && (forall id :: id in d.inodes ==>
            && (d'.inodes[id].mtime == d.inodes[id].mtime || stamp == Some(d'.inodes[id].mtime))
            && (!(deferred.Some? && deferred.value.id == id) ==> d'.inodes[id] == d.inodes[id]))
  {
  }

  /** A path comes to name an inode by a create, or as the target of a rename. */
  lemma BindingArises(d: Disk, clock: int, nonce: Nonce, request: Request, o: Oracle, path: Path)
    requires d.Valid() && !request.AskRun?
    requires path in Serve(d, clock, nonce, request, o).disk.paths
    ensures
      var d' := Serve(d, clock, nonce, request, o).disk;
      || (path in d.paths && d'.paths[path] == d.paths[path])
      || d'.paths[path] == d.nextInode
      || (request.AskRename? && path == request.to)
  {
  }
}
