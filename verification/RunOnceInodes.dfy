/** Files by identity: in every run, whatever its timing and its crashes. */
module RunOnceInodes {
  import opened Wrappers
  import opened RunOnceMachine
  import opened RunOnceWorld
  import opened RunOnceFiles
  import opened RunOnceInvariant
  import opened RunOnceSafety
  import opened RunOnceTrust

  /** No two paths ever name the same inode, so no rename or create makes one file answer to two names. */
  lemma PathsShareNoInode(run: seq<World>, i: nat, p: Path, q: Path)
    requires IsRun(run) && i < |run|
    requires p in run[i].disk.paths && q in run[i].disk.paths && run[i].disk.paths[p] == run[i].disk.paths[q]
    ensures p == q && run[i].disk.paths[p] in run[i].disk.inodes
  {
    TrustAlways(run, i);
  }

  /**
   * A create's or write's pending text lands on the very file it opened:
   * whatever path a rename has given that file by then shows the text, and
   * every other path shows what it showed before.
   */
  lemma TextFollowsFile(run: seq<World>, i: nat, p: int, o: Oracle, path: Path)
    requires IsRun(run) && i < |run| && Live(run[i], p) && run[i].procs[p].deferred.Some?
    requires path in run[i].disk.paths
    ensures
      var s, pending := run[i], run[i].procs[p].deferred.value;
      && pending.id in s.disk.inodes
      && Landed(s, p, o).TextAt(path) ==
           if s.disk.paths[path] == pending.id then Some(pending.text) else s.disk.TextAt(path)
  {
    TrustAlways(run, i);
  }

  predicate NamedOrMoved(d: Disk, request: Request, path: Path, id: nat) {
    || (path in d.paths && d.paths[path] == id)
    || (request.AskRename? && path == request.to && request.from in d.paths && d.paths[request.from] == id)
  }

  lemma ServeMovesByRename(d: Disk, clock: int, nonce: Nonce, request: Request, o: Oracle, path: Path, id: nat)
    requires d.Valid() && !request.AskRun? && id in d.inodes
    requires
      var d' := Serve(d, clock, nonce, request, o).disk;
      path in d'.paths && d'.paths[path] == id
    ensures NamedOrMoved(d, request, path, id)
  {
  }

  lemma StepMovesByRename(s: World, p: int, o: Oracle, s': World, path: Path, id: nat)
    requires s.disk.Valid() && Stepped(s, p, o, s')
    requires id in s.disk.inodes && path in s'.disk.paths && s'.disk.paths[path] == id
    ensures NamedOrMoved(s.disk, RequestOf(s, p), path, id)
  {
    StepFrame(s, p, o, s');
    LandKeeps(s.disk, s.procs[p].deferred, Stamp(s, o));
    if !RequestOf(s, p).AskRun? {
      ServeMovesByRename(Landed(s, p, o), s'.clock, Issued(p, s.serial), RequestOf(s, p), o, path, id);
    }
  }

  /** A file that exists gets another name only by a rename from the name it had. */
  lemma FileMovesByRename(run: seq<World>, i: nat, p: int, o: Oracle, s': World, path: Path, id: nat)
    requires IsRun(run) && i < |run| && Stepped(run[i], p, o, s')
    requires id in run[i].disk.inodes && path in s'.disk.paths && s'.disk.paths[path] == id
    ensures NamedOrMoved(run[i].disk, RequestOf(run[i], p), path, id)
  {
    TrustAlways(run, i);
    StepMovesByRename(run[i], p, o, s', path, id);
  }
}
