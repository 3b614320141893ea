/** The host's file system, changed in place: paths bound to inodes, and one answer for each request. */
module RunOnceHost {
  import opened Wrappers
  import opened RunOnceMachine
  import opened RunOnceWorld

  class FileTable {
    var paths: map<Path, nat>
    var inodes: map<nat, Inode>
    var nextInode: nat

    constructor ()
      ensures Contents() == Disk(map[], map[], 1) && Contents().Valid()
    {
      paths, inodes, nextInode := map[], map[], 1;
    }

    function Contents(): Disk
      reads this
    {
      Disk(paths, inodes, nextInode)
    }

    method Bind(path: Path, mtime: int) returns (id: nat)
      modifies this
      ensures id == old(nextInode) && Contents() == old(Contents()).Bind(path, mtime)
    {
      id := nextInode;
      nextInode := nextInode + 1;
      inodes := inodes[id := Inode(Garbled(""), mtime)];
      paths := paths[path := id];
    }

    /** The text a create or write left pending lands on the file it opened, wherever a rename has moved it, and stamps nothing. */
    method Land(deferred: Option<Deferred>)
      modifies this`inodes
      ensures Contents() == old(Contents()).Land(deferred, None)
    {
      if deferred.Some? && deferred.value.id in inodes {
        var id := deferred.value.id;
        inodes := inodes[id := inodes[id].(text := deferred.value.text)];
      }
    }

    /** Answers one request at time `clock`; a create or write leaves its text pending. */
    method Respond(request: Request, clock: int, nonce: Nonce, o: Oracle)
      returns (answer: Answer, deferred: Option<Deferred>)
      requires !request.AskRun?
      modifies this
      ensures Served(Contents(), deferred, answer) == Serve(old(Contents()), clock, nonce, request, o)
    {
      deferred := None;
      match request {
        case AskNow => answer := Time(clock);
        case AskNonce => answer := Drawn(nonce);
        case AskSleep(_) => answer := Nothing;
        case AskBackoff(_) => answer := Nothing;
        case AskMakeDirectory => answer := MadeDirectory(!o.fault);
        case AskReadText(path) => answer := Answer.Contents(if o.fault then None else Contents().TextAt(path));
        case AskAgeMs(path) =>
          var file := Contents().FileAt(path);
          answer := Age(if file.None? || o.fault then None else Some(clock - file.value.mtime));
        case AskCreateExclusive(path, text) =>
          if path in paths {
            answer := CreateAnswer(if o.fault then CreateFailed else AlreadyExists);
          } else if o.fault {
            if o.debris { var _ := Bind(path, clock); }
            answer := CreateAnswer(CreateFailed);
          } else {
            var id := Bind(path, clock);
            deferred := Some(Deferred(id, text));
            answer := CreateAnswer(CreatedNew);
          }
        case AskWriteText(path, text) =>
          answer := Nothing;
          if !o.fault || o.debris {
            var id;
            if path in paths {
              id := paths[path];
              inodes := inodes[id := Inode(Garbled(""), clock)];
            } else {
              id := Bind(path, clock);
            }
            if !o.fault { deferred := Some(Deferred(id, text)); }
          }
        case AskRemove(path) =>
          if !o.fault { paths := paths - {path}; }
          answer := Nothing;
        case AskRename(from, to) =>
          if o.fault {
            answer := RenameAnswer(RenameFailed);
          } else if from !in paths {
            answer := RenameAnswer(NothingThere);
          } else {
            var id := paths[from];
            paths := paths - {from};
            paths := paths[to := id];
            answer := RenameAnswer(RenamedAway);
          }
        case AskListDirectory => answer := Listing(if o.fault then None else Some(o.listing));
      }
    }
  }
}
