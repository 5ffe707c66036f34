/** The process-wide state the tool mutates: the live resolver file, its
    backup, the `didModify` session flag, and the privilege of the process.
    The file system is abstract: a field per file, and a boolean per copy or
    write that says whether it succeeds. Every method is proved to move the
    state exactly as the matching step function of `Resolv` says. */
module Manager {
  import opened Wrappers
  import opened Strings
  import opened Resolv

  class DnsManager {
    /** Content of `/etc/resolv.conf`. */
    var live: string
    /** Content of `/etc/resolv.conf.bak`, `None` when the file does not exist. */
    var backup: Option<string>
    /** Set by a successful write, cleared by a successful restore. */
    var didModify: bool
    /** Whether the effective user id is 0; it does not change while the process runs. */
    const isRoot: bool

    function State(): Resolv.State
      reads this
    {
      Resolv.State(live, backup, didModify, isRoot)
    }

    /** A fresh session: the flag starts cleared. */
    constructor (content: string, existing: Option<string>, root: bool)
      ensures State() == Resolv.State(content, existing, false, root)
    {
      live := content;
      backup := existing;
      didModify := false;
      isRoot := root;
    }

    /** `backupOriginal`: copies the live file to the backup path when no
        backup exists; `ok` is false when the copy throws. */
    method BackupOriginal(copyOk: bool) returns (ok: bool)
      modifies this
      ensures Step(State(), if ok then Done else Failed) == Backup(old(State()), copyOk)
    {
      ok := true;
      if backup.None? {
        if copyOk {
          backup := Some(live);
        } else {
          ok := false;
        }
      }
    }

    /** `modifyDNSWithRoot`: behind the privilege gate, back up, then write
        the generated body and set the flag. */
    method ModifyDns(server: Option<string>, copyOk: bool, writeOk: bool) returns (outcome: Outcome)
      modifies this
      ensures Step(State(), outcome) == Set(old(State()), server, copyOk, writeOk)
    {
      if !isRoot {
        return Refused;
      }
      var backedUp := BackupOriginal(copyOk);
      if !backedUp {
        return Failed;
      }
      if !writeOk {
        return Failed;
      }
      live := Body(server.GetOr(DefaultDns));
      didModify := true;
      outcome := Done;
    }

    /** `restoreOriginalWithRoot`: behind the privilege gate, copy the backup
        back onto the live file and clear the flag. */
    method RestoreOriginal(copyOk: bool) returns (outcome: Outcome)
      modifies this
      ensures Step(State(), outcome) == Restore(old(State()), copyOk)
    {
      if !isRoot {
        return Refused;
      }
      if backup.None? {
        return NoBackup;
      }
      if !copyOk {
        return Failed;
      }
      live := backup.value;
      didModify := false;
      outcome := Done;
    }

    /** `showStatus`: reads the live file (`readOk` false when the read
        throws) and reports the marker test and whether a backup exists. */
    method ShowStatus(readOk: bool) returns (status: Option<Status>)
      ensures status.Some? <==> readOk
      ensures status.Some? ==> status.value.content == live
      ensures status.Some? ==> (status.value.modified <==> exists i :: OccursAt(live, Marker, i))
      ensures status.Some? ==> (status.value.backupExists <==> backup.Some?)
    {
      if !readOk {
        return None;
      }
      var modified := Includes(live, Marker);
      status := Some(Status(live, modified, backup.Some?));
    }
  }
}
