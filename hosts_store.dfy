/** The hosts file on disk and the commit sequence that `bind_domains`, `unbind_domain` and
    `unbind_all_qiantu` share: back the file up, write the new content directly or through
    the elevated helper, and restore the backup when the write fails
    (hosts/bind_hosts.py and hosts/unbind_hosts.py carry identical copies). */
module HostsStore {
  import opened Wrappers
  import opened Lines
  import HostsEntry

  /** What `open(hosts_path, 'w')` followed by `f.write(...)` does: it writes, refuses with
      `PermissionError` before touching the file, or fails otherwise, leaving `left` in it. */
  datatype WriteOutcome = Written | PermissionDenied | WriteFailed(left: string)

  /** The answers of the operating system and of the privilege-elevation helper for one run:
      the result of `check_permission()`, whether the file is readable, and the outcome of each
      copy or write the commit sequence may ask for. */
  datatype Env = Env(
    readable: bool,
    admin: bool,
    copyOk: bool,
    elevatedCopyOk: bool,
    write: WriteOutcome,
    elevatedWriteOk: bool,
    restoreOk: bool)

  /** One request made to the file system, direct or through the elevation helper. */
  datatype Op =
    | BackupCopy(elevated: bool)
    | WriteHosts(elevated: bool, text: string)
    | RestoreCopy(elevated: bool)

  /** `backup_hosts` returns a path instead of raising. */
  predicate BackedUp(env: Env) {
    (env.admin && env.copyOk) || env.elevatedCopyOk
  }

  /** The new content ends up in the file. */
  predicate WriteSucceeds(env: Env) {
    if env.admin then env.write.Written? || (env.write.PermissionDenied? && env.elevatedWriteOk)
    else env.elevatedWriteOk
  }

  /** The requests `backup_hosts` makes. */
  function BackupOps(env: Env): seq<Op> {
    if env.admin then [BackupCopy(false)] + (if env.copyOk then [] else [BackupCopy(true)])
    else [BackupCopy(true)]
  }

  /** The requests made after a successful backup, writing `text`. */
  function WriteOps(env: Env, text: string): seq<Op> {
    if env.admin then
      [WriteHosts(false, text)] +
      match env.write
      case Written => []
      case PermissionDenied => [WriteHosts(true, text)] + (if env.elevatedWriteOk then [] else [RestoreCopy(false)])
      case WriteFailed(_) => [RestoreCopy(false)]
    else [WriteHosts(true, text)] + (if env.elevatedWriteOk then [] else [RestoreCopy(true)])
  }

  /** The whole sequence of requests a commit of `text` makes. */
  function CommitOps(env: Env, text: string): seq<Op> {
    BackupOps(env) + (if BackedUp(env) then WriteOps(env, text) else [])
  }

  /** What is in the hosts file after a failed write, before any restore. */
  function AfterFailedWrite(env: Env, before: string): string {
    if env.admin && env.write.WriteFailed? then env.write.left else before
  }

  predicate Restores(ops: seq<Op>) {
    exists k :: 0 <= k < |ops| && ops[k].RestoreCopy?
  }

  predicate Writes(ops: seq<Op>) {
    exists k :: 0 <= k < |ops| && ops[k].WriteHosts?
  }

  /** The effect of one commit of `text` on `h`, with `ok` its result. */
  twostate predicate Committed(h: HostsFile, text: string, env: Env, ok: bool)
    reads h
  {
    ok == (BackedUp(env) && WriteSucceeds(env)) &&
    h.ops == old(h.ops) + CommitOps(env, text) &&
    h.backups == (if BackedUp(env) then old(h.backups) + [old(h.content)] else old(h.backups)) &&
    h.content == (if ok then text
                  else if BackedUp(env) && env.restoreOk then old(h.content)
                  else if BackedUp(env) then AfterFailedWrite(env, old(h.content))
                  else old(h.content))
  }

  /** `h` is as it was: nothing was requested of the file system. */
  twostate predicate Untouched(h: HostsFile)
    reads h
  {
    h.content == old(h.content) && h.backups == old(h.backups) && h.ops == old(h.ops)
  }

  class HostsFile {
    var content: string
    /** The contents of the backup files made so far, oldest first. */
    var backups: seq<string>
    /** Every request made to the file system so far. */
    var ops: seq<Op>

    constructor (content: string)
      ensures this.content == content && backups == [] && ops == []
    {
      this.content := content;
      backups := [];
      ops := [];
    }

    /** `read_hosts()` without a line limit: the lines of the file, or none when it cannot be
        read. */
    method Read(env: Env) returns (lines: seq<string>)
      ensures lines == if env.readable then ReadLines(content) else []
    {
      lines := HostsEntry.ReadHosts(if env.readable then Some(content) else None, None);
    }

    /** `backup_hosts`: a direct copy when running as administrator, the elevated copy when
        that fails or when not administrator; `ok` is false where the source raises. */
    method Backup(env: Env) returns (ok: bool)
      modifies this
      ensures ok == BackedUp(env)
      ensures content == old(content)
      ensures backups == if ok then old(backups) + [old(content)] else old(backups)
      ensures ops == old(ops) + BackupOps(env)
    {
      if env.admin {
        ops := ops + [BackupCopy(false)];
        if env.copyOk {
          backups := backups + [content];
          return true;
        }
        ops := ops + [BackupCopy(true)];
        if env.elevatedCopyOk {
          backups := backups + [content];
          return true;
        }
        return false;
      } else {
        ops := ops + [BackupCopy(true)];
        if env.elevatedCopyOk {
          backups := backups + [content];
          return true;
        }
        return false;
      }
    }

    /** Copying the latest backup back over the hosts file; a failure is swallowed. */
    method Restore(env: Env)
      requires backups != []
      modifies this
      ensures backups == old(backups)
      ensures content == if env.restoreOk then backups[|backups| - 1] else old(content)
      ensures ops == old(ops) + [RestoreCopy(!env.admin)]
    {
      ops := ops + [RestoreCopy(!env.admin)];
      if env.restoreOk {
        content := backups[|backups| - 1];
      }
    }

    /** Backup, then write `text`; on a failed write, restore the backup. The result is true
        exactly when the new content was written. */
    method Commit(text: string, env: Env) returns (ok: bool)
      modifies this
      ensures Committed(this, text, env, ok)
    {
      var backedUp := Backup(env);
      if !backedUp {
        return false;
      }
      if env.admin {
        ops := ops + [WriteHosts(false, text)];
        match env.write
        case Written =>
          content := text;
          return true;
        case PermissionDenied =>
          ops := ops + [WriteHosts(true, text)];
          if env.elevatedWriteOk {
            content := text;
            return true;
          }
          Restore(env);
          return false;
        case WriteFailed(left) =>
          content := left;
          Restore(env);
          return false;
      } else {
        ops := ops + [WriteHosts(true, text)];
        if env.elevatedWriteOk {
          content := text;
          return true;
        }
        Restore(env);
        return false;
      }
    }
  }

  // ---------------------------------------------------------------------------
  // Properties of the commit sequence

  /** A failed backup stops the commit before anything is written. */
  lemma BackupFailureWritesNothing(env: Env, text: string)
    requires !BackedUp(env)
    ensures !Writes(CommitOps(env, text)) && !Restores(CommitOps(env, text))
  {
  }

  /** Every write request carries the new content, and nothing else is ever written. */
  lemma {:induction false} WritesOnlyText(env: Env, text: string)
    ensures forall k :: 0 <= k < |CommitOps(env, text)| && CommitOps(env, text)[k].WriteHosts? ==>
      CommitOps(env, text)[k].text == text
  {
    var b := BackupOps(env);
    var ops := CommitOps(env, text);
    forall k | 0 <= k < |ops| && ops[k].WriteHosts? ensures ops[k].text == text {
      assert k >= |b|;
      assert ops[k] == WriteOps(env, text)[k - |b|];
    }
  }

  /** A restore is requested only when the backup succeeded and the write failed... */
  lemma {:induction false} RestoreOnlyOnFailure(env: Env, text: string)
    requires Restores(CommitOps(env, text))
    ensures BackedUp(env) && !WriteSucceeds(env)
  {
    var ops := CommitOps(env, text);
    var k :| 0 <= k < |ops| && ops[k].RestoreCopy?;
    assert k >= |BackupOps(env)|;
  }

  /** ...and then always, as the last request. */
  lemma {:induction false} FailureRestores(env: Env, text: string)
    requires BackedUp(env) && !WriteSucceeds(env)
    ensures Restores(CommitOps(env, text))
    ensures CommitOps(env, text)[|CommitOps(env, text)| - 1].RestoreCopy?
  {
    var ops := CommitOps(env, text);
    assert ops[|ops| - 1].RestoreCopy?;
  }

  /** A commit always makes a backup request first. */
  lemma BackupComesFirst(env: Env, text: string)
    ensures CommitOps(env, text) != [] && CommitOps(env, text)[0].BackupCopy?
  {
  }
}
