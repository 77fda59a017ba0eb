/**
 The apply phase of a restore as the program it is (cmd/proxy/backup.go): files
 are renamed, the running configuration is swapped and the guard forgets its
 backup as it is used. The trail records every state the files go through; each
 method is proved to extend it as the function of the same step in Restore does.
 */
module RestoreSteps {
  import opened Wrappers
  import opened Restore

  class Process {
    var config: Option<ConfigFile>
    var live: Live
    var pending: map<string, string>
    var siblings: map<nat, Sibling>
    var next: nat
    var rows: seq<string>
    ghost var trail: Trail

    ghost function World(): Restore.World
      reads this
    {
      Restore.World(config, live, pending, siblings, next, rows)
    }

    ghost predicate Consistent()
      reads this
    {
      Now(trail) == World() && Restore.Valid(World())
    }

    constructor (live: Live)
      ensures Consistent() && |trail| == 1
      ensures config == None && this.live == live && pending == map[] && siblings == map[] && rows == []
    {
      config, this.live, pending, siblings, next, rows := None, live, map[], map[], 0, [];
      trail := [Restore.World(None, live, map[], map[], 0, [])];
    }

    ghost method Record()
      modifies this`trail
      ensures trail == old(trail) + [World()] && Now(trail) == World()
    {
      trail := trail + [World()];
    }

    /** captureRestorePending */
    method CaptureRestorePending(path: string, f: Faults) returns (guard: PendingGuard?)
      requires Consistent()
      modifies this
      ensures Consistent()
      ensures var (t, g) := Capture(old(trail), path, f);
              && trail == t
              && (guard == null <==> g.None?)
              && (guard != null ==> fresh(guard) && g == Some(guard.Value()))
    {
      if f.inspect {
        return null;
      }
      if path !in pending {
        guard := new PendingGuard(path, None);
        return;
      }
      if f.preserve {
        return null;
      }
      guard := new PendingGuard(path, Some(next));
      siblings := siblings[next := Sibling(path, pending[path])];
      pending := pending - {path};
      next := next + 1;
      Record();
    }

    /** The rename that publishes a staged snapshot, and a preflight that rewrites it in place. */
    method WriteSlot(path: string, snapshot: string)
      requires Consistent()
      modifies this
      ensures Consistent() && trail == Publish(old(trail), path, snapshot)
    {
      pending := pending[path := snapshot];
      Record();
    }

    /** applyRestoreDatabase in replace mode */
    method ReplaceDatabase(path: string, source: string, f: Faults) returns (guard: PendingGuard?)
      requires Consistent()
      modifies this
      ensures Consistent()
      ensures var (t, g) := Replace(old(trail), path, source, f);
              && trail == t
              && (guard == null <==> g.None?)
              && (guard != null ==> fresh(guard) && g == Some(guard.Value()))
    {
      guard := CaptureRestorePending(path, f);
      if guard == null {
        return;
      }
      if f.stage != FailsBefore {
        WriteSlot(path, source);
      }
      if f.stage != WriteOK {
        var undone := guard.Rollback(this, f);
        return null;
      }
      WriteSlot(path, f.preflight.migrated(source));
      if !f.preflight.accepts(source) {
        var undone := guard.Rollback(this, f);
        return null;
      }
    }

    /** applyRestoreDatabase */
    method ApplyRestoreDatabase(path: string, source: string, mode: Mode, f: Faults)
      returns (ok: bool, guard: PendingGuard?)
      requires Consistent()
      modifies this
      ensures Consistent()
      ensures var (t, done, g) := ApplyDatabase(old(trail), path, source, mode, f);
              && trail == t && ok == done
              && (guard == null <==> g.None?)
              && (guard != null ==> fresh(guard) && g == Some(guard.Value()))
    {
      if path == "" {
        return false, null;
      }
      if mode == MergeMode {
        rows := if f.merge.MergeOK? then rows + [source] else f.merge.rows;
        Record();
        return f.merge.MergeOK?, null;
      }
      guard := ReplaceDatabase(path, source, f);
      return guard != null, guard;
    }

    /** applyRestoreConfig */
    method ApplyRestoreConfig(plan: Plan, previousConfig: Option<ConfigFile>, previousLive: Live, f: Faults)
      returns (ok: bool)
      requires Consistent()
      modifies this
      ensures Consistent()
      ensures forall before: Restore.World :: before.config == previousConfig && before.live == previousLive ==>
                (trail, ok) == ApplyConfig(old(trail), plan, before, f)
    {
      if f.write != FailsBefore {
        config := Some(ConfigFile(plan.document, plan.mode));
        Record();
      }
      if f.write == WriteOK && !f.reload {
        live := plan.live;
        Record();
        return true;
      }
      live := previousLive;
      Record();
      if !f.rollBackConfig {
        config := previousConfig;
        Record();
      }
      return false;
    }

    /** handleRestore, from taking the reload lock to releasing it */
    method HandleRestore(r: Request, f: Faults) returns (ok: bool)
      requires Consistent()
      modifies this
      ensures Consistent()
      ensures (trail, ok) == Apply(r, old(trail), f)
      ensures ok <==> Succeeds(r, old(World()), f)
    {
      ApplyStaysValid(r, trail, f);
      SucceedsIff(r, trail, f);
      if r.config.Some? && f.prepare {
        return false;
      }
      var previousConfig, previousLive := config, live;
      ghost var before := World();
      var guard: PendingGuard? := null;
      if r.database.Some? {
        if r.mode == MergeMode && f.mergePath {
          return false;
        }
        var path := if r.config.Some? then r.config.value.live.dbPath else live.dbPath;
        ok, guard := ApplyRestoreDatabase(path, r.database.value, r.mode, f);
        if !ok {
          return false;
        }
      }
      if r.config.Some? {
        ok := ApplyRestoreConfig(r.config.value, previousConfig, previousLive, f);
        assert before.config == previousConfig && before.live == previousLive;
        if !ok {
          if guard != null {
            var undone := guard.Rollback(this, f);
          }
          return false;
        }
      }
      if guard != null {
        guard.DiscardBackup(this, f);
      }
      return true;
    }
  }

  /** restorePendingGuard: it owns its slot until it has rolled back or let go. */
  class PendingGuard {
    const pending: string
    var backup: Option<nat>

    ghost function Value(): Guard
      reads this
    {
      Guard(pending, backup)
    }

    constructor (pending: string, backup: Option<nat>)
      ensures Value() == Guard(pending, backup)
    {
      this.pending, this.backup := pending, backup;
    }

    method Rollback(p: Process, f: Faults) returns (ok: bool)
      requires p.Consistent()
      modifies this, p
      ensures p.Consistent() && p.trail == RollBackSlot(old(p.trail), old(Value()), f)
      ensures ok ==> backup == None
    {
      if f.rollBackSlot {
        return false;
      }
      if backup.Some? {
        if backup.value !in p.siblings {
          return false;
        }
        p.pending := p.pending[pending := p.siblings[backup.value].snapshot];
        p.siblings := p.siblings - {backup.value};
        p.Record();
        backup := None;
        return true;
      }
      p.pending := p.pending - {pending};
      p.Record();
      return true;
    }

    method DiscardBackup(p: Process, f: Faults)
      requires p.Consistent()
      modifies this, p
      ensures p.Consistent() && p.trail == Discard(old(p.trail), old(Value()), f)
      ensures backup == None
    {
      if backup.None? {
        return;
      }
      if !f.discard {
        p.siblings := p.siblings - {backup.value};
        p.Record();
      }
      backup := None;
    }
  }
}
