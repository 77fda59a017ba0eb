/**
 The apply phase of a restore (cmd/proxy/backup.go): the prepared configuration,
 the database's admission slot with the guard that preserves what was in it, the
 rollbacks, and the order of the phases. Every step can fail, and the process can
 stop after every change of a file. Restores run one at a time, as the reload
 lock has it.
 */
module Restore {
  import opened Wrappers

  // ---- what a restore changes ----

  datatype ConfigFile = ConfigFile(bytes: string, mode: nat)

  /** The running configuration, as far as a restore reads it. */
  datatype Live = Live(document: string, dbPath: string)

  /** A snapshot that a guard moved aside, beside the slot of path. */
  datatype Sibling = Sibling(path: string, snapshot: string)

  /**
   The configuration file and the running configuration, the pending snapshot in
   the slot of each database path, the preserved siblings by name, and the rows
   that merges wrote.
   */
  datatype World = World(config: Option<ConfigFile>, live: Live, pending: map<string, string>,
                         siblings: map<nat, Sibling>, next: nat, rows: seq<string>)

  ghost predicate Valid(w: World) {
    forall b :: b in w.siblings ==> b < w.next
  }

  /** Every state the files go through, the first being the one before; the process may stop at any. */
  type Trail = t: seq<World> | |t| > 0 witness [World(None, Live("", ""), map[], map[], 0, [])]

  function Now(t: Trail): World {
    t[|t| - 1]
  }

  // ---- what can go wrong ----

  /** An atomic replacement of a file can fail before it takes effect, or report a failure after. */
  datatype Write = WriteOK | FailsBefore | FailsAfter

  /** The preflight judges the staged snapshot, and may migrate it in place whether it accepts it or not. */
  datatype Preflight = Preflight(accepts: string -> bool, migrated: string -> string)

  datatype Merge = MergeOK | MergeFails(rows: seq<string>)

  datatype Faults = Faults(prepare: bool, mergePath: bool, inspect: bool, preserve: bool, stage: Write,
                           preflight: Preflight, merge: Merge, write: Write, reload: bool,
                           rollBackSlot: bool, rollBackConfig: bool, discard: bool)

  /** The two operations that undo a failed restore themselves succeed. */
  predicate RollbacksWork(f: Faults) {
    !f.rollBackSlot && !f.rollBackConfig
  }

  // ---- the admission slot ----

  datatype Guard = Guard(path: string, backup: Option<nat>)

  /** captureRestorePending */
  function Capture(t: Trail, path: string, f: Faults): (Trail, Option<Guard>) {
    var w := Now(t);
    if f.inspect then (t, None)
    else if path !in w.pending then (t, Some(Guard(path, None)))
    else if f.preserve then (t, None)
    else
      (t + [w.(pending := w.pending - {path}, siblings := w.siblings[w.next := Sibling(path, w.pending[path])],
               next := w.next + 1)],
       Some(Guard(path, Some(w.next))))
  }

  /** restorePendingGuard.rollback */
  function RollBackSlot(t: Trail, g: Guard, f: Faults): Trail {
    var w := Now(t);
    if f.rollBackSlot then t
    else if g.backup.None? then t + [w.(pending := w.pending - {g.path})]
    else if g.backup.value !in w.siblings then t
    else
      t + [w.(pending := w.pending[g.path := w.siblings[g.backup.value].snapshot],
              siblings := w.siblings - {g.backup.value})]
  }

  /** restorePendingGuard.discard */
  function Discard(t: Trail, g: Guard, f: Faults): Trail {
    if g.backup.None? || f.discard then t
    else t + [Now(t).(siblings := Now(t).siblings - {g.backup.value})]
  }

  function Publish(t: Trail, path: string, snapshot: string): Trail {
    t + [Now(t).(pending := Now(t).pending[path := snapshot])]
  }

  /** The replace mode of applyRestoreDatabase. */
  function Replace(t: Trail, path: string, source: string, f: Faults): (Trail, Option<Guard>) {
    var (t1, guard) := Capture(t, path, f);
    if guard.None? then (t1, None)
    else if f.stage == FailsBefore then (RollBackSlot(t1, guard.value, f), None)
    else
      var t2 := Publish(t1, path, source);
      if f.stage == FailsAfter then (RollBackSlot(t2, guard.value, f), None)
      else
        var t3 := Publish(t2, path, f.preflight.migrated(source));
        if !f.preflight.accepts(source) then (RollBackSlot(t3, guard.value, f), None) else (t3, guard)
  }

  datatype Mode = ReplaceMode | MergeMode

  /** applyRestoreDatabase: whether it worked, and the guard of a replacement. */
  function ApplyDatabase(t: Trail, path: string, source: string, mode: Mode, f: Faults): (Trail, bool, Option<Guard>) {
    if path == "" then (t, false, None)
    else if mode == MergeMode then
      match f.merge
      case MergeOK => (t + [Now(t).(rows := Now(t).rows + [source])], true, None)
      case MergeFails(rows) => (t + [Now(t).(rows := rows)], false, None)
    else
      var (t1, guard) := Replace(t, path, source, f);
      (t1, guard.Some?, guard)
  }

  // ---- the configuration ----

  /** What prepareRestoreConfig computed: the document to write, and what it will be as the running one. */
  datatype Plan = Plan(document: string, mode: nat, live: Live)

  /** applyRestoreConfig, which puts file and running configuration back when writing or reloading fails. */
  function ApplyConfig(t: Trail, plan: Plan, before: World, f: Faults): (Trail, bool) {
    var t1 := if f.write == FailsBefore then t else t + [Now(t).(config := Some(ConfigFile(plan.document, plan.mode)))];
    if f.write == WriteOK && !f.reload then (t1 + [Now(t1).(live := plan.live)], true)
    else (RollBackConfig(t1, before, f), false)
  }

  /** rollbackRestoreConfig */
  function RollBackConfig(t: Trail, before: World, f: Faults): Trail {
    var t1 := t + [Now(t).(live := before.live)];
    if f.rollBackConfig then t1 else t1 + [Now(t1).(config := before.config)]
  }

  // ---- the whole restore ----

  datatype Request = Request(config: Option<Plan>, database: Option<string>, mode: Mode)

  /** The path the next boot opens: that of the configuration being restored, or the running one's. */
  function TargetPath(r: Request, w: World): string {
    if r.config.Some? then r.config.value.live.dbPath else w.live.dbPath
  }

  /** The database phase, if a database is wanted. */
  function DatabasePhase(r: Request, t: Trail, f: Faults): (Trail, bool, Option<Guard>) {
    if r.database.None? then (t, true, None)
    else if r.mode == MergeMode && f.mergePath then (t, false, None)
    else ApplyDatabase(t, TargetPath(r, Now(t)), r.database.value, r.mode, f)
  }

  /** The configuration phase, which takes the slot back when it fails. */
  function ConfigPhase(r: Request, t: Trail, before: World, guard: Option<Guard>, f: Faults): (Trail, bool) {
    if r.config.None? then (t, true)
    else
      var (t1, ok) := ApplyConfig(t, r.config.value, before, f);
      if ok || guard.None? then (t1, ok) else (RollBackSlot(t1, guard.value, f), false)
  }

  /** handleRestore from the reload lock on. */
  function Apply(r: Request, t: Trail, f: Faults): (Trail, bool) {
    if r.config.Some? && f.prepare then (t, false)
    else
      var (t1, ok1, guard) := DatabasePhase(r, t, f);
      if !ok1 then (t1, false)
      else
        var (t2, ok2) := ConfigPhase(r, t1, Now(t), guard, f);
        if !ok2 then (t2, false)
        else if guard.None? then (t2, true)
        else (Discard(t2, guard.value, f), true)
  }

  // ---- when a restore succeeds ----

  /**
   Nothing stands in the way of a replacement: the slot can be read and freed, the
   staging works, and the preflight accepts.
   */
  predicate Replaceable(path: string, source: string, w: World, f: Faults) {
    && !f.inspect && !(path in w.pending && f.preserve)
    && f.stage == WriteOK && f.preflight.accepts(source)
  }

  predicate ConfigSucceeds(r: Request, f: Faults) {
    r.config.Some? ==> !f.prepare && f.write == WriteOK && !f.reload
  }

  predicate DatabaseSucceeds(r: Request, w: World, f: Faults) {
    r.database.Some? ==>
      && TargetPath(r, w) != ""
      && if r.mode == MergeMode then !f.mergePath && f.merge.MergeOK?
         else Replaceable(TargetPath(r, w), r.database.value, w, f)
  }

  /** What a restore needs, read off the request, the world and the faults. */
  predicate Succeeds(r: Request, w: World, f: Faults) {
    ConfigSucceeds(r, f) && DatabaseSucceeds(r, w, f)
  }

  /** A restore reports success exactly when every part that was asked for was prepared, applied and accepted. */
  lemma {:induction false} SucceedsIff(r: Request, t: Trail, f: Faults)
    ensures Apply(r, t, f).1 <==> Succeeds(r, Now(t), f)
  {
    if r.database.Some? && r.mode == ReplaceMode {
      ReplacesIff(t, TargetPath(r, Now(t)), r.database.value, f);
    }
  }

  lemma {:induction false} ReplacesIff(t: Trail, path: string, source: string, f: Faults)
    ensures Replace(t, path, source, f).1.Some? <==> Replaceable(path, source, Now(t), f)
  {
  }

  // ---- all or nothing ----

  /** Same configuration file, running configuration and slots. */
  predicate Same(a: World, b: World) {
    a.config == b.config && a.live == b.live && a.pending == b.pending
  }

  /**
   What a replacement has done to the slots while its guard is held: the guard's
   slot, and one fresh sibling with what was there.
   */
  ghost predicate HeldSlots(before: World, w: World, g: Guard) {
    && (forall p :: p != g.path ==> (p in w.pending <==> p in before.pending))
    && (forall p :: p != g.path && p in before.pending ==> w.pending[p] == before.pending[p])
    && if g.backup.None? then g.path !in before.pending && w.siblings == before.siblings && w.next == before.next
       else
         && g.path in before.pending && g.backup.value == before.next && w.next == before.next + 1
         && w.siblings == before.siblings[before.next := Sibling(g.path, before.pending[g.path])]
  }

  ghost predicate Held(before: World, w: World, g: Guard) {
    HeldSlots(before, w, g) && w.config == before.config && w.live == before.live && w.rows == before.rows
  }

  /** A rollback of the slot puts the pending snapshots and the siblings back. */
  lemma {:induction false} RollbackRestores(t: Trail, before: World, g: Guard, f: Faults)
    requires Valid(before) && HeldSlots(before, Now(t), g) && RollbacksWork(f)
    ensures var after := Now(RollBackSlot(t, g, f));
            && after.pending == before.pending && after.siblings == before.siblings
            && after.config == Now(t).config && after.live == Now(t).live && after.rows == Now(t).rows
  {
    var after := Now(RollBackSlot(t, g, f));
    if g.backup.None? {
      assert after.pending == before.pending;
    } else {
      assert before.next !in before.siblings;
      assert after.siblings == before.siblings;
      assert after.pending == before.pending;
    }
  }

  lemma {:induction false} CaptureHolds(t: Trail, path: string, f: Faults)
    ensures var (t1, guard) := Capture(t, path, f);
            if guard.Some? then guard.value.path == path && Held(Now(t), Now(t1), guard.value) else t1 == t
  {
  }

  lemma {:induction false} PublishHolds(t: Trail, before: World, g: Guard, snapshot: string)
    requires Held(before, Now(t), g)
    ensures Held(before, Now(Publish(t, g.path, snapshot)), g)
  {
  }

  /** A replacement that fails has changed nothing; one that works holds its guard over the staged snapshot. */
  lemma {:induction false} ReplaceOutcome(t: Trail, path: string, source: string, f: Faults)
    requires Valid(Now(t)) && RollbacksWork(f)
    ensures var (t1, guard) := Replace(t, path, source, f);
            && (guard.Some? <==> Replaceable(path, source, Now(t), f))
            && if guard.Some? then
                 && guard.value.path == path && Held(Now(t), Now(t1), guard.value)
                 && Now(t1).pending == Now(t).pending[path := f.preflight.migrated(source)]
               else Same(Now(t1), Now(t)) && Now(t1).siblings == Now(t).siblings && Now(t1).rows == Now(t).rows
  {
    CaptureHolds(t, path, f);
    var (t1, guard) := Capture(t, path, f);
    if guard.Some? {
      var g := guard.value;
      RollbackRestores(t1, Now(t), g, f);
      PublishHolds(t1, Now(t), g, source);
      var t2 := Publish(t1, path, source);
      RollbackRestores(t2, Now(t), g, f);
      PublishHolds(t2, Now(t), g, f.preflight.migrated(source));
      RollbackRestores(Publish(t2, path, f.preflight.migrated(source)), Now(t), g, f);
    }
  }

  /** The configuration phase on its own: both halves, or neither. */
  lemma {:induction false} ConfigOutcome(t: Trail, plan: Plan, before: World, f: Faults)
    requires RollbacksWork(f) && Now(t).config == before.config && Now(t).live == before.live
    ensures var (t1, ok) := ApplyConfig(t, plan, before, f);
            && Now(t1).pending == Now(t).pending && Now(t1).siblings == Now(t).siblings
            && Now(t1).next == Now(t).next && Now(t1).rows == Now(t).rows
            && if ok then Now(t1).config == Some(ConfigFile(plan.document, plan.mode)) && Now(t1).live == plan.live
               else Now(t1).config == before.config && Now(t1).live == before.live
  {
  }

  /** The rows after the database phase; a merge leaves what it wrote. */
  function RowsAfter(r: Request, w: World, f: Faults): seq<string> {
    if r.database.None? || r.mode == ReplaceMode || f.mergePath || TargetPath(r, w) == "" then w.rows
    else match f.merge
      case MergeOK => w.rows + [r.database.value]
      case MergeFails(rows) => rows
  }

  lemma {:induction false} DatabaseOutcome(r: Request, t: Trail, f: Faults)
    requires Valid(Now(t)) && RollbacksWork(f)
    ensures var (t1, ok, guard) := DatabasePhase(r, t, f);
            && Now(t1).config == Now(t).config && Now(t1).live == Now(t).live
            && Now(t1).rows == RowsAfter(r, Now(t), f)
            && (guard.Some? <==> ok && r.database.Some? && r.mode == ReplaceMode)
            && (guard.Some? ==>
                  && guard.value.path == TargetPath(r, Now(t)) && HeldSlots(Now(t), Now(t1), guard.value)
                  && Now(t1).pending == Now(t).pending[TargetPath(r, Now(t)) := f.preflight.migrated(r.database.value)])
            && (guard.None? ==> Now(t1).pending == Now(t).pending && Now(t1).siblings == Now(t).siblings)
  {
    if r.database.Some? && r.mode == ReplaceMode {
      ReplaceOutcome(t, TargetPath(r, Now(t)), r.database.value, f);
    }
  }

  /** The siblings after a success: one more when the preserved snapshot could not be released. */
  function SiblingsAfter(r: Request, w: World, f: Faults): map<nat, Sibling> {
    if Replaces(r, w) && f.discard then w.siblings[w.next := Sibling(TargetPath(r, w), w.pending[TargetPath(r, w)])]
    else w.siblings
  }

  /** The restore is to put a snapshot where another one is pending. */
  predicate Replaces(r: Request, w: World) {
    r.database.Some? && r.mode == ReplaceMode && TargetPath(r, w) in w.pending
  }

  /**
   A restore whose rollbacks work is all or nothing: when it fails at whichever
   step, the configuration file, the running configuration, every slot and every
   sibling are as before; only what a merge wrote stays, and it stays always. When
   it succeeds, each part is as requested.
   */
  lemma {:induction false} AllOrNothing(r: Request, t: Trail, f: Faults)
    requires Valid(Now(t)) && RollbacksWork(f)
    ensures var (t', ok) := Apply(r, t, f);
            var before, after := Now(t), Now(t');
            && (ok <==> Succeeds(r, before, f))
            && if Succeeds(r, before, f) then
              && after.config == (if r.config.Some? then Some(ConfigFile(r.config.value.document, r.config.value.mode))
                                  else before.config)
              && after.live == (if r.config.Some? then r.config.value.live else before.live)
              && after.pending == (if r.database.Some? && r.mode == ReplaceMode
                                   then before.pending[TargetPath(r, before) := f.preflight.migrated(r.database.value)]
                                   else before.pending)
              && after.siblings == SiblingsAfter(r, before, f)
              && after.rows == RowsAfter(r, before, f)
            else
              && Same(after, before) && after.siblings == before.siblings
              && after.rows == if r.config.Some? && f.prepare then before.rows else RowsAfter(r, before, f)
  {
    SucceedsIff(r, t, f);
    if !(r.config.Some? && f.prepare) {
      DatabaseOutcome(r, t, f);
      var (t1, ok, guard) := DatabasePhase(r, t, f);
      if ok && r.config.Some? {
        ConfigOutcome(t1, r.config.value, Now(t), f);
        var (t2, done) := ApplyConfig(t1, r.config.value, Now(t), f);
        if !done && guard.Some? {
          assert HeldSlots(Now(t), Now(t2), guard.value);
          RollbackRestores(t2, Now(t), guard.value, f);
        }
        if done && guard.Some? {
          DiscardOutcome(t2, Now(t), guard.value, f);
        }
      } else if ok && guard.Some? {
        DiscardOutcome(t1, Now(t), guard.value, f);
      }
    }
  }

  /** Releasing what a held guard preserved. */
  lemma {:induction false} DiscardOutcome(t: Trail, before: World, g: Guard, f: Faults)
    requires Valid(before) && HeldSlots(before, Now(t), g)
    ensures var after := Now(Discard(t, g, f));
            && after == Now(t).(siblings := after.siblings)
            && after.siblings
               == if f.discard && g.path in before.pending
                  then before.siblings[before.next := Sibling(g.path, before.pending[g.path])] else before.siblings
  {
    assert before.next !in before.siblings;
    if g.backup.Some? && !f.discard {
      assert Now(t).siblings - {before.next} == before.siblings;
    }
  }

  /** The restore got as far as a merge, and the merge wrote. */
  predicate MergeWrote(r: Request, w: World, f: Faults) {
    && r.database.Some? && r.mode == MergeMode && TargetPath(r, w) != ""
    && !(r.config.Some? && f.prepare) && !f.mergePath
    && (f.merge.MergeOK? || f.merge.rows != w.rows)
  }

  /** A failed restore has changed nothing at all exactly when no merge wrote anything. */
  lemma {:induction false} FailureLeavesNothingIff(r: Request, t: Trail, f: Faults)
    requires Valid(Now(t)) && RollbacksWork(f) && !Succeeds(r, Now(t), f)
    ensures var before, after := Now(t), Now(Apply(r, t, f).0);
            Same(after, before) && after.siblings == before.siblings && after.rows == before.rows
            <==> !MergeWrote(r, before, f)
  {
    AllOrNothing(r, t, f);
    if r.database.Some? && f.merge.MergeOK? {
      assert |Now(t).rows + [r.database.value]| == |Now(t).rows| + 1;
    }
  }

  /** The remaining limitation: a finished merge survives the failure of the configuration that came with it. */
  lemma {:induction false} MergeStays(plan: Plan, source: string, t: Trail, f: Faults)
    requires Valid(Now(t)) && RollbacksWork(f) && !f.prepare && !f.mergePath && plan.live.dbPath != ""
    requires f.merge == MergeOK && (f.write != WriteOK || f.reload)
    ensures var (t', ok) := Apply(Request(Some(plan), Some(source), MergeMode), t, f);
            !ok && Same(Now(t'), Now(t)) && Now(t').rows == Now(t).rows + [source]
  {
    AllOrNothing(Request(Some(plan), Some(source), MergeMode), t, f);
  }

  /** Where what a slot holds comes from: it was there, or this restore published it and its preflight accepts it. */
  predicate Admitted(r: Request, before: World, f: Faults, p: string, snapshot: string) {
    || (p in before.pending && snapshot == before.pending[p])
    || (&& r.database.Some? && r.mode == ReplaceMode && p == TargetPath(r, before)
        && f.preflight.accepts(r.database.value) && snapshot == f.preflight.migrated(r.database.value))
  }

  /** With working rollbacks no slot ends with a snapshot that its preflight refused. */
  lemma {:induction false} RefusedSnapshotsAreGone(r: Request, t: Trail, f: Faults)
    requires Valid(Now(t)) && RollbacksWork(f)
    ensures var after := Now(Apply(r, t, f).0);
            forall p :: p in after.pending ==> Admitted(r, Now(t), f, p, after.pending[p])
  {
    AllOrNothing(r, t, f);
  }

  // ---- the outcome under every fault ----

  /** The replacement got as far as taking hold of the slot. */
  predicate Captured(path: string, w: World, f: Faults) {
    !f.inspect && !(path in w.pending && f.preserve)
  }

  predicate Attempted(r: Request, w: World, f: Faults) {
    && r.database.Some? && r.mode == ReplaceMode && TargetPath(r, w) != ""
    && !(r.config.Some? && f.prepare) && Captured(TargetPath(r, w), w, f)
  }

  /** What the slot holds when the last change made to it stays. */
  function LastStaged(pending: map<string, string>, path: string, source: string, f: Faults): map<string, string> {
    match f.stage
    case FailsBefore => pending - {path}
    case FailsAfter => pending[path := source]
    case WriteOK => pending[path := f.preflight.migrated(source)]
  }

  function FinalPending(r: Request, w: World, f: Faults): map<string, string> {
    if Attempted(r, w, f) && (Succeeds(r, w, f) || f.rollBackSlot)
    then LastStaged(w.pending, TargetPath(r, w), r.database.value, f) else w.pending
  }

  function FinalSiblings(r: Request, w: World, f: Faults): map<nat, Sibling> {
    var path := TargetPath(r, w);
    if Attempted(r, w, f) && path in w.pending && (if Succeeds(r, w, f) then f.discard else f.rollBackSlot)
    then w.siblings[w.next := Sibling(path, w.pending[path])] else w.siblings
  }

  /** The configuration phase failed after the file had been replaced, and it could not be put back. */
  predicate ConfigStuck(r: Request, w: World, f: Faults) {
    && r.config.Some? && !f.prepare && DatabaseSucceeds(r, w, f)
    && f.write != FailsBefore && f.rollBackConfig
  }

  /** The world after a restore, without its steps. */
  function Outcome(r: Request, w: World, f: Faults): World {
    World(if r.config.Some? && (Succeeds(r, w, f) || ConfigStuck(r, w, f))
          then Some(ConfigFile(r.config.value.document, r.config.value.mode)) else w.config,
          if r.config.Some? && Succeeds(r, w, f) then r.config.value.live else w.live,
          FinalPending(r, w, f),
          FinalSiblings(r, w, f),
          if Attempted(r, w, f) && TargetPath(r, w) in w.pending then w.next + 1 else w.next,
          if r.config.Some? && f.prepare then w.rows else RowsAfter(r, w, f))
  }

  /** The slot, the siblings and the verdict of a replacement, whatever fails. */
  lemma {:induction false} ReplaceEnds(t: Trail, path: string, source: string, f: Faults)
    requires Valid(Now(t))
    ensures var (t1, guard) := Replace(t, path, source, f);
            var w := Now(t);
            var held := w.siblings[w.next := Sibling(path, if path in w.pending then w.pending[path] else "")];
            && (guard.Some? <==> Replaceable(path, source, w, f))
            && (guard.Some? ==> guard.value == Guard(path, if path in w.pending then Some(w.next) else None))
            && Now(t1) == w.(pending := if Captured(path, w, f) && (guard.Some? || f.rollBackSlot)
                                        then LastStaged(w.pending, path, source, f) else w.pending,
                             siblings := if Captured(path, w, f) && path in w.pending && (guard.Some? || f.rollBackSlot)
                                         then held else w.siblings,
                             next := if Captured(path, w, f) && path in w.pending then w.next + 1 else w.next)
  {
    var w := Now(t);
    if Captured(path, w, f) {
      var (t1, guard) := Capture(t, path, f);
      if path in w.pending {
        assert (w.pending - {path})[path := source] == w.pending[path := source];
        assert w.pending[path := source][path := f.preflight.migrated(source)]
            == w.pending[path := f.preflight.migrated(source)];
        HeldRollsBack(w, path, source);
        HeldRollsBack(w, path, f.preflight.migrated(source));
      } else {
        assert w.pending - {path} == w.pending;
        assert w.pending[path := source] - {path} == w.pending;
        assert w.pending[path := source][path := f.preflight.migrated(source)]
            == w.pending[path := f.preflight.migrated(source)];
        assert w.pending[path := f.preflight.migrated(source)] - {path} == w.pending;
      }
    }
  }

  lemma {:induction false} HeldRollsBack(w: World, path: string, staged: string)
    requires Valid(w) && path in w.pending
    ensures (w.pending - {path})[path := w.pending[path]] == w.pending
    ensures w.pending[path := staged][path := w.pending[path]] == w.pending
    ensures w.siblings[w.next := Sibling(path, w.pending[path])] - {w.next} == w.siblings
  {
    assert w.next !in w.siblings;
  }

  /** The configuration phase: the file and the running configuration, whatever fails. */
  lemma {:induction false} ConfigEnds(t: Trail, plan: Plan, before: World, f: Faults)
    requires Now(t).config == before.config && Now(t).live == before.live
    ensures var (t1, ok) := ApplyConfig(t, plan, before, f);
            && (ok <==> f.write == WriteOK && !f.reload)
            && Now(t1) == Now(t).(
                 config := if ok || (f.write != FailsBefore && f.rollBackConfig)
                           then Some(ConfigFile(plan.document, plan.mode)) else before.config,
                 live := if ok then plan.live else before.live)
  {
  }

  lemma {:induction false} OutcomeWithoutSlot(r: Request, t: Trail, f: Faults)
    requires Valid(Now(t)) && !(r.database.Some? && r.mode == ReplaceMode)
    ensures Now(Apply(r, t, f).0) == Outcome(r, Now(t), f)
  {
    SucceedsIff(r, t, f);
    if !(r.config.Some? && f.prepare) && r.config.Some? {
      ConfigEnds(DatabasePhase(r, t, f).0, r.config.value, Now(t), f);
    }
  }

  /** A held guard at the end of a restore: released, or rolled back with the configuration. */
  lemma {:induction false} GuardEnds(t: Trail, w: World, g: Guard, source: string, f: Faults)
    requires Valid(w) && Replaceable(g.path, source, w, f)
    requires g == Guard(g.path, if g.path in w.pending then Some(w.next) else None)
    requires Now(t).pending == w.pending[g.path := f.preflight.migrated(source)]
    requires Now(t).siblings == if g.path in w.pending then w.siblings[w.next := Sibling(g.path, w.pending[g.path])]
                                else w.siblings
    ensures Now(RollBackSlot(t, g, f))
            == if f.rollBackSlot then Now(t) else Now(t).(pending := w.pending, siblings := w.siblings)
    ensures Now(Discard(t, g, f)) == if f.discard then Now(t) else Now(t).(siblings := w.siblings)
  {
    if g.path in w.pending {
      HeldRollsBack(w, g.path, f.preflight.migrated(source));
    } else {
      assert w.pending[g.path := f.preflight.migrated(source)] - {g.path} == w.pending;
    }
  }

  lemma {:induction false} OutcomeOfFailedSlot(r: Request, t: Trail, f: Faults)
    requires Valid(Now(t)) && r.database.Some? && r.mode == ReplaceMode && !(r.config.Some? && f.prepare)
    requires !DatabaseSucceeds(r, Now(t), f)
    ensures Now(Apply(r, t, f).0) == Outcome(r, Now(t), f)
  {
    ReplaceEnds(t, TargetPath(r, Now(t)), r.database.value, f);
  }

  lemma {:induction false} OutcomeOfHeldSlot(r: Request, t: Trail, f: Faults)
    requires Valid(Now(t)) && r.database.Some? && r.mode == ReplaceMode && !(r.config.Some? && f.prepare)
    requires DatabaseSucceeds(r, Now(t), f)
    ensures Now(Apply(r, t, f).0) == Outcome(r, Now(t), f)
  {
    var path, source := TargetPath(r, Now(t)), r.database.value;
    ReplaceEnds(t, path, source, f);
    var (t1, guard) := Replace(t, path, source, f);
    var t2 := t1;
    if r.config.Some? {
      ConfigEnds(t1, r.config.value, Now(t), f);
      t2 := ApplyConfig(t1, r.config.value, Now(t), f).0;
    }
    GuardEnds(t2, Now(t), guard.value, source, f);
  }

  /** What a restore leaves behind, whatever fails and whether or not it can be rolled back. */
  lemma {:induction false} OutcomeIs(r: Request, t: Trail, f: Faults)
    requires Valid(Now(t))
    ensures Now(Apply(r, t, f).0) == Outcome(r, Now(t), f)
  {
    if r.database.None? || r.mode == MergeMode {
      OutcomeWithoutSlot(r, t, f);
    } else if !(r.config.Some? && f.prepare) {
      if DatabaseSucceeds(r, Now(t), f) {
        OutcomeOfHeldSlot(r, t, f);
      } else {
        OutcomeOfFailedSlot(r, t, f);
      }
    }
  }

  // ---- a crash at any point ----

  /** Every snapshot that was pending is in its slot, or beside it. */
  ghost predicate Keeps(before: World, w: World) {
    forall p :: p in before.pending ==> KeepsOne(before, w, p)
  }

  ghost predicate KeepsOne(before: World, w: World, p: string)
    requires p in before.pending
  {
    || (p in w.pending && w.pending[p] == before.pending[p])
    || exists b :: b in w.siblings && w.siblings[b] == Sibling(p, before.pending[p])
  }

  lemma {:induction false} HeldKeeps(before: World, w: World, g: Guard)
    requires HeldSlots(before, w, g)
    ensures Keeps(before, w)
  {
    forall p | p in before.pending
      ensures KeepsOne(before, w, p)
    {
      if p == g.path {
        assert before.next in w.siblings && w.siblings[before.next] == Sibling(p, before.pending[p]);
      }
    }
  }

  /** From t on, the trail went through these states only. */
  ghost predicate Through(t: Trail, t': Trail, before: World) {
    && t <= t'
    && forall i :: |t| <= i < |t'| ==> Keeps(before, t'[i])
  }

  lemma {:induction false} ThroughTwice(t: Trail, t1: Trail, t2: Trail, before: World)
    requires Through(t, t1, before) && Through(t1, t2, before)
    ensures Through(t, t2, before)
  {
    assert forall i :: |t| <= i < |t1| ==> t2[i] == t1[i];
  }

  /** A rollback of a held slot keeps everything, even when it fails. */
  lemma {:induction false} RollbackKeeps(t: Trail, before: World, g: Guard, f: Faults)
    requires Valid(before) && HeldSlots(before, Now(t), g)
    ensures Through(t, RollBackSlot(t, g, f), before)
  {
    var t' := RollBackSlot(t, g, f);
    if t' != t {
      assert Now(t').pending == before.pending by {
        RollbackRestores(t, before, g, f.(rollBackSlot := false, rollBackConfig := false));
      }
      assert Keeps(before, Now(t'));
    }
  }

  lemma {:induction false} ReplaceKeeps(t: Trail, path: string, source: string, f: Faults)
    requires Valid(Now(t))
    ensures var (t1, guard) := Replace(t, path, source, f);
            Through(t, t1, Now(t)) && (guard.Some? ==> HeldSlots(Now(t), Now(t1), guard.value))
  {
    CaptureHolds(t, path, f);
    var (t1, guard) := Capture(t, path, f);
    if guard.Some? {
      var g := guard.value;
      HeldKeeps(Now(t), Now(t1), g);
      RollbackKeeps(t1, Now(t), g, f);
      PublishHolds(t1, Now(t), g, source);
      var t2 := Publish(t1, path, source);
      HeldKeeps(Now(t), Now(t2), g);
      ThroughTwice(t, t1, t2, Now(t));
      RollbackKeeps(t2, Now(t), g, f);
      PublishHolds(t2, Now(t), g, f.preflight.migrated(source));
      var t3 := Publish(t2, path, f.preflight.migrated(source));
      HeldKeeps(Now(t), Now(t3), g);
      ThroughTwice(t, t2, t3, Now(t));
      RollbackKeeps(t3, Now(t), g, f);
      ThroughTwice(t, t1, RollBackSlot(t1, g, f), Now(t));
      ThroughTwice(t, t2, RollBackSlot(t2, g, f), Now(t));
      ThroughTwice(t, t3, RollBackSlot(t3, g, f), Now(t));
    }
  }

  lemma {:induction false} SameSlotsKeep(before: World, v: World, w: World)
    requires Keeps(before, v) && w.pending == v.pending && w.siblings == v.siblings
    ensures Keeps(before, w)
  {
    forall p | p in before.pending
      ensures KeepsOne(before, w, p)
    {
      assert KeepsOne(before, v, p);
    }
  }

  lemma {:induction false} ConfigKeeps(t: Trail, plan: Plan, before: World, f: Faults)
    requires Keeps(before, Now(t))
    ensures var (t1, ok) := ApplyConfig(t, plan, before, f);
            && Through(t, t1, before)
            && Now(t1).pending == Now(t).pending && Now(t1).siblings == Now(t).siblings && Now(t1).next == Now(t).next
  {
    var (t1, ok) := ApplyConfig(t, plan, before, f);
    forall i | |t| <= i < |t1|
      ensures Keeps(before, t1[i])
    {
      assert t1[i].pending == Now(t).pending && t1[i].siblings == Now(t).siblings;
      SameSlotsKeep(before, Now(t), t1[i]);
    }
  }

  /**
   Whatever fails, and wherever the process stops: a snapshot that was pending is
   still in its slot or beside it. The one exception is the last step of a restore
   that succeeded, when it releases the snapshot it has replaced.
   */
  lemma {:induction false} CrashKeepsPending(r: Request, t: Trail, f: Faults)
    requires Valid(Now(t))
    ensures var (t', ok) := Apply(r, t, f);
            && t <= t'
            && forall i :: |t| <= i < |t'| && !(ok && i == |t'| - 1 && Replaces(r, Now(t)) && !f.discard) ==>
                             Keeps(Now(t), t'[i])
  {
    if !(r.config.Some? && f.prepare) {
      var before := Now(t);
      DatabaseKeeps(r, t, f);
      var (t1, ok, guard) := DatabasePhase(r, t, f);
      if ok {
        ConfigPhaseKeeps(r, t1, before, guard, f);
        ThroughTwice(t, t1, ConfigPhase(r, t1, before, guard, f).0, before);
      }
    }
  }

  lemma {:induction false} ConfigPhaseKeeps(r: Request, t: Trail, before: World, guard: Option<Guard>, f: Faults)
    requires Valid(before) && Keeps(before, Now(t)) && (guard.Some? ==> HeldSlots(before, Now(t), guard.value))
    ensures Through(t, ConfigPhase(r, t, before, guard, f).0, before)
  {
    if r.config.Some? {
      ConfigKeeps(t, r.config.value, before, f);
      var (t1, ok) := ApplyConfig(t, r.config.value, before, f);
      if !ok && guard.Some? {
        RollbackKeeps(t1, before, guard.value, f);
        ThroughTwice(t, t1, RollBackSlot(t1, guard.value, f), before);
      }
    }
  }

  lemma {:induction false} DatabaseKeeps(r: Request, t: Trail, f: Faults)
    requires Valid(Now(t))
    ensures var (t1, ok, guard) := DatabasePhase(r, t, f);
            && Through(t, t1, Now(t)) && Keeps(Now(t), Now(t1))
            && (guard.Some? ==> HeldSlots(Now(t), Now(t1), guard.value))
  {
    assert Keeps(Now(t), Now(t));
    if r.database.Some? && r.mode == ReplaceMode {
      ReplaceKeeps(t, TargetPath(r, Now(t)), r.database.value, f);
      var (t1, guard) := Replace(t, TargetPath(r, Now(t)), r.database.value, f);
      if |t1| > |t| {
        assert Keeps(Now(t), t1[|t1| - 1]);
      } else {
        assert t1 == t;
      }
    }
  }

  // ---- one restore after another ----

  datatype Attempt = Attempt(request: Request, faults: Faults)

  /** Restores under the reload lock: each begins where the one before ended. */
  function Sequence(attempts: seq<Attempt>, t: Trail): Trail {
    if attempts == [] then t
    else
      var front, last := attempts[..|attempts| - 1], attempts[|attempts| - 1];
      Apply(last.request, Sequence(front, t), last.faults).0
  }

  /** Whether this attempt, made in state w, published a snapshot in the slot of p. */
  predicate Publishes(a: Attempt, t: Trail, p: string) {
    && Succeeds(a.request, Now(t), a.faults)
    && a.request.database.Some? && a.request.mode == ReplaceMode && TargetPath(a.request, Now(t)) == p
  }

  /** The last snapshot that a successful restore published in the slot of p; before any, what was there. */
  function LastPublished(attempts: seq<Attempt>, t: Trail, p: string): Option<string> {
    if attempts == [] then if p in Now(t).pending then Some(Now(t).pending[p]) else None
    else
      var front, last := attempts[..|attempts| - 1], attempts[|attempts| - 1];
      if Publishes(last, Sequence(front, t), p) then Some(last.faults.preflight.migrated(last.request.database.value))
      else LastPublished(front, t, p)
  }

  /** No failed restore removes what another published: each slot ends with the last success. */
  lemma {:induction false} LastSuccessWins(attempts: seq<Attempt>, t: Trail, p: string)
    requires Valid(Now(t)) && forall a :: a in attempts ==> RollbacksWork(a.faults)
    ensures Valid(Now(Sequence(attempts, t)))
    ensures var pending := Now(Sequence(attempts, t)).pending;
            LastPublished(attempts, t, p) == if p in pending then Some(pending[p]) else None
  {
    if attempts != [] {
      var front, last := attempts[..|attempts| - 1], attempts[|attempts| - 1];
      assert last in attempts && forall a :: a in front ==> a in attempts;
      LastSuccessWins(front, t, p);
      AllOrNothing(last.request, Sequence(front, t), last.faults);
      ApplyStaysValid(last.request, Sequence(front, t), last.faults);
    }
  }

  lemma {:induction false} SlotStepsStayValid(t: Trail, path: string, g: Guard, snapshot: string, f: Faults)
    requires Valid(Now(t))
    ensures Valid(Now(Capture(t, path, f).0)) && Valid(Now(Publish(t, path, snapshot)))
    ensures Valid(Now(RollBackSlot(t, g, f))) && Valid(Now(Discard(t, g, f)))
  {
  }

  lemma {:induction false} ReplaceStaysValid(t: Trail, path: string, source: string, f: Faults)
    requires Valid(Now(t))
    ensures Valid(Now(Replace(t, path, source, f).0))
  {
    var (t1, guard) := Capture(t, path, f);
    SlotStepsStayValid(t, path, Guard(path, None), source, f);
    if guard.Some? {
      SlotStepsStayValid(t1, path, guard.value, source, f);
      var t2 := Publish(t1, path, source);
      SlotStepsStayValid(t2, path, guard.value, f.preflight.migrated(source), f);
      SlotStepsStayValid(Publish(t2, path, f.preflight.migrated(source)), path, guard.value, source, f);
    }
  }

  lemma {:induction false} ConfigStaysValid(t: Trail, plan: Plan, before: World, f: Faults)
    requires Valid(Now(t))
    ensures Valid(Now(ApplyConfig(t, plan, before, f).0))
  {
    var w := Now(ApplyConfig(t, plan, before, f).0);
    assert w.siblings == Now(t).siblings && w.next == Now(t).next;
  }

  lemma {:induction false} ApplyStaysValid(r: Request, t: Trail, f: Faults)
    requires Valid(Now(t))
    ensures Valid(Now(Apply(r, t, f).0))
  {
    var (t1, ok, guard) := DatabasePhase(r, t, f);
    if r.database.Some? && r.mode == ReplaceMode {
      ReplaceStaysValid(t, TargetPath(r, Now(t)), r.database.value, f);
    }
    var t2 := t1;
    if r.config.Some? {
      t2 := ApplyConfig(t1, r.config.value, Now(t), f).0;
      ConfigStaysValid(t1, r.config.value, Now(t), f);
    }
    if guard.Some? {
      SlotStepsStayValid(t2, guard.value.path, guard.value, "", f);
    }
  }
}
