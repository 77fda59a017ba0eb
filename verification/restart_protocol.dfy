/**
 The restart handoff (cmd/proxy/restart.go and the signal loop of
 cmd/proxy/main.go) as a transition system: one run goroutine at a time, request
 and reload callers, watchers, the main loop and every server's connections, all
 interleaved, with a failure or panic at every step of a run.
 */
module RestartProtocol {
  import opened Wrappers

  // ---- the state ----

  /**
   One http.Server: whether it has an open descriptor of the listening socket,
   whether Shutdown was called, the accepted connections that may still run a
   handler, and whether its Serve has not returned yet.
   */
  datatype Server = Server(listening: bool, down: bool, conns: nat, serving: bool)

  predicate Quiet(server: Server) {
    server.down && !server.listening && server.conns == 0
  }

  /** Where the run goroutine is. */
  datatype Run =
    | NoRun
    | Building
    | Committed                       // inHandoff is set, nothing is duplicated
    | Duplicated                      // listenFile is open
    | Draining(todo: seq<nat>)        // the servers of the snapshot that have not finished Shutdown
    | Fencing                         // flushStore waits for the reload lock
    | Fenced                          // flushStore holds it and flushes
    | Flushed
    | Spawned                         // the child boots
    | Failing(recovering: bool)       // in failAndResume, before the swap
    | Finishing                       // before finishFailure

  datatype Lock = Free | ByReload | ByFence(channel: nat)

  datatype ServeResult = Closed | Broken

  /**
   The main loop has read a result and is to ask whether a handoff is committed, or
   after that which server serves.
   */
  datatype MainLoop = Selecting | Asking(result: ServeResult) | Checking(result: ServeResult) | Waiting(channel: nat)

  datatype Process = Running | Halted | HandedOff | ExitedOn(result: ServeResult) | ShutDown

  /** The fields of the restarter that its mutex guards. */
  datatype Core = Core(busy: bool, inHandoff: bool, current: nat, retired: seq<nat>)

  datatype State = State(
    process: Process,
    core: Core,
    servers: seq<Server>,
    run: Run,
    listenFile: bool,        // this run's duplicate is open
    leftovers: nat,          // duplicates of finished runs that are not closed yet
    dirty: bool,             // something was written since the last flush
    lock: Lock,
    resumed: seq<nat>,       // how often each resume channel was closed; the last is the current one
    watchers: set<nat>,      // registered watch channels
    closings: seq<nat>,      // how often each watch channel was closed
    main: MainLoop,
    serveErr: Option<ServeResult>,   // what the first server's Serve returned, unread
    swallowed: bool,         // the main loop ignored a broken Serve that nothing replaces
    taken: seq<nat>,         // the fences taken so far, by their resume channel
    released: seq<nat>)      // and those released

  function Channel(s: State): nat
    requires s.resumed != []
  {
    |s.resumed| - 1
  }

  const INITIAL := State(Running, Core(false, false, 0, []), [Server(true, false, 0, true)], NoRun, false, 0, false,
                         Free, [0], {}, [], Selecting, None, false, [], [])

  // ---- the critical sections of the restarter ----

  function Requested(core: Core): Core {
    core.(busy := true)
  }

  function Snapshot(core: Core): seq<nat> {
    [core.current] + core.retired
  }

  function AllDrained(core: Core): Core {
    core.(retired := [])
  }

  function Swapped(core: Core, server: nat): Core {
    core.(retired := core.retired + [core.current], current := server)
  }

  function Finished(core: Core): Core {
    core.(busy := false, inHandoff := false)
  }

  // ---- the events ----

  /** The steps of the run goroutine up to the end of its drain (Request starts it). */
  datatype EarlyEvent =
    | Request | BuildFails | Commit
    | DupSucceeds | DupFails
    | StartDrain | Shutdown | ShutdownEnds | ShutdownFails | DrainEnds

  /** Its steps from the flush barrier on, and those of failing and resuming, which a panic can begin anywhere. */
  datatype LateEvent =
    | TakeFence | FlushSucceeds | FlushFails
    | Spawn | SpawnFails | ChildReady | ChildFails
    | Panic | Resume | ResumeFails | Finish

  datatype ServerEvent =
    | Accept(server: nat) | HandlerWrites(server: nat) | ConnEnds(server: nat)
    | ServeReturns(server: nat) | ServeBreaks(server: nat)

  datatype LockEvent = ReloadStarts | ReloadWrites | ReloadEnds | FenceReleases

  datatype WatchEvent = AddWatcher | RemoveWatcher(watcher: nat) | CloseLeftover

  datatype MainEvent = MainReads | MainAsks | MainChecks | MainWakes | Signal

  datatype Event =
    | EarlyStep(r: EarlyEvent) | LateStep(f: LateEvent) | ServerStep(v: ServerEvent) | LockStep(l: LockEvent)
    | WatchStep(w: WatchEvent) | MainStep(m: MainEvent)

  function Bump(counts: seq<nat>, i: nat): seq<nat>
    requires i < |counts|
  {
    counts[i := counts[i] + 1]
  }

  /** Every registered watcher is closed once more. */
  function CloseAll(counts: seq<nat>, channels: set<nat>): seq<nat> {
    seq(|counts|, i requires 0 <= i < |counts| => if i in channels then counts[i] + 1 else counts[i])
  }

  predicate InCommittedRun(run: Run) {
    !run.NoRun? && !run.Building?
  }

  /** Steps of the run goroutine that can panic. */
  predicate CanPanic(run: Run) {
    !run.NoRun? && !run.Finishing? && !run.Fencing?
  }

  /** The drain has a server left. */
  predicate ToShutDown(s: State) {
    s.run.Draining? && s.run.todo != [] && s.run.todo[0] < |s.servers|
  }

  predicate EarlyEnabled(s: State, e: EarlyEvent) {
    match e
    case Request => !s.core.busy && s.run == NoRun
    case BuildFails => s.run == Building
    case Commit => s.run == Building
    case DupSucceeds => s.run == Committed && s.core.current < |s.servers| && s.servers[s.core.current].listening
    case DupFails => s.run == Committed
    case StartDrain => s.run == Duplicated
    case Shutdown => ToShutDown(s) && !s.servers[s.run.todo[0]].down
    case ShutdownEnds => ToShutDown(s) && Quiet(s.servers[s.run.todo[0]])
    case ShutdownFails => ToShutDown(s) && s.servers[s.run.todo[0]].down
    case DrainEnds => s.run == Draining([])
  }

  function EarlyNext(s: State, e: EarlyEvent): State
    requires EarlyEnabled(s, e)
  {
    match e
    case Request => s.(core := Requested(s.core), run := Building)
    case BuildFails => s.(run := Finishing)
    case Commit => s.(core := s.core.(inHandoff := true), run := Committed)
    case DupSucceeds => s.(listenFile := true, run := Duplicated)
    case DupFails => s.(run := Failing(false))
    case StartDrain => s.(run := Draining(Snapshot(s.core)))
    case Shutdown =>
      var i := s.run.todo[0];
      s.(servers := s.servers[i := s.servers[i].(down := true, listening := false)])
    case ShutdownEnds => s.(run := Draining(s.run.todo[1..]))
    case ShutdownFails => s.(run := Failing(false))
    case DrainEnds => s.(core := AllDrained(s.core), run := Fencing)
  }

  predicate LateEnabled(s: State, e: LateEvent) {
    match e
    case TakeFence => s.run == Fencing && s.lock == Free && s.resumed != []
    case FlushSucceeds => s.run == Fenced
    case FlushFails => s.run == Fenced
    case Spawn => s.run == Flushed
    case SpawnFails => s.run == Flushed
    case ChildReady => s.run == Spawned
    case ChildFails => s.run == Spawned
    case Panic => CanPanic(s.run)
    case Resume => s.run.Failing?
    case ResumeFails => s.run.Failing? && s.listenFile
    case Finish => s.run == Finishing && s.resumed != []
  }

  function LateNext(s: State, e: LateEvent): State
    requires LateEnabled(s, e)
  {
    match e
    case TakeFence =>
      if s.core.inHandoff then s.(lock := ByFence(Channel(s)), taken := s.taken + [Channel(s)], run := Fenced)
      else s.(run := Fenced)
    case FlushSucceeds => s.(dirty := false, run := Flushed)
    case FlushFails => s.(run := Failing(false))
    case Spawn => s.(run := Spawned)
    case SpawnFails => s.(run := Failing(false))
    case ChildReady => s.(process := HandedOff)
    case ChildFails => s.(run := Failing(false))
    case Panic => if s.run == Failing(true) then s.(process := Halted) else s.(run := Failing(true))
    case Resume =>
      if s.listenFile then
        s.(core := Swapped(s.core, |s.servers|), servers := s.servers + [Server(true, false, 0, true)],
           run := Finishing)
      else s.(run := Finishing)
    case ResumeFails => s.(process := Halted)
    case Finish =>
      s.(core := Finished(s.core), run := NoRun,
         listenFile := false, leftovers := s.leftovers + (if s.listenFile then 1 else 0),
         resumed := Bump(s.resumed, Channel(s)) + [0],
         watchers := {}, closings := CloseAll(s.closings, s.watchers))
  }

  predicate ServerEnabled(s: State, e: ServerEvent) {
    && e.server < |s.servers|
    && var v := s.servers[e.server];
       match e
       case Accept(_) => v.listening && !v.down
       case HandlerWrites(_) => v.conns > 0
       case ConnEnds(_) => v.conns > 0
       case ServeReturns(_) => v.down && v.serving
       case ServeBreaks(_) => v.listening && !v.down && v.serving
  }

  /** Connections come and go; a resumed server that breaks ends the process, the first one reports to the main loop. */
  function ServerNext(s: State, e: ServerEvent): State
    requires ServerEnabled(s, e)
  {
    var i, v := e.server, s.servers[e.server];
    match e
    case Accept(_) => s.(servers := s.servers[i := v.(conns := v.conns + 1)])
    case HandlerWrites(_) => s.(dirty := true)
    case ConnEnds(_) => s.(servers := s.servers[i := v.(conns := v.conns - 1)])
    case ServeReturns(_) =>
      var servers := s.servers[i := v.(serving := false)];
      if i == 0 then s.(servers := servers, serveErr := Some(Closed)) else s.(servers := servers)
    case ServeBreaks(_) =>
      var servers := s.servers[i := v.(serving := false, listening := false)];
      if i == 0 then s.(servers := servers, serveErr := Some(Broken)) else s.(servers := servers, process := Halted)
  }

  predicate LockEnabled(s: State, e: LockEvent) {
    match e
    case ReloadStarts => s.lock == Free
    case ReloadWrites => s.lock == ByReload
    case ReloadEnds => s.lock == ByReload
    case FenceReleases => s.lock.ByFence? && s.lock.channel < |s.resumed| && s.resumed[s.lock.channel] > 0
  }

  /** Reload transactions, and the goroutine that releases a fence when its channel is closed. */
  function LockNext(s: State, e: LockEvent): State
    requires LockEnabled(s, e)
  {
    match e
    case ReloadStarts => s.(lock := ByReload)
    case ReloadWrites => s.(dirty := true)
    case ReloadEnds => s.(lock := Free)
    case FenceReleases => s.(lock := Free, released := s.released + [s.lock.channel])
  }

  predicate WatchEnabled(s: State, e: WatchEvent) {
    match e
    case AddWatcher => true
    case RemoveWatcher(w) => w in s.watchers && w < |s.closings|
    case CloseLeftover => s.leftovers > 0
  }

  function WatchNext(s: State, e: WatchEvent): State
    requires WatchEnabled(s, e)
  {
    match e
    case AddWatcher => s.(watchers := s.watchers + {|s.closings|}, closings := s.closings + [0])
    case RemoveWatcher(w) => s.(watchers := s.watchers - {w}, closings := Bump(s.closings, w))
    case CloseLeftover => s.(leftovers := s.leftovers - 1)
  }

  predicate MainEnabled(s: State, e: MainEvent) {
    match e
    case MainReads => s.main == Selecting && s.serveErr.Some?
    case MainAsks => s.main.Asking?
    case MainChecks => s.main.Checking?
    case MainWakes => s.main.Waiting? && s.main.channel < |s.resumed| && s.resumed[s.main.channel] > 0
    case Signal => s.main == Selecting && s.resumed != [] && (s.core.inHandoff || s.run == NoRun)
  }

  /**
   The select loop of main. Reading a Serve result, asking whether a handoff is
   committed and asking which server serves are separate steps, between which
   anything else may happen.
   */
  function MainNext(s: State, e: MainEvent): State
    requires MainEnabled(s, e)
  {
    match e
    case MainReads => s.(serveErr := None, main := Asking(s.serveErr.value))
    case MainAsks =>
      if s.core.inHandoff then
        s.(main := Selecting,
           swallowed := s.swallowed || (s.main.result == Broken && s.core.current == 0 && !s.listenFile))
      else s.(main := Checking(s.main.result))
    case MainChecks =>
      if s.main.result == Closed && s.core.current != 0 then s.(main := Selecting)
      else s.(process := ExitedOn(s.main.result))
    case MainWakes => s.(main := Selecting)
    case Signal => if s.core.inHandoff then s.(main := Waiting(Channel(s))) else s.(process := ShutDown)
  }

  predicate Enabled(s: State, e: Event) {
    && s.process == Running
    && match e
       case EarlyStep(r) => EarlyEnabled(s, r)
       case LateStep(f) => LateEnabled(s, f)
       case ServerStep(v) => ServerEnabled(s, v)
       case LockStep(l) => LockEnabled(s, l)
       case WatchStep(w) => WatchEnabled(s, w)
       case MainStep(m) => MainEnabled(s, m)
  }

  function Next(s: State, e: Event): State
    requires Enabled(s, e)
  {
    match e
    case EarlyStep(r) => EarlyNext(s, r)
    case LateStep(f) => LateNext(s, f)
    case ServerStep(v) => ServerNext(s, v)
    case LockStep(l) => LockNext(s, l)
    case WatchStep(w) => WatchNext(s, w)
    case MainStep(m) => MainNext(s, m)
  }

  /** Any interleaving: the events in order, those that cannot happen skipped. */
  function Exec(events: seq<Event>): State {
    if events == [] then INITIAL
    else
      var s := Exec(events[..|events| - 1]);
      if Enabled(s, events[|events| - 1]) then Next(s, events[|events| - 1]) else s
  }

  // ---- the invariant ----

  /** Every server that may have a connection is the current one or retired. */
  predicate Covered(s: State) {
    && s.core.current < |s.servers|
    && (forall i :: i in s.core.retired ==> i < |s.servers|)
    && (forall i :: 0 <= i < |s.servers| ==> s.servers[i].down ==> !s.servers[i].listening)
    && forall i :: 0 <= i < |s.servers| ==> i == s.core.current || i in s.core.retired || Quiet(s.servers[i])
  }

  /** From the snapshot to the handoff: what has been drained is quiet and stays so. */
  predicate DrainInv(s: State) {
    && (s.run.Draining? ==>
          && (forall i :: i in s.run.todo ==> i < |s.servers|)
          && forall i :: i in Snapshot(s.core) && i < |s.servers| ==> i in s.run.todo || Quiet(s.servers[i]))
    && (s.run in {Fencing, Fenced, Flushed, Spawned} ==> forall i :: 0 <= i < |s.servers| ==> Quiet(s.servers[i]))
  }

  /**
   The flush barrier: from the fence to the outcome no reload holds the lock, and
   after the flush nothing was written.
   */
  predicate BarrierInv(s: State) {
    && s.resumed != []
    && (s.run in {Fenced, Flushed, Spawned} ==> s.lock == ByFence(Channel(s)))
    && (s.run in {Flushed, Spawned} ==> !s.dirty)
  }

  /** Fences are taken on ever newer channels, each once, and released only on channels of runs that are over. */
  predicate Ledger(taken: seq<nat>, released: seq<nat>, lock: Lock, channel: nat, fenced: bool) {
    && taken == released + (if lock.ByFence? then [lock.channel] else [])
    && (forall i :: 0 <= i < |taken| ==> taken[i] <= channel)
    && (forall i, j :: 0 <= i < j < |taken| ==> taken[i] < taken[j])
    && (forall i :: 0 <= i < |released| ==> released[i] < channel)
    && (taken != [] && taken[|taken| - 1] == channel ==> fenced)
  }

  /** The current run may have taken its fence. */
  predicate MayBeFenced(run: Run) {
    run in {Fenced, Flushed, Spawned, Finishing} || run.Failing?
  }

  predicate FenceInv(s: State) {
    BarrierInv(s) && Ledger(s.taken, s.released, s.lock, Channel(s), MayBeFenced(s.run))
  }

  /** The flags of the restarter against the run goroutine. */
  predicate FlagInv(s: State) {
    && (s.core.busy <==> s.run != NoRun)
    && (s.core.inHandoff ==> InCommittedRun(s.run))
    && (s.run in {Committed, Duplicated, Fencing, Fenced, Flushed, Spawned} || s.run.Draining? ==> s.core.inHandoff)
    && (s.run in {Duplicated, Fencing, Fenced, Flushed, Spawned} || s.run.Draining? ==> s.listenFile)
    && (s.run in {NoRun, Building, Committed} ==> !s.listenFile)
  }

  /** A server that was shut down is replaced before the handoff is over. */
  predicate SwapInv(s: State) {
    && s.core.current < |s.servers|
    && (s.servers[s.core.current].down ==> s.listenFile && s.core.inHandoff && s.run != Finishing)
    && (s.listenFile && !s.core.inHandoff ==> s.run == NoRun)
    && (s.serveErr == Some(Closed) || s.main == Asking(Closed) || s.main == Checking(Closed) ==> s.servers[0].down)
    && (s.main == Checking(Closed) ==> s.core.current != 0)
  }

  /** Channels are closed at most once, and only those out of use. */
  predicate ChannelInv(s: State) {
    && s.resumed != []
    && (forall i :: 0 <= i < |s.resumed| ==> s.resumed[i] == if i == |s.resumed| - 1 then 0 else 1)
    && (forall w :: w in s.watchers ==> w < |s.closings|)
    && forall w :: 0 <= w < |s.closings| ==> s.closings[w] == if w in s.watchers then 0 else 1
  }

  predicate HasDescriptor(s: State) {
    s.listenFile || s.leftovers > 0 || exists i :: 0 <= i < |s.servers| && s.servers[i].listening
  }

  /** A broken Serve that the main loop has yet to act on. */
  predicate ExitPending(s: State) {
    s.serveErr == Some(Broken) || s.main == Asking(Broken) || s.main == Checking(Broken)
  }

  /** While the process runs, the socket has a descriptor, or its loss is about to end the process, or was swallowed. */
  predicate DescriptorInv(s: State) {
    && s.core.current < |s.servers|
    && (s.servers[s.core.current].listening || s.servers[s.core.current].down || s.core.current == 0)
    && (s.core.current == 0 ==> s.leftovers == 0 && |s.servers| == 1)
    && (s.run == Finishing && s.listenFile ==> s.servers[s.core.current].listening && s.core.current != 0)
    && (s.core.current == 0 && !s.servers[0].listening && !s.servers[0].down && !s.listenFile ==>
          ExitPending(s) != s.swallowed)
    && (s.servers[0].serving ==> !ExitPending(s) && !s.swallowed)
    && (s.swallowed ==> s.core.current == 0 && !s.servers[0].listening && !s.servers[0].down && !s.listenFile)
    && (s.servers[0].listening && !s.servers[0].down ==> s.servers[0].serving)
    && (s.serveErr.Some? || s.main.Asking? || s.main.Checking? ==> !s.servers[0].serving)
    && (s.serveErr.Some? ==> !s.main.Asking? && !s.main.Checking?)
  }

  predicate Inv(s: State) {
    Covered(s) && DrainInv(s) && FenceInv(s) && FlagInv(s) && SwapInv(s) && ChannelInv(s)
    && (s.process == Running ==> DescriptorInv(s))
  }

  // ---- every step keeps the invariant ----

  lemma {:induction false} EarlyKeepsCoverage(s: State, e: EarlyEvent)
    requires EarlyEnabled(s, e) && Covered(s) && DrainInv(s) && FlagInv(s)
    ensures Covered(EarlyNext(s, e))
  {
  }

  lemma {:induction false} ShutdownKeepsDrain(s: State)
    requires EarlyEnabled(s, Shutdown) && Covered(s) && DrainInv(s)
    ensures DrainInv(EarlyNext(s, Shutdown))
  {
    var t := EarlyNext(s, Shutdown);
    assert forall i :: 0 <= i < |s.servers| && Quiet(s.servers[i]) ==> Quiet(t.servers[i]);
  }

  lemma {:induction false} EarlyKeepsDrain(s: State, e: EarlyEvent)
    requires EarlyEnabled(s, e) && Covered(s) && DrainInv(s)
    ensures DrainInv(EarlyNext(s, e))
  {
    if e == Shutdown {
      ShutdownKeepsDrain(s);
    } else {
      assert forall i :: i in Snapshot(s.core) <==> i == s.core.current || i in s.core.retired;
      if e == ShutdownEnds {
        assert forall i :: i in s.run.todo <==> i == s.run.todo[0] || i in s.run.todo[1..];
      }
    }
  }

  lemma {:induction false} EarlyKeepsFlags(s: State, e: EarlyEvent)
    requires EarlyEnabled(s, e) && FlagInv(s)
    ensures FlagInv(EarlyNext(s, e))
  {
  }

  lemma {:induction false} EarlyKeepsSwap(s: State, e: EarlyEvent)
    requires EarlyEnabled(s, e) && SwapInv(s) && FlagInv(s)
    ensures SwapInv(EarlyNext(s, e))
  {
  }

  lemma {:induction false} EarlyKeepsChannels(s: State, e: EarlyEvent)
    requires EarlyEnabled(s, e) && ChannelInv(s)
    ensures ChannelInv(EarlyNext(s, e))
  {
  }

  lemma {:induction false} EarlyKeepsBarrier(s: State, e: EarlyEvent)
    requires EarlyEnabled(s, e) && BarrierInv(s) && FlagInv(s)
    ensures BarrierInv(EarlyNext(s, e))
  {
  }

  lemma {:induction false} LateKeepsCoverage(s: State, e: LateEvent)
    requires LateEnabled(s, e) && Covered(s) && DrainInv(s) && FlagInv(s)
    ensures Covered(LateNext(s, e))
  {
  }

  lemma {:induction false} LateKeepsDrain(s: State, e: LateEvent)
    requires LateEnabled(s, e) && Covered(s) && DrainInv(s)
    ensures DrainInv(LateNext(s, e))
  {
  }

  lemma {:induction false} LateKeepsFlags(s: State, e: LateEvent)
    requires LateEnabled(s, e) && FlagInv(s)
    ensures FlagInv(LateNext(s, e))
  {
  }

  lemma {:induction false} LateKeepsSwap(s: State, e: LateEvent)
    requires LateEnabled(s, e) && SwapInv(s) && FlagInv(s)
    ensures SwapInv(LateNext(s, e))
  {
  }

  lemma {:induction false} LateKeepsChannels(s: State, e: LateEvent)
    requires LateEnabled(s, e) && ChannelInv(s)
    ensures ChannelInv(LateNext(s, e))
  {
  }

  lemma {:induction false} LateKeepsBarrier(s: State, e: LateEvent)
    requires LateEnabled(s, e) && BarrierInv(s) && FlagInv(s)
    ensures BarrierInv(LateNext(s, e))
  {
  }

  lemma {:induction false} EarlyKeepsDescriptor(s: State, e: EarlyEvent)
    requires EarlyEnabled(s, e) && s.process == Running && DescriptorInv(s) && FlagInv(s) && SwapInv(s)
    ensures DescriptorInv(EarlyNext(s, e))
  {
  }

  lemma {:induction false} ResumeKeepsDescriptor(s: State)
    requires LateEnabled(s, Resume) && s.process == Running && DescriptorInv(s) && FlagInv(s) && SwapInv(s)
    ensures DescriptorInv(LateNext(s, Resume))
  {
  }

  lemma {:induction false} LateKeepsDescriptor(s: State, e: LateEvent)
    requires LateEnabled(s, e) && s.process == Running && DescriptorInv(s) && FlagInv(s) && SwapInv(s)
    ensures LateNext(s, e).process == Running ==> DescriptorInv(LateNext(s, e))
  {
    if e == Resume {
      ResumeKeepsDescriptor(s);
    }
  }

  lemma {:induction false} LedgerTakes(taken: seq<nat>, released: seq<nat>, channel: nat)
    requires Ledger(taken, released, Free, channel, false)
    ensures Ledger(taken + [channel], released, ByFence(channel), channel, true)
  {
    var longer := taken + [channel];
    assert taken == released;
    forall i, j | 0 <= i < j < |longer|
      ensures longer[i] < longer[j]
    {
      assert longer[i] == released[i];
      assert j < |taken| ==> longer[j] == taken[j];
    }
  }

  lemma {:induction false} LedgerReleases(taken: seq<nat>, released: seq<nat>, lock: Lock, channel: nat, fenced: bool)
    requires Ledger(taken, released, lock, channel, fenced) && lock.ByFence? && lock.channel < channel
    ensures Ledger(taken, released + [lock.channel], Free, channel, fenced)
  {
    assert taken == released + [lock.channel];
    assert (released + [lock.channel]) + [] == taken;
  }

  lemma {:induction false} LedgerMoves(taken: seq<nat>, released: seq<nat>, lock: Lock, channel: nat, fenced: bool)
    requires Ledger(taken, released, lock, channel, fenced)
    ensures Ledger(taken, released, lock, channel, true)
    ensures Ledger(taken, released, lock, channel + 1, false)
    ensures !lock.ByFence? ==>
      Ledger(taken, released, Free, channel, fenced) && Ledger(taken, released, ByReload, channel, fenced)
  {
  }

  lemma {:induction false} FinishKeepsFence(s: State)
    requires LateEnabled(s, Finish) && FenceInv(s) && FlagInv(s)
    ensures FenceInv(LateNext(s, Finish))
  {
    LedgerMoves(s.taken, s.released, s.lock, Channel(s), MayBeFenced(s.run));
  }

  lemma {:induction false} TakeKeepsFence(s: State)
    requires LateEnabled(s, TakeFence) && FenceInv(s) && FlagInv(s)
    ensures FenceInv(LateNext(s, TakeFence))
  {
    LedgerTakes(s.taken, s.released, Channel(s));
  }

  /** All other steps of a run leave the lock and the channels alone and do not forget the fence. */
  predicate KeepsFence(s: State, t: State) {
    && t.taken == s.taken && t.released == s.released && t.lock == s.lock && t.resumed == s.resumed
    && (MayBeFenced(s.run) ==> MayBeFenced(t.run))
  }

  lemma {:induction false} EarlyStepsKeepFence(s: State, e: EarlyEvent)
    requires EarlyEnabled(s, e)
    ensures KeepsFence(s, EarlyNext(s, e))
  {
  }

  lemma {:induction false} LateStepsKeepFence(s: State, e: LateEvent)
    requires LateEnabled(s, e) && e != Finish && e != TakeFence
    ensures KeepsFence(s, LateNext(s, e))
  {
  }

  lemma {:induction false} FenceKept(s: State, t: State)
    requires FenceInv(s) && BarrierInv(t) && KeepsFence(s, t)
    ensures FenceInv(t)
  {
  }

  lemma {:induction false} EarlyKeepsFence(s: State, e: EarlyEvent)
    requires EarlyEnabled(s, e) && FenceInv(s) && FlagInv(s)
    ensures FenceInv(EarlyNext(s, e))
  {
    EarlyStepsKeepFence(s, e);
    EarlyKeepsBarrier(s, e);
    FenceKept(s, EarlyNext(s, e));
  }

  lemma {:induction false} LateKeepsFence(s: State, e: LateEvent)
    requires LateEnabled(s, e) && FenceInv(s) && FlagInv(s)
    ensures FenceInv(LateNext(s, e))
  {
    if e == Finish {
      FinishKeepsFence(s);
    } else if e == TakeFence {
      TakeKeepsFence(s);
    } else {
      LateStepsKeepFence(s, e);
      LateKeepsBarrier(s, e);
      FenceKept(s, LateNext(s, e));
    }
  }

  /** A step that leaves the run, the lock and the channels alone, and writes only when no drain is over. */
  lemma {:induction false} SameFence(s: State, t: State)
    requires FenceInv(s)
    requires t.resumed == s.resumed && t.run == s.run && t.lock == s.lock && t.taken == s.taken
      && t.released == s.released
    requires s.run in {Flushed, Spawned} ==> t.dirty == s.dirty
    ensures FenceInv(t)
  {
  }

  lemma {:induction false} ServerKeepsFence(s: State, e: ServerEvent)
    requires ServerEnabled(s, e) && DrainInv(s) && FenceInv(s)
    ensures FenceInv(ServerNext(s, e))
  {
    SameFence(s, ServerNext(s, e));
  }

  lemma {:induction false} LockKeepsFence(s: State, e: LockEvent)
    requires LockEnabled(s, e) && FenceInv(s) && ChannelInv(s)
    ensures FenceInv(LockNext(s, e))
  {
    if e == FenceReleases {
      LedgerReleases(s.taken, s.released, s.lock, Channel(s), MayBeFenced(s.run));
    } else {
      LedgerMoves(s.taken, s.released, s.lock, Channel(s), MayBeFenced(s.run));
    }
  }

  lemma {:induction false} WatchKeepsRest(s: State, e: WatchEvent)
    requires WatchEnabled(s, e) && Covered(s) && DrainInv(s) && FenceInv(s) && FlagInv(s) && SwapInv(s)
    ensures var t := WatchNext(s, e); Covered(t) && DrainInv(t) && FenceInv(t) && FlagInv(t) && SwapInv(t)
  {
    SameFence(s, WatchNext(s, e));
    SameServers(s, WatchNext(s, e));
  }

  lemma {:induction false} MainLeavesFence(s: State, e: MainEvent)
    requires MainEnabled(s, e)
    ensures var t := MainNext(s, e);
            && t.resumed == s.resumed && t.run == s.run && t.lock == s.lock && t.taken == s.taken
            && t.released == s.released && t.dirty == s.dirty
  {
  }

  lemma {:induction false} MainKeepsFence(s: State, e: MainEvent)
    requires MainEnabled(s, e) && FenceInv(s)
    ensures FenceInv(MainNext(s, e))
  {
    MainLeavesFence(s, e);
    SameFence(s, MainNext(s, e));
  }

  lemma {:induction false} MainKeepsFlags(s: State, e: MainEvent)
    requires MainEnabled(s, e) && FlagInv(s) && ChannelInv(s)
    ensures FlagInv(MainNext(s, e)) && ChannelInv(MainNext(s, e))
  {
  }

  lemma {:induction false} SameServers(s: State, t: State)
    requires Covered(s) && DrainInv(s)
    requires t.servers == s.servers && t.core == s.core && t.run == s.run
    ensures Covered(t) && DrainInv(t)
  {
  }

  lemma {:induction false} MainKeepsServers(s: State, e: MainEvent)
    requires MainEnabled(s, e) && Covered(s) && DrainInv(s)
    ensures Covered(MainNext(s, e)) && DrainInv(MainNext(s, e))
  {
    SameServers(s, MainNext(s, e));
  }

  lemma {:induction false} ServerKeepsCoverage(s: State, e: ServerEvent)
    requires ServerEnabled(s, e) && Covered(s)
    ensures Covered(ServerNext(s, e))
  {
  }

  lemma {:induction false} ServerKeepsDrain(s: State, e: ServerEvent)
    requires ServerEnabled(s, e) && Covered(s) && DrainInv(s)
    ensures DrainInv(ServerNext(s, e))
  {
  }

  lemma {:induction false} ServerKeepsFlags(s: State, e: ServerEvent)
    requires ServerEnabled(s, e) && FlagInv(s) && SwapInv(s)
    ensures FlagInv(ServerNext(s, e)) && SwapInv(ServerNext(s, e))
  {
  }

  lemma {:induction false} ServerKeepsChannels(s: State, e: ServerEvent)
    requires ServerEnabled(s, e) && ChannelInv(s)
    ensures ChannelInv(ServerNext(s, e))
  {
  }

  lemma {:induction false} ServerKeepsDescriptor(s: State, e: ServerEvent)
    requires ServerEnabled(s, e) && s.process == Running && DescriptorInv(s) && SwapInv(s)
    ensures ServerNext(s, e).process == Running ==> DescriptorInv(ServerNext(s, e))
  {
  }

  lemma {:induction false} LockKeepsRest(s: State, e: LockEvent)
    requires LockEnabled(s, e) && Covered(s) && DrainInv(s) && FlagInv(s) && SwapInv(s) && ChannelInv(s)
    ensures var t := LockNext(s, e); Covered(t) && DrainInv(t) && FlagInv(t) && SwapInv(t) && ChannelInv(t)
  {
    SameServers(s, LockNext(s, e));
  }

  lemma {:induction false} WatchKeepsChannels(s: State, e: WatchEvent)
    requires WatchEnabled(s, e) && ChannelInv(s)
    ensures ChannelInv(WatchNext(s, e))
  {
  }

  lemma {:induction false} MainKeepsSwap(s: State, e: MainEvent)
    requires MainEnabled(s, e) && SwapInv(s)
    ensures SwapInv(MainNext(s, e))
  {
  }

  lemma {:induction false} MainKeepsDescriptor(s: State, e: MainEvent)
    requires MainEnabled(s, e) && s.process == Running && DescriptorInv(s) && FlagInv(s) && SwapInv(s)
    ensures MainNext(s, e).process == Running ==> DescriptorInv(MainNext(s, e))
  {
  }

  lemma {:induction false} OthersKeepDescriptor(s: State, l: LockEvent, w: WatchEvent)
    requires s.process == Running && DescriptorInv(s)
    ensures LockEnabled(s, l) ==> DescriptorInv(LockNext(s, l))
    ensures WatchEnabled(s, w) ==> DescriptorInv(WatchNext(s, w))
  {
  }

  /** Every step of every party keeps the invariant. */
  lemma {:induction false} StepKeepsInv(s: State, e: Event)
    requires Enabled(s, e) && Inv(s)
    ensures Inv(Next(s, e))
  {
    match e
    case EarlyStep(r) =>
      EarlyKeepsCoverage(s, r);
      EarlyKeepsDrain(s, r);
      EarlyKeepsFence(s, r);
      EarlyKeepsFlags(s, r);
      EarlyKeepsSwap(s, r);
      EarlyKeepsChannels(s, r);
      EarlyKeepsDescriptor(s, r);
    case LateStep(f) =>
      LateKeepsCoverage(s, f);
      LateKeepsDrain(s, f);
      LateKeepsFence(s, f);
      LateKeepsFlags(s, f);
      LateKeepsSwap(s, f);
      LateKeepsChannels(s, f);
      LateKeepsDescriptor(s, f);
    case ServerStep(v) =>
      ServerKeepsCoverage(s, v);
      ServerKeepsDrain(s, v);
      ServerKeepsFence(s, v);
      ServerKeepsFlags(s, v);
      ServerKeepsChannels(s, v);
      ServerKeepsDescriptor(s, v);
    case LockStep(l) =>
      LockKeepsFence(s, l);
      LockKeepsRest(s, l);
      OthersKeepDescriptor(s, l, AddWatcher);
    case WatchStep(w) =>
      WatchKeepsChannels(s, w);
      WatchKeepsRest(s, w);
      OthersKeepDescriptor(s, ReloadStarts, w);
    case MainStep(m) =>
      MainKeepsSwap(s, m);
      MainKeepsFence(s, m);
      MainKeepsFlags(s, m);
      MainKeepsServers(s, m);
      MainKeepsDescriptor(s, m);
  }

  lemma {:induction false} InvAlways(events: seq<Event>)
    ensures Inv(Exec(events))
  {
    if events != [] {
      var s := Exec(events[..|events| - 1]);
      InvAlways(events[..|events| - 1]);
      if Enabled(s, events[|events| - 1]) {
        StepKeepsInv(s, events[|events| - 1]);
      }
    }
  }

  // ---- over every run, with any number of failed restarts ----

  /** A server that may still run a handler is the current one or retired, so the next drain waits for it. */
  lemma {:induction false} ConnectionsAreCovered(events: seq<Event>, i: nat)
    requires i < |Exec(events).servers| && Exec(events).servers[i].conns > 0
    ensures i in Snapshot(Exec(events).core)
  {
    InvAlways(events);
  }

  /** A child is spawned, and takes over, only when every handler has ended and all they wrote is flushed. */
  lemma {:induction false} SpawnIsQuiet(events: seq<Event>, e: LateEvent)
    requires e == Spawn || e == ChildReady
    requires Enabled(Exec(events), LateStep(e))
    ensures var s := Exec(events);
            && (forall i :: 0 <= i < |s.servers| ==> s.servers[i].down && s.servers[i].conns == 0)
            && !s.dirty
            && s.resumed != [] && s.lock == ByFence(Channel(s))
  {
    InvAlways(events);
    FlushedIsQuiet(Exec(events));
  }

  lemma {:induction false} FlushedIsQuiet(s: State)
    requires s.run in {Flushed, Spawned} && DrainInv(s) && FenceInv(s)
    ensures forall i :: 0 <= i < |s.servers| ==> s.servers[i].down && s.servers[i].conns == 0
    ensures !s.dirty && s.resumed != [] && s.lock == ByFence(Channel(s))
  {
    assert forall i :: 0 <= i < |s.servers| ==> Quiet(s.servers[i]);
  }

  /** The current run has taken its fence; it may be failing already. */
  predicate FencedRun(s: State) {
    s.resumed != [] && s.taken != [] && s.taken[|s.taken| - 1] == Channel(s)
  }

  /**
   From the fence to the end of the run, its failing and resuming included, no
   reload starts, writes or ends, and the fence is not released.
   */
  lemma {:induction false} NoReloadBehindBarrier(events: seq<Event>, l: LockEvent)
    requires Exec(events).run in {Fenced, Flushed, Spawned} || FencedRun(Exec(events))
    ensures !Enabled(Exec(events), LockStep(l))
    ensures FencedRun(Exec(events)) && Exec(events).lock == ByFence(Channel(Exec(events)))
  {
    InvAlways(events);
  }

  /**
   Every fence but the held one was released exactly once, each on the resume
   channel of a run of its own that had failed by then.
   */
  lemma {:induction false} FencesAreReleasedOnce(events: seq<Event>)
    ensures var s := Exec(events);
            && s.resumed != []
            && s.taken == s.released + (if s.lock.ByFence? then [s.lock.channel] else [])
            && (forall i, j :: 0 <= i < j < |s.taken| ==> s.taken[i] < s.taken[j])
            && forall i :: 0 <= i < |s.released| ==> s.released[i] < Channel(s) && s.resumed[s.released[i]] == 1
  {
    InvAlways(events);
  }

  /** Every channel is closed once when it goes out of use, never twice, and what is published to is open. */
  lemma {:induction false} ChannelsCloseOnce(events: seq<Event>)
    ensures var s := Exec(events);
            && (forall i :: 0 <= i < |s.resumed| ==> s.resumed[i] == if i == |s.resumed| - 1 then 0 else 1)
            && (forall w :: 0 <= w < |s.closings| ==> s.closings[w] == if w in s.watchers then 0 else 1)
            && forall w :: w in s.watchers ==> w < |s.closings|
  {
    InvAlways(events);
  }

  /** The Serve that a handoff shut down never ends the main loop, during the handoff or after it failed. */
  lemma {:induction false} ShutdownNeverEndsMain(events: seq<Event>)
    ensures Exec(events).process != ExitedOn(Closed)
  {
    if events != [] {
      var s, e := Exec(events[..|events| - 1]), events[|events| - 1];
      ShutdownNeverEndsMain(events[..|events| - 1]);
      InvAlways(events[..|events| - 1]);
      if Enabled(s, e) {
        StepNeverEndsMain(s, e);
      }
    }
  }

  lemma {:induction false} OnlyMainChecksEnd(s: State, r: EarlyEvent, f: LateEvent, v: ServerEvent)
    requires s.process == Running
    ensures EarlyEnabled(s, r) ==> !EarlyNext(s, r).process.ExitedOn?
    ensures LateEnabled(s, f) ==> !LateNext(s, f).process.ExitedOn?
    ensures ServerEnabled(s, v) ==> !ServerNext(s, v).process.ExitedOn?
  {
  }

  lemma {:induction false} MainEndsOnBroken(s: State, m: MainEvent)
    requires s.process == Running && MainEnabled(s, m) && SwapInv(s)
    ensures MainNext(s, m).process != ExitedOn(Closed)
  {
  }

  lemma {:induction false} StepNeverEndsMain(s: State, e: Event)
    requires Enabled(s, e) && SwapInv(s)
    ensures Next(s, e).process != ExitedOn(Closed)
  {
    match e
    case EarlyStep(r) => OnlyMainChecksEnd(s, r, Spawn, Accept(0));
    case LateStep(f) => OnlyMainChecksEnd(s, Request, f, Accept(0));
    case ServerStep(v) => OnlyMainChecksEnd(s, Request, Spawn, v);
    case MainStep(m) => MainEndsOnBroken(s, m);
    case LockStep(_) =>
    case WatchStep(_) =>
  }

  // ---- the listening socket, by what happened ----

  /** The socket was duplicated once. */
  predicate Duplicates(events: seq<Event>) {
    if events == [] then false
    else
      var front, last := events[..|events| - 1], events[|events| - 1];
      Duplicates(front) || (last == EarlyStep(DupSucceeds) && Enabled(Exec(front), last))
  }

  /**
   The main loop ignored that the first server's Serve had broken: it had read
   that, found a handoff committed, and the socket had never been duplicated.
   */
  predicate IgnoresBreak(events: seq<Event>) {
    if events == [] then false
    else
      var front, last := events[..|events| - 1], events[|events| - 1];
      || IgnoresBreak(front)
      || (last == MainStep(MainAsks) && Enabled(Exec(front), last)
          && Exec(front).main == Asking(Broken) && Exec(front).core.inHandoff && !Duplicates(front))
  }

  /** The socket is on a duplicate, or on a server that listens on one. */
  predicate OnDuplicate(s: State) {
    s.listenFile || s.core.current != 0
  }

  lemma {:induction false} RunAndDuplicate(s: State, r: EarlyEvent, f: LateEvent)
    requires s.process == Running && DescriptorInv(s) && FlagInv(s)
    ensures EarlyEnabled(s, r) ==>
              && (OnDuplicate(EarlyNext(s, r)) <==> OnDuplicate(s) || r == DupSucceeds)
              && EarlyNext(s, r).swallowed == s.swallowed
    ensures LateEnabled(s, f) ==>
      OnDuplicate(LateNext(s, f)) == OnDuplicate(s) && LateNext(s, f).swallowed == s.swallowed
  {
  }

  lemma {:induction false} ServerAndDuplicate(s: State, v: ServerEvent)
    ensures ServerEnabled(s, v) ==>
              OnDuplicate(ServerNext(s, v)) == OnDuplicate(s) && ServerNext(s, v).swallowed == s.swallowed
  {
  }

  lemma {:induction false} OthersAndDuplicate(s: State, l: LockEvent, w: WatchEvent, m: MainEvent)
    ensures LockEnabled(s, l) ==>
      OnDuplicate(LockNext(s, l)) == OnDuplicate(s) && LockNext(s, l).swallowed == s.swallowed
    ensures WatchEnabled(s, w) ==>
      OnDuplicate(WatchNext(s, w)) == OnDuplicate(s) && WatchNext(s, w).swallowed == s.swallowed
    ensures MainEnabled(s, m) ==>
              && OnDuplicate(MainNext(s, m)) == OnDuplicate(s)
              && (MainNext(s, m).swallowed <==>
                    || s.swallowed
                    || (m == MainAsks && s.main == Asking(Broken) && s.core.inHandoff && !OnDuplicate(s)))
  {
  }

  /** What the two recorded facts mean, in every interleaving. */
  lemma {:induction false} SwallowedIff(events: seq<Event>)
    ensures OnDuplicate(Exec(events)) <==> Duplicates(events)
    ensures Exec(events).swallowed <==> IgnoresBreak(events)
  {
    if events != [] {
      var front, e := events[..|events| - 1], events[|events| - 1];
      var s := Exec(front);
      SwallowedIff(front);
      InvAlways(front);
      if Enabled(s, e) {
        match e
        case EarlyStep(r) => RunAndDuplicate(s, r, Spawn);
        case LateStep(f) => RunAndDuplicate(s, Request, f);
        case ServerStep(v) => ServerAndDuplicate(s, v);
        case LockStep(l) => OthersAndDuplicate(s, l, AddWatcher, Signal);
        case WatchStep(w) => OthersAndDuplicate(s, ReloadStarts, w, Signal);
        case MainStep(m) => OthersAndDuplicate(s, ReloadStarts, AddWatcher, m);
      }
    }
  }

  /**
   While the process runs, the socket keeps an open descriptor, or its loss is
   about to end the process, exactly as long as the main loop has not ignored a
   broken Serve before the socket was duplicated.
   */
  lemma {:induction false} SocketIsKeptUnlessSwallowed(events: seq<Event>)
    requires Exec(events).process == Running
    ensures HasDescriptor(Exec(events)) || ExitPending(Exec(events)) <==> !IgnoresBreak(events)
  {
    InvAlways(events);
    SwallowedIff(events);
  }

  /** If accepting never fails on its own, the socket keeps an open descriptor in every interleaving. */
  lemma {:induction false} SocketIsKept(events: seq<Event>)
    requires ServerStep(ServeBreaks(0)) !in events && Exec(events).process == Running
    ensures HasDescriptor(Exec(events))
  {
    NothingBroke(events);
    InvAlways(events);
  }

  lemma {:induction false} NothingBroke(events: seq<Event>)
    requires ServerStep(ServeBreaks(0)) !in events
    ensures !ExitPending(Exec(events)) && !Exec(events).swallowed
  {
    if events != [] {
      var s, e := Exec(events[..|events| - 1]), events[|events| - 1];
      NothingBroke(events[..|events| - 1]);
      assert e in events;
      if Enabled(s, e) {
        StepBreaksNothing(s, e);
      }
    }
  }

  lemma {:induction false} RunBreaksNothing(s: State, r: EarlyEvent, f: LateEvent)
    requires !ExitPending(s) && !s.swallowed
    ensures EarlyEnabled(s, r) ==> !ExitPending(EarlyNext(s, r)) && !EarlyNext(s, r).swallowed
    ensures LateEnabled(s, f) ==> !ExitPending(LateNext(s, f)) && !LateNext(s, f).swallowed
  {
  }

  lemma {:induction false} OthersBreakNothing(s: State, v: ServerEvent, l: LockEvent, w: WatchEvent, m: MainEvent)
    requires !ExitPending(s) && !s.swallowed && v != ServeBreaks(0)
    ensures ServerEnabled(s, v) ==> !ExitPending(ServerNext(s, v)) && !ServerNext(s, v).swallowed
    ensures LockEnabled(s, l) ==> !ExitPending(LockNext(s, l)) && !LockNext(s, l).swallowed
    ensures WatchEnabled(s, w) ==> !ExitPending(WatchNext(s, w)) && !WatchNext(s, w).swallowed
    ensures MainEnabled(s, m) ==> !ExitPending(MainNext(s, m)) && !MainNext(s, m).swallowed
  {
  }

  lemma {:induction false} StepBreaksNothing(s: State, e: Event)
    requires Enabled(s, e) && !ExitPending(s) && !s.swallowed && e != ServerStep(ServeBreaks(0))
    ensures !ExitPending(Next(s, e)) && !Next(s, e).swallowed
  {
    match e
    case EarlyStep(r) => RunBreaksNothing(s, r, Spawn);
    case LateStep(f) => RunBreaksNothing(s, Request, f);
    case ServerStep(v) => OthersBreakNothing(s, v, ReloadStarts, AddWatcher, Signal);
    case LockStep(l) => OthersBreakNothing(s, Accept(0), l, AddWatcher, Signal);
    case WatchStep(w) => OthersBreakNothing(s, Accept(0), ReloadStarts, w, Signal);
    case MainStep(m) => OthersBreakNothing(s, Accept(0), ReloadStarts, AddWatcher, m);
  }

  /** A run of the swallowed kind: afterwards the process idles without a listening socket. */
  const SWALLOWING := [EarlyStep(Request), EarlyStep(Commit), ServerStep(ServeBreaks(0)), MainStep(MainReads),
                       MainStep(MainAsks), EarlyStep(DupFails), LateStep(Resume), LateStep(Finish)]

  lemma {:induction false} ExecSnoc(events: seq<Event>, e: Event)
    requires Enabled(Exec(events), e)
    ensures Exec(events + [e]) == Next(Exec(events), e)
  {
    assert (events + [e])[..|events|] == events;
  }

  /** The state in which the main loop has just ignored the broken Serve. */
  const IGNORED := INITIAL.(core := Core(true, true, 0, []), servers := [Server(false, false, 0, false)],
                            run := Committed, swallowed := true)

  lemma {:induction false} BrokenServeIsIgnored()
    ensures Exec(SWALLOWING[..5]) == IGNORED
  {
    var a, b := SWALLOWING[0], SWALLOWING[1];
    assert [] + [a] == SWALLOWING[..1] && SWALLOWING[..1] + [b] == SWALLOWING[..2];
    ExecSnoc([], a);
    ExecSnoc(SWALLOWING[..1], b);
    var committed := INITIAL.(core := Core(true, true, 0, []), run := Committed);
    assert Exec(SWALLOWING[..2]) == committed;
    BreakIsIgnored(committed);
  }

  lemma {:induction false} BreakIsIgnored(committed: State)
    requires committed == INITIAL.(core := Core(true, true, 0, []), run := Committed)
    requires Exec(SWALLOWING[..2]) == committed
    ensures Exec(SWALLOWING[..5]) == IGNORED
  {
    var c, d, e := SWALLOWING[2], SWALLOWING[3], SWALLOWING[4];
    assert SWALLOWING[..2] + [c] == SWALLOWING[..3] && SWALLOWING[..3] + [d] == SWALLOWING[..4];
    assert SWALLOWING[..4] + [e] == SWALLOWING[..5];
    ExecSnoc(SWALLOWING[..2], c);
    ExecSnoc(SWALLOWING[..3], d);
    assert Exec(SWALLOWING[..4]) == IGNORED.(swallowed := false, main := Asking(Broken));
    ExecSnoc(SWALLOWING[..4], e);
  }

  lemma {:induction false} FailureIsFinished()
    ensures Exec(SWALLOWING[..7]) == IGNORED.(run := Finishing)
  {
    BrokenServeIsIgnored();
    var f, g := SWALLOWING[5], SWALLOWING[6];
    assert SWALLOWING[..5] + [f] == SWALLOWING[..6] && SWALLOWING[..6] + [g] == SWALLOWING[..7];
    ExecSnoc(SWALLOWING[..5], f);
    assert Exec(SWALLOWING[..6]) == IGNORED.(run := Failing(false));
    ExecSnoc(SWALLOWING[..6], g);
  }

  lemma {:induction false} SocketCanBeLost()
    ensures var s := Exec(SWALLOWING);
            s.process == Running && s.run == NoRun && !HasDescriptor(s) && !ExitPending(s)
  {
    FailureIsFinished();
    var h := SWALLOWING[7];
    assert SWALLOWING[..7] + [h] == SWALLOWING;
    ExecSnoc(SWALLOWING[..7], h);
  }

  // ---- what the steps of a run lead to ----

  /** A step at which a run fails: after it the run has to fail over. */
  predicate IsFailure(s: State, e: Event) {
    || e == EarlyStep(DupFails) || e == EarlyStep(ShutdownFails)
    || e == LateStep(FlushFails) || e == LateStep(SpawnFails) || e == LateStep(ChildFails)
    || (e == LateStep(Panic) && s.run != Failing(true))
  }

  /** The child took over. */
  predicate HandsOver(events: seq<Event>) {
    if events == [] then false
    else
      var front, last := events[..|events| - 1], events[|events| - 1];
      HandsOver(front) || (last == LateStep(ChildReady) && Enabled(Exec(front), last))
  }

  lemma {:induction false} RunHandsOver(s: State, r: EarlyEvent, f: LateEvent)
    requires s.process == Running
    ensures EarlyEnabled(s, r) ==> EarlyNext(s, r).process != HandedOff
    ensures LateEnabled(s, f) ==> (LateNext(s, f).process == HandedOff <==> f == ChildReady)
  {
  }

  lemma {:induction false} OthersHandNothingOver(s: State, e: Event)
    requires Enabled(s, e) && !e.EarlyStep? && !e.LateStep?
    ensures Next(s, e).process != HandedOff
  {
  }

  /** The process exits as handed over exactly when its child reported ready. */
  lemma {:induction false} HandedOffIff(events: seq<Event>)
    ensures Exec(events).process == HandedOff <==> HandsOver(events)
  {
    if events != [] {
      var front, e := events[..|events| - 1], events[|events| - 1];
      var s := Exec(front);
      HandedOffIff(front);
      if Enabled(s, e) {
        match e
        case EarlyStep(r) => RunHandsOver(s, r, Spawn);
        case LateStep(f) => RunHandsOver(s, Request, f);
        case _ => OthersHandNothingOver(s, e);
      }
    }
  }

  /** Nothing is assumed to go well: every step of a run can fail, and nearly every one can panic. */
  lemma {:induction false} EveryStepCanFail(s: State)
    requires s.process == Running
    ensures s.run == Building ==> Enabled(s, EarlyStep(BuildFails))
    ensures s.run == Committed ==> Enabled(s, EarlyStep(DupFails))
    ensures s.run.Draining? && s.run.todo != [] && s.run.todo[0] < |s.servers| && s.servers[s.run.todo[0]].down ==>
              Enabled(s, EarlyStep(ShutdownFails))
    ensures s.run == Fenced ==> Enabled(s, LateStep(FlushFails))
    ensures s.run == Flushed ==> Enabled(s, LateStep(SpawnFails))
    ensures s.run == Spawned ==> Enabled(s, LateStep(ChildFails))
    ensures s.run.Failing? && s.listenFile ==> Enabled(s, LateStep(ResumeFails))
    ensures s.run !in {NoRun, Fencing, Finishing} ==> Enabled(s, LateStep(Panic))
    ensures forall i: nat :: i < |s.servers| && s.servers[i].listening && !s.servers[i].down && s.servers[i].serving ==>
              Enabled(s, ServerStep(Accept(i))) && Enabled(s, ServerStep(ServeBreaks(i)))
    ensures s.lock == Free ==> Enabled(s, LockStep(ReloadStarts))
  {
  }

  lemma {:induction false} FailureFailsOver(s: State, e: Event)
    requires Enabled(s, e) && IsFailure(s, e)
    ensures var t := Next(s, e);
            && t.process == Running && t.run.Failing? && Enabled(t, LateStep(Resume))
            && t.core == s.core && t.servers == s.servers && t.listenFile == s.listenFile && t.lock == s.lock
  {
  }

  /** Whatever fails in a run, the process goes on and the run fails over with everything it held. */
  lemma {:induction false} FailuresFailOver(events: seq<Event>, e: Event)
    requires Enabled(Exec(events), e) && IsFailure(Exec(events), e)
    ensures var s, t := Exec(events), Exec(events + [e]);
            && t.process == Running && t.run.Failing? && Enabled(t, LateStep(Resume))
            && t.core == s.core && t.servers == s.servers && t.listenFile == s.listenFile && t.lock == s.lock
  {
    ExecSnoc(events, e);
    FailureFailsOver(Exec(events), e);
  }

  /** A failed run serves again on the duplicate, if there is one; the server it replaces is retired. */
  predicate ServesAgain(s: State, t: State) {
    if s.listenFile then
      && t.core.current == |s.servers| && t.core.retired == s.core.retired + [s.core.current]
      && t.servers == s.servers + [Server(true, false, 0, true)]
    else t.core.current == s.core.current && t.core.retired == s.core.retired && t.servers == s.servers
  }

  /** The state at rest after a failed run: a new run may be requested, its watchers and waiters were released. */
  predicate AtRest(s: State, t: State)
    requires s.resumed != []
  {
    && t.process == Running && t.run == NoRun && !t.core.busy && !t.core.inHandoff
    && t.watchers == {} && t.closings == CloseAll(s.closings, s.watchers)
    && t.resumed == Bump(s.resumed, Channel(s)) + [0]
    && t.lock == s.lock
  }

  lemma {:induction false} FinishRests(s: State)
    requires Enabled(s, LateStep(Finish)) && Inv(s)
    ensures var t := Next(s, LateStep(Finish));
            && AtRest(s, t) && t.servers == s.servers && t.core.current == s.core.current
            && t.core.retired == s.core.retired
            && Enabled(t, EarlyStep(Request))
            && (t.lock.ByFence? ==>
                  Enabled(t, LockStep(FenceReleases)) && Next(t, LockStep(FenceReleases)).lock == Free)
  {
    var t := Next(s, LateStep(Finish));
    assert t.lock.ByFence? ==> t.lock.channel <= Channel(s) by {
      if s.lock.ByFence? {
        assert s.taken[|s.taken| - 1] == s.lock.channel;
      }
    }
  }

  /**
   A failing run always gets to its end: it serves again, on the duplicate where
   the socket was duplicated, and comes to rest, after which a fence it held can be
   released and a new run can start.
   */
  lemma {:induction false} FailoverEnds(events: seq<Event>)
    requires Exec(events).process == Running && Exec(events).run.Failing?
    ensures var s, t := Exec(events), Exec(events + [LateStep(Resume)] + [LateStep(Finish)]);
            && s.resumed != [] && AtRest(s, t) && ServesAgain(s, t)
            && (s.listenFile ==> t.core.current < |t.servers| && t.servers[t.core.current].listening)
            && Enabled(t, EarlyStep(Request))
            && (t.lock.ByFence? ==>
                  Enabled(t, LockStep(FenceReleases)) && Next(t, LockStep(FenceReleases)).lock == Free)
  {
    var s := Exec(events);
    InvAlways(events);
    ExecSnoc(events, LateStep(Resume));
    var mid := Exec(events + [LateStep(Resume)]);
    InvAlways(events + [LateStep(Resume)]);
    ExecSnoc(events + [LateStep(Resume)], LateStep(Finish));
    FinishRests(mid);
  }

  /** A failed build ends its run without touching a server. */
  lemma {:induction false} FailedBuildEnds(events: seq<Event>)
    requires Enabled(Exec(events), EarlyStep(BuildFails))
    ensures var s, t := Exec(events), Exec(events + [EarlyStep(BuildFails)] + [LateStep(Finish)]);
            && s.resumed != [] && AtRest(s, t) && t.servers == s.servers
            && t.core.current == s.core.current && t.core.retired == s.core.retired
  {
    InvAlways(events);
    ExecSnoc(events, EarlyStep(BuildFails));
    InvAlways(events + [EarlyStep(BuildFails)]);
    ExecSnoc(events + [EarlyStep(BuildFails)], LateStep(Finish));
    FinishRests(Exec(events + [EarlyStep(BuildFails)]));
  }

  /** A step that the run goroutine can take next. */
  function OwnStep(s: State): Event {
    match s.run
    case NoRun => EarlyStep(Request)
    case Building => EarlyStep(Commit)
    case Committed => EarlyStep(DupFails)
    case Duplicated => EarlyStep(StartDrain)
    case Draining(todo) =>
      EarlyStep(if todo == [] then DrainEnds
                else if todo[0] < |s.servers| && s.servers[todo[0]].down then ShutdownFails else Shutdown)
    case Fencing => LateStep(TakeFence)
    case Fenced => LateStep(FlushSucceeds)
    case Flushed => LateStep(Spawn)
    case Spawned => LateStep(ChildReady)
    case Failing(_) => LateStep(Resume)
    case Finishing => LateStep(Finish)
  }

  lemma {:induction false} OwnStepIsEnabled(s: State)
    requires s.process == Running && s.run != Fencing && FlagInv(s) && DrainInv(s) && s.resumed != []
    ensures Enabled(s, OwnStep(s))
  {
    if s.run.Draining? && s.run.todo != [] {
      assert s.run.todo[0] in s.run.todo;
    }
  }

  lemma {:induction false} LockCanBeFreed(s: State)
    requires s.process == Running && s.run == Fencing && FenceInv(s) && ChannelInv(s) && s.lock != Free
    ensures Enabled(s, LockStep(ReloadEnds)) || Enabled(s, LockStep(FenceReleases))
  {
    if s.lock.ByFence? {
      assert s.taken[|s.taken| - 1] == s.lock.channel;
    }
  }

  /**
   A run can always take a step of its own, unless it waits for the reload lock;
   then whoever holds that can let go.
   */
  lemma {:induction false} RunsDoNotStick(events: seq<Event>)
    requires Exec(events).process == Running
    ensures var s := Exec(events);
            || Enabled(s, OwnStep(s))
            || (s.run == Fencing && (Enabled(s, LockStep(ReloadEnds)) || Enabled(s, LockStep(FenceReleases))))
  {
    InvAlways(events);
    if Exec(events).run != Fencing {
      OwnStepIsEnabled(Exec(events));
    } else if Exec(events).lock != Free {
      LockCanBeFreed(Exec(events));
    }
  }

  // ---- what the flags record ----

  /** Something was written after the last flush. */
  predicate Unflushed(events: seq<Event>) {
    if events == [] then false
    else
      var front, last := events[..|events| - 1], events[|events| - 1];
      if !Enabled(Exec(front), last) then Unflushed(front)
      else if last == LateStep(FlushSucceeds) then false
      else Unflushed(front) || last == LockStep(ReloadWrites) || (last.ServerStep? && last.v.HandlerWrites?)
  }

  /** Accepted connections of a server, less those that ended. */
  function OpenConnections(events: seq<Event>, i: nat): int {
    if events == [] then 0
    else
      var front, last := events[..|events| - 1], events[|events| - 1];
      OpenConnections(front, i)
      + (if !Enabled(Exec(front), last) then 0
         else if last == ServerStep(Accept(i)) then 1 else if last == ServerStep(ConnEnds(i)) then -1 else 0)
  }

  lemma {:induction false} RunRecords(s: State, r: EarlyEvent, f: LateEvent, i: nat)
    requires s.process == Running && i < |s.servers|
    ensures EarlyEnabled(s, r) ==>
              && EarlyNext(s, r).dirty == s.dirty && i < |EarlyNext(s, r).servers|
              && EarlyNext(s, r).servers[i].conns == s.servers[i].conns
    ensures LateEnabled(s, f) ==>
              && LateNext(s, f).dirty == (s.dirty && f != FlushSucceeds) && i < |LateNext(s, f).servers|
              && LateNext(s, f).servers[i].conns == s.servers[i].conns
  {
  }

  lemma {:induction false} ServerRecords(s: State, v: ServerEvent, i: nat)
    requires ServerEnabled(s, v) && i < |s.servers|
    ensures ServerNext(s, v).dirty == (s.dirty || v.HandlerWrites?)
    ensures |ServerNext(s, v).servers| == |s.servers|
    ensures ServerNext(s, v).servers[i].conns
            == s.servers[i].conns + if v == Accept(i) then 1 else if v == ConnEnds(i) then -1 else 0
  {
  }

  lemma {:induction false} LockRecords(s: State, l: LockEvent)
    requires LockEnabled(s, l)
    ensures LockNext(s, l).dirty == (s.dirty || l == ReloadWrites) && LockNext(s, l).servers == s.servers
  {
  }

  lemma {:induction false} OthersRecord(s: State, w: WatchEvent, m: MainEvent)
    ensures WatchEnabled(s, w) ==> WatchNext(s, w).dirty == s.dirty && WatchNext(s, w).servers == s.servers
    ensures MainEnabled(s, m) ==> MainNext(s, m).dirty == s.dirty && MainNext(s, m).servers == s.servers
  {
  }

  lemma {:induction false} NewServerIsEmpty(s: State, r: EarlyEvent, f: LateEvent, i: nat)
    requires s.process == Running && i >= |s.servers|
    ensures EarlyEnabled(s, r) ==> i >= |EarlyNext(s, r).servers|
    ensures LateEnabled(s, f) && i < |LateNext(s, f).servers| ==> LateNext(s, f).servers[i].conns == 0
  {
  }

  /** In every interleaving: what the dirty flag and the connection counts say about what happened. */
  lemma {:induction false} RecordsAre(events: seq<Event>, i: nat)
    ensures Exec(events).dirty <==> Unflushed(events)
    ensures OpenConnections(events, i) == if i < |Exec(events).servers| then Exec(events).servers[i].conns else 0
  {
    if events != [] {
      var front, e := events[..|events| - 1], events[|events| - 1];
      var s := Exec(front);
      RecordsAre(front, i);
      if Enabled(s, e) {
        if i < |s.servers| {
          StepRecords(s, e, i);
        } else {
          InvAlways(front);
          StepRecordsNothing(s, e, i);
        }
      }
    }
  }

  lemma {:induction false} StepRecords(s: State, e: Event, i: nat)
    requires Enabled(s, e) && i < |s.servers|
    ensures var t := Next(s, e);
            && t.dirty == (e != LateStep(FlushSucceeds)
                           && (s.dirty || e == LockStep(ReloadWrites) || (e.ServerStep? && e.v.HandlerWrites?)))
            && i < |t.servers|
            && t.servers[i].conns == s.servers[i].conns + if e == ServerStep(Accept(i)) then 1
                                                          else if e == ServerStep(ConnEnds(i)) then -1 else 0
  {
    match e
    case EarlyStep(r) => RunRecords(s, r, Spawn, i);
    case LateStep(f) => RunRecords(s, Request, f, i);
    case ServerStep(v) => ServerRecords(s, v, i);
    case LockStep(l) => LockRecords(s, l);
    case WatchStep(w) => OthersRecord(s, w, Signal);
    case MainStep(m) => OthersRecord(s, AddWatcher, m);
  }

  lemma {:induction false} StepRecordsNothing(s: State, e: Event, i: nat)
    requires Enabled(s, e) && i >= |s.servers| && s.servers != []
    ensures var t := Next(s, e);
            && t.dirty == (e != LateStep(FlushSucceeds)
                           && (s.dirty || e == LockStep(ReloadWrites) || (e.ServerStep? && e.v.HandlerWrites?)))
            && (i < |t.servers| ==> t.servers[i].conns == 0)
            && e != ServerStep(Accept(i)) && e != ServerStep(ConnEnds(i))
  {
    match e
    case EarlyStep(r) =>
      RunRecords(s, r, Spawn, 0);
      NewServerIsEmpty(s, r, Spawn, i);
    case LateStep(f) =>
      RunRecords(s, Request, f, 0);
      NewServerIsEmpty(s, Request, f, i);
    case ServerStep(v) => ServerRecords(s, v, 0);
    case LockStep(l) => LockRecords(s, l);
    case WatchStep(w) => OthersRecord(s, w, Signal);
    case MainStep(m) => OthersRecord(s, AddWatcher, m);
  }

  // ---- a run that hands over ----

  /** A restart without a fault: the only server is drained while it has no connection, and the child takes over. */
  const HANDOVER := [EarlyStep(Request), EarlyStep(Commit), EarlyStep(DupSucceeds), EarlyStep(StartDrain),
                     EarlyStep(Shutdown), EarlyStep(ShutdownEnds), EarlyStep(DrainEnds),
                     LateStep(TakeFence), LateStep(FlushSucceeds), LateStep(Spawn), LateStep(ChildReady)]

  /** The state of that run when it has drained. */
  const DRAINED := INITIAL.(core := Core(true, true, 0, []), servers := [Server(false, true, 0, true)],
                            run := Draining([]), listenFile := true)

  lemma {:induction false} Takes(events: seq<Event>, i: nat, e: Event, t: State)
    requires i < |events| && events[i] == e && Enabled(Exec(events[..i]), e) && Next(Exec(events[..i]), e) == t
    ensures Exec(events[..i + 1]) == t
  {
    ExecSnoc(events[..i], e);
    assert events[..i + 1] == events[..i] + [e];
  }

  lemma {:induction false} RunDuplicates()
    ensures Exec(HANDOVER[..3])
            == INITIAL.(core := Core(true, true, 0, []), listenFile := true, run := Duplicated)
  {
    var committed := INITIAL.(core := Core(true, true, 0, []), run := Committed);
    assert HANDOVER[..0] == [] && Exec([]) == INITIAL;
    Takes(HANDOVER, 0, EarlyStep(Request), INITIAL.(core := Core(true, false, 0, []), run := Building));
    Takes(HANDOVER, 1, EarlyStep(Commit), committed);
    Takes(HANDOVER, 2, EarlyStep(DupSucceeds), committed.(listenFile := true, run := Duplicated));
  }

  lemma {:induction false} RunDrains()
    ensures Exec(HANDOVER[..6]) == DRAINED
  {
    var held := INITIAL.(core := Core(true, true, 0, []), listenFile := true, run := Duplicated);
    RunDuplicates();
    assert [0] + [] == [0];
    Takes(HANDOVER, 3, EarlyStep(StartDrain), held.(run := Draining([0])));
    Takes(HANDOVER, 4, EarlyStep(Shutdown), held.(run := Draining([0]), servers := [Server(false, true, 0, true)]));
    assert [0][1..] == [];
    Takes(HANDOVER, 5, EarlyStep(ShutdownEnds), DRAINED);
  }

  lemma {:induction false} RunFences()
    ensures Exec(HANDOVER[..8]) == DRAINED.(run := Fenced, lock := ByFence(0), taken := [0])
  {
    RunDrains();
    Takes(HANDOVER, 6, EarlyStep(DrainEnds), DRAINED.(run := Fencing));
    assert [] + [0] == [0];
    Takes(HANDOVER, 7, LateStep(TakeFence), DRAINED.(run := Fenced, lock := ByFence(0), taken := [0]));
  }

  lemma {:induction false} RunFlushes()
    ensures Exec(HANDOVER[..9]) == DRAINED.(run := Flushed, lock := ByFence(0), taken := [0])
  {
    RunFences();
    Takes(HANDOVER, 8, LateStep(FlushSucceeds), DRAINED.(run := Flushed, lock := ByFence(0), taken := [0]));
  }

  lemma {:induction false} RunSpawns()
    ensures Exec(HANDOVER[..11]).process == HandedOff
  {
    RunFlushes();
    var spawned := DRAINED.(run := Spawned, lock := ByFence(0), taken := [0]);
    Takes(HANDOVER, 9, LateStep(Spawn), spawned);
    Takes(HANDOVER, 10, LateStep(ChildReady), spawned.(process := HandedOff));
  }

  lemma {:induction false} HandoverHappens()
    ensures Exec(HANDOVER).process == HandedOff
  {
    RunSpawns();
    assert HANDOVER[..11] == HANDOVER;
  }

  // ---- the main loop ----

  /** How often a watch connection was opened. */
  function Watched(events: seq<Event>): nat {
    if events == [] then 0
    else
      var front, last := events[..|events| - 1], events[|events| - 1];
      Watched(front) + if last == WatchStep(AddWatcher) && Enabled(Exec(front), last) then 1 else 0
  }

  lemma {:induction false} RunOpensNoWatch(s: State, r: EarlyEvent, f: LateEvent)
    ensures EarlyEnabled(s, r) ==> |EarlyNext(s, r).closings| == |s.closings|
    ensures LateEnabled(s, f) ==> |LateNext(s, f).closings| == |s.closings|
  {
  }

  lemma {:induction false} OthersOpenNoWatch(s: State, v: ServerEvent, l: LockEvent, m: MainEvent)
    ensures ServerEnabled(s, v) ==> |ServerNext(s, v).closings| == |s.closings|
    ensures LockEnabled(s, l) ==> |LockNext(s, l).closings| == |s.closings|
    ensures MainEnabled(s, m) ==> |MainNext(s, m).closings| == |s.closings|
  {
  }

  /** Every watch connection has a channel of its own. */
  lemma {:induction false} WatchersHaveChannels(events: seq<Event>)
    ensures |Exec(events).closings| == Watched(events)
  {
    if events != [] {
      var front, e := events[..|events| - 1], events[|events| - 1];
      WatchersHaveChannels(front);
      if Enabled(Exec(front), e) {
        match e
        case EarlyStep(r) => RunOpensNoWatch(Exec(front), r, Spawn);
        case LateStep(f) => RunOpensNoWatch(Exec(front), Request, f);
        case ServerStep(v) => OthersOpenNoWatch(Exec(front), v, ReloadStarts, Signal);
        case LockStep(l) => OthersOpenNoWatch(Exec(front), Accept(0), l, Signal);
        case MainStep(m) => OthersOpenNoWatch(Exec(front), Accept(0), ReloadStarts, m);
        case WatchStep(w) =>
      }
    }
  }

  /**
   A shutdown signal during a committed handoff waits for the run's outcome, on a
   channel that the end of a failed run closes; without a run it shuts down.
   */
  lemma {:induction false} SignalsWait(events: seq<Event>)
    requires Enabled(Exec(events), MainStep(Signal))
    ensures var s, t := Exec(events), Exec(events + [MainStep(Signal)]);
            && s.resumed != []
            && if s.core.inHandoff then t == s.(main := Waiting(Channel(s)))
               else s.run == NoRun && t == s.(process := ShutDown)
  {
    ExecSnoc(events, MainStep(Signal));
  }

  /** A waiting main loop goes on exactly when the run it waits for has failed. */
  lemma {:induction false} WaitersWake(events: seq<Event>)
    requires Exec(events).process == Running && Exec(events).main.Waiting?
    ensures var s := Exec(events);
            && s.resumed != []
            && (Enabled(s, MainStep(MainWakes)) <==> s.main.channel < Channel(s))
            && (Enabled(s, MainStep(MainWakes)) ==> Next(s, MainStep(MainWakes)).main == Selecting)
  {
    InvAlways(events);
  }

  /** What the main loop makes of a Serve result: the exit on a broken one, unless a handoff is committed. */
  lemma {:induction false} ResultsAreHandled(events: seq<Event>)
    requires Enabled(Exec(events), MainStep(MainAsks))
    ensures var s, t := Exec(events), Exec(events + [MainStep(MainAsks)] + [MainStep(MainChecks)]);
            if s.core.inHandoff then t.main == Selecting && t.process == Running
            else if s.main.result == Broken then t.process == ExitedOn(Broken)
            else t.process == Running && t.main == Selecting
  {
    var s := Exec(events);
    InvAlways(events);
    ExecSnoc(events, MainStep(MainAsks));
    var mid := Exec(events + [MainStep(MainAsks)]);
    InvAlways(events + [MainStep(MainAsks)]);
    if s.core.inHandoff {
      var longer := events + [MainStep(MainAsks)] + [MainStep(MainChecks)];
      assert longer[..|longer| - 1] == events + [MainStep(MainAsks)];
    } else {
      ExecSnoc(events + [MainStep(MainAsks)], MainStep(MainChecks));
    }
  }
}
