/**
 The restarter's critical sections (cmd/proxy/restart.go) as methods on its
 fields: channels can be closed once and must not be sent to afterwards, and each
 section does to the guarded fields what the protocol says of it.
 */
module Restarter {
  import opened RestartProtocol

  /** A Go channel as far as closing goes: closing it twice, or sending after, would panic. */
  class Chan {
    var closed: bool

    constructor ()
      ensures !closed
    {
      closed := false;
    }

    method Close()
      requires !closed
      modifies this
      ensures closed
    {
      closed := true;
    }

    /** A send that drops when the buffer is full. */
    method Offer()
      requires !closed
    {
    }
  }

  /** An http.Server as far as shutting down goes. */
  class HttpServer {
    var down: bool
    var conns: nat

    /** Shutdown closes the listeners at once; without an error it returns when no connection is left. */
    method Shutdown() returns (ok: bool)
      modifies this
      ensures down && (ok ==> conns == 0) && conns <= old(conns)
    {
      down := true;
      ok := *;
      if ok {
        conns := 0;
      }
    }
  }

  class Restart {
    const available: bool    // the module's source and a toolchain were found
    var core: Core
    var watchers: set<Chan>
    var resumed: Chan

    ghost predicate Valid()
      reads this, watchers, resumed
    {
      && (forall w :: w in watchers ==> !w.closed)
      && !resumed.closed && resumed !in watchers
      && (core.inHandoff ==> core.busy)
    }

    constructor (available: bool)
      ensures Valid() && fresh(resumed) && watchers == {} && core == INITIAL.core && this.available == available
    {
      this.available, core, watchers := available, INITIAL.core, {};
      resumed := new Chan();
    }

    /** request: one run at a time, and none where there is nothing to build. */
    method Request() returns (ok: bool)
      requires Valid()
      modifies this`core
      ensures Valid()
      ensures ok <==> available && !old(core.busy)
      ensures core == if ok then Requested(old(core)) else old(core)
    {
      if !available {
        return false;
      }
      if core.busy {
        return false;
      }
      core := core.(busy := true);
      return true;
    }

    method AddWatcher(ch: Chan)
      requires Valid() && !ch.closed && ch != resumed
      modifies this`watchers
      ensures Valid() && watchers == old(watchers) + {ch}
    {
      watchers := watchers + {ch};
    }

    /** Closes the channel exactly when it was still registered. */
    method RemoveWatcher(ch: Chan)
      requires Valid()
      modifies this`watchers, ch
      ensures Valid() && watchers == old(watchers) - {ch}
      ensures ch.closed == (old(ch.closed) || ch in old(watchers))
    {
      if ch in watchers {
        watchers := watchers - {ch};
        ch.Close();
      }
    }

    /** fanoutLocked */
    method Fanout()
      requires Valid()
    {
      var rest := watchers;
      while rest != {}
        invariant rest <= watchers
      {
        var ch :| ch in rest;
        ch.Offer();
        rest := rest - {ch};
      }
    }

    /** finishFailure: publish, retire every watcher, release the waiters and re-arm, in one section. */
    method FinishFailure()
      requires Valid()
      modifies this, watchers, resumed
      ensures Valid()
      ensures core == Finished(old(core))
      ensures watchers == {} && forall w :: w in old(watchers) ==> w.closed
      ensures fresh(resumed) && old(resumed).closed
    {
      core := core.(busy := false, inHandoff := false);
      Fanout();
      var rest := watchers;
      while rest != {}
        invariant rest <= watchers && watchers == old(watchers) && resumed == old(resumed)
        invariant forall w :: w in watchers ==> w.closed == (w !in rest)
        invariant !resumed.closed
        invariant core == Finished(old(core))
      {
        var ch :| ch in rest;
        ch.Close();
        rest := rest - {ch};
      }
      watchers := {};
      resumed.Close();
      resumed := new Chan();
    }

    /** handoffDone: the channel to wait on, if a handoff is committed. */
    method HandoffDone() returns (ch: Chan?)
      requires Valid()
      ensures if core.inHandoff then ch == resumed && !resumed.closed else ch == null
    {
      return if core.inHandoff then resumed else null;
    }

    /**
     drain: Shutdown of every server of the snapshot in order, until one fails. The
     retired ones are forgotten only when all of them are quiet.
     */
    method Drain(pool: seq<HttpServer>) returns (ok: bool, ghost drained: seq<nat>)
      requires Valid() && forall i :: i in Snapshot(core) ==> i < |pool|
      modifies this`core, pool
      ensures Valid()
      ensures drained <= Snapshot(old(core))
      ensures ok <==> drained == Snapshot(old(core))
      ensures forall i :: i in drained ==> i < |pool| && pool[i].down && pool[i].conns == 0
      ensures core == if ok then AllDrained(old(core)) else old(core)
    {
      var servers := [core.current] + core.retired;
      drained := [];
      for i := 0 to |servers|
        invariant drained == servers[..i] && core == old(core) && servers == Snapshot(core)
        invariant forall j :: j in servers ==> j < |pool|
        invariant forall j :: j in drained ==> j < |pool| && pool[j].down && pool[j].conns == 0
      {
        assert servers[i] in servers;
        var done := pool[servers[i]].Shutdown();
        if !done {
          assert |drained| < |servers|;
          return false, drained;
        }
        drained := drained + [servers[i]];
      }
      core := core.(retired := []);
      return true, drained;
    }

    /** failAndResume: the new server takes over, and the old one joins those to be drained. */
    method Swap(server: nat)
      requires Valid()
      modifies this`core
      ensures Valid() && core == Swapped(old(core), server)
    {
      core := core.(retired := core.retired + [core.current], current := server);
    }
  }

  /** The next snapshot covers everything this one did, whatever the outcome of a drain and a swap in between. */
  lemma {:induction false} SnapshotsGrow(core: Core, server: nat)
    ensures forall i :: i in Snapshot(core) ==> i in Snapshot(Swapped(core, server))
    ensures Snapshot(Swapped(AllDrained(core), server)) == [server, core.current]
  {
    var after := Swapped(core, server);
    forall i | i in Snapshot(core)
      ensures i in Snapshot(after)
    {
      if i == core.current {
        assert after.retired[|core.retired|] == i;
      } else {
        assert i in core.retired;
      }
    }
  }
}
