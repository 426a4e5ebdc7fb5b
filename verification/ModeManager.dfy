/** The Manager's mode machinery in the form the daemon has it: fields assigned step by step, with early returns. */
module ModeManager {
  import opened Options
  import M = ModeState

  class Manager {
    const cfg: M.Config
    var state: M.State
    var pairing: Option<M.PairingRecord>
    var runningLn: Option<nat>
    var pairingLn: Option<nat>
    var pairingStop: bool
    var devices: set<string>
    var closed: bool
    var outside: M.Outside

    function Snapshot(): M.Mode
      reads this
    {
      M.Mode(state, pairing, runningLn, pairingLn, pairingStop, devices, closed, outside)
    }

    constructor (cfg: M.Config)
      ensures this.cfg == cfg && Snapshot() == M.INITIAL
    {
      this.cfg := cfg;
      state, pairing, runningLn, pairingLn, pairingStop := M.Down, None, None, None, false;
      devices, closed, outside := {}, false, M.NOTHING;
    }

    method StopPairingTimeoutLocked()
      modifies this`pairingStop, this`outside
      ensures !pairingStop && outside == M.Disarmed(old(outside), old(pairingStop))
    {
      if pairingStop {
        outside := outside.(timerLive := false);
        pairingStop := false;
      }
    }

    method StopListenersLocked()
      modifies this`runningLn, this`pairingLn, this`outside
      ensures runningLn.None? && pairingLn.None?
      ensures outside == M.Closed(M.Closed(old(outside), old(runningLn)), old(pairingLn))
    {
      if runningLn.Some? {
        outside := M.Closed(outside, runningLn);
        runningLn := None;
      }
      if pairingLn.Some? {
        outside := M.Closed(outside, pairingLn);
        pairingLn := None;
      }
    }

    method PersistPairingLocked(record: Option<M.PairingRecord>, writes: bool) returns (ok: bool)
      modifies this`outside
      ensures ok == M.Writes(cfg, writes)
      ensures outside ==
        if ok then M.Saved(cfg, old(outside), if record.Some? then record.value else M.Bare(state)) else old(outside)
    {
      if !cfg.persists {
        return true;
      }
      if writes {
        outside := outside.(file := Some(if record.Some? then record.value else M.Bare(state)));
      }
      return writes;
    }

    method EnterRunning(previous: M.State, o: M.Outcomes) returns (result: M.Result)
      requires Snapshot() == M.Idle(outside)
      modifies this
      ensures (Snapshot(), result) == M.EnterRunning(cfg, old(outside), previous, o)
    {
      outside := M.ApStarted(cfg, outside, o, false);
      if !M.ApUp(cfg, o) {
        return M.ApFailed;
      }
      if !o.listens {
        return M.ListenFailed;
      }
      var ln := outside.nextLn;
      outside := M.Listened(outside);
      runningLn := Some(ln);
      state := M.Running;
      var written := PersistPairingLocked(None, o.writesRunning);
      if !written {
        return M.PersistFailed;
      }
      outside := M.Emitted(outside, previous, M.Running);
      outside := M.Accepted(outside, ln);
      return M.Done;
    }

    method EnterPairing(previous: M.State, o: M.Outcomes) returns (result: M.Result)
      requires Snapshot() == M.Idle(outside)
      modifies this
      ensures (Snapshot(), result) == M.EnterPairing(cfg, old(outside), previous, o)
    {
      if o.credentials.None? {
        return M.CredentialsFailed;
      }
      outside := M.ApStarted(cfg, outside, o, true);
      if !M.ApUp(cfg, o) {
        return M.ApFailed;
      }
      pairing := Some(M.PairingRecord(M.Pairing, o.credentials));
      var written := PersistPairingLocked(pairing, o.writesRecord);
      if !written {
        return M.PersistFailed;
      }
      if !o.listens {
        return M.ListenFailed;
      }
      var ln := outside.nextLn;
      outside := M.Listened(outside);
      pairingLn := Some(ln);
      state := M.Pairing;
      outside := M.Emitted(outside, previous, M.Pairing);
      pairingStop, outside := true, M.Armed(outside);
      outside := M.Accepted(outside, ln);
      return M.Done;
    }

    method SetState(target: M.State, o: M.Outcomes) returns (result: M.Result)
      modifies this
      ensures (Snapshot(), result) == M.SetState(cfg, old(Snapshot()), target, o)
    {
      if closed {
        return M.ShuttingDown;
      }
      if target == state {
        return M.Done;
      }
      var previous := state;
      if target == M.Pairing && !cfg.hasGroup {
        return M.NoGroupInfo;
      }
      StopPairingTimeoutLocked();
      StopListenersLocked();
      devices := {};
      if target == M.Down && cfg.hasAp {
        if !o.apStops {
          return M.StopFailed;
        }
        outside := M.ApStopped(cfg, outside);
      }
      state := M.Down;
      pairing := None;
      var written := PersistPairingLocked(None, o.clears);
      if !written {
        return M.PersistFailed;
      }
      match target {
        case Down =>
          outside := M.Emitted(outside, previous, M.Down);
          return M.Done;
        case Running =>
          result := EnterRunning(previous, o);
        case Pairing =>
          result := EnterPairing(previous, o);
        case Other(_) =>
          return M.UnknownState;
      }
    }

    method Close(o: M.Outcomes)
      modifies this
      ensures Snapshot() == M.Close(cfg, old(Snapshot()), o)
    {
      if closed {
        return;
      }
      closed := true;
      StopListenersLocked();
      devices := {};
      if cfg.hasAp && o.apStops {
        outside := M.ApStopped(cfg, outside);
      }
      StopPairingTimeoutLocked();
    }
  }
}
