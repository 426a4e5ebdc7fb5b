/**
 * What one `SetState` call answers, writes and leaves on air, from how its fallible steps turned out, and what
 * `Close` leaves.
 */
module ModeOutcomes {
  import opened Options
  import opened ModeState
  import opened ModeRuns

  /** A configured file is written, or there is none to write. */
  predicate WriteGood(cfg: Config, ok: bool) {
    cfg.persists ==> ok
  }

  /** A configured access point comes up, or there is none. */
  predicate AirGood(cfg: Config, o: Outcomes) {
    cfg.hasAp ==> o.apStarts
  }

  /** The answer names the first step that failed. */
  lemma AnswerIsFirstFailure(cfg: Config, m: Mode, target: State, o: Outcomes)
    ensures var r := SetState(cfg, m, target, o).1;
      if m.closed then r == ShuttingDown
      else if target == m.state then r == Done
      else if target.Pairing? && !cfg.hasGroup then r == NoGroupInfo
      else if target.Down? && cfg.hasAp && !o.apStops then r == StopFailed
      else if !WriteGood(cfg, o.clears) then r == PersistFailed
      else
        match target
        case Down => r == Done
        case Running =>
          r == (if !AirGood(cfg, o) then ApFailed else if !o.listens then ListenFailed
                else if !WriteGood(cfg, o.writesRunning) then PersistFailed else Done)
        case Pairing =>
          r == (if o.credentials.None? then CredentialsFailed else if !AirGood(cfg, o) then ApFailed
                else if !WriteGood(cfg, o.writesRecord) then PersistFailed
                else if !o.listens then ListenFailed else Done)
        case Other(_) => r == UnknownState
  {
  }

  /** The call leaves everything as it was. */
  predicate Refused(cfg: Config, m: Mode, target: State) {
    m.closed || target == m.state || (target.Pairing? && !cfg.hasGroup)
  }

  /**
   * What the pairing file holds after a call: the record with its credentials while a PAIRING start got as far as
   * writing it, the bare state after any other start or stop, and what it held if nothing could be written.
   */
  lemma FileAfterCall(cfg: Config, m: Mode, target: State, o: Outcomes)
    ensures var file := SetState(cfg, m, target, o).0.outside.file;
      if !cfg.persists || Refused(cfg, m, target) || ApStays(cfg, target, o) || !o.clears then file == m.outside.file
      else if target.Pairing? && o.credentials.Some? && AirGood(cfg, o) && o.writesRecord
      then file == Some(PairingRecord(Pairing, o.credentials))
      else if target.Running? && AirGood(cfg, o) && o.listens && o.writesRunning
      then file == Some(PairingRecord(Running, None))
      else file == Some(PairingRecord(Down, None))
  {
  }

  /** What is on air after a call that is not refused. */
  lemma AirAfterCall(cfg: Config, m: Mode, target: State, o: Outcomes)
    requires cfg.hasAp && !Refused(cfg, m, target)
    ensures var ap := SetState(cfg, m, target, o).0.outside.ap;
      match target
      case Down => ap == if o.apStops then Off else m.outside.ap
      case Other(_) => ap == m.outside.ap
      case _ =>
        if !WriteGood(cfg, o.clears) || (target.Pairing? && o.credentials.None?) then ap == m.outside.ap
        else ap == if o.apStarts then On(target.Pairing?) else o.apLeft
  {
  }

  /** A call that is refused changes nothing; any other ends listeners, devices and the timeout it found. */
  lemma RefusedOrTornDown(cfg: Config, m: Mode, target: State, o: Outcomes)
    requires Kept(m)
    ensures var m' := SetState(cfg, m, target, o).0;
      if Refused(cfg, m, target) then m' == m
      else
        && m'.devices == {} && !m'.closed
        && (forall ln :: ln in m'.outside.open ==> ln == m.outside.nextLn)
        && (m'.outside.timerLive ==> m'.state.Pairing?) && m'.outside.fired == m.outside.fired
  {
    QuietIsQuiet(m);
    QuietNext(m);
    hide Quiet, EnterRunning, EnterPairing;
    var w := Saved(cfg, Quiet(m), Bare(Down));
    EntersQuietly(cfg, w, m.state, o);
    EntersPairingQuietly(cfg, w, m.state, o);
  }

  lemma QuietNext(m: Mode)
    ensures Quiet(m).nextLn == m.outside.nextLn
  {
  }

  lemma EntersQuietly(cfg: Config, w: Outside, from: State, o: Outcomes)
    requires w.open == {} && !w.timerLive
    ensures var m := EnterRunning(cfg, w, from, o).0;
      m.devices == {} && !m.closed && m.outside.open <= {w.nextLn} && !m.outside.timerLive && m.outside.fired == w.fired
  {
  }

  lemma EntersPairingQuietly(cfg: Config, w: Outside, from: State, o: Outcomes)
    requires w.open == {} && !w.timerLive
    ensures var m := EnterPairing(cfg, w, from, o).0;
      && m.devices == {} && !m.closed && m.outside.open <= {w.nextLn} && m.outside.fired == w.fired
      && (m.outside.timerLive ==> m.state.Pairing?)
  {
  }

  /**
   * Close, once, stops listeners, timeout, devices and, unless it fails to stop, the access point; the state, the
   * pairing record, the file and what the observer was told stay. A second Close does nothing.
   */
  lemma CloseStopsEverything(cfg: Config, m: Mode, o: Outcomes)
    requires Kept(m)
    ensures var m' := Close(cfg, m, o);
      if m.closed then m' == m
      else
        && m'.closed && m'.devices == {} && m'.outside.open == {} && m'.outside.accepting == {}
        && !m'.outside.timerLive && !m'.pairingStop && m'.runningLn.None? && m'.pairingLn.None?
        && m'.outside.ap == (if cfg.hasAp && o.apStops then Off else m.outside.ap)
        && m'.state == m.state && m'.pairing == m.pairing && m'.outside.file == m.outside.file
        && m'.outside.events == m.outside.events && m'.outside.fired == m.outside.fired
        && Close(cfg, m', o) == m'
  {
    QuietIsQuiet(m);
  }
}
