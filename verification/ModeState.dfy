/**
 * The daemon's mode: what one `SetState` call, with its many points of failure, makes of the listeners, the
 * pairing record, the pairing timeout, the access point and the persisted file (internal/daemon/state.go).
 */
module ModeState {
  import opened Options

  /** The requested state is a string, so a call can name a state that does not exist. */
  datatype State = Down | Running | Pairing | Other(name: string)

  datatype Credentials = Credentials(seed: string, ssid: string)

  datatype PairingRecord = PairingRecord(state: State, credentials: Option<Credentials>)

  /** The access point: off, or on air with the game network or the temporary pairing network. */
  datatype AccessPoint = Off | On(temporary: bool)

  datatype Event = Changed(from: State, to: State)

  datatype Config = Config(hasGroup: bool, hasAp: bool, persists: bool)

  /**
   * What the manager's calls have done outside it: the listeners open at the operating system and those with an
   * accept loop, whether the timer of the pairing timeout has yet to fire and how many fired timers are waiting
   * to call SetState, the access point, the pairing file and the observer's log. A timer that has fired can no
   * longer be cancelled.
   */
  datatype Outside = Outside(
    open: set<nat>,
    accepting: set<nat>,
    nextLn: nat,
    timerLive: bool,
    fired: nat,
    ap: AccessPoint,
    file: Option<PairingRecord>,
    events: seq<Event>)

  /** The manager's fields; the listener fields hold what `listen` returned, pairingStop says whether it is set. */
  datatype Mode = Mode(
    state: State,
    pairing: Option<PairingRecord>,
    runningLn: Option<nat>,
    pairingLn: Option<nat>,
    pairingStop: bool,
    devices: set<string>,
    closed: bool,
    outside: Outside)

  const NOTHING: Outside := Outside({}, {}, 0, false, 0, Off, None, [])
  const INITIAL: Mode := Mode(Down, None, None, None, false, {}, false, NOTHING)

  /** How the fallible calls of one SetState turn out; a failed AP start says what it leaves on air. */
  datatype Outcomes = Outcomes(
    apStops: bool,
    clears: bool,
    apStarts: bool,
    apLeft: AccessPoint,
    credentials: Option<Credentials>,
    writesRecord: bool,
    listens: bool,
    writesRunning: bool)

  datatype Result =
    | Done
    | ShuttingDown
    | NoGroupInfo
    | StopFailed
    | PersistFailed
    | CredentialsFailed
    | ApFailed
    | ListenFailed
    | UnknownState

  // ---------------------------------------------------------------------------------------------------------
  // What each call does outside

  function Closed(w: Outside, ln: Option<nat>): Outside {
    if ln.Some? then w.(open := w.open - {ln.value}, accepting := w.accepting - {ln.value}) else w
  }

  function Listened(w: Outside): Outside {
    w.(open := w.open + {w.nextLn}, nextLn := w.nextLn + 1)
  }

  function Accepted(w: Outside, ln: nat): Outside {
    w.(accepting := w.accepting + {ln})
  }

  function Disarmed(w: Outside, pairingStop: bool): Outside {
    if pairingStop then w.(timerLive := false) else w
  }

  function Armed(w: Outside): Outside {
    w.(timerLive := true)
  }

  function Emitted(w: Outside, from: State, to: State): Outside {
    w.(events := w.events + [Changed(from, to)])
  }

  predicate ApUp(cfg: Config, o: Outcomes) {
    !cfg.hasAp || o.apStarts
  }

  function ApStarted(cfg: Config, w: Outside, o: Outcomes, temporary: bool): Outside {
    if cfg.hasAp then w.(ap := if o.apStarts then On(temporary) else o.apLeft) else w
  }

  function ApStopped(cfg: Config, w: Outside): Outside {
    if cfg.hasAp then w.(ap := Off) else w
  }

  /** persistPairingLocked: no file configured means nothing to do and nothing to fail. */
  predicate Writes(cfg: Config, ok: bool) {
    !cfg.persists || ok
  }

  function Saved(cfg: Config, w: Outside, record: PairingRecord): Outside {
    if cfg.persists then w.(file := Some(record)) else w
  }

  function Bare(state: State): PairingRecord {
    PairingRecord(state, None)
  }

  // ---------------------------------------------------------------------------------------------------------
  // The pieces of a transition

  /** Listeners closed, timeout disarmed: what happens before anything is started. */
  function Quiet(m: Mode): Outside {
    Closed(Closed(Disarmed(m.outside, m.pairingStop), m.runningLn), m.pairingLn)
  }

  function Torn(m: Mode, outside: Outside): Mode {
    Mode(m.state, m.pairing, None, None, false, {}, m.closed, outside)
  }

  /** DOWN, with nothing left open. */
  function Idle(outside: Outside): Mode {
    Mode(Down, None, None, None, false, {}, false, outside)
  }

  /** From an idle manager to RUNNING. */
  function EnterRunning(cfg: Config, w: Outside, from: State, o: Outcomes): (r: (Mode, Result)) {
    var up := ApStarted(cfg, w, o, false);
    if !ApUp(cfg, o) then (Idle(up), ApFailed)
    else if !o.listens then (Idle(up), ListenFailed)
    else
      var ln := w.nextLn;
      if !Writes(cfg, o.writesRunning) then
        (Mode(Running, None, Some(ln), None, false, {}, false, Listened(up)), PersistFailed)
      else
        var out := Accepted(Emitted(Saved(cfg, Listened(up), Bare(Running)), from, Running), ln);
        (Mode(Running, None, Some(ln), None, false, {}, false, out), Done)
  }

  /** From an idle manager to PAIRING. */
  function EnterPairing(cfg: Config, w: Outside, from: State, o: Outcomes): (r: (Mode, Result)) {
    if o.credentials.None? then (Idle(w), CredentialsFailed)
    else
      var up := ApStarted(cfg, w, o, true);
      var record := PairingRecord(Pairing, o.credentials);
      var saved := Saved(cfg, up, record);
      if !ApUp(cfg, o) then (Idle(up), ApFailed)
      else if !Writes(cfg, o.writesRecord) then (Idle(up).(pairing := Some(record)), PersistFailed)
      else if !o.listens then (Idle(saved).(pairing := Some(record)), ListenFailed)
      else
        var ln := w.nextLn;
        var out := Accepted(Armed(Emitted(Listened(saved), from, Pairing)), ln);
        (Mode(Pairing, Some(record), None, Some(ln), true, {}, false, out), Done)
  }

  /** One SetState call. */
  function SetState(cfg: Config, m: Mode, target: State, o: Outcomes): (r: (Mode, Result)) {
    if m.closed then (m, ShuttingDown)
    else if target == m.state then (m, Done)
    else if target.Pairing? && !cfg.hasGroup then (m, NoGroupInfo)
    else if target.Down? && cfg.hasAp && !o.apStops then (Torn(m, Quiet(m)), StopFailed)
    else
      var w := if target.Down? then ApStopped(cfg, Quiet(m)) else Quiet(m);
      if !Writes(cfg, o.clears) then (Idle(w), PersistFailed)
      else
        var saved := Saved(cfg, w, Bare(Down));
        match target
        case Down => (Idle(Emitted(saved, m.state, Down)), Done)
        case Running => EnterRunning(cfg, saved, m.state, o)
        case Pairing => EnterPairing(cfg, saved, m.state, o)
        case Other(_) => (Idle(saved), UnknownState)
  }

  /** Manager.Close: everything stops, but the state keeps its last value. */
  function Close(cfg: Config, m: Mode, o: Outcomes): Mode {
    if m.closed then m
    else Torn(m, if o.apStops then ApStopped(cfg, Quiet(m)) else Quiet(m)).(closed := true)
  }
}
