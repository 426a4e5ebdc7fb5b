/**
 * What every run of `SetState` calls, timer expiries and `Close` keeps, whichever calls fail on the way, and what
 * exactly a failure leaves behind.
 */
module ModeRuns {
  import opened Options
  import opened ModeState

  function Held(ln: Option<nat>): set<nat> {
    if ln.Some? then {ln.value} else {}
  }

  /** Holds always: the open listeners are those in the two fields, of which at most one is set. */
  predicate Kept(m: Mode) {
    && m.outside.open == Held(m.runningLn) + Held(m.pairingLn)
    && m.outside.accepting <= m.outside.open
    && (m.runningLn.None? || m.pairingLn.None?)
    && (m.outside.timerLive ==> m.pairingStop)
    && (m.closed ==> m.runningLn.None? && m.pairingLn.None? && !m.pairingStop)
  }

  /** The state tells which listener is open, whether the timeout is armed, and what is on air. */
  predicate ModeOk(cfg: Config, m: Mode) {
    && !m.state.Other?
    && (m.state.Running? <==> m.runningLn.Some?)
    && (m.state.Pairing? <==> m.pairingLn.Some?)
    && (m.state.Pairing? <==> m.pairingStop)
    && (m.state.Pairing? ==> m.pairing.Some? && m.pairing.value.state.Pairing? && m.pairing.value.credentials.Some?)
    && (m.state.Pairing? ==> m.outside.accepting == Held(m.pairingLn))
    && (m.state.Pairing? ==> m.outside.timerLive || m.outside.fired > 0)
    && (m.state.Running? ==> m.pairing.None?)
    && (cfg.hasAp && m.state.Running? ==> m.outside.ap == On(false))
    && (cfg.hasAp && m.state.Pairing? ==> m.outside.ap == On(true))
  }

  /** The call gets past its guards and tears down what was running. */
  predicate TearsDown(cfg: Config, m: Mode, target: State) {
    !m.closed && target != m.state && (target.Pairing? ==> cfg.hasGroup)
  }

  predicate ApStays(cfg: Config, target: State, o: Outcomes) {
    target.Down? && cfg.hasAp && !o.apStops
  }

  /** A RUNNING manager whose listener nobody accepts from. */
  predicate Deaf(m: Mode) {
    m.state.Running? && m.runningLn.Some? && m.runningLn.value !in m.outside.accepting
  }

  // ---------------------------------------------------------------------------------------------------------
  // One call

  lemma QuietIsQuiet(m: Mode)
    requires Kept(m)
    ensures Quiet(m).open == {} && Quiet(m).accepting == {} && !Quiet(m).timerLive
    ensures Quiet(m).ap == m.outside.ap && Quiet(m).file == m.outside.file && Quiet(m).events == m.outside.events
    ensures Quiet(m).fired == m.outside.fired
  {
  }

  lemma EntersRunning(cfg: Config, w: Outside, from: State, o: Outcomes)
    requires w.open == {} && w.accepting == {} && !w.timerLive
    ensures var (m, r) := EnterRunning(cfg, w, from, o); Kept(m) && ModeOk(cfg, m) && !m.closed && m.devices == {}
  {
  }

  lemma EntersPairing(cfg: Config, w: Outside, from: State, o: Outcomes)
    requires w.open == {} && w.accepting == {} && !w.timerLive
    ensures var (m, r) := EnterPairing(cfg, w, from, o); Kept(m) && ModeOk(cfg, m) && !m.closed && m.devices == {}
  {
  }

  /** Wherever it starts from, a call that tears down leaves the mode invariant true, unless the AP will not stop. */
  lemma SetStateRestores(cfg: Config, m: Mode, target: State, o: Outcomes)
    requires Kept(m) && TearsDown(cfg, m, target)
    ensures var m' := SetState(cfg, m, target, o).0;
      Kept(m') && !m'.closed && m'.devices == {} && (!ApStays(cfg, target, o) ==> ModeOk(cfg, m'))
  {
    hide EnterRunning, EnterPairing, Quiet;
    QuietIsQuiet(m);
    if Writes(cfg, o.clears) {
      EntersRunning(cfg, Saved(cfg, Quiet(m), Bare(Down)), m.state, o);
      EntersPairing(cfg, Saved(cfg, Quiet(m), Bare(Down)), m.state, o);
    }
  }

  /**
   * The mode invariant is kept by exactly those calls that do not fail to stop the access point on the way from
   * RUNNING or PAIRING to DOWN.
   */
  lemma SetStateKeepsMode(cfg: Config, m: Mode, target: State, o: Outcomes)
    requires Kept(m) && ModeOk(cfg, m) && !m.closed
    ensures Kept(SetState(cfg, m, target, o).0)
    ensures ModeOk(cfg, SetState(cfg, m, target, o).0) <==> !(ApStays(cfg, target, o) && !m.state.Down?)
  {
    if TearsDown(cfg, m, target) {
      SetStateRestores(cfg, m, target, o);
    }
  }

  /** The one failure that does not leave DOWN: the last write of a start that otherwise succeeded. */
  predicate LastWriteFails(cfg: Config, m: Mode, target: State, o: Outcomes) {
    && TearsDown(cfg, m, target) && target.Running?
    && Writes(cfg, o.clears) && ApUp(cfg, o) && o.listens && !Writes(cfg, o.writesRunning)
  }

  /** What a failed call leaves: DOWN, except after the last write of a start or when the AP would not stop. */
  lemma FailureLeavesDown(cfg: Config, m: Mode, target: State, o: Outcomes)
    requires Kept(m) && TearsDown(cfg, m, target) && !SetState(cfg, m, target, o).1.Done?
    ensures var m' := SetState(cfg, m, target, o).0;
      m'.state ==
      if ApStays(cfg, target, o) then m.state else if LastWriteFails(cfg, m, target, o) then Running else Down
  {
  }

  /**
   * A call that reports success is in the state asked for; if it did anything, the file and the observer agree,
   * and PAIRING carries the credentials drawn for it, in memory and in the file.
   */
  lemma SuccessReachesTarget(cfg: Config, m: Mode, target: State, o: Outcomes)
    requires Kept(m) && SetState(cfg, m, target, o).1.Done?
    ensures var m' := SetState(cfg, m, target, o).0;
      && m'.state == target
      && (target != m.state && cfg.persists ==> m'.outside.file.Some? && m'.outside.file.value.state == target)
      && (target != m.state && target.Pairing? ==>
            && m'.pairing == Some(PairingRecord(Pairing, o.credentials))
            && (cfg.persists ==> m'.outside.file == m'.pairing))
      && m'.outside.events ==
           if target == m.state then m.outside.events else m.outside.events + [Changed(m.state, target)]
  {
  }

  /**
   * RUNNING with a listener nobody accepts from comes from that last write and from nothing else, and asking for
   * RUNNING again does not mend it.
   */
  lemma DeafExactlyAfterLastWrite(cfg: Config, m: Mode, target: State, o: Outcomes)
    requires Kept(m) && ModeOk(cfg, m) && !m.closed
    ensures Deaf(SetState(cfg, m, target, o).0) <==>
      LastWriteFails(cfg, m, target, o) || (Deaf(m) && !TearsDown(cfg, m, target))
    ensures Deaf(m) ==> SetState(cfg, m, Running, o) == (m, Done)
  {
    QuietIsQuiet(m);
  }

  /** Which failing starts leave a pairing record behind in DOWN, and which calls then clear it. */
  lemma StaleRecord(cfg: Config, m: Mode, target: State, o: Outcomes)
    requires Kept(m) && TearsDown(cfg, m, target) && !ApStays(cfg, target, o)
    ensures var m' := SetState(cfg, m, target, o).0;
      m'.state.Down? && m'.pairing.Some? <==>
        (target.Pairing? && Writes(cfg, o.clears) && o.credentials.Some? && ApUp(cfg, o)
          && (!Writes(cfg, o.writesRecord) || !o.listens))
    ensures m.state.Down? ==> SetState(cfg, m, Down, o) == (m, Done)
  {
  }

  /** DOWN asked for and reached turns the access point off; a start that fails later leaves it on air. */
  lemma AirAfterDown(cfg: Config, m: Mode, target: State, o: Outcomes)
    requires Kept(m) && TearsDown(cfg, m, target) && cfg.hasAp && !ApStays(cfg, target, o)
    requires SetState(cfg, m, target, o).0.state.Down?
    ensures var ap := SetState(cfg, m, target, o).0.outside.ap;
      match target
      case Down => ap == Off
      case Other(_) => ap == m.outside.ap
      case _ =>
        if !Writes(cfg, o.clears) || (target.Pairing? && o.credentials.None?) then ap == m.outside.ap
        else if o.apStarts then ap == On(target.Pairing?)
        else ap == o.apLeft
  {
  }

  // ---------------------------------------------------------------------------------------------------------
  // Runs

  /** Calls come from operators, from finished pairings and from fired timers, in any order. */
  datatype Action = Call(target: State, o: Outcomes) | TimerFires | TimerCalls(o: Outcomes) | CloseManager(o: Outcomes)

  predicate Enabled(m: Mode, a: Action) {
    match a
    case TimerFires => m.outside.timerLive
    case TimerCalls(_) => m.outside.fired > 0
    case _ => true
  }

  function Called(w: Outside): Outside
    requires w.fired > 0
  {
    w.(fired := w.fired - 1)
  }

  function Apply(cfg: Config, m: Mode, a: Action): Mode
    requires Enabled(m, a)
  {
    match a
    case Call(target, o) => SetState(cfg, m, target, o).0
    case TimerFires => m.(outside := m.outside.(timerLive := false, fired := m.outside.fired + 1))
    case TimerCalls(o) => SetState(cfg, m.(outside := Called(m.outside)), Running, o).0
    case CloseManager(o) => Close(cfg, m, o)
  }

  ghost predicate Run(cfg: Config, m: Mode, actions: seq<Action>, m': Mode)
    decreases |actions|
  {
    if actions == [] then m' == m
    else Enabled(m, actions[0]) && Run(cfg, Apply(cfg, m, actions[0]), actions[1..], m')
  }

  /** The access point stops whenever it is asked to, as the one in internal/wireless/ap.go does. */
  predicate ApStops(a: Action) {
    a.Call? ==> a.o.apStops
  }

  /** The structural invariant, and the mode invariant until Close. */
  predicate Safe(cfg: Config, m: Mode) {
    Kept(m) && (!m.closed ==> ModeOk(cfg, m))
  }

  lemma SetStateKeeps(cfg: Config, m: Mode, target: State, o: Outcomes)
    requires Kept(m)
    ensures Kept(SetState(cfg, m, target, o).0) && SetState(cfg, m, target, o).0.closed == m.closed
  {
    if TearsDown(cfg, m, target) {
      SetStateRestores(cfg, m, target, o);
    }
  }

  lemma CloseKeeps(cfg: Config, m: Mode, o: Outcomes)
    requires Kept(m)
    ensures Kept(Close(cfg, m, o)) && Close(cfg, m, o).closed
  {
  }

  lemma TimerCallKeepsSafe(cfg: Config, m: Mode, o: Outcomes)
    requires Safe(cfg, m) && m.outside.fired > 0
    ensures Safe(cfg, Apply(cfg, m, TimerCalls(o)))
  {
    var m0 := m.(outside := Called(m.outside));
    hide SetState, EnterRunning, EnterPairing;
    SetStateKeeps(cfg, m0, Running, o);
    if TearsDown(cfg, m0, Running) {
      SetStateRestores(cfg, m0, Running, o);
    } else {
      RunningAlready(cfg, m0, o);
    }
  }

  lemma RunningAlready(cfg: Config, m: Mode, o: Outcomes)
    requires !TearsDown(cfg, m, Running)
    ensures SetState(cfg, m, Running, o).0 == m && (m.closed || m.state.Running?)
  {
  }

  lemma ActionKeepsSafe(cfg: Config, m: Mode, a: Action)
    requires Safe(cfg, m) && Enabled(m, a) && ApStops(a)
    ensures Safe(cfg, Apply(cfg, m, a))
  {
    hide SetState, Close;
    match a {
      case Call(target, o) =>
        SetStateKeeps(cfg, m, target, o);
        if !m.closed {
          SetStateKeepsMode(cfg, m, target, o);
        }
      case TimerFires =>
      case TimerCalls(o) => TimerCallKeepsSafe(cfg, m, o);
      case CloseManager(o) => CloseKeeps(cfg, m, o);
    }
  }

  /** The mode invariant in every state a run reaches before Close, with an AP that never fails to stop. */
  lemma {:induction false} EveryRunKeepsMode(cfg: Config, m: Mode, actions: seq<Action>, m': Mode)
    requires Safe(cfg, m) && Run(cfg, m, actions, m')
    requires forall a :: a in actions ==> ApStops(a)
    ensures Safe(cfg, m')
    decreases |actions|
  {
    hide Safe, Enabled, Apply, ApStops;
    if actions != [] {
      ActionKeepsSafe(cfg, m, actions[0]);
      EveryRunKeepsMode(cfg, Apply(cfg, m, actions[0]), actions[1..], m');
    }
  }

  lemma ActionKeeps(cfg: Config, m: Mode, a: Action)
    requires Kept(m) && Enabled(m, a)
    ensures Kept(Apply(cfg, m, a)) && (m.closed ==> Apply(cfg, m, a).closed)
  {
    hide SetState, Close;
    match a {
      case Call(target, o) => SetStateKeeps(cfg, m, target, o);
      case TimerFires =>
      case TimerCalls(o) => SetStateKeeps(cfg, m.(outside := Called(m.outside)), Running, o);
      case CloseManager(o) => CloseKeeps(cfg, m, o);
    }
  }

  lemma {:induction false} RunKeeps(cfg: Config, m: Mode, actions: seq<Action>, m': Mode)
    requires Kept(m) && Run(cfg, m, actions, m')
    ensures Kept(m') && (m.closed ==> m'.closed)
    decreases |actions|
  {
    hide Kept, Enabled, Apply;
    if actions != [] {
      ActionKeeps(cfg, m, actions[0]);
      RunKeeps(cfg, Apply(cfg, m, actions[0]), actions[1..], m');
    }
  }

  /** In every run, whatever fails, the AP included: never two listeners, and none after Close. */
  lemma NeverTwoListeners(cfg: Config, actions: seq<Action>, m: Mode)
    requires Run(cfg, INITIAL, actions, m)
    ensures |m.outside.open| <= 1
    ensures m.closed ==> m.outside.open == {} && m.outside.accepting == {} && !m.outside.timerLive
  {
    hide Run;
    RunKeeps(cfg, INITIAL, actions, m);
    assert m.outside.open == if m.runningLn.Some? then {m.runningLn.value} else Held(m.pairingLn);
  }

  // ---------------------------------------------------------------------------------------------------------
  // The pairing timeout

  /** PAIRING cannot last: a timer is running or its call is waiting, and that call ends PAIRING. */
  lemma PairingEnds(cfg: Config, actions: seq<Action>, m: Mode, o: Outcomes)
    requires Run(cfg, INITIAL, actions, m) && (forall a :: a in actions ==> ApStops(a))
    requires m.state.Pairing? && !m.closed
    ensures m.outside.fired > 0 || Enabled(m, TimerFires)
    ensures m.outside.fired > 0 ==> !Apply(cfg, m, TimerCalls(o)).state.Pairing?
  {
    hide Run;
    EveryRunKeepsMode(cfg, INITIAL, actions, m);
  }

  /** Timers fired and calls made by fired timers, in a list of actions. */
  function Fires(actions: seq<Action>): nat {
    if actions == [] then 0 else (if actions[0].TimerFires? then 1 else 0) + Fires(actions[1..])
  }

  function Calls(actions: seq<Action>): nat {
    if actions == [] then 0 else (if actions[0].TimerCalls? then 1 else 0) + Calls(actions[1..])
  }

  lemma SetStateKeepsFired(cfg: Config, m: Mode, target: State, o: Outcomes)
    ensures SetState(cfg, m, target, o).0.outside.fired == m.outside.fired
  {
    hide Closed, Listened, Accepted, Disarmed, Armed, Emitted, ApStarted, ApStopped, Saved;
    OutsideKeepsFired(cfg, o);
  }

  lemma OutsideKeepsFired(cfg: Config, o: Outcomes)
    ensures forall w: Outside, ln :: Closed(w, ln).fired == w.fired
    ensures forall w: Outside :: Listened(w).fired == w.fired && Armed(w).fired == w.fired
    ensures forall w: Outside, ln :: Accepted(w, ln).fired == w.fired
    ensures forall w: Outside, b :: Disarmed(w, b).fired == w.fired && ApStarted(cfg, w, o, b).fired == w.fired
    ensures forall w: Outside, a, b :: Emitted(w, a, b).fired == w.fired
    ensures forall w: Outside :: ApStopped(cfg, w).fired == w.fired
    ensures forall w: Outside, record :: Saved(cfg, w, record).fired == w.fired
  {
  }

  lemma ActionCounts(cfg: Config, m: Mode, a: Action)
    requires Enabled(m, a)
    ensures Apply(cfg, m, a).outside.fired ==
            m.outside.fired + (if a.TimerFires? then 1 else 0) - (if a.TimerCalls? then 1 else 0)
  {
    hide SetState;
    match a {
      case Call(target, o) => SetStateKeepsFired(cfg, m, target, o);
      case TimerFires =>
      case TimerCalls(o) => SetStateKeepsFired(cfg, m.(outside := Called(m.outside)), Running, o);
      case CloseManager(o) =>
    }
  }

  /** The timers waiting to call are those that fired and have not called. */
  lemma {:induction false} FiredIsCount(cfg: Config, m: Mode, actions: seq<Action>, m': Mode)
    requires Run(cfg, m, actions, m')
    ensures m'.outside.fired == m.outside.fired + Fires(actions) - Calls(actions)
    decreases |actions|
  {
    hide Apply, Enabled;
    if actions != [] {
      ActionCounts(cfg, m, actions[0]);
      FiredIsCount(cfg, Apply(cfg, m, actions[0]), actions[1..], m');
    }
  }

  predicate OfTimers(actions: seq<Action>) {
    forall i :: 0 <= i < |actions| ==> actions[i].TimerFires? || actions[i].TimerCalls?
  }

  /** Left to its timers alone, the manager can leave DOWN. */
  ghost predicate CanRevive(cfg: Config, m: Mode) {
    exists more, m' :: OfTimers(more) && Run(cfg, m, more, m') && !m'.state.Down?
  }

  const ALL_WELL: Outcomes := Outcomes(true, true, true, Off, None, true, true, true)

  /**
   DOWN stays DOWN, with nobody asking for another state, exactly if every timer that ever fired in the run has
   already made its call.
   */
  lemma DownStaysDown(cfg: Config, actions: seq<Action>, m: Mode)
    requires Run(cfg, INITIAL, actions, m) && (forall a :: a in actions ==> ApStops(a))
    requires m.state.Down? && !m.closed
    ensures CanRevive(cfg, m) <==> Fires(actions) > Calls(actions)
  {
    hide Run, SetState;
    EveryRunKeepsMode(cfg, INITIAL, actions, m);
    FiredIsCount(cfg, INITIAL, actions, m);
    if m.outside.fired > 0 {
      RunOf1(cfg, m, TimerCalls(ALL_WELL));
      WellStartedRuns(cfg, m);
    } else {
      NoTimerLeft(cfg, m);
    }
  }

  lemma WellStartedRuns(cfg: Config, m: Mode)
    requires m.state.Down? && !m.closed && m.outside.fired > 0
    ensures Apply(cfg, m, TimerCalls(ALL_WELL)).state.Running?
  {
  }

  lemma NoTimerLeft(cfg: Config, m: Mode)
    requires m.state.Down? && m.outside.fired == 0 && !m.outside.timerLive
    ensures !CanRevive(cfg, m)
  {
    hide Apply;
    forall more, m' | OfTimers(more) && Run(cfg, m, more, m')
      ensures m'.state.Down?
    {
    }
  }

  /** A timer that fired while DOWN was being entered starts the daemon again. */
  lemma StaleTimerRevives(cfg: Config, m: Mode, down: Outcomes, o: Outcomes)
    requires Kept(m) && !m.closed && m.state.Pairing? && m.outside.timerLive
    requires Writes(cfg, down.clears) && (cfg.hasAp ==> down.apStops)
    requires Writes(cfg, o.clears) && ApUp(cfg, o) && o.listens && Writes(cfg, o.writesRunning)
    ensures exists m1, m2 ::
      && Run(cfg, m, [TimerFires, Call(Down, down)], m1) && m1.state.Down?
      && Run(cfg, m1, [TimerCalls(o)], m2) && m2.state.Running?
  {
    var m0 := Apply(cfg, m, TimerFires);
    var m1 := Apply(cfg, m0, Call(Down, down));
    RunOf2(cfg, m, TimerFires, Call(Down, down));
    RunOf1(cfg, m1, TimerCalls(o));
  }

  lemma RunOf1(cfg: Config, m: Mode, a: Action)
    requires Enabled(m, a)
    ensures Run(cfg, m, [a], Apply(cfg, m, a))
  {
    assert [a][1..] == [];
  }

  lemma RunOf2(cfg: Config, m: Mode, a: Action, b: Action)
    requires Enabled(m, a) && Enabled(Apply(cfg, m, a), b)
    ensures Run(cfg, m, [a, b], Apply(cfg, Apply(cfg, m, a), b))
  {
    RunOf1(cfg, Apply(cfg, m, a), b);
    assert [a, b][1..] == [b];
  }

  // ---------------------------------------------------------------------------------------------------------
  // The observer's log

  /** The transitions reported form one chain from DOWN to the current state. */
  ghost predicate InStep(m: Mode) {
    var e := m.outside.events;
    && (forall k :: 0 < k < |e| ==> e[k].from == e[k - 1].to)
    && (if e == [] then m.state.Down? else e[0].from.Down? && e[|e| - 1].to == m.state)
  }

  /** Everything the call tries on the way to its target works out. */
  predicate WorksOut(cfg: Config, target: State, o: Outcomes) {
    && Writes(cfg, o.clears)
    && match target
       case Down => true
       case Running => ApUp(cfg, o) && o.listens && Writes(cfg, o.writesRunning)
       case Pairing => o.credentials.Some? && ApUp(cfg, o) && Writes(cfg, o.writesRecord) && o.listens
       case Other(_) => false
  }

  /** The call fails, and the state moves without anybody being told. */
  predicate MovesSilently(cfg: Config, m: Mode, target: State, o: Outcomes) {
    && TearsDown(cfg, m, target) && !ApStays(cfg, target, o) && !WorksOut(cfg, target, o)
    && (m.state.Down? ==> LastWriteFails(cfg, m, target, o))
  }

  lemma OutcomeOf(cfg: Config, m: Mode, target: State, o: Outcomes)
    requires Kept(m) && TearsDown(cfg, m, target)
    ensures SetState(cfg, m, target, o).1.Done? <==> WorksOut(cfg, target, o) && !ApStays(cfg, target, o)
  {
  }

  /** A call breaks the chain exactly when it moves the state silently. */
  lemma SetStateInStep(cfg: Config, m: Mode, target: State, o: Outcomes)
    requires Kept(m) && InStep(m)
    ensures InStep(SetState(cfg, m, target, o).0) <==> !MovesSilently(cfg, m, target, o)
  {
    hide SetState;
    EventsAfter(cfg, m, target, o);
    if TearsDown(cfg, m, target) {
      OutcomeOf(cfg, m, target, o);
      if !SetState(cfg, m, target, o).1.Done? {
        FailureLeavesDown(cfg, m, target, o);
      }
    } else {
      NothingDone(cfg, m, target, o);
    }
  }

  lemma NothingDone(cfg: Config, m: Mode, target: State, o: Outcomes)
    requires !TearsDown(cfg, m, target)
    ensures SetState(cfg, m, target, o).0 == m
  {
  }

  /** The chain holds after every action of the run. */
  ghost predicate AlwaysInStep(cfg: Config, m: Mode, actions: seq<Action>)
    decreases |actions|
  {
    && InStep(m)
    && (actions != [] && Enabled(m, actions[0]) ==> AlwaysInStep(cfg, Apply(cfg, m, actions[0]), actions[1..]))
  }

  predicate ActsSilently(cfg: Config, m: Mode, a: Action) {
    match a
    case Call(target, o) => MovesSilently(cfg, m, target, o)
    case TimerCalls(o) => MovesSilently(cfg, m, Running, o)
    case _ => false
  }

  /** No call in the run moves the state silently. */
  ghost predicate NeverSilent(cfg: Config, m: Mode, actions: seq<Action>)
    decreases |actions|
  {
    actions != [] && Enabled(m, actions[0]) ==>
      !ActsSilently(cfg, m, actions[0]) && NeverSilent(cfg, Apply(cfg, m, actions[0]), actions[1..])
  }

  lemma ActionInStep(cfg: Config, m: Mode, a: Action)
    requires Kept(m) && InStep(m) && Enabled(m, a)
    ensures InStep(Apply(cfg, m, a)) <==> !ActsSilently(cfg, m, a)
  {
    hide SetState, MovesSilently;
    match a {
      case Call(target, o) => SetStateInStep(cfg, m, target, o);
      case TimerFires =>
      case TimerCalls(o) => TimerCallInStep(cfg, m, o);
      case CloseManager(o) =>
    }
  }

  lemma TimerCallInStep(cfg: Config, m: Mode, o: Outcomes)
    requires Kept(m) && InStep(m) && m.outside.fired > 0
    ensures InStep(Apply(cfg, m, TimerCalls(o))) <==> !MovesSilently(cfg, m, Running, o)
  {
    hide SetState;
    SetStateInStep(cfg, m.(outside := Called(m.outside)), Running, o);
  }

  /** Over whole runs: the observer's log is in step with the state all along exactly if no call moves it silently. */
  lemma {:induction false} ObserverInStep(cfg: Config, m: Mode, actions: seq<Action>)
    requires Kept(m) && InStep(m)
    ensures AlwaysInStep(cfg, m, actions) <==> NeverSilent(cfg, m, actions)
    decreases |actions|
  {
    hide Kept, InStep, Apply, Enabled, ActsSilently;
    if actions != [] && Enabled(m, actions[0]) {
      ActionInStep(cfg, m, actions[0]);
      ActionKeeps(cfg, m, actions[0]);
      if InStep(Apply(cfg, m, actions[0])) {
        ObserverInStep(cfg, Apply(cfg, m, actions[0]), actions[1..]);
      }
    }
  }

  lemma EventsAfter(cfg: Config, m: Mode, target: State, o: Outcomes)
    requires Kept(m)
    ensures var (m', r) := SetState(cfg, m, target, o);
      m'.outside.events ==
        if r.Done? && target != m.state then m.outside.events + [Changed(m.state, target)] else m.outside.events
    ensures SetState(cfg, m, target, o).1.Done? ==> SetState(cfg, m, target, o).0.state == target
  {
    if SetState(cfg, m, target, o).1.Done? {
      SuccessReachesTarget(cfg, m, target, o);
    }
  }
}
