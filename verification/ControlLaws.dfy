/**
 * The promises of the control-session protocol over every run: no leak, no double ownership, superseded sessions
 * are inert, every setup goroutine ends, and what a failed drive sender does to the daemon.
 */
module ControlLaws {
  import opened ControlSession
  import opened ControlRuns

  lemma Reachable(actions: seq<Action>, w: World, sid: nat)
    requires Run(EMPTY, actions, w) && sid < |w.sessions|
    ensures Inv(w) && SessionOk(w.sessions[sid], ViewOf(w, sid))
  {
    RunKeepsInv(EMPTY, actions, w);
  }

  /** Closed exactly once and detached, or still open in the deviceControl that m.controls names. */
  predicate ClosedOrAttached(r: Resource, current: bool) {
    r.isOpened ==> (r.closes == 1 && !r.field) || (r.closes == 0 && r.field && current)
  }

  /**
   * Once a setup goroutine has ended, and unless its teardown is under way, everything it opened is closed or
   * attached to the deviceControl currently in m.controls.
   */
  lemma NoLeak(actions: seq<Action>, w: World, sid: nat)
    requires Run(EMPTY, actions, w) && sid < |w.sessions|
    requires w.sessions[sid].pc.Ended? && !(w.holder.Tears? && w.holder.sid == sid)
    ensures var s := w.sessions[sid];
      && ClosedOrAttached(s.media, Current(w, sid))
      && ClosedOrAttached(s.drive, Current(w, sid))
      && (s.conn.isOpened ==> s.conn.closes > 0 || (s.conn.field && Current(w, sid)))
  {
    hide Run, Inv;
    Reachable(actions, w, sid);
  }

  /** At every moment of every run: no media or drive is closed twice, and what a field names is still open. */
  lemma OneCloser(actions: seq<Action>, w: World, sid: nat)
    requires Run(EMPTY, actions, w) && sid < |w.sessions|
    ensures var s := w.sessions[sid];
      && s.media.closes <= 1 && (s.media.field ==> s.media.isOpened && s.media.closes == 0)
      && s.drive.closes <= 1 && (s.drive.field ==> s.drive.isOpened && s.drive.closes == 0)
  {
    hide Run, Inv;
    Reachable(actions, w, sid);
  }

  /**
   * What an established session holds: its open connection, an open media endpoint exactly if the kart was told
   * its ports, and the drive sender it opened, if any. Drive mode is only on with the ports set.
   */
  lemma EstablishedSession(actions: seq<Action>, w: World, sid: nat)
    requires Run(EMPTY, actions, w) && sid < |w.sessions| && Current(w, sid)
    requires w.sessions[sid].pc.Ended? && !(w.holder.Tears? && w.holder.sid == sid)
    requires w.sessions[sid].conn.isOpened && w.sessions[sid].conn.closes == 0
    ensures var s := w.sessions[sid];
      && s.conn.field
      && (s.media.field <==> s.controlSet) && (s.driveMode ==> s.controlSet)
      && (s.drive.field <==> s.drive.isOpened)
  {
    hide Run, Inv, LocksOk;
    Reachable(actions, w, sid);
  }

  /** A setup step of a session that is no longer in m.controls changes neither m.controls nor m.devices. */
  lemma SupersededIsInert(actions: seq<Action>, w: World, sid: nat, outcome: Outcome, serial: string)
    requires Run(EMPTY, actions, w) && Enabled(w, Setup(sid, outcome, serial)) && !Current(w, sid)
    ensures var w' := Apply(w, Setup(sid, outcome, serial)); w'.controls == w.controls && w'.devices == w.devices
  {
    hide Run, Inv;
    Reachable(actions, w, sid);
    InertStep(w, sid, outcome, serial);
  }

  lemma InertStep(w: World, sid: nat, outcome: Outcome, serial: string)
    requires SetupEnabled(w, sid) && !Current(w, sid) && SessionOk(w.sessions[sid], ViewOf(w, sid))
    ensures var w' := SetupStep(w, sid, outcome, serial); w'.controls == w.controls && w'.devices == w.devices
  {
    hide ConnOk, MediaOk, DriveOk, LinkOk, Local, Attach, Abandon, Join, Settle;
    assert !w.sessions[sid].pc.Attaching?;
    InertLookBack(w, sid);
  }

  lemma InertLookBack(w: World, sid: nat)
    requires sid < |w.sessions| && !Current(w, sid)
    ensures Abandon(w, sid).controls == w.controls && Abandon(w, sid).devices == w.devices
    ensures Join(w, sid).controls == w.controls && Join(w, sid).devices == w.devices
    ensures Settle(w, sid).controls == w.controls && Settle(w, sid).devices == w.devices
  {
    hide Current;
  }

  /** m.controls names the session started last for its kart. */
  lemma NewestIsCurrent(actions: seq<Action>, w: World, ident: Ident, sid: nat)
    requires Run(EMPTY, actions, w) && ident in w.controls
    requires sid < |w.sessions| && w.sessions[sid].ident == ident
    ensures sid <= w.controls[ident] < |w.sessions|
  {
    RunKeepsInv(EMPTY, actions, w);
  }

  // ---------------------------------------------------------------------------------------------------------
  // Superseded once, superseded for ever

  /** m.controls only loses sessions or names the one just started. */
  ghost predicate OnlyNewer(w: World, w': World) {
    && |w.sessions| <= |w'.sessions|
    && (forall k :: 0 <= k < |w.sessions| ==> w'.sessions[k].ident == w.sessions[k].ident)
    && (forall i :: i in w'.controls && w'.controls[i] < |w.sessions| ==>
          i in w.controls && w.controls[i] == w'.controls[i])
  }

  lemma FinishOnlyNewer(w: World, job: Job)
    ensures OnlyNewer(w, Finish(w, job))
  {
  }

  /** Rewriting one session and dropping entries of m.controls. */
  lemma RewriteOnlyNewer(w: World, sid: nat, s: Session, gone: set<Ident>, holder: Holder)
    requires sid < |w.sessions| && s.ident == w.sessions[sid].ident
    ensures OnlyNewer(w, Put(w, sid, s).(controls := w.controls - gone, holder := holder))
  {
  }

  lemma BeginTearOnlyNewer(w: World, job: Job, ident: Ident)
    ensures OnlyNewer(w, BeginTear(w, job, ident))
  {
  }

  lemma TearOnlyNewer(w: World)
    requires TearEnabled(w)
    ensures OnlyNewer(w, TearStep(w))
  {
    if w.holder.Tears? {
      var sid, stage := w.holder.sid, w.holder.stage;
      if stage.CloseConn? {
        var s := Hanging(w.sessions[sid]);
        RewriteOnlyNewer(w, sid, s, {s.ident}, w.holder);
        FinishOnlyNewer(Put(w, sid, s).(controls := w.controls - {s.ident}), w.holder.job);
      } else {
        TearLocalOnlyNewer(w);
      }
    }
  }

  lemma TearLocalOnlyNewer(w: World)
    requires TearEnabled(w) && w.holder.Tears? && !w.holder.stage.CloseConn?
    ensures OnlyNewer(w, TearStep(w))
  {
  }

  lemma SetupOnlyNewer(w: World, sid: nat, outcome: Outcome, serial: string)
    requires Inv(w) && SetupEnabled(w, sid)
    ensures OnlyNewer(w, SetupStep(w, sid, outcome, serial))
  {
    hide SessionOk, SetupStep;
    assert SessionOk(w.sessions[sid], ViewOf(w, sid));
    SetupKeepsOwn(w, sid, outcome, serial);
  }

  lemma ActionOnlyNewer(w: World, a: Action)
    requires Inv(w) && Enabled(w, a)
    ensures OnlyNewer(w, Apply(w, a))
  {
    hide Inv, SetupEnabled, SetupStep, TearEnabled, TearStep, BeginTear;
    match a {
      case Setup(sid, outcome, serial) => SetupOnlyNewer(w, sid, outcome, serial);
      case Tear => TearOnlyNewer(w);
      case StartSession(ident) => BeginTearOnlyNewer(w, Replace(ident), ident);
      case DeviceDisconnected(ident) => BeginTearOnlyNewer(w.(devices := w.devices - {ident}), Disconnect, ident);
      case ShutdownKart(ident) => BeginTearOnlyNewer(w.(devices := w.devices - {ident}), Shutdown, ident);
      case ClearNext(ident) => BeginTearOnlyNewer(w, Clear, ident);
      case _ =>
    }
  }

  /** A session that has left m.controls never comes back. */
  lemma {:induction false} SupersededForEver(w: World, actions: seq<Action>, w': World, sid: nat)
    requires Inv(w) && Run(w, actions, w')
    requires sid < |w.sessions| && !Current(w, sid)
    ensures sid < |w'.sessions| && !Current(w', sid)
    decreases |actions|
  {
    hide Inv, Enabled, Apply;
    if actions != [] {
      ActionOnlyNewer(w, actions[0]);
      ActionKeepsInv(w, actions[0]);
      SupersededForEver(Apply(w, actions[0]), actions[1..], w', sid);
    }
  }

  // ---------------------------------------------------------------------------------------------------------
  // Setup goroutines end

  /** How many of the actions are steps of the session's setup goroutine. */
  function Steps(actions: seq<Action>, sid: nat): nat {
    if actions == [] then 0
    else (if actions[0].Setup? && actions[0].sid == sid then 1 else 0) + Steps(actions[1..], sid)
  }

  function RankOf(w: World, sid: nat): nat {
    if sid < |w.sessions| then Rank(w.sessions[sid].pc) else 0
  }

  /** Only a setup step moves a goroutine. */
  predicate SamePlaces(w: World, w': World, sid: nat) {
    |w.sessions| <= |w'.sessions| && RankOf(w', sid) == RankOf(w, sid) && w'.crashed == w.crashed
  }

  lemma BeginTearMovesNobody(w: World, job: Job, ident: Ident, sid: nat)
    ensures SamePlaces(w, BeginTear(w, job, ident), sid)
  {
  }

  lemma TearMovesNobody(w: World, sid: nat)
    requires TearEnabled(w)
    ensures SamePlaces(w, TearStep(w), sid)
  {
    hide Rank;
    if w.holder.Tears? && w.holder.stage.CloseConn? {
      var s := Hanging(w.sessions[w.holder.sid]);
      var w' := Put(w, w.holder.sid, s).(controls := w.controls - {s.ident});
      assert SamePlaces(w, w', sid);
      FinishMovesNobody(w', w.holder.job, sid);
    }
  }

  lemma FinishMovesNobody(w: World, job: Job, sid: nat)
    ensures SamePlaces(w, Finish(w, job), sid)
  {
  }

  lemma PlaceAfter(pc: Pc, attached: bool, cancelled: bool, outcome: Outcome)
    ensures IsLocal(pc) ==> Rank(pc) < Rank(NextPc(pc, attached, cancelled, outcome))
    ensures Rank(Joining) < Rank(OpeningMedia) < Rank(Settling) < Rank(Attaching) < Rank(ClosingDrive)
    ensures Rank(ClosingDrive) < Rank(Detaching(true)) < Rank(ClosingConn) < Rank(Ended) == 22
    ensures Rank(DialFailed) < Rank(Joining)
    ensures !pc.Ended? ==> Rank(pc) < 22
  {
  }

  lemma LocalPlace(s: Session, cancelled: bool, outcome: Outcome, serial: string)
    ensures Local(s, cancelled, outcome, serial).pc == NextPc(s.pc, s.media.field, cancelled, outcome)
  {
  }

  ghost predicate MovedOn(w: World, w': World, sid: nat)
    requires sid < |w.sessions|
  {
    if w'.crashed then w' == w.(crashed := true) && w.sessions[sid].driveVar.TypedNil?
    else sid < |w'.sessions| && Rank(w'.sessions[sid].pc) > Rank(w.sessions[sid].pc)
  }

  lemma LocalMovesOn(w: World, sid: nat, outcome: Outcome, serial: string)
    requires SetupEnabled(w, sid) && !w.crashed && IsLocal(w.sessions[sid].pc)
    ensures MovedOn(w, SetupStep(w, sid, outcome, serial), sid)
  {
    hide Rank, NextPc, Local, Cancelled;
    var s := w.sessions[sid];
    PlaceAfter(s.pc, s.media.field, Cancelled(w, sid), outcome);
    LocalPlace(s, Cancelled(w, sid), outcome, serial);
  }

  lemma JoinMovesOn(w: World, sid: nat)
    requires sid < |w.sessions| && !w.crashed && w.sessions[sid].pc.Joining?
    ensures MovedOn(w, Join(w, sid), sid)
  {
    hide Current, Cancelled, Rank;
    PlaceAfter(Joining, false, false, Fails);
  }

  lemma SettleMovesOn(w: World, sid: nat)
    requires sid < |w.sessions| && !w.crashed && w.sessions[sid].pc.Settling?
    ensures MovedOn(w, Settle(w, sid), sid)
  {
    hide Current, Cancelled, Rank;
    PlaceAfter(Settling, false, false, Fails);
  }

  lemma LastMovesOn(w: World, sid: nat, outcome: Outcome)
    requires sid < |w.sessions| && !w.crashed
    ensures w.sessions[sid].pc.DialFailed? ==> MovedOn(w, Abandon(w, sid), sid)
    ensures w.sessions[sid].pc.Attaching? ==> MovedOn(w, Attach(w, sid, outcome), sid)
  {
    hide Current, Reported;
  }

  lemma LockedMovesOn(w: World, sid: nat, outcome: Outcome, serial: string)
    requires SetupEnabled(w, sid) && !w.crashed && !IsLocal(w.sessions[sid].pc)
    ensures MovedOn(w, SetupStep(w, sid, outcome, serial), sid)
  {
    hide Abandon, Join, Settle, Attach, MovedOn;
    if w.sessions[sid].pc.Joining? {
      JoinMovesOn(w, sid);
    } else if w.sessions[sid].pc.Settling? {
      SettleMovesOn(w, sid);
    } else {
      LastMovesOn(w, sid, outcome);
    }
  }

  /** Every step of a setup goroutine moves it forward, except the one that panics. */
  lemma OwnMovesOn(w: World, sid: nat, outcome: Outcome, serial: string)
    requires SetupEnabled(w, sid) && !w.crashed
    ensures MovedOn(w, SetupStep(w, sid, outcome, serial), sid)
  {
    hide MovedOn, SetupStep;
    if IsLocal(w.sessions[sid].pc) {
      LocalMovesOn(w, sid, outcome, serial);
    } else {
      LockedMovesOn(w, sid, outcome, serial);
    }
  }

  lemma SetupMovesOn(w: World, sid: nat, outcome: Outcome, serial: string, k: nat)
    requires Inv(w) && SetupEnabled(w, sid) && !w.crashed
    ensures var w' := SetupStep(w, sid, outcome, serial);
      && |w'.sessions| == |w.sessions|
      && (k != sid ==> RankOf(w', k) == RankOf(w, k))
      && RankOf(w, sid) < 22
      && (if w'.crashed then RankOf(w', sid) == RankOf(w, sid) else RankOf(w', sid) > RankOf(w, sid))
  {
    hide SessionOk, SetupStep, Rank;
    assert SessionOk(w.sessions[sid], ViewOf(w, sid));
    SetupKeepsOwn(w, sid, outcome, serial);
    OwnMovesOn(w, sid, outcome, serial);
    PlaceAfter(w.sessions[sid].pc, false, false, outcome);
  }

  lemma OthersMoveNobody(w: World, a: Action, sid: nat)
    requires Enabled(w, a) && !a.Setup?
    ensures SamePlaces(w, Apply(w, a), sid)
  {
    hide TearEnabled, TearStep, BeginTear, SetupEnabled, Rank;
    match a {
      case StartSession(ident) => BeginTearMovesNobody(w, Replace(ident), ident, sid);
      case DeviceDisconnected(ident) =>
        BeginTearMovesNobody(w.(devices := w.devices - {ident}), Disconnect, ident, sid);
      case ShutdownKart(ident) =>
        BeginTearMovesNobody(w.(devices := w.devices - {ident}), Shutdown, ident, sid);
      case ClearNext(ident) => BeginTearMovesNobody(w, Clear, ident, sid);
      case Tear => TearMovesNobody(w, sid);
      case _ =>
    }
  }

  lemma {:induction false} StepsBound(w: World, actions: seq<Action>, w': World, sid: nat)
    requires Inv(w) && !w.crashed && Run(w, actions, w')
    ensures Steps(actions, sid) + RankOf(w, sid) <= RankOf(w', sid)
        + (if w'.crashed && RankOf(w', sid) < 22 then 1 else 0)
    decreases |actions|
  {
    hide Inv, SetupEnabled, SetupStep, TearEnabled, TearStep, BeginTear, RankOf;
    if actions != [] {
      var a, w1 := actions[0], Apply(w, actions[0]);
      ActionKeepsInv(w, a);
      if a.Setup? {
        SetupMovesOn(w, a.sid, a.outcome, a.serial, sid);
      } else {
        OthersMoveNobody(w, a, sid);
      }
      if w1.crashed {
        assert actions[1..] == [];
      } else {
        StepsBound(w1, actions[1..], w', sid);
      }
    }
  }

  /** However a run interleaves, a session's setup goroutine takes at most 22 steps in it. */
  lemma SetupEnds(actions: seq<Action>, w: World, sid: nat)
    requires Run(EMPTY, actions, w)
    ensures Steps(actions, sid) <= 22
  {
    RunKeepsInv(EMPTY, [], EMPTY);
    hide Inv, Run, Steps;
    StepsBound(EMPTY, actions, w, sid);
  }

  // ---------------------------------------------------------------------------------------------------------
  // No deadlock

  /** Whoever holds the lock that m.mu's holder waits for, or the holder itself: its next action. */
  ghost function Unblock(w: World): (a: Action)
    requires w.holder != Free
    requires w.holder.Settles? ==> w.holder.sid < |w.sessions|
    requires w.holder.Tears? ==> w.holder.sid < |w.sessions|
  {
    match w.holder
    case Clears => if w.controls == map[] then Tear else var ident :| ident in w.controls; ClearNext(ident)
    case Settles(sid) => if w.sessions[sid].commanding then CommandEnds(sid) else Setup(sid, Succeeds, "")
    case Tears(_, sid, stage) =>
      if !stage.TakeFields? || DcFree(w.sessions[sid]) then Tear
      else if w.sessions[sid].commanding then CommandEnds(sid)
      else Setup(sid, Succeeds, "")
  }

  /**
   * In every reachable world m.mu will be released: its holder can go on, or the party that holds the dc.mu it
   * waits for can, and that party needs no lock of its own.
   */
  lemma NoDeadlock(actions: seq<Action>, w: World)
    requires Run(EMPTY, actions, w) && !w.crashed && w.holder != Free
    ensures (w.holder.Settles? || w.holder.Tears?) ==> w.holder.sid < |w.sessions|
    ensures Enabled(w, Unblock(w))
  {
    RunKeepsInv(EMPTY, actions, w);
    if w.holder.Settles? {
      SettlesIsAttaching(w);
    }
  }

  lemma SettlesIsAttaching(w: World)
    requires Inv(w) && w.holder.Settles?
    ensures w.sessions[w.holder.sid].pc.Attaching?
  {
    hide ConnOk, MediaOk, DriveOk, LinkOk;
    assert SessionOk(w.sessions[w.holder.sid], ViewOf(w, w.holder.sid));
    assert ViewOf(w, w.holder.sid).attaching;
    assert Rank(w.sessions[w.holder.sid].pc) == 17;
  }

  lemma RunSnoc(w: World, actions: seq<Action>, w': World, a: Action)
    requires Run(w, actions, w') && Enabled(w', a)
    ensures Run(w, actions + [a], Apply(w', a))
    decreases |actions|
  {
    hide Enabled, Apply;
    if actions == [] {
      assert [a][1..] == [] && Run(Apply(w, a), [], Apply(w, a));
    } else {
      assert (actions + [a])[1..] == actions[1..] + [a];
      RunSnoc(Apply(w, actions[0]), actions[1..], w', a);
    }
  }

  /** Who besides m.mu's holder keeps the session's dc.mu. */
  function Busy(s: Session): nat {
    (if s.commanding then 1 else 0) + (if s.pc.StoringMedia? then 1 else 0)
  }

  /** Of the sessions still to be torn down before m.mu is free, not counting the one at hand. */
  function Waiting(w: World, job: Job, torn: nat): nat {
    if job.Clear? then 1 + 6 * (if |w.controls| > torn then |w.controls| - torn else 0) else 0
  }

  /** How many actions can still pass before m.mu is free, once its holder and those it waits for go on. */
  function Left(w: World): nat
    requires w.holder.Settles? || w.holder.Tears? ==> w.holder.sid < |w.sessions|
  {
    match w.holder
    case Free => 0
    case Settles(sid) => 1 + Busy(w.sessions[sid])
    case Clears => 1 + 6 * |w.controls|
    case Tears(job, sid, TakeFields) => 3 + Busy(w.sessions[sid]) + Waiting(w, job, 1)
    case Tears(job, _, CloseMedia(_)) => 2 + Waiting(w, job, 1)
    case Tears(job, _, CloseConn) => 1 + Waiting(w, job, 1)
  }

  predicate HolderKnown(w: World) {
    w.holder.Settles? || w.holder.Tears? ==> w.holder.sid < |w.sessions|
  }

  lemma InvKnowsHolder(w: World)
    requires Inv(w)
    ensures HolderKnown(w)
  {
  }

  /** Each of these actions brings the release of m.mu nearer. */
  ghost predicate Nearer(w: World, w': World)
    requires HolderKnown(w)
  {
    w'.crashed || (HolderKnown(w') && Left(w') < Left(w))
  }

  lemma TearStageIsNearer(w: World)
    requires TearEnabled(w) && HolderKnown(w) && w.holder.Tears? && !w.holder.stage.CloseConn?
    ensures Nearer(w, TearStep(w))
  {
    hide Taking;
  }

  lemma CloseConnIsNearer(w: World)
    requires TearEnabled(w) && HolderKnown(w) && w.holder.Tears? && w.holder.stage.CloseConn?
        && Current(w, w.holder.sid)
    ensures Nearer(w, TearStep(w))
  {
    hide Finish, Current, Left;
    var sid := w.holder.sid;
    var s := Hanging(w.sessions[sid]);
    RemovesOne(w, sid);
    FinishIsNearer(Put(w, sid, s).(controls := w.controls - {s.ident}), w.holder.job);
    LeftAtCloseConn(w);
  }

  lemma RemovesOne(w: World, sid: nat)
    requires sid < |w.sessions| && Current(w, sid)
    ensures |w.controls - {w.sessions[sid].ident}| == |w.controls| - 1
  {
  }

  lemma LeftAtCloseConn(w: World)
    requires HolderKnown(w) && w.holder.Tears? && w.holder.stage.CloseConn?
    ensures Left(w) == 1 + Waiting(w, w.holder.job, 1)
  {
  }

  lemma TearIsNearer(w: World)
    requires Inv(w) && TearEnabled(w)
    ensures HolderKnown(w) && Nearer(w, TearStep(w))
  {
    InvKnowsHolder(w);
    hide Inv, TearStep, Nearer;
    if w.holder.Tears? {
      TornIsCurrent(w);
      if w.holder.stage.CloseConn? {
        CloseConnIsNearer(w);
      } else {
        TearStageIsNearer(w);
      }
    } else {
      ClearsIsDone(w);
    }
  }

  lemma ClearsIsDone(w: World)
    requires TearEnabled(w) && w.holder.Clears?
    ensures HolderKnown(w) && Nearer(w, TearStep(w))
  {
  }

  lemma FinishIsNearer(w: World, job: Job)
    ensures var w' := Finish(w, job); HolderKnown(w') && Left(w') <= Waiting(w, job, 0)
  {
  }

  lemma ClearIsNearer(w: World, ident: Ident)
    requires Inv(w) && w.holder.Clears? && ident in w.controls
    ensures HolderKnown(w) && Nearer(w, BeginTear(w, Clear, ident))
  {
    var sid := w.controls[ident];
    var s := w.sessions[sid].(cancelled := true);
    hide Inv;
    assert |w.controls| >= 1;
    var w' := Put(w, sid, s).(holder := Tears(Clear, sid, TakeFields));
    assert w'.sessions[sid] == s;
  }

  lemma CommandEndIsNearer(w: World, sid: nat)
    requires HolderKnown(w) && sid < |w.sessions| && w.sessions[sid].commanding
    requires w.holder == Settles(sid) || (w.holder.Tears? && w.holder.sid == sid && w.holder.stage.TakeFields?)
    ensures Nearer(w, Put(w, sid, w.sessions[sid].(commanding := false)))
  {
  }

  lemma StoringIsNearer(w: World, sid: nat)
    requires HolderKnown(w) && w.holder.Tears? && w.holder.sid == sid && w.holder.stage.TakeFields?
    requires w.sessions[sid].pc.StoringMedia?
    ensures Nearer(w, SetupStep(w, sid, Succeeds, ""))
  {
    hide ConnAfter, MediaAfter, DriveAfter, DriveVarAfter;
  }

  lemma AttachIsNearer(w: World, sid: nat)
    requires HolderKnown(w) && w.holder == Settles(sid)
    ensures Nearer(w, Attach(w, sid, Succeeds))
  {
  }

  lemma SetupApplied(w: World, sid: nat, outcome: Outcome)
    requires !w.crashed && SetupEnabled(w, sid)
    ensures Enabled(w, Setup(sid, outcome, "")) && Apply(w, Setup(sid, outcome, "")) == SetupStep(w, sid, outcome, "")
  {
    hide SetupEnabled, SetupStep;
  }

  lemma AttachingStep(w: World, sid: nat)
    requires sid < |w.sessions| && w.sessions[sid].pc.Attaching? && w.holder == Settles(sid) && DcFree(w.sessions[sid])
    ensures SetupEnabled(w, sid) && SetupStep(w, sid, Succeeds, "") == Attach(w, sid, Succeeds)
  {
    hide Attach;
  }

  lemma CommandEndApplied(w: World, sid: nat)
    requires !w.crashed && sid < |w.sessions| && w.sessions[sid].commanding
    ensures Enabled(w, CommandEnds(sid))
    ensures Apply(w, CommandEnds(sid)) == Put(w, sid, w.sessions[sid].(commanding := false))
  {
  }

  lemma TearApplied(w: World)
    requires !w.crashed && TearEnabled(w)
    ensures Enabled(w, Tear) && Apply(w, Tear) == TearStep(w)
  {
    hide TearEnabled, TearStep;
  }

  lemma UnblockSettles(w: World)
    requires Inv(w) && !w.crashed && w.holder.Settles?
    ensures HolderKnown(w) && Enabled(w, Unblock(w)) && Nearer(w, Apply(w, Unblock(w)))
  {
    hide Inv, Enabled, Apply, SetupEnabled, SetupStep, Attach, Nearer, Put;
    InvKnowsHolder(w);
    SettlesIsAttaching(w);
    var sid := w.holder.sid;
    if w.sessions[sid].commanding {
      CommandEndApplied(w, sid);
      CommandEndIsNearer(w, sid);
    } else {
      AttachingStep(w, sid);
      SetupApplied(w, sid, Succeeds);
      AttachIsNearer(w, sid);
    }
  }

  lemma UnblockTears(w: World)
    requires Inv(w) && !w.crashed && w.holder.Tears?
    ensures HolderKnown(w) && Enabled(w, Unblock(w)) && Nearer(w, Apply(w, Unblock(w)))
  {
    hide Inv, Enabled, Apply, SetupStep, TearStep, Nearer, Put;
    InvKnowsHolder(w);
    var sid := w.holder.sid;
    if TearEnabled(w) {
      TearApplied(w);
      TearIsNearer(w);
    } else if w.sessions[sid].commanding {
      CommandEndApplied(w, sid);
      CommandEndIsNearer(w, sid);
    } else {
      SetupApplied(w, sid, Succeeds);
      StoringIsNearer(w, sid);
    }
  }

  lemma ClearNextApplied(w: World, ident: Ident)
    requires !w.crashed && w.holder.Clears? && ident in w.controls
    ensures Enabled(w, ClearNext(ident)) && Apply(w, ClearNext(ident)) == BeginTear(w, Clear, ident)
  {
    hide BeginTear;
  }

  lemma UnblockClears(w: World)
    requires Inv(w) && !w.crashed && w.holder.Clears?
    ensures HolderKnown(w) && Enabled(w, Unblock(w)) && Nearer(w, Apply(w, Unblock(w)))
  {
    hide Inv, Enabled, Apply, TearStep, BeginTear, Nearer;
    InvKnowsHolder(w);
    if w.controls == map[] {
      TearApplied(w);
      TearIsNearer(w);
    } else {
      var ident := Unblock(w).ident;
      ClearNextApplied(w, ident);
      ClearIsNearer(w, ident);
    }
  }

  lemma UnblockIsNearer(w: World)
    requires Inv(w) && !w.crashed && w.holder != Free
    ensures HolderKnown(w) && Enabled(w, Unblock(w)) && Nearer(w, Apply(w, Unblock(w)))
  {
    InvKnowsHolder(w);
    hide Inv, Enabled, Apply, Nearer, Unblock, HolderKnown;
    match w.holder {
      case Settles(_) => UnblockSettles(w);
      case Tears(_, _, _) => UnblockTears(w);
      case Clears => UnblockClears(w);
    }
  }

  /** m.mu is free after at most `Left(w)` actions of its holder and of those that hold what it waits for. */
  lemma {:induction false} LockReleased(w: World) returns (actions: seq<Action>, w': World)
    requires Inv(w) && !w.crashed
    ensures HolderKnown(w) && |actions| <= Left(w) && Run(w, actions, w')
    ensures w'.holder == Free || w'.crashed
    decreases if HolderKnown(w) then Left(w) else 0
  {
    InvKnowsHolder(w);
    hide Inv, Enabled, Apply, Unblock;
    if w.holder == Free {
      actions, w' := [], w;
    } else {
      UnblockIsNearer(w);
      var next := Apply(w, Unblock(w));
      if next.crashed {
        actions, w' := [Unblock(w)], next;
        RunSnoc(w, [], w, Unblock(w));
        assert [] + [Unblock(w)] == [Unblock(w)];
      } else {
        ActionKeepsInv(w, Unblock(w));
        var more;
        more, w' := LockReleased(next);
        actions := [Unblock(w)] + more;
        assert actions[1..] == more;
      }
    }
  }

  /** With m.mu and its dc.mu free, a setup goroutine that has not ended can take its next step. */
  lemma SetupWaitsOnlyForLocks(actions: seq<Action>, w: World, sid: nat)
    requires Run(EMPTY, actions, w) && !w.crashed && sid < |w.sessions|
    requires w.holder == Free && !w.sessions[sid].commanding && !w.sessions[sid].pc.Ended?
    ensures Enabled(w, Setup(sid, Succeeds, ""))
  {
    hide Run, Inv, ConnOk, MediaOk, DriveOk, LinkOk;
    Reachable(actions, w, sid);
    assert !ViewOf(w, sid).attaching;
  }

  // ---------------------------------------------------------------------------------------------------------
  // The drive sender

  /**
   * A failed sender that left a typed nil behind is fatal: its goroutine never ends, and the first use of the
   * sender panics, taking the daemon down.
   */
  lemma TypedNilIsFatal(actions: seq<Action>, w: World, sid: nat, outcome: Outcome, serial: string)
    requires Run(EMPTY, actions, w) && sid < |w.sessions| && w.sessions[sid].driveVar.TypedNil?
    ensures w.sessions[sid].pc.Settling? || w.sessions[sid].pc.Attaching? || w.sessions[sid].pc.ClosingDrive?
    ensures Enabled(w, Setup(sid, outcome, serial)) && !w.sessions[sid].pc.Settling?
        ==> Apply(w, Setup(sid, outcome, serial)).crashed
  {
    hide Run, Inv, ConnOk, MediaOk, LocksOk, LinkOk;
    Reachable(actions, w, sid);
    assert 16 <= Rank(w.sessions[sid].pc) <= 18;
  }

  /**
   Wherever a run has come to, a sender that fails that way takes the daemon down with the next two steps of its
   goroutine, whether its session is still current or not.
   */
  lemma FailedSenderPanics(w: World, sid: nat)
    requires Inv(w) && !w.crashed && w.holder == Free && sid < |w.sessions|
    requires w.sessions[sid].pc.OpeningDrive? && DcFree(w.sessions[sid])
    ensures exists w' :: Run(w, OwnSteps(sid), w') && w'.crashed
  {
    var w1 := Apply(w, Setup(sid, FailsTyped, ""));
    OpensTypedNil(w, sid);
    SettlesWithTypedNil(w1, sid);
    var w2 := Apply(w1, Setup(sid, Succeeds, ""));
    var w3 := Apply(w2, Setup(sid, Succeeds, ""));
    hide Inv, Apply, Enabled;
    assert Run(w, [], w);
    RunSnoc(w, [], w, Setup(sid, FailsTyped, ""));
    RunSnoc(w, [] + [Setup(sid, FailsTyped, "")], w1, Setup(sid, Succeeds, ""));
    RunSnoc(w, [] + [Setup(sid, FailsTyped, "")] + [Setup(sid, Succeeds, "")], w2, Setup(sid, Succeeds, ""));
    assert [] + [Setup(sid, FailsTyped, "")] + [Setup(sid, Succeeds, "")] + [Setup(sid, Succeeds, "")] == OwnSteps(sid);
  }

  /** The sender fails to open, and the goroutine goes on twice. */
  function OwnSteps(sid: nat): seq<Action> {
    [Setup(sid, FailsTyped, ""), Setup(sid, Succeeds, ""), Setup(sid, Succeeds, "")]
  }

  lemma OpensTypedNil(w: World, sid: nat)
    requires !w.crashed && w.holder == Free && sid < |w.sessions|
    requires w.sessions[sid].pc.OpeningDrive? && DcFree(w.sessions[sid])
    ensures Enabled(w, Setup(sid, FailsTyped, ""))
    ensures var w' := Apply(w, Setup(sid, FailsTyped, ""));
            && !w'.crashed && w'.holder == Free && sid < |w'.sessions|
            && w'.sessions[sid].pc.Settling? && w'.sessions[sid].driveVar.TypedNil? && DcFree(w'.sessions[sid])
  {
    hide ConnAfter, MediaAfter, DriveAfter;
  }

  lemma SettlesWithTypedNil(w: World, sid: nat)
    requires !w.crashed && w.holder == Free && sid < |w.sessions|
    requires w.sessions[sid].pc.Settling? && w.sessions[sid].driveVar.TypedNil? && DcFree(w.sessions[sid])
    ensures Enabled(w, Setup(sid, Succeeds, ""))
    ensures var w' := Apply(w, Setup(sid, Succeeds, ""));
            Enabled(w', Setup(sid, Succeeds, "")) && Apply(w', Setup(sid, Succeeds, "")).crashed
  {
    hide Enabled, Apply, Settle, SetupEnabled, SetupStep;
    SettlingStep(w, sid);
    SettledWithNil(w, sid);
    SetupApplied(w, sid, Succeeds);
    var w' := Settle(w, sid);
    NilStep(w', sid);
    SetupApplied(w', sid, Succeeds);
  }

  lemma SettlingStep(w: World, sid: nat)
    requires w.holder == Free && sid < |w.sessions|
    requires w.sessions[sid].pc.Settling?
    ensures SetupEnabled(w, sid) && SetupStep(w, sid, Succeeds, "") == Settle(w, sid)
  {
    hide Settle;
  }

  lemma SettledWithNil(w: World, sid: nat)
    requires !w.crashed && sid < |w.sessions| && w.sessions[sid].driveVar.TypedNil? && DcFree(w.sessions[sid])
    ensures var w' := Settle(w, sid);
            && !w'.crashed && sid < |w'.sessions| && w'.sessions[sid].driveVar.TypedNil? && DcFree(w'.sessions[sid])
            && (w'.sessions[sid].pc.ClosingDrive? || (w'.sessions[sid].pc.Attaching? && w'.holder == Settles(sid)))
  {
    hide Current, Cancelled;
    var s := w.sessions[sid];
    if Current(w, sid) && !Cancelled(w, sid) {
      assert Settle(w, sid) == Put(w, sid, s.(pc := Attaching)).(holder := Settles(sid));
    } else {
      assert Settle(w, sid) == Put(w, sid, s.(pc := ClosingDrive));
    }
  }

  lemma NilStep(w: World, sid: nat)
    requires sid < |w.sessions| && w.sessions[sid].driveVar.TypedNil? && DcFree(w.sessions[sid])
    requires w.sessions[sid].pc.ClosingDrive? || (w.sessions[sid].pc.Attaching? && w.holder == Settles(sid))
    ensures SetupEnabled(w, sid) && SetupStep(w, sid, Succeeds, "").crashed
  {
    hide Local;
  }

  /** Such a run exists: one kart, whose media and then whose sender cannot be opened. */
  lemma CrashIsReachable()
    ensures exists actions, w :: Run(EMPTY, actions, w) && w.crashed
  {
    var actions := [Register("k")];
    var w := Apply(EMPTY, Register("k"));
    assert Run(EMPTY, [], EMPTY);
    RunSnoc(EMPTY, [], EMPTY, Register("k"));
    assert [] + [Register("k")] == actions;
    var started := Apply(w, StartSession("k"));
    RunSnoc(EMPTY, actions, w, StartSession("k"));
    assert started.sessions == [Fresh("k")] && started.controls == map["k" := 0] && started.holder == Free;
    var opening := OpensNothing(EMPTY, actions + [StartSession("k")], started);
    var steps :| Run(EMPTY, steps, opening);
    RunKeepsInv(EMPTY, steps, opening);
    FailedSenderPanics(opening, 0);
    var crashed :| Run(opening, OwnSteps(0), crashed) && crashed.crashed;
    RunJoin(EMPTY, steps, opening, OwnSteps(0), crashed);
  }

  /** The first session of a daemon, up to the point where it opens its sender, without media. */
  lemma OpensNothing(w0: World, actions: seq<Action>, w: World) returns (opening: World)
    requires Run(w0, actions, w) && !w.crashed && !w.baseCancelled && w.holder == Free
    requires w.sessions == [Fresh("k")] && w.controls == map["k" := 0]
    ensures exists steps :: Run(w0, steps, opening)
    ensures !opening.crashed && opening.holder == Free && |opening.sessions| == 1
    ensures opening.sessions[0].pc.OpeningDrive? && DcFree(opening.sessions[0])
  {
    hide Apply, Enabled, Run;
    var dial, probe, fail := Setup(0, Succeeds, ""), Setup(0, Fails, ""), Setup(0, Fails, "");
    var w1 := FirstStep(w, Dialing, dial, Probing);
    var w2 := FirstStep(w1, Probing, probe, Joining);
    var w3 := FirstStep(w2, Joining, dial, OpeningMedia);
    opening := FirstStep(w3, OpeningMedia, fail, OpeningDrive);
    RunSnoc(w0, actions, w, dial);
    RunSnoc(w0, actions + [dial], w1, probe);
    RunSnoc(w0, actions + [dial] + [probe], w2, dial);
    RunSnoc(w0, actions + [dial] + [probe] + [dial], w3, fail);
  }

  /** The only session of a daemon, current and undisturbed. */
  predicate Alone(w: World, pc: Pc) {
    && !w.crashed && !w.baseCancelled && w.holder == Free && |w.sessions| == 1
    && w.sessions[0].ident == "k" && w.controls == map["k" := 0]
    && w.sessions[0].pc == pc && !w.sessions[0].cancelled && !w.sessions[0].commanding
  }

  lemma FirstStep(w: World, from: Pc, a: Action, to: Pc) returns (w': World)
    requires Alone(w, from) && a.Setup? && a.sid == 0
    requires from.Dialing? || from.Probing? || from.Joining? || from.OpeningMedia?
    requires if from.Joining? then to.OpeningMedia? else to == NextPc(from, false, false, a.outcome)
    ensures Enabled(w, a) && w' == Apply(w, a) && Alone(w', to)
  {
    hide BeginTear, TearStep, TearEnabled, Abandon, Settle, Attach, ConnAfter, MediaAfter, DriveAfter, DriveVarAfter;
    w' := Apply(w, a);
  }

  lemma {:induction false} RunJoin(w: World, a: seq<Action>, w': World, b: seq<Action>, w'': World)
    requires Run(w, a, w') && Run(w', b, w'')
    ensures Run(w, a + b, w'')
    decreases |a|
  {
    hide Enabled, Apply;
    if a == [] {
      assert a + b == b;
    } else {
      assert (a + b)[1..] == a[1..] + b;
      RunJoin(Apply(w, a[0]), a[1..], w', b, w'');
    }
  }

  /** The goroutine opens its drive sender, and what it gets is a typed nil. */
  predicate FailsToOpen(w: World, a: Action) {
    && a.Setup? && a.outcome.FailsTyped?
    && a.sid < |w.sessions| && w.sessions[a.sid].pc.OpeningDrive?
  }

  /** At some step of the run a drive sender fails to open. */
  ghost predicate SomeSenderFails(w: World, actions: seq<Action>)
    decreases |actions|
  {
    && actions != [] && Enabled(w, actions[0])
    && (FailsToOpen(w, actions[0]) || SomeSenderFails(Apply(w, actions[0]), actions[1..]))
  }

  ghost predicate NoTypedNil(w: World) {
    forall sid :: 0 <= sid < |w.sessions| ==> !w.sessions[sid].driveVar.TypedNil?
  }

  /** One session is rewritten without touching its drive variable. */
  predicate SameVar(w: World, w': World, sid: nat)
    requires sid < |w.sessions|
  {
    && |w'.sessions| == |w.sessions| && w'.sessions == w.sessions[sid := w'.sessions[sid]]
    && w'.sessions[sid].driveVar == w.sessions[sid].driveVar && w'.crashed == w.crashed
  }

  lemma SameVarKeeps(w: World, w': World, sid: nat)
    requires sid < |w.sessions| && SameVar(w, w', sid) && NoTypedNil(w)
    ensures NoTypedNil(w') && w'.crashed == w.crashed
  {
  }

  lemma FinishKeepsVars(w: World, job: Job)
    requires NoTypedNil(w)
    ensures NoTypedNil(Finish(w, job)) && Finish(w, job).crashed == w.crashed
  {
  }

  lemma TearKeepsVars(w: World)
    requires TearEnabled(w) && NoTypedNil(w)
    ensures NoTypedNil(TearStep(w)) && TearStep(w).crashed == w.crashed
  {
    hide DcFree, NoTypedNil, Finish;
    if w.holder.Tears? {
      var sid := w.holder.sid;
      if w.holder.stage.CloseConn? {
        var w1 := Put(w, sid, Hanging(w.sessions[sid])).(controls := w.controls - {w.sessions[sid].ident});
        assert SameVar(w, w1, sid);
        SameVarKeeps(w, w1, sid);
        FinishKeepsVars(w1, w.holder.job);
      } else {
        assert SameVar(w, TearStep(w), sid);
        SameVarKeeps(w, TearStep(w), sid);
      }
    } else {
      SameSessionsKeep(w, TearStep(w));
    }
  }

  lemma SameSessionsKeep(w: World, w': World)
    requires NoTypedNil(w) && w'.sessions == w.sessions
    ensures NoTypedNil(w')
  {
  }

  lemma BeginTearKeepsVars(w: World, job: Job, ident: Ident)
    requires NoTypedNil(w)
    ensures NoTypedNil(BeginTear(w, job, ident)) && BeginTear(w, job, ident).crashed == w.crashed
  {
    hide NoTypedNil, Finish;
    if ident in w.controls && w.controls[ident] < |w.sessions| {
      SameVarKeeps(w, BeginTear(w, job, ident), w.controls[ident]);
    } else {
      FinishKeepsVars(w, job);
    }
  }

  lemma LocalKeepsVar(s: Session, cancelled: bool, outcome: Outcome, serial: string)
    requires !s.driveVar.TypedNil? && !(s.pc.OpeningDrive? && outcome.FailsTyped?)
    ensures !Local(s, cancelled, outcome, serial).driveVar.TypedNil?
  {
    hide NextPc, ConnAfter, MediaAfter, DriveAfter;
  }

  lemma LocalStepKeepsVars(w: World, sid: nat, s: Session)
    requires sid < |w.sessions| && NoTypedNil(w) && !s.driveVar.TypedNil?
    ensures NoTypedNil(Put(w, sid, s)) && Put(w, sid, s).crashed == w.crashed
  {
  }

  lemma AbandonSameVar(w: World, sid: nat)
    requires sid < |w.sessions|
    ensures SameVar(w, Abandon(w, sid), sid)
  {
    hide Current;
  }

  lemma LookBackSameVar(w: World, sid: nat)
    requires sid < |w.sessions|
    ensures SameVar(w, Join(w, sid), sid) && SameVar(w, Settle(w, sid), sid)
  {
    hide Current, Cancelled;
  }

  lemma AttachSameVar(w: World, sid: nat, outcome: Outcome)
    requires sid < |w.sessions| && !w.sessions[sid].driveVar.TypedNil?
    ensures SameVar(w, Attach(w, sid, outcome), sid)
  {
    hide Reported;
  }

  lemma SetupKeepsVars(w: World, sid: nat, outcome: Outcome, serial: string)
    requires SetupEnabled(w, sid) && NoTypedNil(w) && !FailsToOpen(w, Setup(sid, outcome, serial))
    ensures NoTypedNil(SetupStep(w, sid, outcome, serial)) && SetupStep(w, sid, outcome, serial).crashed == w.crashed
  {
    var s := w.sessions[sid];
    assert !s.driveVar.TypedNil?;
    hide Local, Cancelled, Abandon, Join, Settle, Attach, Put, NoTypedNil, SameVar;
    match s.pc {
      case DialFailed =>
        AbandonSameVar(w, sid);
        SameVarKeeps(w, Abandon(w, sid), sid);
      case Joining =>
        LookBackSameVar(w, sid);
        SameVarKeeps(w, Join(w, sid), sid);
      case Settling =>
        LookBackSameVar(w, sid);
        SameVarKeeps(w, Settle(w, sid), sid);
      case Attaching =>
        AttachSameVar(w, sid, outcome);
        SameVarKeeps(w, Attach(w, sid, outcome), sid);
      case _ =>
        LocalKeepsVar(s, Cancelled(w, sid), outcome, serial);
        LocalStepKeepsVars(w, sid, Local(s, Cancelled(w, sid), outcome, serial));
    }
  }

  /** As long as no sender fails to open there is no typed nil, and nothing panics. */
  lemma ActionKeepsVars(w: World, a: Action)
    requires Enabled(w, a) && NoTypedNil(w) && !FailsToOpen(w, a)
    ensures NoTypedNil(Apply(w, a)) && !Apply(w, a).crashed
  {
    hide SetupEnabled, SetupStep, TearEnabled, TearStep, BeginTear;
    match a {
      case StartSession(ident) => BeginTearKeepsVars(w, Replace(ident), ident);
      case DeviceDisconnected(ident) => BeginTearKeepsVars(w.(devices := w.devices - {ident}), Disconnect, ident);
      case ShutdownKart(ident) => BeginTearKeepsVars(w.(devices := w.devices - {ident}), Shutdown, ident);
      case ClearNext(ident) => BeginTearKeepsVars(w, Clear, ident);
      case Tear => TearKeepsVars(w);
      case Setup(sid, outcome, serial) => SetupKeepsVars(w, sid, outcome, serial);
      case _ =>
    }
  }

  /** A run that starts without a typed nil panics only if a drive sender fails to open on the way. */
  lemma {:induction false} CrashNeedsTypedNil(w: World, actions: seq<Action>, w': World)
    requires NoTypedNil(w) && !w.crashed && Run(w, actions, w')
    ensures w'.crashed || !NoTypedNil(w') ==> SomeSenderFails(w, actions)
    decreases |actions|
  {
    hide Enabled, Apply, FailsToOpen, NoTypedNil;
    if actions != [] && !FailsToOpen(w, actions[0]) {
      ActionKeepsVars(w, actions[0]);
      CrashNeedsTypedNil(Apply(w, actions[0]), actions[1..], w');
    }
  }

  /** The sender in a deviceControl is neither closed nor taken away by this step. */
  ghost predicate DriveStays(w: World, w': World, sid: nat)
    requires sid < |w.sessions|
  {
    && sid < |w'.sessions|
    && w'.sessions[sid].drive.field == w.sessions[sid].drive.field
    && (w.sessions[sid].drive.field ==> w'.sessions[sid].drive == w.sessions[sid].drive)
  }

  lemma LocalDriveStays(s: Session, v: View, cancelled: bool, outcome: Outcome, serial: string)
    requires SessionOk(s, v)
    requires s.pc.ClosingDrive? ==> s.driveVar.Live?
    ensures var s' := Local(s, cancelled, outcome, serial);
      s'.drive.field == s.drive.field && (s.drive.field ==> s'.drive == s.drive)
  {
    hide ConnOk, MediaOk, LocksOk, LinkOk, NextPc, ConnAfter, MediaAfter;
  }

  lemma AbandonDriveStays(w: World, sid: nat)
    requires sid < |w.sessions|
    ensures DriveStays(w, Abandon(w, sid), sid)
  {
    hide Current;
  }

  lemma LookBackDriveStays(w: World, sid: nat)
    requires sid < |w.sessions|
    ensures DriveStays(w, Join(w, sid), sid) && DriveStays(w, Settle(w, sid), sid)
  {
    hide Current, Cancelled;
  }

  lemma LocalStepDriveStays(w: World, sid: nat, outcome: Outcome, serial: string)
    requires sid < |w.sessions| && SessionOk(w.sessions[sid], ViewOf(w, sid))
    requires w.sessions[sid].pc.ClosingDrive? ==> !w.sessions[sid].driveVar.TypedNil?
    ensures DriveStays(w, Put(w, sid, Local(w.sessions[sid], Cancelled(w, sid), outcome, serial)), sid)
  {
    hide SessionOk, Local, Cancelled;
    if w.sessions[sid].pc.ClosingDrive? {
      ClosesALiveDrive(w.sessions[sid], ViewOf(w, sid));
    }
    LocalDriveStays(w.sessions[sid], ViewOf(w, sid), Cancelled(w, sid), outcome, serial);
  }

  lemma OwnDriveStays(w: World, sid: nat, outcome: Outcome, serial: string)
    requires SetupEnabled(w, sid) && w.sessions[sid].commanding && SessionOk(w.sessions[sid], ViewOf(w, sid))
    ensures DriveStays(w, SetupStep(w, sid, outcome, serial), sid)
  {
    hide SessionOk, Local, Abandon, Join, Settle, Attach, Put;
    AbandonDriveStays(w, sid);
    LookBackDriveStays(w, sid);
    if w.sessions[sid].pc.ClosingDrive? ==> !w.sessions[sid].driveVar.TypedNil? {
      LocalStepDriveStays(w, sid, outcome, serial);
    }
  }

  lemma SetupDriveStays(w: World, k: nat, outcome: Outcome, serial: string, sid: nat)
    requires Inv(w) && SetupEnabled(w, k) && sid < |w.sessions| && w.sessions[sid].commanding
    ensures DriveStays(w, SetupStep(w, k, outcome, serial), sid)
  {
    hide SessionOk, SetupStep;
    assert SessionOk(w.sessions[k], ViewOf(w, k));
    if k == sid {
      OwnDriveStays(w, sid, outcome, serial);
    } else {
      SetupKeepsOwn(w, k, outcome, serial);
    }
  }

  lemma FinishDriveStays(w: World, job: Job, sid: nat)
    requires sid < |w.sessions|
    ensures DriveStays(w, Finish(w, job), sid)
  {
  }

  lemma BeginTearDriveStays(w: World, job: Job, ident: Ident, sid: nat)
    requires sid < |w.sessions|
    ensures DriveStays(w, BeginTear(w, job, ident), sid)
  {
  }

  lemma TearDriveStays(w: World, sid: nat)
    requires TearEnabled(w) && sid < |w.sessions| && w.sessions[sid].commanding
    ensures DriveStays(w, TearStep(w), sid)
  {
    if w.holder.Tears? && w.holder.stage.CloseConn? {
      hide Finish;
      var s := Hanging(w.sessions[w.holder.sid]);
      FinishDriveStays(Put(w, w.holder.sid, s).(controls := w.controls - {s.ident}), w.holder.job, sid);
    }
  }

  /**
   * While SetDrive or SetDriveMode holds dc.mu, the sender it found there stays in place and open, whatever the
   * rest of the daemon does.
   */
  lemma CommandsReachAnOpenSender(actions: seq<Action>, w: World, a: Action, sid: nat)
    requires Run(EMPTY, actions, w) && Enabled(w, a)
    requires sid < |w.sessions| && w.sessions[sid].commanding
    ensures DriveStays(w, Apply(w, a), sid)
    ensures w.sessions[sid].drive.field ==> w.sessions[sid].drive.isOpened && w.sessions[sid].drive.closes == 0
  {
    hide Run, Inv, SetupEnabled, SetupStep, TearEnabled, TearStep, BeginTear;
    Reachable(actions, w, sid);
    OneCloser(actions, w, sid);
    match a {
      case Setup(k, outcome, serial) => SetupDriveStays(w, k, outcome, serial, sid);
      case Tear => TearDriveStays(w, sid);
      case StartSession(ident) => BeginTearDriveStays(w, Replace(ident), ident, sid);
      case DeviceDisconnected(ident) =>
        BeginTearDriveStays(w.(devices := w.devices - {ident}), Disconnect, ident, sid);
      case ShutdownKart(ident) =>
        BeginTearDriveStays(w.(devices := w.devices - {ident}), Shutdown, ident, sid);
      case ClearNext(ident) => BeginTearDriveStays(w, Clear, ident, sid);
      case _ =>
    }
  }

  // ---------------------------------------------------------------------------------------------------------
  // Cancelled sessions attach nothing

  /** Cancelled, by teardown or with the daemon's base context, and not past the check of an attachment. */
  predicate Hushed(w: World, sid: nat)
    requires sid < |w.sessions|
  {
    Cancelled(w, sid) && w.sessions[sid].pc != StoringMedia(true) && !w.sessions[sid].pc.Attaching?
  }

  predicate NothingNew(s: Session, s': Session) {
    (s'.conn.field ==> s.conn.field) && (s'.media.field ==> s.media.field) && (s'.drive.field ==> s.drive.field)
  }

  ghost predicate StaysHushed(w: World, w': World, sid: nat)
    requires sid < |w.sessions|
  {
    sid < |w'.sessions| && Hushed(w', sid) && NothingNew(w.sessions[sid], w'.sessions[sid])
  }

  lemma LocalHushed(s: Session, outcome: Outcome, serial: string)
    requires s.pc != StoringMedia(true) && !s.pc.Attaching?
    ensures var s' := Local(s, true, outcome, serial);
      && NothingNew(s, s') && s'.cancelled == s.cancelled
      && s'.pc != StoringMedia(true) && !s'.pc.Attaching?
  {
  }

  lemma LookBackHushed(w: World, sid: nat)
    requires sid < |w.sessions| && Hushed(w, sid)
    ensures StaysHushed(w, Join(w, sid), sid) && StaysHushed(w, Settle(w, sid), sid)
  {
    hide Current;
  }

  lemma AbandonHushed(w: World, sid: nat)
    requires sid < |w.sessions| && Hushed(w, sid)
    ensures StaysHushed(w, Abandon(w, sid), sid)
  {
    hide Current;
  }

  lemma OwnHushed(w: World, sid: nat, outcome: Outcome, serial: string)
    requires SetupEnabled(w, sid) && Hushed(w, sid)
    ensures StaysHushed(w, SetupStep(w, sid, outcome, serial), sid)
  {
    hide Local, Abandon, Join, Settle, Attach;
    LookBackHushed(w, sid);
    AbandonHushed(w, sid);
    LocalHushed(w.sessions[sid], outcome, serial);
  }

  lemma SetupHushed(w: World, k: nat, outcome: Outcome, serial: string, sid: nat)
    requires Inv(w) && SetupEnabled(w, k) && sid < |w.sessions| && Hushed(w, sid)
    ensures StaysHushed(w, SetupStep(w, k, outcome, serial), sid)
  {
    hide SessionOk, SetupStep;
    if k == sid {
      OwnHushed(w, sid, outcome, serial);
    } else {
      assert SessionOk(w.sessions[k], ViewOf(w, k));
      SetupKeepsOwn(w, k, outcome, serial);
    }
  }

  lemma FinishHushed(w: World, job: Job, sid: nat)
    requires sid < |w.sessions| && Hushed(w, sid)
    ensures StaysHushed(w, Finish(w, job), sid)
  {
  }

  lemma BeginTearHushed(w: World, job: Job, ident: Ident, sid: nat)
    requires sid < |w.sessions| && Hushed(w, sid)
    ensures StaysHushed(w, BeginTear(w, job, ident), sid)
  {
  }

  lemma TearHushed(w: World, sid: nat)
    requires TearEnabled(w) && sid < |w.sessions| && Hushed(w, sid)
    ensures StaysHushed(w, TearStep(w), sid)
  {
    if w.holder.Tears? && w.holder.stage.CloseConn? {
      hide Finish;
      var s := Hanging(w.sessions[w.holder.sid]);
      FinishHushed(Put(w, w.holder.sid, s).(controls := w.controls - {s.ident}), w.holder.job, sid);
    }
  }

  lemma ActionHushed(w: World, a: Action, sid: nat)
    requires Inv(w) && Enabled(w, a) && sid < |w.sessions| && Hushed(w, sid)
    ensures StaysHushed(w, Apply(w, a), sid)
  {
    hide Inv, SetupEnabled, SetupStep, TearEnabled, TearStep, BeginTear;
    match a {
      case Setup(k, outcome, serial) => SetupHushed(w, k, outcome, serial, sid);
      case Tear => TearHushed(w, sid);
      case StartSession(ident) => BeginTearHushed(w, Replace(ident), ident, sid);
      case DeviceDisconnected(ident) => BeginTearHushed(w.(devices := w.devices - {ident}), Disconnect, ident, sid);
      case ShutdownKart(ident) => BeginTearHushed(w.(devices := w.devices - {ident}), Shutdown, ident, sid);
      case ClearNext(ident) => BeginTearHushed(w, Clear, ident, sid);
      case _ =>
    }
  }

  /** Once its context is cancelled, a session attaches nothing more in any continuation of the run. */
  lemma {:induction false} CancelledAttachesNothing(w: World, actions: seq<Action>, w': World, sid: nat)
    requires Inv(w) && Run(w, actions, w')
    requires sid < |w.sessions| && Hushed(w, sid)
    ensures StaysHushed(w, w', sid)
    decreases |actions|
  {
    hide Inv, Enabled, Apply, Hushed;
    if actions != [] {
      ActionHushed(w, actions[0], sid);
      ActionKeepsInv(w, actions[0]);
      CancelledAttachesNothing(Apply(w, actions[0]), actions[1..], w', sid);
    }
  }
}
