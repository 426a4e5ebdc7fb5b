/**
 * When the context of a control session is cancelled: exactly when the daemon shuts down, or the session is torn
 * down, or has left the manager's map of current sessions.
 */
module ControlCancels {
  import opened ControlSession
  import opened ControlRuns
  import opened ControlLaws
  import opened ControlStory

  predicate TornDown(w: World, sid: nat) {
    w.holder.Tears? && w.holder.sid == sid
  }

  /** Nobody cancels a session that stays. */
  ghost predicate CancelOk(w: World) {
    forall k :: 0 <= k < |w.sessions| ==> w.sessions[k].cancelled ==> !Current(w, k) || TornDown(w, k)
  }

  /** No session becomes current or newly cancelled, and no teardown of one ends. */
  ghost predicate CancelsNone(w: World, w': World) {
    && |w'.sessions| == |w.sessions|
    && (forall k :: 0 <= k < |w.sessions| ==>
          w'.sessions[k].ident == w.sessions[k].ident && (w'.sessions[k].cancelled ==> w.sessions[k].cancelled))
    && (forall i :: i in w'.controls ==> i in w.controls && w'.controls[i] == w.controls[i])
    && (w.holder.Tears? ==> w'.holder.Tears? && w'.holder.sid == w.holder.sid)
  }

  lemma CancelsNoneOk(w: World, w': World)
    requires CancelOk(w) && CancelsNone(w, w')
    ensures CancelOk(w')
  {
  }

  lemma PutCancelsNone(w: World, sid: nat, s: Session)
    requires sid < |w.sessions| && s.ident == w.sessions[sid].ident && s.cancelled == w.sessions[sid].cancelled
    ensures CancelsNone(w, Put(w, sid, s))
  {
  }

  lemma FinishOk(w: World, job: Job)
    requires Registry(w)
    requires forall k :: 0 <= k < |w.sessions| ==> w.sessions[k].cancelled ==> !Current(w, k)
    ensures CancelOk(Finish(w, job))
  {
    var w' := Finish(w, job);
    forall k | 0 <= k < |w'.sessions| && w'.sessions[k].cancelled
      ensures !Current(w', k)
    {
      assert k < |w.sessions|;
    }
  }

  lemma BeginTearOk(w: World, job: Job, ident: Ident)
    requires Registry(w) && CancelOk(w) && !w.holder.Tears?
    ensures CancelOk(BeginTear(w, job, ident))
  {
    hide Finish;
    if ident !in w.controls {
      FinishOk(w, job);
    }
  }

  lemma LastTearOk(w: World, s: Session)
    requires Registry(w) && CancelOk(w) && w.holder.Tears? && s == w.sessions[w.holder.sid]
    ensures var w1 := Put(w, w.holder.sid, Hanging(s)).(controls := w.controls - {s.ident});
      forall k :: 0 <= k < |w1.sessions| ==> w1.sessions[k].cancelled ==> !Current(w1, k)
  {
    var w1 := Put(w, w.holder.sid, Hanging(s)).(controls := w.controls - {s.ident});
    forall k | 0 <= k < |w1.sessions| && w1.sessions[k].cancelled
      ensures !Current(w1, k)
    {
      assert w1.sessions[k].ident == w.sessions[k].ident;
    }
  }

  lemma TearOk(w: World)
    requires Registry(w) && CancelOk(w) && TearEnabled(w)
    ensures CancelOk(TearStep(w))
  {
    hide DcFree;
    if w.holder.Tears? {
      var sid := w.holder.sid;
      var s := w.sessions[sid];
      match w.holder.stage {
        case TakeFields =>
          PutCancelsNone(w, sid, Taking(s));
          CancelsNoneOk(w, TearStep(w));
        case CloseMedia(media) => CancelsNoneOk(w, TearStep(w));
        case CloseConn =>
          LastTearOk(w, s);
          var w1 := Put(w, sid, Hanging(s)).(controls := w.controls - {s.ident});
          SmallerRegistry(w, w1);
          FinishOk(w1, w.holder.job);
      }
    }
  }

  lemma SmallerRegistry(w: World, w1: World)
    requires Registry(w) && w.holder.Tears?
    requires w1 == Put(w, w.holder.sid, Hanging(w.sessions[w.holder.sid])).(controls := w1.controls)
    requires w1.controls == w.controls - {w.sessions[w.holder.sid].ident}
    ensures Registry(w1)
  {
  }

  lemma AbandonOk(w: World, sid: nat)
    requires CancelOk(w) && sid < |w.sessions| && w.holder == Free
    ensures CancelOk(Abandon(w, sid))
  {
    var w' := Abandon(w, sid);
    forall k | 0 <= k < |w'.sessions| && w'.sessions[k].cancelled
      ensures !Current(w', k)
    {
      assert w'.sessions[k].ident == w.sessions[k].ident;
    }
  }

  lemma JoinCancelsNone(w: World, sid: nat)
    requires sid < |w.sessions|
    ensures CancelsNone(w, Join(w, sid))
  {
    hide Current, Cancelled;
  }

  lemma SettleCancelsNone(w: World, sid: nat)
    requires sid < |w.sessions| && w.holder == Free
    ensures CancelsNone(w, Settle(w, sid))
  {
    hide Current, Cancelled;
  }

  lemma AttachCancelsNone(w: World, sid: nat, outcome: Outcome)
    requires sid < |w.sessions| && !w.holder.Tears?
    ensures CancelsNone(w, Attach(w, sid, outcome))
  {
    hide Reported;
  }

  lemma LocalCancelsNone(w: World, sid: nat, cancelled: bool, outcome: Outcome, serial: string)
    requires sid < |w.sessions|
    ensures CancelsNone(w, Put(w, sid, Local(w.sessions[sid], cancelled, outcome, serial)))
  {
    hide NextPc, ConnAfter, MediaAfter, DriveAfter, DriveVarAfter, CancelsNone, Put;
    PutCancelsNone(w, sid, Local(w.sessions[sid], cancelled, outcome, serial));
  }

  lemma CrashCancelsNone(w: World)
    ensures CancelsNone(w, w.(crashed := true))
  {
  }

  lemma SetupOk(w: World, sid: nat, outcome: Outcome, serial: string)
    requires CancelOk(w) && SetupEnabled(w, sid)
    ensures CancelOk(SetupStep(w, sid, outcome, serial))
  {
    hide Abandon, Join, Settle, Attach, Local, Put, Cancelled, DcFree, CancelOk, CancelsNone;
    match w.sessions[sid].pc {
      case DialFailed => AbandonOk(w, sid);
      case Joining => JoinCancelsNone(w, sid);
      case Settling => SettleCancelsNone(w, sid);
      case Attaching => AttachCancelsNone(w, sid, outcome);
      case _ =>
        LocalCancelsNone(w, sid, Cancelled(w, sid), outcome, serial);
        CrashCancelsNone(w);
    }
    if !w.sessions[sid].pc.DialFailed? {
      CancelsNoneOk(w, SetupStep(w, sid, outcome, serial));
    }
  }

  lemma StepOk(w: World, a: Action)
    requires Inv(w) && CancelOk(w) && Enabled(w, a)
    ensures CancelOk(Apply(w, a))
  {
    hide AllOk, SetupEnabled, SetupStep, TearEnabled, TearStep, BeginTear, Registry, CancelOk, DcFree;
    match a {
      case StartSession(ident) => BeginTearOk(w, Replace(ident), ident);
      case DeviceDisconnected(ident) => LostOk(w, Disconnect, ident);
      case ShutdownKart(ident) => LostOk(w, Shutdown, ident);
      case ClearNext(ident) => BeginTearOk(w, Clear, ident);
      case Tear => TearOk(w);
      case Setup(sid, outcome, serial) => SetupOk(w, sid, outcome, serial);
      case CommandBegins(sid) => CommandOk(w, sid, true);
      case CommandEnds(sid) => CommandOk(w, sid, false);
      case _ => CancelsNoneOk(w, Apply(w, a));
    }
  }

  lemma CommandOk(w: World, sid: nat, commanding: bool)
    requires CancelOk(w) && sid < |w.sessions|
    ensures CancelOk(Put(w, sid, w.sessions[sid].(commanding := commanding)))
  {
    hide CancelOk;
    PutCancelsNone(w, sid, w.sessions[sid].(commanding := commanding));
    CancelsNoneOk(w, Put(w, sid, w.sessions[sid].(commanding := commanding)));
  }

  lemma LostOk(w: World, job: Job, ident: Ident)
    requires Registry(w) && CancelOk(w) && w.holder == Free
    ensures CancelOk(BeginTear(w.(devices := w.devices - {ident}), job, ident))
  {
    var w1 := w.(devices := w.devices - {ident});
    CancelsNoneOk(w, w1);
    hide BeginTear, CancelOk;
    BeginTearOk(w1, job, ident);
  }

  lemma FinishKeepsBase(w: World, job: Job)
    ensures Finish(w, job).baseCancelled == w.baseCancelled
  {
  }

  lemma TearKeepsBase(w: World)
    requires TearEnabled(w)
    ensures TearStep(w).baseCancelled == w.baseCancelled
  {
    hide Finish, DcFree;
    if w.holder.Tears? && w.holder.stage.CloseConn? {
      var s := w.sessions[w.holder.sid];
      FinishKeepsBase(Put(w, w.holder.sid, Hanging(s)).(controls := w.controls - {s.ident}), w.holder.job);
    }
  }

  lemma BeginTearKeepsBase(w: World, job: Job, ident: Ident)
    ensures BeginTear(w, job, ident).baseCancelled == w.baseCancelled
  {
    FinishKeepsBase(w, job);
    hide Finish;
  }

  lemma BaseAfter(w: World, a: Action)
    requires Enabled(w, a)
    ensures Apply(w, a).baseCancelled <==> w.baseCancelled || a == CancelBase
  {
    hide SetupEnabled, SetupStep, TearEnabled, TearStep, BeginTear;
    match a {
      case StartSession(ident) => BeginTearKeepsBase(w, Replace(ident), ident);
      case DeviceDisconnected(ident) => BeginTearKeepsBase(w.(devices := w.devices - {ident}), Disconnect, ident);
      case ShutdownKart(ident) => BeginTearKeepsBase(w.(devices := w.devices - {ident}), Shutdown, ident);
      case ClearNext(ident) => BeginTearKeepsBase(w, Clear, ident);
      case Tear => TearKeepsBase(w);
      case Setup(sid, outcome, serial) => SetupKeepsBase(w, sid, outcome, serial);
      case _ =>
    }
  }

  lemma SetupKeepsBase(w: World, sid: nat, outcome: Outcome, serial: string)
    requires SetupEnabled(w, sid)
    ensures SetupStep(w, sid, outcome, serial).baseCancelled == w.baseCancelled
  {
    StaysCancelled(w, sid, outcome, serial);
    hide SetupStep, SetupEnabled;
  }

  lemma {:induction false} RunKeepsCancelOk(w: World, actions: seq<Action>, w': World)
    requires Inv(w) && CancelOk(w) && Run(w, actions, w')
    ensures CancelOk(w') && Inv(w') && (w'.baseCancelled <==> w.baseCancelled || CancelBase in actions)
    decreases |actions|
  {
    hide Inv, CancelOk, Enabled, Apply;
    if actions != [] {
      ActionKeepsInv(w, actions[0]);
      StepOk(w, actions[0]);
      BaseAfter(w, actions[0]);
      RunKeepsCancelOk(Apply(w, actions[0]), actions[1..], w');
      assert actions == [actions[0]] + actions[1..];
    }
  }

  /**
   * After every run the context of a session is cancelled if and only if the base context is, or the session is
   * being torn down, or it is no longer its kart's current one.
   */
  lemma CancelledExactlyIf(actions: seq<Action>, w: World, sid: nat)
    requires Run(EMPTY, actions, w) && sid < |w.sessions|
    ensures Cancelled(w, sid) <==> CancelBase in actions || TornDown(w, sid) || !Current(w, sid)
  {
    RunsNowhere();
    RunKeepsCancelOk(EMPTY, actions, w);
    hide Run, Inv;
    if !w.sessions[sid].cancelled {
      UncancelledIsCurrent(w, sid);
    }
  }
}
