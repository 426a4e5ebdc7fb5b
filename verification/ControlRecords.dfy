/**
 * The manager's two maps agree: a kart with a control session has a record, except while the session of a kart
 * that just lost its record is torn down.
 */
module ControlRecords {
  import opened ControlSession
  import opened ControlRuns

  /** The kart's record is gone and its session is being torn down. */
  predicate Leaving(w: World, ident: Ident) {
    && w.holder.Tears? && (w.holder.job.Disconnect? || w.holder.job.Shutdown?)
    && w.holder.sid < |w.sessions| && w.sessions[w.holder.sid].ident == ident
  }

  predicate ReplacesKnown(w: World) {
    w.holder.Tears? && w.holder.job.Replace? ==> w.holder.job.ident in w.devices
  }

  ghost predicate MapsAgree(w: World) {
    && (forall i :: i in w.controls ==> i in w.devices || Leaving(w, i))
    && ReplacesKnown(w)
  }

  /** A step after which no kart is new in m.controls, none lost its record, and the teardown is the same. */
  lemma AgreementCarries(w: World, w': World)
    requires MapsAgree(w) && ReplacesKnown(w')
    requires w'.controls.Keys <= w.controls.Keys && w.devices.Keys <= w'.devices.Keys
    requires forall i :: i in w'.controls && Leaving(w, i) ==> Leaving(w', i)
    ensures MapsAgree(w')
  {
  }

  lemma FinishAgrees(w: World, job: Job)
    requires forall i :: i in w.controls ==> i in w.devices
    requires job.Replace? ==> job.ident in w.devices
    ensures MapsAgree(Finish(w, job))
  {
  }

  /** Teardown begins; for a disconnect or shutdown the kart's record is gone already. */
  lemma BeginTearAgrees(w: World, job: Job, ident: Ident)
    requires Registry(w)
    requires forall i :: i in w.controls ==> i in w.devices || (i == ident && (job.Disconnect? || job.Shutdown?))
    requires job.Replace? ==> job.ident in w.devices
    ensures MapsAgree(BeginTear(w, job, ident))
  {
    hide Finish;
    if ident in w.controls {
      assert w.sessions[w.controls[ident]].ident == ident;
    } else {
      FinishAgrees(w, job);
    }
  }

  lemma TearAgrees(w: World)
    requires MapsAgree(w) && TearEnabled(w)
    ensures MapsAgree(TearStep(w))
  {
    hide DcFree, Finish;
    if w.holder.Tears? && w.holder.stage.CloseConn? {
      var s := w.sessions[w.holder.sid];
      var w1 := Put(w, w.holder.sid, Hanging(s)).(controls := w.controls - {s.ident});
      assert forall i :: i in w1.controls ==> i in w1.devices;
      FinishAgrees(w1, w.holder.job);
    } else if w.holder.Tears? {
      AgreementCarries(w, TearStep(w));
    }
  }

  lemma PutAgrees(w: World, sid: nat, s: Session)
    requires MapsAgree(w) && sid < |w.sessions| && s.ident == w.sessions[sid].ident
    ensures MapsAgree(Put(w, sid, s))
  {
    AgreementCarries(w, Put(w, sid, s));
  }

  lemma FreeAgrees(w: World, w': World)
    requires MapsAgree(w) && !w.holder.Tears? && !w'.holder.Tears?
    requires w'.controls.Keys <= w.controls.Keys && w.devices.Keys <= w'.devices.Keys
    ensures MapsAgree(w')
  {
  }

  lemma LookBackMaps(w: World, sid: nat, outcome: Outcome)
    requires sid < |w.sessions|
    ensures Abandon(w, sid).controls.Keys <= w.controls.Keys && Abandon(w, sid).devices == w.devices
    ensures Abandon(w, sid).holder == w.holder
    ensures Settle(w, sid).controls == w.controls && Settle(w, sid).devices == w.devices
    ensures !w.holder.Tears? ==> !Settle(w, sid).holder.Tears?
    ensures Attach(w, sid, outcome).controls == w.controls && w.devices.Keys <= Attach(w, sid, outcome).devices.Keys
    ensures !w.holder.Tears? ==> !Attach(w, sid, outcome).holder.Tears?
  {
    hide Current, Cancelled, Reported;
  }

  lemma JoinIsPut(w: World, sid: nat)
    requires sid < |w.sessions|
    ensures sid < |Join(w, sid).sessions| && Join(w, sid) == Put(w, sid, Join(w, sid).sessions[sid])
    ensures Join(w, sid).sessions[sid].ident == w.sessions[sid].ident
  {
    hide Current, Cancelled;
  }

  lemma SetupAgrees(w: World, sid: nat, outcome: Outcome, serial: string)
    requires MapsAgree(w) && SetupEnabled(w, sid)
    ensures MapsAgree(SetupStep(w, sid, outcome, serial))
  {
    hide MapsAgree, Abandon, Join, Settle, Attach, Local, Cancelled, DcFree, Put;
    var s := w.sessions[sid];
    LookBackMaps(w, sid, outcome);
    match s.pc {
      case DialFailed => FreeAgrees(w, Abandon(w, sid));
      case Joining =>
        JoinIsPut(w, sid);
        PutAgrees(w, sid, Join(w, sid).sessions[sid]);
      case Settling => FreeAgrees(w, Settle(w, sid));
      case Attaching => FreeAgrees(w, Attach(w, sid, outcome));
      case _ =>
        LocalIdent(s, Cancelled(w, sid), outcome, serial);
        PutAgrees(w, sid, Local(s, Cancelled(w, sid), outcome, serial));
        CrashAgrees(w);
    }
  }

  lemma LocalIdent(s: Session, cancelled: bool, outcome: Outcome, serial: string)
    ensures Local(s, cancelled, outcome, serial).ident == s.ident
  {
  }

  lemma CrashAgrees(w: World)
    requires MapsAgree(w)
    ensures MapsAgree(w.(crashed := true))
  {
    AgreementCarries(w, w.(crashed := true));
  }

  lemma ActionAgrees(w: World, a: Action)
    requires Inv(w) && MapsAgree(w) && Enabled(w, a)
    ensures MapsAgree(Apply(w, a))
  {
    hide AllOk, SetupEnabled, SetupStep, TearEnabled, TearStep, BeginTear, Registry;
    match a {
      case StartSession(ident) => BeginTearAgrees(w, Replace(ident), ident);
      case DeviceDisconnected(ident) =>
        SameRegistry(w, w.(devices := w.devices - {ident}));
        BeginTearAgrees(w.(devices := w.devices - {ident}), Disconnect, ident);
      case ShutdownKart(ident) =>
        SameRegistry(w, w.(devices := w.devices - {ident}));
        BeginTearAgrees(w.(devices := w.devices - {ident}), Shutdown, ident);
      case ClearNext(ident) => BeginTearAgrees(w, Clear, ident);
      case Tear => TearAgrees(w);
      case Setup(sid, outcome, serial) => SetupAgrees(w, sid, outcome, serial);
      case CommandBegins(sid) => PutAgrees(w, sid, w.sessions[sid].(commanding := true));
      case CommandEnds(sid) => PutAgrees(w, sid, w.sessions[sid].(commanding := false));
      case _ => AgreementCarries(w, Apply(w, a));
    }
  }

  lemma SameRegistry(w: World, w': World)
    requires Registry(w) && w'.controls == w.controls && w'.sessions == w.sessions && w'.holder == w.holder
    ensures Registry(w')
  {
  }

  lemma {:induction false} RunAgrees(w: World, actions: seq<Action>, w': World)
    requires Inv(w) && MapsAgree(w) && Run(w, actions, w')
    ensures MapsAgree(w')
    decreases |actions|
  {
    hide Inv, MapsAgree, Enabled, Apply;
    if actions != [] {
      ActionKeepsInv(w, actions[0]);
      ActionAgrees(w, actions[0]);
      RunAgrees(Apply(w, actions[0]), actions[1..], w');
    }
  }

  /** Whenever no teardown of a lost kart is under way, every kart in m.controls is in m.devices. */
  lemma SessionHasRecord(actions: seq<Action>, w: World, ident: Ident)
    requires Run(EMPTY, actions, w) && ident in w.controls && !Leaving(w, ident)
    ensures ident in w.devices
  {
    RunAgrees(EMPTY, actions, w);
  }

  /** So the kart that an established session reports is known, and the report names it. */
  lemma ReportNamesTheKart(actions: seq<Action>, w: World, sid: nat)
    requires Run(EMPTY, actions, w) && w.holder == Settles(sid)
    ensures sid < |w.sessions| && w.sessions[sid].ident in w.devices
  {
    RunAgrees(EMPTY, actions, w);
    RunKeepsInv(EMPTY, actions, w);
    hide ConnOk, MediaOk, DriveOk, LinkOk;
    assert SessionOk(w.sessions[sid], ViewOf(w, sid));
  }

  // ---------------------------------------------------------------------------------------------------------
  // Which karts the daemon knows

  /** The end of a ClearDevices. */
  predicate Empties(w: World, a: Action) {
    a.Tear? && w.holder.Clears?
  }

  /** The last step of a goroutine that reports its kart. */
  predicate Reports(w: World, a: Action, ident: Ident) {
    && a.Setup? && a.sid < |w.sessions| && w.sessions[a.sid].pc.Attaching? && w.sessions[a.sid].ident == ident
  }

  lemma TearKeepsDevices(w: World)
    requires TearEnabled(w)
    ensures TearStep(w).devices == if w.holder.Clears? then map[] else w.devices
  {
    hide DcFree, Taking, Hanging;
  }

  lemma BeginTearKeepsDevices(w: World, job: Job, ident: Ident)
    ensures BeginTear(w, job, ident).devices == w.devices
  {
  }

  lemma AttachDevices(w: World, sid: nat, outcome: Outcome, ident: Ident)
    requires sid < |w.sessions|
    ensures var w' := Attach(w, sid, outcome);
      && w'.devices.Keys == w.devices.Keys
      && (ident in w.devices && w.sessions[sid].ident != ident ==> w'.devices[ident] == w.devices[ident])
  {
    hide Reported;
    assert w.sessions[sid].ident in w.devices ==> {w.sessions[sid].ident} + w.devices.Keys == w.devices.Keys;
  }

  lemma SetupKeepsDevices(w: World, sid: nat, outcome: Outcome, serial: string, ident: Ident)
    requires SetupEnabled(w, sid)
    ensures var w' := SetupStep(w, sid, outcome, serial);
      && w'.devices.Keys == w.devices.Keys
      && (ident in w.devices && !Reports(w, Setup(sid, outcome, serial), ident) ==>
            w'.devices[ident] == w.devices[ident])
  {
    hide Abandon, Join, Settle, Attach, Local, Cancelled, DcFree;
    LookBackMaps(w, sid, outcome);
    JoinIsPut(w, sid);
    AttachDevices(w, sid, outcome, ident);
  }

  /** What each action makes of the record of a kart. */
  lemma RecordAfter(w: World, a: Action, ident: Ident)
    requires Enabled(w, a)
    ensures var before, after := w.devices, Apply(w, a).devices;
      if a == Register(ident) then ident in after && after[ident] == Record("", false)
      else if a.Update? && a.ident == ident then ident in after && after[ident] == a.record
      else if a == DeviceDisconnected(ident) || a == ShutdownKart(ident) || Empties(w, a) then ident !in after
      else
        && (ident in after <==> ident in before)
        && (ident in before && !Reports(w, a, ident) ==> after[ident] == before[ident])
  {
    hide SetupEnabled, SetupStep, TearEnabled, TearStep, BeginTear;
    match a {
      case StartSession(i) => BeginTearKeepsDevices(w, Replace(i), i);
      case DeviceDisconnected(i) => BeginTearKeepsDevices(w.(devices := w.devices - {i}), Disconnect, i);
      case ShutdownKart(i) => BeginTearKeepsDevices(w.(devices := w.devices - {i}), Shutdown, i);
      case ClearNext(i) => BeginTearKeepsDevices(w, Clear, i);
      case Tear => TearKeepsDevices(w);
      case Setup(sid, outcome, serial) => SetupKeepsDevices(w, sid, outcome, serial, ident);
      case _ =>
    }
  }

  /** The kart was registered in the run, and not disconnected, shut down or cleared since. */
  ghost predicate Known(known: bool, w: World, actions: seq<Action>, ident: Ident)
    decreases |actions|
  {
    if actions == [] || !Enabled(w, actions[0]) then known
    else
      var a := actions[0];
      var lost := a == DeviceDisconnected(ident) || a == ShutdownKart(ident) || Empties(w, a);
      Known(a == Register(ident) || (known && !lost), Apply(w, a), actions[1..], ident)
  }

  lemma {:induction false} KnownOver(w: World, actions: seq<Action>, w': World, ident: Ident)
    requires Run(w, actions, w')
    ensures ident in w'.devices <==> Known(ident in w.devices, w, actions, ident)
    decreases |actions|
  {
    hide Apply, Empties, Reports;
    if actions != [] {
      RecordAfter(w, actions[0], ident);
      if actions[0].Update? && actions[0].ident == ident {
        UpdateNeedsRecord(w, actions[0], ident);
      }
      hide Enabled;
      KnownOver(Apply(w, actions[0]), actions[1..], w', ident);
    }
  }

  lemma UpdateNeedsRecord(w: World, a: Action, ident: Ident)
    requires Enabled(w, a) && a.Update? && a.ident == ident
    ensures ident in w.devices && !Empties(w, a)
  {
    hide SetupEnabled, TearEnabled;
  }

  /** After every run the daemon has a record of exactly the karts registered and not lost since. */
  lemma RecordsAreOfKnownKarts(actions: seq<Action>, w: World, ident: Ident)
    requires Run(EMPTY, actions, w)
    ensures ident in w.devices <==> Known(false, EMPTY, actions, ident)
  {
    KnownOver(EMPTY, actions, w, ident);
  }
}
