/**
 * What every run of control sessions keeps: each connection, media endpoint and drive sender has exactly one
 * party responsible for closing it, whatever steps of setup, teardown, replacement and cancellation interleave.
 */
module ControlRuns {
  import opened ControlSession

  function Count(b: bool): nat {
    if b then 1 else 0
  }

  /** What the rest of the world says about one session. */
  datatype View = View(current: bool, attaching: bool, tearing: bool, stage: Stage)

  function ViewOf(w: World, sid: nat): View
    requires sid < |w.sessions|
  {
    var tearing := w.holder.Tears? && w.holder.sid == sid;
    View(Current(w, sid), w.holder == Settles(sid), tearing, if tearing then w.holder.stage else TakeFields)
  }

  /** Teardown has emptied the deviceControl, or the session is no longer in m.controls. */
  predicate Taken(v: View) {
    !v.current || (v.tearing && !v.stage.TakeFields?)
  }

  /** How far a setup goroutine has come; every step of it moves forward. */
  function Rank(pc: Pc): nat {
    match pc
    case Dialing => 0
    case DialFailed => 1
    case Probing => 2
    case Joining => 3
    case OpeningMedia => 4
    case CheckingMedia => 5
    case LockingMedia => 6
    case StoringMedia(keep) => if keep then 7 else 8
    case Describing => 9
    case MarkingSet => 10
    case Waking => 11
    case MarkingDrive => 12
    case Detaching(last) => if last then 19 else 13
    case ClosingMedia(last) => if last then 20 else 14
    case OpeningDrive => 15
    case Settling => 16
    case Attaching => 17
    case ClosingDrive => 18
    case ClosingConn => 21
    case Ended => 22
  }

  /** The connection is in the goroutine's hands only: before it is attached, or about to be closed. */
  predicate SetupHoldsConn(r: nat) {
    2 <= r <= 3 || r == 21
  }

  /** Media in the goroutine's hands only: opened and not attached, or detached and not closed. */
  predicate SetupHoldsMedia(r: nat) {
    5 <= r <= 8 || r == 14 || r == 20
  }

  /** The drive sender in the goroutine's hands only: opened, and neither attached nor closed. */
  predicate SetupHoldsDrive(r: nat) {
    16 <= r <= 18
  }

  predicate TeardownHoldsMedia(v: View) {
    v.tearing && v.stage.CloseMedia? && v.stage.media
  }

  predicate ConnOk(r: nat, conn: Resource, v: View) {
    && (r <= 1 ==> !conn.isOpened)
    && (2 <= r <= 21 ==> conn.isOpened)
    && (conn.field ==> conn.isOpened)
    && (conn.isOpened ==> SetupHoldsConn(r) || conn.field || conn.closes > 0)
    && (conn.field && !v.current ==> conn.closes > 0)
  }

  /** The media endpoint has exactly one keeper: closed once, in the field, or in one party's hands. */
  predicate MediaOk(r: nat, media: Resource, v: View) {
    && media.closes + Count(media.field) + Count(SetupHoldsMedia(r)) + Count(TeardownHoldsMedia(v))
        == Count(media.isOpened)
    && (r <= 4 ==> !media.isOpened)
    && (Taken(v) ==> !media.field && r != 7)
  }

  /** The drive sender has exactly one keeper: closed once, in the field, or in the goroutine's hands. */
  predicate DriveOk(r: nat, drive: Resource, driveVar: DriveVar, v: View) {
    && drive.closes + Count(drive.field) + Count(driveVar.Live? && SetupHoldsDrive(r)) == Count(drive.isOpened)
    && (r <= 15 ==> !drive.isOpened && driveVar.NilDrive?)
    && (r == 18 ==> !driveVar.NilDrive?)
    && (driveVar.TypedNil? ==> SetupHoldsDrive(r))
    && (Taken(v) ==> !drive.field)
  }

  predicate LocksOk(r: nat, cancelled: bool, v: View) {
    && (v.attaching <==> r == 17)
    && (v.attaching ==> v.current && !v.tearing)
    && (v.tearing ==> v.current)
    && (v.tearing || !v.current ==> cancelled)
  }

  /** Set up to the end and not torn down: the connection was opened and never closed. */
  predicate Established(r: nat, conn: Resource) {
    r == 22 && conn.isOpened && conn.closes == 0
  }

  /**
   * The kart knows the media ports exactly while a media endpoint is attached, and drive mode needs them. A
   * session that reaches its last critical section undisturbed has closed nothing that it still needs.
   */
  predicate LinkOk(r: nat, s: Session, v: View) {
    && (r <= 10 || 13 <= r <= 14 ==> !s.controlSet)
    && (11 <= r <= 12 ==> s.controlSet)
    && (r <= 12 ==> !s.driveMode)
    && (s.driveMode ==> s.controlSet)
    && (9 <= r <= 12 && !Taken(v) ==> s.media.field)
    && (15 <= r <= 17 || Established(r, s.conn) ==>
          Taken(v) || ((s.media.field <==> s.controlSet) && s.drive.closes == 0))
  }

  predicate SessionOk(s: Session, v: View) {
    var r := Rank(s.pc);
    && ConnOk(r, s.conn, v)
    && MediaOk(r, s.media, v)
    && DriveOk(r, s.drive, s.driveVar, v)
    && LocksOk(r, s.cancelled, v)
    && LinkOk(r, s, v)
  }

  /** m.controls names, for each kart, the session started last for it. */
  ghost predicate Registry(w: World) {
    && (forall i :: i in w.controls ==> w.controls[i] < |w.sessions| && w.sessions[w.controls[i]].ident == i)
    && (forall i, k :: i in w.controls && w.controls[i] < k < |w.sessions| ==> w.sessions[k].ident != i)
    && (w.holder.Tears? ==> w.holder.sid < |w.sessions|)
    && (w.holder.Settles? ==> w.holder.sid < |w.sessions|)
    && (w.holder.Tears? && w.holder.job.Replace? ==> w.sessions[w.holder.sid].ident == w.holder.job.ident)
  }

  ghost predicate AllOk(w: World) {
    forall k :: 0 <= k < |w.sessions| ==> SessionOk(w.sessions[k], ViewOf(w, k))
  }

  ghost predicate Inv(w: World) {
    Registry(w) && AllOk(w)
  }

  // ---------------------------------------------------------------------------------------------------------
  // Setup steps

  predicate IsLocal(pc: Pc) {
    !pc.DialFailed? && !pc.Joining? && !pc.Settling? && !pc.Attaching? && !pc.Ended?
  }

  /** A setup goroutine only moves forward, so it takes at most 22 steps. */
  lemma NextPcAdvances(pc: Pc, attached: bool, cancelled: bool, outcome: Outcome)
    requires IsLocal(pc)
    ensures Rank(pc) < Rank(NextPc(pc, attached, cancelled, outcome)) <= 22
    ensures NextPc(pc, attached, cancelled, outcome) != Attaching
  {
  }

  lemma ConnAfterOk(pc: Pc, conn: Resource, attached: bool, cancelled: bool, outcome: Outcome, v: View)
    requires IsLocal(pc) && ConnOk(Rank(pc), conn, v)
    ensures ConnOk(Rank(NextPc(pc, attached, cancelled, outcome)), ConnAfter(pc, conn, outcome), v)
  {
  }

  lemma MediaAfterOk(pc: Pc, media: Resource, cancelled: bool, outcome: Outcome, v: View)
    requires IsLocal(pc) && MediaOk(Rank(pc), media, v)
    requires Taken(v) ==> cancelled
    ensures MediaOk(Rank(NextPc(pc, media.field, cancelled, outcome)), MediaAfter(pc, media, cancelled, outcome), v)
  {
    hide TeardownHoldsMedia, Taken;
  }

  lemma DriveAfterOk(pc: Pc, drive: Resource, driveVar: DriveVar, attached: bool, cancelled: bool, outcome: Outcome,
                     v: View)
    requires IsLocal(pc) && DriveOk(Rank(pc), drive, driveVar, v)
    requires pc.ClosingDrive? ==> driveVar.Live?
    ensures DriveOk(Rank(NextPc(pc, attached, cancelled, outcome)), DriveAfter(pc, drive, outcome),
                    DriveVarAfter(pc, driveVar, outcome), v)
  {
    hide Taken;
  }

  lemma LinkAfterOk(s: Session, v: View, cancelled: bool, outcome: Outcome, serial: string)
    requires IsLocal(s.pc) && SessionOk(s, v)
    ensures var s' := Local(s, cancelled, outcome, serial); LinkOk(Rank(s'.pc), s', v)
  {
    hide LocksOk, TeardownHoldsMedia;
  }

  lemma LocalKeepsOk(s: Session, v: View, cancelled: bool, outcome: Outcome, serial: string)
    requires IsLocal(s.pc) && SessionOk(s, v)
    requires s.pc.ClosingDrive? ==> s.driveVar.Live?
    requires s.cancelled ==> cancelled
    ensures SessionOk(Local(s, cancelled, outcome, serial), v)
    ensures Local(s, cancelled, outcome, serial).ident == s.ident
  {
    hide ConnOk, MediaOk, DriveOk, LinkOk, NextPc, ConnAfter, MediaAfter, DriveAfter, DriveVarAfter;
    NextPcAdvances(s.pc, s.media.field, cancelled, outcome);
    ConnAfterOk(s.pc, s.conn, s.media.field, cancelled, outcome, v);
    MediaAfterOk(s.pc, s.media, cancelled, outcome, v);
    DriveAfterOk(s.pc, s.drive, s.driveVar, s.media.field, cancelled, outcome, v);
    LinkAfterOk(s, v, cancelled, outcome, serial);
  }

  /** After its dial failed a session leaves m.controls; it never opened anything. */
  lemma DialFailedKeepsOk(s: Session, v: View, v': View)
    requires SessionOk(s, v) && s.pc.DialFailed?
    requires !v.tearing && !v.attaching && v' == v.(current := false)
    ensures SessionOk(s.(cancelled := true, pc := Ended), v')
  {
  }

  lemma JoiningKeepsOk(s: Session, v: View)
    requires SessionOk(s, v) && s.pc.Joining?
    ensures SessionOk(s.(pc := ClosingConn), v)
    ensures v.current ==> SessionOk(s.(conn := Kept(s.conn), pc := OpeningMedia), v)
  {
  }

  lemma SettlingKeepsOk(s: Session, v: View)
    requires SessionOk(s, v) && s.pc.Settling?
    ensures SessionOk(s.(pc := if s.driveVar.NilDrive? then Detaching(true) else ClosingDrive), v)
    ensures v.current && !v.tearing ==> SessionOk(s.(pc := Attaching), v.(attaching := true))
  {
  }

  lemma AttachingKeepsOk(s: Session, v: View)
    requires SessionOk(s, v) && s.pc.Attaching? && !s.driveVar.TypedNil?
    ensures SessionOk(s.(drive := if s.driveVar.Live? then Kept(s.drive) else s.drive, pc := Ended),
                      v.(attaching := false))
  {
  }

  /** What a setup step may change outside its own session. */
  ghost predicate Effects(w: World, w': World, sid: nat)
    requires sid < |w.sessions|
  {
    && |w'.sessions| == |w.sessions| && w'.baseCancelled == w.baseCancelled
    && w'.sessions[sid].ident == w.sessions[sid].ident
    && (forall k :: 0 <= k < |w.sessions| && k != sid ==> w'.sessions[k] == w.sessions[k])
    && (w'.controls == w.controls || (Current(w, sid) && w'.controls == w.controls - {w.sessions[sid].ident}))
    && (|| w'.holder == w.holder
        || (w.holder == Free && w'.holder == Settles(sid))
        || (w.holder == Settles(sid) && w'.holder == Free))
  }

  ghost predicate OwnOk(w: World, w': World, sid: nat)
    requires sid < |w.sessions|
  {
    Effects(w, w', sid) && SessionOk(w'.sessions[sid], ViewOf(w', sid))
  }

  lemma AbandonOk(w: World, sid: nat)
    requires sid < |w.sessions| && w.sessions[sid].pc.DialFailed? && w.holder == Free
    requires SessionOk(w.sessions[sid], ViewOf(w, sid))
    ensures OwnOk(w, Abandon(w, sid), sid)
  {
    hide SessionOk;
    DialFailedKeepsOk(w.sessions[sid], ViewOf(w, sid), ViewOf(Abandon(w, sid), sid));
  }

  lemma JoinOk(w: World, sid: nat)
    requires sid < |w.sessions| && w.sessions[sid].pc.Joining? && w.holder == Free
    requires SessionOk(w.sessions[sid], ViewOf(w, sid))
    ensures OwnOk(w, Join(w, sid), sid)
  {
    hide SessionOk;
    JoiningKeepsOk(w.sessions[sid], ViewOf(w, sid));
  }

  lemma SettleOk(w: World, sid: nat)
    requires sid < |w.sessions| && w.sessions[sid].pc.Settling? && w.holder == Free
    requires SessionOk(w.sessions[sid], ViewOf(w, sid))
    ensures OwnOk(w, Settle(w, sid), sid)
  {
    hide SessionOk;
    SettlingKeepsOk(w.sessions[sid], ViewOf(w, sid));
  }

  lemma AttachOk(w: World, sid: nat, outcome: Outcome)
    requires sid < |w.sessions| && w.sessions[sid].pc.Attaching? && w.holder == Settles(sid)
    requires SessionOk(w.sessions[sid], ViewOf(w, sid))
    ensures OwnOk(w, Attach(w, sid, outcome), sid)
  {
    hide SessionOk;
    if !w.sessions[sid].driveVar.TypedNil? {
      AttachingKeepsOk(w.sessions[sid], ViewOf(w, sid));
    }
  }

  lemma ClosesALiveDrive(s: Session, v: View)
    requires SessionOk(s, v) && s.pc.ClosingDrive? && !s.driveVar.TypedNil?
    ensures s.driveVar.Live?
  {
    hide ConnOk, MediaOk, LocksOk, LinkOk;
  }

  lemma LocalOk(w: World, sid: nat, outcome: Outcome, serial: string)
    requires sid < |w.sessions| && IsLocal(w.sessions[sid].pc)
    requires SessionOk(w.sessions[sid], ViewOf(w, sid))
    requires !(w.sessions[sid].pc.ClosingDrive? && w.sessions[sid].driveVar.TypedNil?)
    ensures OwnOk(w, Put(w, sid, Local(w.sessions[sid], Cancelled(w, sid), outcome, serial)), sid)
  {
    hide SessionOk, Local;
    if w.sessions[sid].pc.ClosingDrive? {
      ClosesALiveDrive(w.sessions[sid], ViewOf(w, sid));
    }
    LocalKeepsOk(w.sessions[sid], ViewOf(w, sid), Cancelled(w, sid), outcome, serial);
  }

  lemma SetupKeepsOwn(w: World, sid: nat, outcome: Outcome, serial: string)
    requires SetupEnabled(w, sid) && SessionOk(w.sessions[sid], ViewOf(w, sid))
    ensures OwnOk(w, SetupStep(w, sid, outcome, serial), sid)
  {
    hide SessionOk, Local, Abandon, Join, Settle, Attach;
    var s := w.sessions[sid];
    if s.pc.DialFailed? {
      AbandonOk(w, sid);
    } else if s.pc.Joining? {
      JoinOk(w, sid);
    } else if s.pc.Settling? {
      SettleOk(w, sid);
    } else if s.pc.Attaching? {
      AttachOk(w, sid, outcome);
    } else if !(s.pc.ClosingDrive? && s.driveVar.TypedNil?) {
      LocalOk(w, sid, outcome, serial);
    }
  }

  lemma EffectsKeepViews(w: World, w': World, sid: nat, k: nat)
    requires Registry(w) && sid < |w.sessions| && Effects(w, w', sid)
    requires k < |w.sessions| && k != sid
    ensures w'.sessions[k] == w.sessions[k] && ViewOf(w', k) == ViewOf(w, k)
  {
  }

  lemma SetupKeepsInv(w: World, sid: nat, outcome: Outcome, serial: string)
    requires Inv(w) && SetupEnabled(w, sid)
    ensures Inv(SetupStep(w, sid, outcome, serial))
  {
    hide SessionOk, SetupStep;
    var w' := SetupStep(w, sid, outcome, serial);
    assert SessionOk(w.sessions[sid], ViewOf(w, sid));
    SetupKeepsOwn(w, sid, outcome, serial);
    forall k | 0 <= k < |w'.sessions| && k != sid
      ensures SessionOk(w'.sessions[k], ViewOf(w', k))
    {
      EffectsKeepViews(w, w', sid, k);
    }
  }

  // ---------------------------------------------------------------------------------------------------------
  // Teardown steps

  lemma CancelKeepsOk(s: Session, v: View, v': View)
    requires SessionOk(s, v) && v.current && !v.tearing && !v.attaching
    requires v' == v.(tearing := true, stage := TakeFields)
    ensures SessionOk(s.(cancelled := true), v')
  {
  }

  lemma TakeKeepsOk(s: Session, v: View, v': View)
    requires SessionOk(s, v) && v.tearing && v.stage.TakeFields? && DcFree(s)
    requires v' == v.(stage := CloseMedia(s.media.field))
    ensures SessionOk(Taking(s), v')
  {
  }

  lemma CloseMediaKeepsOk(s: Session, v: View, v': View)
    requires SessionOk(s, v) && v.tearing && v.stage.CloseMedia?
    requires v' == v.(stage := CloseConn)
    ensures SessionOk(if v.stage.media then s.(media := Closed(s.media)) else s, v')
  {
  }

  lemma CloseConnKeepsOk(s: Session, v: View, v': View)
    requires SessionOk(s, v) && v.tearing && v.stage.CloseConn?
    requires v' == View(false, false, false, TakeFields)
    ensures SessionOk(Hanging(s), v')
  {
  }

  lemma FreshOk(ident: Ident)
    ensures SessionOk(Fresh(ident), View(true, false, false, TakeFields)) && Fresh(ident).ident == ident
  {
  }

  /** Taking or releasing m.mu without naming a session changes no view. */
  lemma HolderKeepsOk(w: World, holder: Holder)
    requires AllOk(w) && !w.holder.Tears? && !w.holder.Settles? && !holder.Tears? && !holder.Settles?
    ensures AllOk(w.(holder := holder))
  {
    hide SessionOk;
    var w' := w.(holder := holder);
    forall k | 0 <= k < |w'.sessions|
      ensures SessionOk(w'.sessions[k], ViewOf(w', k))
    {
      assert SessionOk(w.sessions[k], ViewOf(w, k));
      assert ViewOf(w', k) == ViewOf(w, k);
    }
  }

  lemma InstallKeepsInv(w: World, ident: Ident)
    requires Registry(w) && AllOk(w) && w.holder == Free && ident !in w.controls
    ensures Inv(Install(w, ident))
  {
    hide SessionOk, Fresh, ViewOf;
    var w' := Install(w, ident);
    FreshOk(ident);
    forall k | 0 <= k < |w'.sessions|
      ensures SessionOk(w'.sessions[k], ViewOf(w', k))
    {
      InstalledViews(w, ident, k);
      if k < |w.sessions| {
        assert SessionOk(w.sessions[k], ViewOf(w, k));
      }
    }
  }

  lemma InstalledViews(w: World, ident: Ident, k: nat)
    requires Registry(w) && w.holder == Free && ident !in w.controls && k <= |w.sessions|
    ensures var w' := Install(w, ident);
      ViewOf(w', k) == if k < |w.sessions| then ViewOf(w, k) else View(true, false, false, TakeFields)
  {
  }

  lemma FinishKeepsInv(w: World, job: Job)
    requires Registry(w.(holder := Free)) && AllOk(w.(holder := Free))
    requires job.Replace? ==> job.ident !in w.controls
    ensures Inv(Finish(w, job))
  {
    hide SessionOk;
    var w0 := w.(holder := Free);
    if job.Replace? {
      assert Finish(w, job) == Install(w0, job.ident);
      InstallKeepsInv(w0, job.ident);
    } else {
      HolderKeepsOk(w0, Finish(w, job).holder);
    }
  }

  lemma BeginTearKeepsInv(w: World, job: Job, ident: Ident)
    requires Inv(w) && (w.holder == Free || w.holder == Clears)
    requires job.Replace? ==> job.ident == ident
    ensures Inv(BeginTear(w, job, ident))
  {
    hide SessionOk;
    var w' := BeginTear(w, job, ident);
    if ident in w.controls {
      var sid := w.controls[ident];
      assert SessionOk(w.sessions[sid], ViewOf(w, sid));
      CancelKeepsOk(w.sessions[sid], ViewOf(w, sid), ViewOf(w', sid));
      forall k | 0 <= k < |w'.sessions| && k != sid
        ensures SessionOk(w'.sessions[k], ViewOf(w', k))
      {
        assert w'.sessions[k] == w.sessions[k] && ViewOf(w', k) == ViewOf(w, k);
        assert SessionOk(w.sessions[k], ViewOf(w, k));
      }
    } else {
      HolderKeepsOk(w, Free);
      FinishKeepsInv(w, job);
    }
  }

  /** A step of teardown that stays within its session. */
  lemma TearLocalKeepsInv(w: World, s': Session, stage: Stage)
    requires Inv(w) && w.holder.Tears?
    requires var sid := w.holder.sid;
      && s'.ident == w.sessions[sid].ident
      && SessionOk(s', ViewOf(w, sid).(stage := stage))
    ensures var sid := w.holder.sid; Inv(Put(w, sid, s').(holder := Tears(w.holder.job, sid, stage)))
  {
    hide SessionOk;
    var sid := w.holder.sid;
    var w' := Put(w, sid, s').(holder := Tears(w.holder.job, sid, stage));
    assert ViewOf(w', sid) == ViewOf(w, sid).(stage := stage);
    forall k | 0 <= k < |w'.sessions| && k != sid
      ensures SessionOk(w'.sessions[k], ViewOf(w', k))
    {
      assert SessionOk(w.sessions[k], ViewOf(w, k));
      assert ViewOf(w', k) == ViewOf(w, k);
    }
  }

  lemma TornIsCurrent(w: World)
    requires Inv(w) && w.holder.Tears?
    ensures Current(w, w.holder.sid)
  {
    hide ConnOk, MediaOk, DriveOk, LinkOk;
    assert SessionOk(w.sessions[w.holder.sid], ViewOf(w, w.holder.sid));
  }

  /** The world once teardown has removed its session, before its caller goes on. */
  function Removed(w: World, s': Session): World
    requires w.holder.Tears? && w.holder.sid < |w.sessions|
  {
    Put(w, w.holder.sid, s').(controls := w.controls - {s'.ident}, holder := Free)
  }

  lemma RemovedViews(w: World, s': Session, k: nat)
    requires Registry(w) && w.holder.Tears? && k < |w.sessions| && Current(w, w.holder.sid)
    requires s'.ident == w.sessions[w.holder.sid].ident
    ensures var v := ViewOf(Removed(w, s'), k);
      if k == w.holder.sid then v == View(false, false, false, TakeFields) else v == ViewOf(w, k)
  {
  }

  lemma RemovedRegistry(w: World, s': Session)
    requires Registry(w) && w.holder.Tears?
    requires s'.ident == w.sessions[w.holder.sid].ident
    ensures Registry(Removed(w, s'))
  {
    var w' := Removed(w, s');
    assert forall k :: 0 <= k < |w.sessions| ==> w'.sessions[k].ident == w.sessions[k].ident;
    assert forall i :: i in w'.controls ==> i in w.controls && w'.controls[i] == w.controls[i];
  }

  lemma TearRemoveKeepsOk(w: World, s': Session)
    requires Inv(w) && w.holder.Tears?
    requires s'.ident == w.sessions[w.holder.sid].ident
    requires SessionOk(s', View(false, false, false, TakeFields))
    ensures Registry(Removed(w, s')) && AllOk(Removed(w, s'))
  {
    TornIsCurrent(w);
    hide SessionOk, ViewOf, Registry;
    var w' := Removed(w, s');
    RemovedRegistry(w, s');
    forall k | 0 <= k < |w'.sessions|
      ensures SessionOk(w'.sessions[k], ViewOf(w', k))
    {
      RemovedViews(w, s', k);
      if k != w.holder.sid {
        assert SessionOk(w.sessions[k], ViewOf(w, k));
      }
    }
  }

  lemma TearKeepsInv(w: World)
    requires Inv(w) && TearEnabled(w)
    ensures Inv(TearStep(w))
  {
    hide SessionOk, Put;
    match w.holder {
      case Tears(job, sid, stage) =>
        var s, v := w.sessions[sid], ViewOf(w, sid);
        assert SessionOk(s, v);
        match stage {
          case TakeFields =>
            TakeKeepsOk(s, v, v.(stage := CloseMedia(s.media.field)));
            TearLocalKeepsInv(w, Taking(s), CloseMedia(s.media.field));
          case CloseMedia(media) =>
            CloseMediaKeepsOk(s, v, v.(stage := CloseConn));
            TearLocalKeepsInv(w, if media then s.(media := Closed(s.media)) else s, CloseConn);
          case CloseConn =>
            CloseConnKeepsOk(s, v, View(false, false, false, TakeFields));
            TearRemoveKeepsOk(w, Hanging(s));
            FinishKeepsInv(Put(w, sid, Hanging(s)).(controls := w.controls - {s.ident}), job);
        }
      case Clears => HolderKeepsOk(w, Free);
    }
  }

  // ---------------------------------------------------------------------------------------------------------
  // Every action, every run

  lemma CommandKeepsInv(w: World, sid: nat, commanding: bool)
    requires Inv(w) && sid < |w.sessions|
    ensures Inv(Put(w, sid, w.sessions[sid].(commanding := commanding)))
  {
    hide ConnOk, MediaOk, DriveOk, LocksOk;
    var s := w.sessions[sid];
    var w' := Put(w, sid, s.(commanding := commanding));
    forall k | 0 <= k < |w'.sessions|
      ensures SessionOk(w'.sessions[k], ViewOf(w', k))
    {
      assert SessionOk(w.sessions[k], ViewOf(w, k));
      assert ViewOf(w', k) == ViewOf(w, k);
    }
  }

  /** Neither the device records nor the base context are part of any view. */
  lemma RecordsKeepInv(w: World, devices: map<Ident, Record>, baseCancelled: bool)
    requires Inv(w)
    ensures Inv(w.(devices := devices, baseCancelled := baseCancelled))
  {
    hide SessionOk;
    var w' := w.(devices := devices, baseCancelled := baseCancelled);
    forall k | 0 <= k < |w'.sessions|
      ensures SessionOk(w'.sessions[k], ViewOf(w', k))
    {
      assert SessionOk(w.sessions[k], ViewOf(w, k));
      assert ViewOf(w', k) == ViewOf(w, k);
    }
  }

  lemma ActionKeepsInv(w: World, a: Action)
    requires Inv(w) && Enabled(w, a)
    ensures Inv(Apply(w, a))
  {
    hide Inv, SetupEnabled, SetupStep, TearEnabled, TearStep, BeginTear, Put;
    match a {
      case Register(ident) => RecordsKeepInv(w, w.devices[ident := Record("", false)], w.baseCancelled);
      case Update(ident, record) => RecordsKeepInv(w, w.devices[ident := record], w.baseCancelled);
      case StartSession(ident) => BeginTearKeepsInv(w, Replace(ident), ident);
      case DeviceDisconnected(ident) =>
        RecordsKeepInv(w, w.devices - {ident}, w.baseCancelled);
        BeginTearKeepsInv(w.(devices := w.devices - {ident}), Disconnect, ident);
      case ShutdownKart(ident) =>
        RecordsKeepInv(w, w.devices - {ident}, w.baseCancelled);
        BeginTearKeepsInv(w.(devices := w.devices - {ident}), Shutdown, ident);
      case ClearDevices => ClearKeepsInv(w);
      case ClearNext(ident) => BeginTearKeepsInv(w, Clear, ident);
      case Tear => TearKeepsInv(w);
      case CancelBase => RecordsKeepInv(w, w.devices, true);
      case Setup(sid, outcome, serial) => SetupKeepsInv(w, sid, outcome, serial);
      case CommandBegins(sid) => CommandKeepsInv(w, sid, true);
      case CommandEnds(sid) => CommandKeepsInv(w, sid, false);
    }
  }

  lemma ClearKeepsInv(w: World)
    requires Inv(w) && w.holder == Free
    ensures Inv(w.(holder := Clears))
  {
    HolderKeepsOk(w, Clears);
  }

  lemma {:induction false} RunKeepsInv(w: World, actions: seq<Action>, w': World)
    requires Inv(w) && Run(w, actions, w')
    ensures Inv(w')
    decreases |actions|
  {
    hide Inv, Enabled, Apply;
    if actions != [] {
      ActionKeepsInv(w, actions[0]);
      RunKeepsInv(Apply(w, actions[0]), actions[1..], w');
    }
  }
}
