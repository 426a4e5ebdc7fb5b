/**
 * Control sessions of connected karts: `startControlSession`, `teardownControlLocked` and their callers
 * (internal/daemon/devices.go, internal/daemon/control.go).
 *
 * Each session is set up by a goroutine that owns a connection, a media endpoint and a drive sender until it
 * hands them to its `deviceControl`. Between any two of its steps the session may be torn down, replaced by a
 * newer one, or have its context cancelled. The model is a step relation: one action is one critical section or
 * one fallible call, and `m.mu` and `dc.mu` are held across actions exactly where the code holds them.
 */
module ControlSession {
  type Ident = string

  /** Where a setup goroutine stands; the name says what it does next. */
  datatype Pc =
    | Dialing
    | DialFailed
    | Probing
    | Joining
    | OpeningMedia
    | CheckingMedia
    | LockingMedia
    | StoringMedia(keep: bool)
    | Describing
    | MarkingSet
    | Waking
    | MarkingDrive
    | Detaching(last: bool)
    | ClosingMedia(last: bool)
    | OpeningDrive
    | Settling
    | Attaching
    | ClosingDrive
    | ClosingConn
    | Ended

  /** The goroutine's `drive` variable. `TypedNil` is a non-nil interface that holds a nil pointer. */
  datatype DriveVar = NilDrive | TypedNil | Live

  /** A resource of a session: whether its deviceControl field is non-nil, whether it was opened, how often closed. */
  datatype Resource = Resource(field: bool, isOpened: bool, closes: nat)

  const NONE: Resource := Resource(false, false, 0)

  function Opened(r: Resource): Resource { r.(isOpened := true) }

  function Closed(r: Resource): Resource { r.(closes := r.closes + 1) }

  function Kept(r: Resource): Resource { r.(field := true) }

  function Given(r: Resource): Resource { r.(field := false) }

  /** A deviceControl together with the goroutine that sets it up. */
  datatype Session = Session(
    ident: Ident,
    pc: Pc,
    cancelled: bool,
    commanding: bool,
    serial: string,
    driveVar: DriveVar,
    driveMode: bool,
    controlSet: bool,
    conn: Resource,
    media: Resource,
    drive: Resource)

  function Fresh(ident: Ident): Session {
    Session(ident, Dialing, false, false, "", NilDrive, false, false, NONE, NONE, NONE)
  }

  datatype Record = Record(serial: string, armed: bool)

  /** Why m.mu is held while a session is torn down, and so what the holder does afterwards. */
  datatype Job = Disconnect | Shutdown | Replace(ident: Ident) | Clear

  datatype Stage = TakeFields | CloseMedia(media: bool) | CloseConn

  /** Who holds m.mu between two actions. */
  datatype Holder =
    | Free
    | Settles(sid: nat)
    | Tears(job: Job, sid: nat, stage: Stage)
    | Clears

  datatype World = World(
    sessions: seq<Session>,
    controls: map<Ident, nat>,
    devices: map<Ident, Record>,
    holder: Holder,
    baseCancelled: bool,
    crashed: bool)

  const EMPTY: World := World([], map[], map[], Free, false, false)

  datatype Outcome = Succeeds | Fails | FailsTyped

  datatype Action =
    | Register(ident: Ident)
    | Update(ident: Ident, record: Record)
    | StartSession(ident: Ident)
    | DeviceDisconnected(ident: Ident)
    | ShutdownKart(ident: Ident)
    | ClearDevices
    | ClearNext(ident: Ident)
    | Tear
    | CancelBase
    | Setup(sid: nat, outcome: Outcome, serial: string)
    | CommandBegins(sid: nat)
    | CommandEnds(sid: nat)

  // ---------------------------------------------------------------------------------------------------------
  // Reading the world

  predicate Current(w: World, sid: nat)
    requires sid < |w.sessions|
  {
    var ident := w.sessions[sid].ident;
    ident in w.controls && w.controls[ident] == sid
  }

  /** `ctx.Err() != nil`: the session's own cancel or the daemon's base context. */
  predicate Cancelled(w: World, sid: nat)
    requires sid < |w.sessions|
  {
    w.sessions[sid].cancelled || w.baseCancelled
  }

  /** dc.mu is free: neither the setup goroutine nor a drive command holds it. */
  predicate DcFree(s: Session) {
    !s.commanding && !s.pc.StoringMedia?
  }

  // ---------------------------------------------------------------------------------------------------------
  // The setup goroutine

  predicate SetupEnabled(w: World, sid: nat) {
    && sid < |w.sessions|
    && match w.sessions[sid].pc {
         case Ended => false
         case DialFailed | Joining | Settling => w.holder == Free
         case Attaching => w.holder == Settles(sid) && DcFree(w.sessions[sid])
         case LockingMedia | MarkingSet | MarkingDrive | Detaching(_) => DcFree(w.sessions[sid])
         case _ => true
       }
  }

  function AfterMedia(last: bool): Pc {
    if last then ClosingConn else OpeningDrive
  }

  /** Where a step that takes no lock of the manager leads; `attached` says whether dc.media is set. */
  function NextPc(pc: Pc, attached: bool, cancelled: bool, outcome: Outcome): Pc {
    match pc
    case Dialing => if outcome.Succeeds? then Probing else DialFailed
    case Probing => Joining
    case OpeningMedia => if outcome.Succeeds? then CheckingMedia else OpeningDrive
    case CheckingMedia => if cancelled then OpeningDrive else LockingMedia
    case LockingMedia => StoringMedia(!cancelled)
    case StoringMedia(keep) => if keep then Describing else OpeningDrive
    case Describing => if outcome.Succeeds? then MarkingSet else Detaching(false)
    case MarkingSet => Waking
    case Waking => if outcome.Succeeds? then MarkingDrive else OpeningDrive
    case MarkingDrive => OpeningDrive
    case Detaching(last) => if attached then ClosingMedia(last) else AfterMedia(last)
    case ClosingMedia(last) => AfterMedia(last)
    case OpeningDrive => Settling
    case ClosingDrive => Detaching(true)
    case ClosingConn => Ended
    case _ => pc
  }

  /** What such a step does to the connection, the media endpoint and the drive sender. */
  function ConnAfter(pc: Pc, conn: Resource, outcome: Outcome): Resource {
    match pc
    case Dialing => if outcome.Succeeds? then Opened(conn) else conn
    case ClosingConn => Closed(conn)
    case _ => conn
  }

  function MediaAfter(pc: Pc, media: Resource, cancelled: bool, outcome: Outcome): Resource {
    match pc
    case OpeningMedia => if outcome.Succeeds? then Opened(media) else media
    case CheckingMedia => if cancelled then Closed(media) else media
    case StoringMedia(keep) => if keep then Kept(media) else Closed(media)
    case Detaching(_) => Given(media)
    case ClosingMedia(_) => Closed(media)
    case _ => media
  }

  function DriveAfter(pc: Pc, drive: Resource, outcome: Outcome): Resource {
    match pc
    case OpeningDrive => if outcome.Succeeds? then Opened(drive) else drive
    case ClosingDrive => Closed(drive)
    case _ => drive
  }

  function DriveVarAfter(pc: Pc, driveVar: DriveVar, outcome: Outcome): DriveVar {
    if pc.OpeningDrive? then
      match outcome
      case Succeeds => Live
      case Fails => NilDrive
      case FailsTyped => TypedNil
    else driveVar
  }

  /** Steps that touch only the goroutine's own variables, its deviceControl and the outside world. */
  function Local(s: Session, cancelled: bool, outcome: Outcome, serial: string): Session {
    Session(
      s.ident,
      NextPc(s.pc, s.media.field, cancelled, outcome),
      s.cancelled,
      s.commanding,
      if s.pc.Probing? && outcome.Succeeds? then serial else s.serial,
      DriveVarAfter(s.pc, s.driveVar, outcome),
      s.driveMode || s.pc.MarkingDrive?,
      s.controlSet || s.pc.MarkingSet?,
      ConnAfter(s.pc, s.conn, outcome),
      MediaAfter(s.pc, s.media, cancelled, outcome),
      DriveAfter(s.pc, s.drive, outcome))
  }

  function Put(w: World, sid: nat, s: Session): World
    requires sid < |w.sessions|
  {
    w.(sessions := w.sessions[sid := s])
  }

  /** The record of a kart whose session is established; the outcome says whether the sender is still armed. */
  function Reported(s: Session, record: Record, outcome: Outcome): Record {
    Record(if s.serial != "" then s.serial else record.serial, s.driveMode && s.driveVar.Live? && outcome.Succeeds?)
  }

  /** The dial failed: the session leaves m.controls unless a newer one has taken its place. */
  function Abandon(w: World, sid: nat): World
    requires sid < |w.sessions|
  {
    var s := w.sessions[sid];
    var w' := if Current(w, sid) then w.(controls := w.controls - {s.ident}) else w;
    Put(w', sid, s.(cancelled := true, pc := Ended))
  }

  /** The first look back: hand the connection to the deviceControl, or close it if the session is over. */
  function Join(w: World, sid: nat): World
    requires sid < |w.sessions|
  {
    var s := w.sessions[sid];
    if Current(w, sid) && !Cancelled(w, sid) then Put(w, sid, s.(conn := Kept(s.conn), pc := OpeningMedia))
    else Put(w, sid, s.(pc := ClosingConn))
  }

  /** The last look back: go on under m.mu, or release everything if the session is over. */
  function Settle(w: World, sid: nat): World
    requires sid < |w.sessions|
  {
    var s := w.sessions[sid];
    if Current(w, sid) && !Cancelled(w, sid) then Put(w, sid, s.(pc := Attaching)).(holder := Settles(sid))
    else Put(w, sid, s.(pc := if s.driveVar.NilDrive? then Detaching(true) else ClosingDrive))
  }

  /** Under m.mu and dc.mu: hand over the drive sender and report the kart. Using a nil sender panics. */
  function Attach(w: World, sid: nat, outcome: Outcome): World
    requires sid < |w.sessions|
  {
    var s := w.sessions[sid];
    if s.driveVar.TypedNil? then w.(crashed := true)
    else
      var drive := if s.driveVar.Live? then Kept(s.drive) else s.drive;
      var devices :=
        if s.ident in w.devices then w.devices[s.ident := Reported(s, w.devices[s.ident], outcome)] else w.devices;
      Put(w, sid, s.(drive := drive, pc := Ended)).(devices := devices, holder := Free)
  }

  function SetupStep(w: World, sid: nat, outcome: Outcome, serial: string): World
    requires SetupEnabled(w, sid)
  {
    var s := w.sessions[sid];
    match s.pc
    case DialFailed => Abandon(w, sid)
    case Joining => Join(w, sid)
    case Settling => Settle(w, sid)
    case Attaching => Attach(w, sid, outcome)
    case _ =>
      if s.pc.ClosingDrive? && s.driveVar.TypedNil? then w.(crashed := true)
      else Put(w, sid, Local(s, Cancelled(w, sid), outcome, serial))
  }

  // ---------------------------------------------------------------------------------------------------------
  // Teardown and its callers

  /** Entry of teardownControlLocked: nothing to do without a session, otherwise cancel it first. */
  function BeginTear(w: World, job: Job, ident: Ident): World
  {
    if ident in w.controls && w.controls[ident] < |w.sessions| then
      var sid := w.controls[ident];
      Put(w, sid, w.sessions[sid].(cancelled := true)).(holder := Tears(job, sid, TakeFields))
    else
      Finish(w, job)
  }

  /** What the caller of teardownControlLocked does once it returns. */
  function Finish(w: World, job: Job): World {
    match job
    case Disconnect | Shutdown => w.(holder := Free)
    case Clear => w.(holder := Clears)
    case Replace(ident) => Install(w, ident)
  }

  /** startControlSession registers the new deviceControl and starts its goroutine. */
  function Install(w: World, ident: Ident): World {
    w.(sessions := w.sessions + [Fresh(ident)], controls := w.controls[ident := |w.sessions|], holder := Free)
  }

  predicate TearEnabled(w: World) {
    match w.holder
    case Tears(_, sid, stage) => sid < |w.sessions| && (stage.TakeFields? ==> DcFree(w.sessions[sid]))
    case Clears => w.controls == map[]
    case _ => false
  }

  /** Under dc.mu: close the drive sender and take the media endpoint away. */
  function Taking(s: Session): Session {
    s.(drive := if s.drive.field then Given(Closed(s.drive)) else s.drive, media := Given(s.media))
  }

  /** Close the connection; the field keeps naming it. */
  function Hanging(s: Session): Session {
    s.(conn := if s.conn.field then Closed(s.conn) else s.conn)
  }

  function TearStep(w: World): World
    requires TearEnabled(w)
  {
    match w.holder
    case Tears(job, sid, TakeFields) =>
      var s := w.sessions[sid];
      Put(w, sid, Taking(s)).(holder := Tears(job, sid, CloseMedia(s.media.field)))
    case Tears(job, sid, CloseMedia(media)) =>
      var s := w.sessions[sid];
      Put(w, sid, if media then s.(media := Closed(s.media)) else s).(holder := Tears(job, sid, CloseConn))
    case Tears(job, sid, CloseConn) =>
      var s := w.sessions[sid];
      Finish(Put(w, sid, Hanging(s)).(controls := w.controls - {s.ident}), job)
    case _ => w.(devices := map[], holder := Free)
  }

  // ---------------------------------------------------------------------------------------------------------
  // Actions and runs

  // ShutdownKart looked the session up and spoke to the kart before it took m.mu for good; what it saw then may
  // have changed, so its last critical section is enabled for any kart.
  predicate Enabled(w: World, a: Action) {
    && !w.crashed
    && match a {
         case Register(_) | DeviceDisconnected(_) | ShutdownKart(_) | ClearDevices => w.holder == Free
         case StartSession(ident) => w.holder == Free && ident in w.devices
         case Update(ident, _) => w.holder == Free && ident in w.devices
         case ClearNext(ident) => w.holder == Clears && ident in w.controls
         case Tear => TearEnabled(w)
         case CancelBase => true
         case Setup(sid, _, _) => SetupEnabled(w, sid)
         case CommandBegins(sid) => sid < |w.sessions| && DcFree(w.sessions[sid])
         case CommandEnds(sid) => sid < |w.sessions| && w.sessions[sid].commanding
       }
  }

  function Apply(w: World, a: Action): World
    requires Enabled(w, a)
  {
    match a
    case Register(ident) => w.(devices := w.devices[ident := Record("", false)])
    case Update(ident, record) => w.(devices := w.devices[ident := record])
    case StartSession(ident) => BeginTear(w, Replace(ident), ident)
    case DeviceDisconnected(ident) => BeginTear(w.(devices := w.devices - {ident}), Disconnect, ident)
    case ShutdownKart(ident) => BeginTear(w.(devices := w.devices - {ident}), Shutdown, ident)
    case ClearDevices => w.(holder := Clears)
    case ClearNext(ident) => BeginTear(w, Clear, ident)
    case Tear => TearStep(w)
    case CancelBase => w.(baseCancelled := true)
    case Setup(sid, outcome, serial) => SetupStep(w, sid, outcome, serial)
    case CommandBegins(sid) => Put(w, sid, w.sessions[sid].(commanding := true))
    case CommandEnds(sid) => Put(w, sid, w.sessions[sid].(commanding := false))
  }

  /** The worlds a list of actions goes through, from one world to another. */
  ghost predicate Run(w: World, actions: seq<Action>, w': World)
    decreases |actions|
  {
    if actions == [] then w' == w
    else Enabled(w, actions[0]) && Run(Apply(w, actions[0]), actions[1..], w')
  }
}
