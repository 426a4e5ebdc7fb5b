/**
 * What a session that nobody disturbs ends up with, from how its own fallible calls turned out.
 */
module ControlStory {
  import opened ControlSession
  import opened ControlRuns
  import opened ControlLaws
  import opened ControlRecords

  /** Which of a setup goroutine's calls succeeded so far, and the serial that was read. */
  datatype Story = Story(media: bool, told: bool, woken: bool, drive: bool, serial: string)

  const UNTOLD: Story := Story(false, false, false, false, "")

  /** The outcome of the call a goroutine makes at `pc`. */
  function Noted(st: Story, pc: Pc, outcome: Outcome, serial: string): Story {
    match pc
    case Probing => st.(serial := if outcome.Succeeds? then serial else "")
    case OpeningMedia => st.(media := outcome.Succeeds?)
    case Describing => st.(told := outcome.Succeeds?)
    case Waking => st.(woken := outcome.Succeeds?)
    case OpeningDrive => st.(drive := outcome.Succeeds?)
    case _ => st
  }

  function NotedBy(st: Story, w: World, a: Action, sid: nat): Story {
    if a.Setup? && a.sid == sid && sid < |w.sessions| then Noted(st, w.sessions[sid].pc, a.outcome, a.serial) else st
  }

  /** The story of a session over a run. */
  ghost function StoryOf(st: Story, w: World, actions: seq<Action>, sid: nat): Story
    decreases |actions|
  {
    if actions == [] || !Enabled(w, actions[0]) then st
    else StoryOf(NotedBy(st, w, actions[0], sid), Apply(w, actions[0]), actions[1..], sid)
  }

  /** The media endpoint is attached and the kart told its ports, and the sender attached, as the calls went. */
  predicate MediaSettled(s: Session, st: Story) {
    && (s.media.field <==> st.media && st.told) && (s.controlSet <==> st.media && st.told)
    && (s.driveMode <==> st.media && st.told && st.woken)
  }

  predicate Holds(s: Session, media: bool, controlSet: bool, driveMode: bool) {
    s.media.field == media && s.controlSet == controlSet && s.driveMode == driveMode && !s.drive.field
  }

  predicate SoFar(st: Story, media: bool, told: bool, woken: bool) {
    st.media == media && st.told == told && st.woken == woken && !st.drive
  }

  /** The connection is open from the dial on, and the deviceControl has it from the first look back on. */
  predicate ConnOnTrack(s: Session) {
    && s.conn.closes == 0
    && (s.conn.isOpened <==> !s.pc.Dialing? && !s.pc.DialFailed?)
    && (s.conn.field <==> !s.pc.Dialing? && !s.pc.DialFailed? && !s.pc.Probing? && !s.pc.Joining?)
  }

  /** How far an undisturbed session is, and what it holds there. */
  predicate OnTrack(s: Session, st: Story) {
    && s.serial == st.serial && ConnOnTrack(s)
    && match s.pc
       case Dialing | DialFailed | Probing | Joining | OpeningMedia =>
         SoFar(st, false, false, false) && Holds(s, false, false, false)
         && (s.pc != Joining && s.pc != OpeningMedia ==> s.serial == "")
       case CheckingMedia | LockingMedia => SoFar(st, true, false, false) && Holds(s, false, false, false)
       case StoringMedia(keep) => keep && SoFar(st, true, false, false) && Holds(s, false, false, false)
       case Describing => SoFar(st, true, false, false) && Holds(s, true, false, false)
       case MarkingSet => SoFar(st, true, true, false) && Holds(s, true, false, false)
       case Waking => SoFar(st, true, true, false) && Holds(s, true, true, false)
       case MarkingDrive => SoFar(st, true, true, true) && Holds(s, true, true, false)
       case Detaching(last) => !last && SoFar(st, true, false, false) && Holds(s, true, false, false)
       case ClosingMedia(last) => !last && SoFar(st, true, false, false) && Holds(s, false, false, false)
       case OpeningDrive => MediaSettled(s, st) && !st.drive && !s.drive.field
       case Settling | Attaching => MediaSettled(s, st) && !s.drive.field && (s.driveVar.Live? <==> st.drive)
       case Ended => MediaSettled(s, st) && (s.drive.field <==> st.drive)
       case ClosingDrive | ClosingConn => false
  }

  /** The session is current and its context is not cancelled. */
  predicate Undisturbed(w: World, sid: nat) {
    sid < |w.sessions| && !Cancelled(w, sid)
  }

  ghost predicate StoryOk(w: World, sid: nat, st: Story) {
    Undisturbed(w, sid) ==> OnTrack(w.sessions[sid], st)
  }

  /** Nothing a story speaks of is different. */
  predicate SameStory(s: Session, s': Session) {
    && s'.pc == s.pc && s'.serial == s.serial && s'.driveVar == s.driveVar && s'.driveMode == s.driveMode
    && s'.controlSet == s.controlSet && s'.conn == s.conn && s'.media == s.media && s'.drive == s.drive
  }

  // ----- the goroutine's own steps

  lemma LocalOnTrack(s: Session, st: Story, outcome: Outcome, serial: string)
    requires OnTrack(s, st) && IsLocal(s.pc) && s.pc != Ended
    ensures OnTrack(Local(s, false, outcome, serial), Noted(st, s.pc, outcome, serial))
  {
  }

  /** An uncancelled session is the current one of its kart and not being torn down. */
  lemma UncancelledIsCurrent(w: World, sid: nat)
    requires Inv(w) && sid < |w.sessions| && !w.sessions[sid].cancelled
    ensures Current(w, sid) && !(w.holder.Tears? && w.holder.sid == sid)
  {
    hide ConnOk, MediaOk, DriveOk, LinkOk;
    assert SessionOk(w.sessions[sid], ViewOf(w, sid));
  }

  lemma JoinOnTrack(w: World, sid: nat, st: Story)
    requires sid < |w.sessions| && Current(w, sid) && !Cancelled(w, sid)
    requires w.sessions[sid].pc.Joining? && OnTrack(w.sessions[sid], st)
    ensures sid < |Join(w, sid).sessions| && OnTrack(Join(w, sid).sessions[sid], st)
  {
  }

  lemma SettleOnTrack(w: World, sid: nat, st: Story)
    requires sid < |w.sessions| && Current(w, sid) && !Cancelled(w, sid)
    requires w.sessions[sid].pc.Settling? && OnTrack(w.sessions[sid], st)
    ensures sid < |Settle(w, sid).sessions| && OnTrack(Settle(w, sid).sessions[sid], st)
  {
  }

  lemma AttachOnTrack(w: World, sid: nat, st: Story, outcome: Outcome)
    requires sid < |w.sessions| && !w.sessions[sid].driveVar.TypedNil?
    requires w.sessions[sid].pc.Attaching? && OnTrack(w.sessions[sid], st)
    ensures sid < |Attach(w, sid, outcome).sessions| && OnTrack(Attach(w, sid, outcome).sessions[sid], st)
  {
    hide Reported;
  }

  lemma AbandonCancels(w: World, sid: nat)
    requires sid < |w.sessions|
    ensures sid < |Abandon(w, sid).sessions| && Abandon(w, sid).sessions[sid].cancelled
  {
    hide Current;
  }

  lemma OwnStepOk(w: World, sid: nat, st: Story, outcome: Outcome, serial: string)
    requires Inv(w) && SetupEnabled(w, sid) && StoryOk(w, sid, st) && !w.crashed
    ensures var w' := SetupStep(w, sid, outcome, serial);
            !w'.crashed ==> StoryOk(w', sid, Noted(st, w.sessions[sid].pc, outcome, serial))
  {
    hide Local, OnTrack, Abandon, Join, Settle, Attach, Current, Noted, Inv;
    var s := w.sessions[sid];
    StaysCancelled(w, sid, outcome, serial);
    if !Cancelled(w, sid) {
      UncancelledIsCurrent(w, sid);
      match s.pc {
        case DialFailed => AbandonCancels(w, sid);
        case Joining =>
          JoinOnTrack(w, sid, st);
          NotNoted(st, s.pc, outcome, serial);
        case Settling =>
          SettleOnTrack(w, sid, st);
          NotNoted(st, s.pc, outcome, serial);
        case Attaching =>
          if !s.driveVar.TypedNil? {
            AttachOnTrack(w, sid, st, outcome);
            NotNoted(st, s.pc, outcome, serial);
          } else {
            AttachCrashes(w, sid, outcome);
          }
        case _ => LocalOnTrack(s, st, outcome, serial);
      }
    }
  }

  lemma AttachCrashes(w: World, sid: nat, outcome: Outcome)
    requires sid < |w.sessions| && w.sessions[sid].driveVar.TypedNil?
    ensures Attach(w, sid, outcome).crashed
  {
  }

  lemma NotNoted(st: Story, pc: Pc, outcome: Outcome, serial: string)
    requires pc.Joining? || pc.Settling? || pc.Attaching?
    ensures Noted(st, pc, outcome, serial) == st
  {
  }

  /** A rewrite of one session that takes no cancellation back. */
  predicate NotUncancelled(w: World, w': World, sid: nat) {
    && |w'.sessions| == |w.sessions| && w'.baseCancelled == w.baseCancelled
    && (sid < |w.sessions| && w.sessions[sid].cancelled ==> w'.sessions[sid].cancelled)
  }

  lemma AbandonUncancelled(w: World, sid: nat)
    requires sid < |w.sessions|
    ensures NotUncancelled(w, Abandon(w, sid), sid)
  {
    hide Current;
  }

  lemma JoinUncancelled(w: World, sid: nat)
    requires sid < |w.sessions|
    ensures NotUncancelled(w, Join(w, sid), sid)
  {
    hide Current, Cancelled;
  }

  lemma SettleUncancelled(w: World, sid: nat)
    requires sid < |w.sessions|
    ensures NotUncancelled(w, Settle(w, sid), sid)
  {
    hide Current, Cancelled;
  }

  lemma AttachUncancelled(w: World, sid: nat, outcome: Outcome)
    requires sid < |w.sessions|
    ensures NotUncancelled(w, Attach(w, sid, outcome), sid)
  {
    hide Reported;
  }

  lemma LocalUncancelled(w: World, sid: nat, cancelled: bool, outcome: Outcome, serial: string)
    requires sid < |w.sessions|
    ensures NotUncancelled(w, Put(w, sid, Local(w.sessions[sid], cancelled, outcome, serial)), sid)
  {
    hide NextPc, ConnAfter, MediaAfter, DriveAfter, DriveVarAfter;
  }

  /** A step of the goroutine cancels nothing back. */
  lemma StaysCancelled(w: World, sid: nat, outcome: Outcome, serial: string)
    requires SetupEnabled(w, sid)
    ensures NotUncancelled(w, SetupStep(w, sid, outcome, serial), sid)
  {
    hide Local, Put, Abandon, Join, Settle, Attach, NotUncancelled, Cancelled, DcFree;
    AbandonUncancelled(w, sid);
    JoinUncancelled(w, sid);
    SettleUncancelled(w, sid);
    AttachUncancelled(w, sid, outcome);
    LocalUncancelled(w, sid, Cancelled(w, sid), outcome, serial);
    SameUncancelled(w, w.(crashed := true), sid);
  }

  lemma SameUncancelled(w: World, w': World, sid: nat)
    requires w'.sessions == w.sessions && w'.baseCancelled == w.baseCancelled
    ensures NotUncancelled(w, w', sid)
  {
  }

  // ----- the steps of everybody else

  /** Another action leaves what the story speaks of, unless it is one that has the session cancelled. */
  ghost predicate LeavesStory(w: World, w': World, sid: nat) {
    sid < |w.sessions| ==>
      sid < |w'.sessions| && (Undisturbed(w', sid) ==>
        Undisturbed(w, sid) && SameStory(w.sessions[sid], w'.sessions[sid]))
  }

  lemma FinishLeaves(w: World, job: Job, sid: nat)
    ensures LeavesStory(w, Finish(w, job), sid)
  {
  }

  lemma BeginTearLeaves(w: World, job: Job, ident: Ident, sid: nat)
    ensures LeavesStory(w, BeginTear(w, job, ident), sid)
  {
    hide Finish;
    if !(ident in w.controls && w.controls[ident] < |w.sessions|) {
      FinishLeaves(w, job, sid);
    }
  }

  lemma LeavesTwice(w: World, w1: World, w2: World, sid: nat)
    requires LeavesStory(w, w1, sid) && LeavesStory(w1, w2, sid)
    ensures LeavesStory(w, w2, sid)
  {
  }

  lemma TearLeaves(w: World, sid: nat)
    requires Inv(w) && TearEnabled(w)
    ensures LeavesStory(w, TearStep(w), sid)
  {
    if w.holder.Tears? {
      var k := w.holder.sid;
      if !w.sessions[k].cancelled {
        UncancelledIsCurrent(w, k);
        assert false;
      }
      hide Inv, Finish;
      if w.holder.stage.CloseConn? {
        var s := w.sessions[k];
        var w1 := Put(w, k, Hanging(s)).(controls := w.controls - {s.ident});
        FinishLeaves(w1, w.holder.job, sid);
        assert LeavesStory(w, w1, sid);
        LeavesTwice(w, w1, TearStep(w), sid);
      }
    }
  }

  lemma RewriteLeaves(w: World, w': World, k: nat, sid: nat)
    requires k != sid && k < |w.sessions| == |w'.sessions| && w'.sessions == w.sessions[k := w'.sessions[k]]
    requires w'.baseCancelled == w.baseCancelled
    ensures LeavesStory(w, w', sid)
  {
  }

  /** No step of a goroutine touches the base context or another session. */
  predicate OnlyRewrites(w: World, w': World, k: nat)
    requires k < |w.sessions|
  {
    |w'.sessions| == |w.sessions| && w'.sessions == w.sessions[k := w'.sessions[k]]
    && w'.baseCancelled == w.baseCancelled
  }

  lemma AbandonRewrites(w: World, k: nat)
    requires k < |w.sessions|
    ensures OnlyRewrites(w, Abandon(w, k), k)
  {
    hide Current;
  }

  lemma JoinRewrites(w: World, k: nat)
    requires k < |w.sessions|
    ensures OnlyRewrites(w, Join(w, k), k)
  {
    hide Current, Cancelled;
  }

  lemma SettleRewrites(w: World, k: nat)
    requires k < |w.sessions|
    ensures OnlyRewrites(w, Settle(w, k), k)
  {
    hide Current, Cancelled;
  }

  lemma AttachRewrites(w: World, k: nat, outcome: Outcome)
    requires k < |w.sessions|
    ensures OnlyRewrites(w, Attach(w, k, outcome), k)
  {
    hide Reported;
  }

  lemma OtherSetupLeaves(w: World, k: nat, outcome: Outcome, serial: string, sid: nat)
    requires SetupEnabled(w, k) && k != sid
    ensures LeavesStory(w, SetupStep(w, k, outcome, serial), sid)
  {
    hide Local, Abandon, Join, Settle, Attach, Cancelled, DcFree, LeavesStory;
    AbandonRewrites(w, k);
    JoinRewrites(w, k);
    SettleRewrites(w, k);
    AttachRewrites(w, k, outcome);
    RewriteLeaves(w, SetupStep(w, k, outcome, serial), k, sid);
  }

  lemma OthersLeave(w: World, a: Action, sid: nat)
    requires Inv(w) && Enabled(w, a) && !(a.Setup? && a.sid == sid)
    ensures LeavesStory(w, Apply(w, a), sid)
  {
    hide Inv, TearEnabled, TearStep, BeginTear, SetupEnabled, SetupStep;
    match a {
      case StartSession(ident) => BeginTearLeaves(w, Replace(ident), ident, sid);
      case DeviceDisconnected(ident) =>
        var w1 := w.(devices := w.devices - {ident});
        BeginTearLeaves(w1, Disconnect, ident, sid);
        LeavesTwice(w, w1, BeginTear(w1, Disconnect, ident), sid);
      case ShutdownKart(ident) =>
        var w1 := w.(devices := w.devices - {ident});
        BeginTearLeaves(w1, Shutdown, ident, sid);
        LeavesTwice(w, w1, BeginTear(w1, Shutdown, ident), sid);
      case ClearNext(ident) => BeginTearLeaves(w, Clear, ident, sid);
      case Tear => TearLeaves(w, sid);
      case Setup(k, outcome, serial) => OtherSetupLeaves(w, k, outcome, serial, sid);
      case _ =>
    }
  }

  // ----- runs

  lemma StepTellsStory(w: World, a: Action, sid: nat, st: Story)
    requires Inv(w) && Enabled(w, a) && !Apply(w, a).crashed
    requires if sid < |w.sessions| then StoryOk(w, sid, st) else st == UNTOLD
    ensures var w' := Apply(w, a);
            if sid < |w'.sessions| then StoryOk(w', sid, NotedBy(st, w, a, sid)) else NotedBy(st, w, a, sid) == UNTOLD
  {
    hide Inv, SetupEnabled, SetupStep, TearEnabled, TearStep, BeginTear, OnTrack, SameStory, Noted;
    var w' := Apply(w, a);
    if a.Setup? && a.sid == sid {
      SetupNeedsOne(w, sid);
      OwnStepOk(w, sid, st, a.outcome, a.serial);
      StaysCancelled(w, sid, a.outcome, a.serial);
    } else if sid < |w.sessions| {
      OthersLeave(w, a, sid);
      if Undisturbed(w', sid) {
        SameOnTrack(w.sessions[sid], w'.sessions[sid], st);
      }
    } else if sid < |w'.sessions| {
      NewIsFresh(w, a, sid);
      FreshOnTrack(w'.sessions[sid].ident);
    }
  }

  lemma SetupNeedsOne(w: World, sid: nat)
    requires SetupEnabled(w, sid)
    ensures sid < |w.sessions|
  {
  }

  lemma SameOnTrack(s: Session, s': Session, st: Story)
    requires SameStory(s, s') && OnTrack(s, st)
    ensures OnTrack(s', st)
  {
  }

  lemma FreshOnTrack(ident: Ident)
    ensures OnTrack(Fresh(ident), UNTOLD)
  {
  }

  /** A session that was not there before has not begun. */
  ghost predicate NewAreFresh(w: World, w': World) {
    forall k :: |w.sessions| <= k < |w'.sessions| ==> w'.sessions[k] == Fresh(w'.sessions[k].ident)
  }

  lemma FinishFresh(w: World, job: Job)
    ensures NewAreFresh(w, Finish(w, job))
  {
  }

  lemma BeginTearFresh(w: World, job: Job, ident: Ident)
    ensures NewAreFresh(w, BeginTear(w, job, ident))
  {
    FinishFresh(w, job);
    hide Finish;
  }

  lemma TearFresh(w: World)
    requires TearEnabled(w)
    ensures NewAreFresh(w, TearStep(w))
  {
    hide Finish, DcFree;
    if w.holder.Tears? && w.holder.stage.CloseConn? {
      var s := w.sessions[w.holder.sid];
      FinishFresh(Put(w, w.holder.sid, Hanging(s)).(controls := w.controls - {s.ident}), w.holder.job);
    }
  }

  lemma SetupFresh(w: World, k: nat, outcome: Outcome, serial: string)
    requires SetupEnabled(w, k)
    ensures NewAreFresh(w, SetupStep(w, k, outcome, serial))
  {
    StaysCancelled(w, k, outcome, serial);
    hide SetupStep, SetupEnabled;
  }

  lemma NewIsFresh(w: World, a: Action, sid: nat)
    requires Enabled(w, a) && |w.sessions| <= sid < |Apply(w, a).sessions|
    ensures Apply(w, a).sessions[sid] == Fresh(Apply(w, a).sessions[sid].ident)
  {
    hide TearEnabled, TearStep, BeginTear, SetupEnabled, SetupStep;
    match a {
      case StartSession(ident) => BeginTearFresh(w, Replace(ident), ident);
      case DeviceDisconnected(ident) => BeginTearFresh(w.(devices := w.devices - {ident}), Disconnect, ident);
      case ShutdownKart(ident) => BeginTearFresh(w.(devices := w.devices - {ident}), Shutdown, ident);
      case ClearNext(ident) => BeginTearFresh(w, Clear, ident);
      case Tear => TearFresh(w);
      case Setup(k, outcome, serial) => SetupFresh(w, k, outcome, serial);
      case _ =>
    }
    assert NewAreFresh(w, Apply(w, a));
  }

  lemma {:induction false} RunTellsStory(w: World, actions: seq<Action>, w': World, sid: nat, st: Story)
    requires Inv(w) && Run(w, actions, w') && !w'.crashed
    requires if sid < |w.sessions| then StoryOk(w, sid, st) else st == UNTOLD
    ensures sid < |w'.sessions| ==> StoryOk(w', sid, StoryOf(st, w, actions, sid))
    decreases |actions|
  {
    hide Inv, Enabled, Apply, OnTrack, NotedBy;
    if actions != [] {
      var w1 := Apply(w, actions[0]);
      ActionKeepsInv(w, actions[0]);
      CrashEnds(w, actions, w');
      StepTellsStory(w, actions[0], sid, st);
      RunTellsStory(w1, actions[1..], w', sid, NotedBy(st, w, actions[0], sid));
    }
  }

  /** After a panic nothing runs. */
  lemma CrashEnds(w: World, actions: seq<Action>, w': World)
    requires actions != [] && Run(w, actions, w') && !w'.crashed
    ensures !Apply(w, actions[0]).crashed
  {
    hide Apply;
    hide TearEnabled, SetupEnabled;
    var w1 := Apply(w, actions[0]);
    if actions[1..] != [] {
      assert Enabled(w1, actions[1..][0]);
    }
  }

  /**
   * A session set up to the end and never cancelled, so neither superseded nor torn down: its media endpoint is
   * attached and open, and the kart told its ports, exactly if opening it and SetConnectionInfo succeeded; drive
   * mode is on exactly if SetState did too; and its sender is attached and open exactly if it opened.
   */
  lemma EstablishedAsCallsWent(actions: seq<Action>, w: World, sid: nat)
    requires Run(EMPTY, actions, w) && !w.crashed && sid < |w.sessions|
    requires w.sessions[sid].pc.Ended? && !Cancelled(w, sid)
    ensures var s, st := w.sessions[sid], StoryOf(UNTOLD, EMPTY, actions, sid);
      && Current(w, sid) && s.conn.field && s.conn.isOpened && s.conn.closes == 0
      && (s.media.field <==> st.media && st.told) && (s.media.field ==> s.media.isOpened && s.media.closes == 0)
      && (s.controlSet <==> st.media && st.told)
      && (s.driveMode <==> st.media && st.told && st.woken)
      && (s.drive.field <==> st.drive) && (s.drive.field ==> s.drive.isOpened && s.drive.closes == 0)
      && s.serial == st.serial
  {
    RunKeepsInv(EMPTY, actions, w);
    RunTellsStory(EMPTY, actions, w, sid, UNTOLD);
    hide Inv, Run, StoryOf, Current, OnTrack;
    UncancelledIsCurrent(w, sid);
    OneCloser(actions, w, sid);
    EndedHolds(w.sessions[sid], StoryOf(UNTOLD, EMPTY, actions, sid));
  }

  lemma EndedHolds(s: Session, st: Story)
    requires OnTrack(s, st) && s.pc.Ended?
    ensures MediaSettled(s, st) && (s.drive.field <==> st.drive) && s.serial == st.serial
    ensures s.conn.field && s.conn.isOpened && s.conn.closes == 0
  {
  }

  /**
   * What the daemon reports of such a session when it attaches the sender: the serial that was read, if any, and
   * whether the sender is armed, which takes drive mode, an open sender and its own word.
   */
  lemma ReportedAsCallsWent(actions: seq<Action>, w: World, sid: nat, outcome: Outcome, serial: string)
    requires Run(EMPTY, actions, w) && w.holder == Settles(sid) && Enabled(w, Setup(sid, outcome, serial))
    requires sid < |w.sessions| && !Cancelled(w, sid) && !w.sessions[sid].driveVar.TypedNil?
    ensures var ident, st := w.sessions[sid].ident, StoryOf(UNTOLD, EMPTY, actions, sid);
      && ident in w.devices
      && Apply(w, Setup(sid, outcome, serial)).devices ==
         w.devices[ident := Record(if st.serial != "" then st.serial else w.devices[ident].serial,
                                   st.media && st.told && st.woken && st.drive && outcome.Succeeds?)]
  {
    ReportNamesTheKart(actions, w, sid);
    RunKeepsInv(EMPTY, actions, w);
    RunTellsStory(EMPTY, actions, w, sid, UNTOLD);
    SettlesIsAttaching(w);
    hide Inv, Run, StoryOf, OnTrack, Attach, Enabled;
    AttachReports(w, sid, StoryOf(UNTOLD, EMPTY, actions, sid), outcome);
    AppliedAttach(w, sid, outcome, serial);
  }

  lemma AppliedAttach(w: World, sid: nat, outcome: Outcome, serial: string)
    requires Enabled(w, Setup(sid, outcome, serial)) && sid < |w.sessions| && w.sessions[sid].pc.Attaching?
    ensures Apply(w, Setup(sid, outcome, serial)) == Attach(w, sid, outcome)
  {
    hide Attach;
  }

  lemma AttachReports(w: World, sid: nat, st: Story, outcome: Outcome)
    requires sid < |w.sessions| && w.sessions[sid].pc.Attaching? && OnTrack(w.sessions[sid], st)
    requires w.sessions[sid].ident in w.devices && !w.sessions[sid].driveVar.TypedNil?
    ensures var ident := w.sessions[sid].ident;
      Attach(w, sid, outcome).devices ==
      w.devices[ident := Record(if st.serial != "" then st.serial else w.devices[ident].serial,
                                st.media && st.told && st.woken && st.drive && outcome.Succeeds?)]
  {
  }

  // ----- a session in which everything succeeds

  function Onward(pc: Pc): Pc {
    if pc.Joining? then OpeningMedia else NextPc(pc, false, false, Succeeds)
  }

  predicate BeforeTheEnd(pc: Pc) {
    match pc
    case Dialing | Probing | Joining | OpeningMedia | CheckingMedia | LockingMedia | Describing | MarkingSet
       | Waking | MarkingDrive | OpeningDrive => true
    case StoringMedia(keep) => keep
    case _ => false
  }

  const GOOD: Action := Setup(0, Succeeds, "serial")

  lemma GoodStep(w: World, from: Pc, st: Story)
    requires Inv(w) && Alone(w, from) && BeforeTheEnd(from) && OnTrack(w.sessions[0], st)
    ensures Enabled(w, GOOD) && Inv(Apply(w, GOOD)) && Alone(Apply(w, GOOD), Onward(from))
    ensures OnTrack(Apply(w, GOOD).sessions[0], Noted(st, from, Succeeds, "serial"))
    ensures Apply(w, GOOD).devices == w.devices
  {
    hide Inv, OnTrack, Apply, Noted, Enabled, Onward, BeforeTheEnd;
    GoodEnabled(w, from);
    ActionKeepsInv(w, GOOD);
    StepTellsStory(w, GOOD, 0, st);
  }

  lemma GoodEnabled(w: World, from: Pc)
    requires Alone(w, from) && BeforeTheEnd(from)
    ensures Enabled(w, GOOD) && Alone(Apply(w, GOOD), Onward(from)) && Apply(w, GOOD).devices == w.devices
  {
    hide BeginTear, TearStep, TearEnabled, Abandon, Settle, Attach, ConnAfter, MediaAfter, DriveAfter, DriveVarAfter;
  }

  /** One more good step of a run. */
  lemma GoodRun(actions: seq<Action>, w: World, from: Pc, st: Story)
      returns (more: seq<Action>, w': World, st': Story)
    requires Run(EMPTY, actions, w) && Inv(w) && Alone(w, from) && BeforeTheEnd(from) && OnTrack(w.sessions[0], st)
    ensures Run(EMPTY, more, w') && Inv(w') && Alone(w', Onward(from)) && w'.devices == w.devices
    ensures |w'.sessions| == 1
    ensures st' == Noted(st, from, Succeeds, "serial") && OnTrack(w'.sessions[0], st')
  {
    hide Run, Inv, Alone, OnTrack, Noted, Onward, Enabled, Apply;
    HasOne(w, from);
    GoodStep(w, from, st);
    more, w', st' := actions + [GOOD], Apply(w, GOOD), Noted(st, from, Succeeds, "serial");
    RunSnoc(EMPTY, actions, w, GOOD);
    HasOne(w', Onward(from));
  }

  lemma HasOne(w: World, pc: Pc)
    requires Alone(w, pc)
    ensures |w.sessions| == 1
  {
  }

  const STARTED: World :=
    World([Fresh("k")], map["k" := 0], map["k" := Record("", false)], Free, false, false)

  lemma StartsOne()
    ensures Enabled(EMPTY, Register("k"))
    ensures var w := Apply(EMPTY, Register("k"));
      Enabled(w, StartSession("k")) && Apply(w, StartSession("k")) == STARTED
  {
    hide TearStep, TearEnabled, SetupStep, SetupEnabled;
    var w := Apply(EMPTY, Register("k"));
    assert w.devices == map["k" := Record("", false)];
    assert [] + [Fresh("k")] == [Fresh("k")];
  }

  /** The daemon registers a kart and starts its session. */
  lemma Begins() returns (actions: seq<Action>)
    ensures Run(EMPTY, actions, STARTED) && Inv(STARTED) && Alone(STARTED, Dialing)
  {
    StartsOne();
    RunsNowhere();
    hide Apply, Enabled, Inv, Run;
    var w := Apply(EMPTY, Register("k"));
    RunSnoc(EMPTY, [], EMPTY, Register("k"));
    RunSnoc(EMPTY, [] + [Register("k")], w, StartSession("k"));
    actions := [] + [Register("k")] + [StartSession("k")];
    RunKeepsInv(EMPTY, actions, STARTED);
  }

  lemma RunsNowhere()
    ensures Run(EMPTY, [], EMPTY) && Inv(EMPTY)
  {
  }

  /** The session up to the point where the kart is told the ports. */
  lemma RunsToDescribing() returns (actions: seq<Action>, w: World)
    ensures Run(EMPTY, actions, w) && Inv(w) && Alone(w, Describing) && w.devices == STARTED.devices
    ensures OnTrack(w.sessions[0], Story(true, false, false, false, "serial"))
  {
    var st := UNTOLD;
    FreshOnTrack("k");
    hide Run, Inv, Alone, OnTrack, Enabled, Apply;
    actions := Begins();
    w := STARTED;
    actions, w, st := GoodRun(actions, w, Dialing, st);
    actions, w, st := GoodRun(actions, w, Probing, st);
    actions, w, st := GoodRun(actions, w, Joining, st);
    assert st == Story(false, false, false, false, "serial");
    actions, w, st := GoodRun(actions, w, OpeningMedia, st);
    actions, w, st := GoodRun(actions, w, CheckingMedia, st);
    actions, w, st := GoodRun(actions, w, LockingMedia, st);
    actions, w, st := GoodRun(actions, w, StoringMedia(true), st);
  }

  /** And on to the point where the goroutine looks back last. */
  lemma RunsToSettling() returns (actions: seq<Action>, w: World)
    ensures Run(EMPTY, actions, w) && Inv(w) && Alone(w, Settling) && w.devices == STARTED.devices
    ensures OnTrack(w.sessions[0], Story(true, true, true, true, "serial"))
  {
    hide Run, Inv, Alone, OnTrack, Enabled, Apply;
    var st := Story(true, false, false, false, "serial");
    actions, w := RunsToDescribing();
    HasOne(w, Describing);
    actions, w, st := GoodRun(actions, w, Describing, st);
    actions, w, st := GoodRun(actions, w, MarkingSet, st);
    actions, w, st := GoodRun(actions, w, Waking, st);
    assert st == Story(true, true, true, false, "serial");
    actions, w, st := GoodRun(actions, w, MarkingDrive, st);
    actions, w, st := GoodRun(actions, w, OpeningDrive, st);
  }

  /** The last two steps, when nothing has come in between. */
  lemma Attaches(w: World, st: Story)
    requires Alone(w, Settling) && OnTrack(w.sessions[0], st) && st.drive && "k" in w.devices
    ensures Enabled(w, GOOD)
    ensures var w1 := Apply(w, GOOD);
      && Enabled(w1, GOOD)
      && var w2 := Apply(w1, GOOD);
      && Alone(w2, Ended) && OnTrack(w2.sessions[0], st)
      && w2.devices == w.devices["k" := Record(if st.serial != "" then st.serial else w.devices["k"].serial,
                                                st.media && st.told && st.woken)]
  {
    hide BeginTear, TearStep, TearEnabled, Abandon, Join, Local;
    var s := w.sessions[0];
    var w1 := Apply(w, GOOD);
    assert w1 == Put(w, 0, s.(pc := Attaching)).(holder := Settles(0));
  }

  /**
   * A run from the start in which everything succeeds: the session ends current and uncancelled with connection,
   * media and sender attached and open, the kart told its ports and in drive mode, and reported as armed.
   */
  lemma AllAttached() returns (actions: seq<Action>, w: World)
    ensures Run(EMPTY, actions, w) && Alone(w, Ended) && w.devices == map["k" := Record("serial", true)]
    ensures var s := w.sessions[0];
      s.conn.field && s.media.field && s.drive.field && s.controlSet && s.driveMode && s.serial == "serial"
  {
    var st := Story(true, true, true, true, "serial");
    hide Run, Inv, OnTrack, Enabled, Apply;
    var before, settling := RunsToSettling();
    HasOne(settling, Settling);
    Attaches(settling, st);
    var w1 := Apply(settling, GOOD);
    RunSnoc(EMPTY, before, settling, GOOD);
    RunSnoc(EMPTY, before + [GOOD], w1, GOOD);
    actions, w := before + [GOOD] + [GOOD], Apply(w1, GOOD);
    EndedHolds(w.sessions[0], st);
  }
}
