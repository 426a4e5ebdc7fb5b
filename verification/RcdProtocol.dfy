/**
 The handshake as a client sees it: what each message must be answered with, from its bytes and the exchanges
 accepted before it, without the service's state.
 */
module RcdProtocol {
  import opened Bytes
  import opened RcdTranscript
  import opened RcdHandshake
  import opened RcdRuns
  import opened Options

  /** The field cut at its first zero byte. */
  predicate IsNameIn(name: seq<byte>, field: seq<byte>) {
    name <= field && 0 !in name && (|name| < |field| ==> field[|name|] == 0)
  }

  /** The pairing ID of the device that sent this begin request. */
  ghost predicate IsPairingID(h: Hashes, info: ServerInfo, begin: seq<byte>, id: seq<byte>)
    requires |begin| == 0x50
  {
    exists name :: IsNameIn(name, begin[0x10..0x20])
      && id == h.sha256(info.masterKey + (begin[0x20..0x30] + name) + info.masterKey)
  }

  /** The version negotiated: of those offered, the one that the server lists first. */
  ghost predicate FirstCommon(supported: seq<byte>, offered: seq<byte>, v: byte) {
    exists i: nat :: i < |supported| && supported[i] == v && v in offered
      && forall j :: 0 <= j < i ==> supported[j] !in offered
  }

  ghost predicate NoneCommon(supported: seq<byte>, offered: seq<byte>) {
    forall v :: v in supported ==> v !in offered
  }

  /** The first 16 bytes of the answer to a begin are a one and zeros, the next 16 the server's name in zeros. */
  function BeginAnswer(info: ServerInfo, random: seq<byte>): seq<byte>
    requires |info.name| < 16
  {
    ([1] + Zeros(15)) + (info.name + Zeros(16 - |info.name|)) + info.ident + random
  }

  /** A begin and a negotiate that did not name the pairing ID it was answered with. */
  predicate KeyDue(seen: seq<Step>) {
    |seen| == 2 && !NamesItsID(seen[1])
  }

  /** The whole 64-byte blocks of the exchanges so far. */
  function Blocks(all: seq<byte>): seq<byte> {
    all[..|all| / 64 * 64]
  }

  ghost predicate BeginAnswered(info: ServerInfo, seen: seq<Step>, input: Input, reply: Reply)
    requires |info.name| < 16
  {
    var d := input.data;
    if |d| != 0x50 then reply == Rejected(MissizedPayload)
    else if seen != [] then reply == Rejected(Sequence)
    else if d[0] != 1 then reply == Rejected(VersionMismatch)
    else if input.entropy.None? then reply == Rejected(BadRequest)
    else reply == Accepted(BeginAnswer(info, input.entropy.value))
  }

  ghost predicate NegotiateAnswered(h: Hashes, info: ServerInfo, pairing: bool, seen: seq<Step>, d: seq<byte>,
                                    reply: Reply)
    requires |seen| == 1 ==> |seen[0].request| == 0x50
  {
    if |d| < 0x21 then reply == Rejected(MissizedPayload)
    else if |seen| != 1 then reply == Rejected(Sequence)
    else if |d| != 0x21 + d[0x20] as int then reply == Rejected(MissizedPayload)
    else if NoneCommon(info.versions, d[0x21..]) then reply == Rejected(BadVersions)
    else if !pairing && !IsPairingID(h, info, seen[0].request, d[..0x20]) then reply == Rejected(UnrecognizedDevice)
    else
      && reply.Accepted? && |reply.response| == 0x30
      && IsPairingID(h, info, seen[0].request, reply.response[..0x20])
      && FirstCommon(info.versions, d[0x21..], reply.response[0x20]) && reply.response[0x21..] == Zeros(15)
  }

  ghost predicate KeyAnswered(h: Hashes, info: ServerInfo, seen: seq<Step>, d: seq<byte>, reply: Reply)
    requires |seen| == 2 ==> |seen[1].response| >= 0x20
  {
    if |d| != 0x20 then reply == Rejected(MissizedPayload)
    else if !KeyDue(seen) then reply == Rejected(Sequence)
    else reply == Accepted(h.sha512(info.masterKey + seen[1].response[..0x20] + info.masterKey))
  }

  ghost predicate FinalizeAnswered(h: Hashes, seen: seq<Step>, d: seq<byte>, reply: Reply) {
    if |d| != 0x20 then reply == Rejected(MissizedPayload)
    else if !FinalizeDue(seen) then reply == Rejected(Sequence)
    else if d != h.sha256(Blocks(Transcribed(seen))) then reply == Rejected(BadHash)
    else reply == Accepted(h.sha256(Transcribed(seen) + d))
  }

  predicate Sized(seen: seq<Step>) {
    && (|seen| >= 1 ==> |seen[0].request| == 0x50)
    && (|seen| >= 2 ==> |seen[1].response| >= 0x21)
  }

  /** What the protocol answers to `input` after the exchanges `seen`. */
  ghost predicate Answered(h: Hashes, info: ServerInfo, pairing: bool, seen: seq<Step>, input: Input, reply: Reply)
    requires Sized(seen) && |info.name| < 16
  {
    match input.command
    case 1 => BeginAnswered(info, seen, input, reply)
    case 2 => NegotiateAnswered(h, info, pairing, seen, input.data, reply)
    case 3 => KeyAnswered(h, info, seen, input.data, reply)
    case 4 => FinalizeAnswered(h, seen, input.data, reply)
    case _ => reply == Rejected(BadRequest)
  }

  // ----- names, versions and blocks

  lemma {:induction false} NameOf(field: seq<byte>)
    ensures IsNameIn(UpToZero(field), field)
  {
    if field != [] && field[0] != 0 {
      NameOf(field[1..]);
    }
  }

  lemma NameHasNoZero(a: seq<byte>, field: seq<byte>)
    requires IsNameIn(a, field)
    ensures forall i :: 0 <= i < |a| ==> field[i] != 0
  {
    assert forall i :: 0 <= i < |a| ==> a[i] == field[i] && a[i] in a;
  }

  lemma OneName(a: seq<byte>, b: seq<byte>, field: seq<byte>)
    requires IsNameIn(a, field) && IsNameIn(b, field)
    ensures a == b
  {
    NameHasNoZero(a, field);
    NameHasNoZero(b, field);
    assert a == field[..|a|] && b == field[..|b|];
  }

  lemma DeviceIDIs(h: Hashes, info: ServerInfo, begin: seq<byte>, id: seq<byte>)
    requires |begin| == 0x50
    ensures IsPairingID(h, info, begin, id) <==> id == DeviceIn(h, info, begin).pairingID
  {
    var field := begin[0x10..0x20];
    NameOf(field);
    forall name | IsNameIn(name, field)
      ensures name == UpToZero(field)
    {
      OneName(name, UpToZero(field), field);
    }
  }

  lemma {:induction false} SelectsFirst(supported: seq<byte>, offered: seq<byte>)
    ensures SelectVersion(supported, offered).None? <==> NoneCommon(supported, offered)
    ensures SelectVersion(supported, offered).Some? ==>
              FirstCommon(supported, offered, SelectVersion(supported, offered).value)
  {
    if supported != [] {
      assert supported[0] in supported;
      if supported[0] in offered {
        assert FirstCommon(supported, offered, supported[0]);
      } else {
        SelectsFirst(supported[1..], offered);
        assert forall v :: v in supported <==> v == supported[0] || v in supported[1..];
        if SelectVersion(supported[1..], offered).Some? {
          FirstFurther(supported, offered, SelectVersion(supported[1..], offered).value);
        }
      }
    }
  }

  lemma FirstFurther(supported: seq<byte>, offered: seq<byte>, v: byte)
    requires supported != [] && supported[0] !in offered && FirstCommon(supported[1..], offered, v)
    ensures FirstCommon(supported, offered, v)
  {
    var i: nat :| i < |supported[1..]| && supported[1..][i] == v && v in offered
      && forall j :: 0 <= j < i ==> supported[1..][j] !in offered;
    forall j | 0 <= j < i + 1
      ensures supported[j] !in offered
    {
      if j > 0 {
        assert supported[1..][j - 1] == supported[j];
      }
    }
    assert supported[i + 1] == v;
  }

  lemma FlushedIsBlocks(all: seq<byte>)
    ensures Flushed(all) == Blocks(all)
  {
    assert |all| - |all| % 64 == |all| / 64 * 64;
  }

  // ----- every answer

  /** The accepted exchanges have the sizes of the protocol, and the version in use is the one answered. */
  predicate VersionOk(w: World) {
    && Sized(w.accepted)
    && (|w.accepted| >= 2 ==> w.s.device.Some? && w.s.device.value.version == w.accepted[1].response[0x20])
  }

  lemma NextIs(h: Hashes, w: World)
    requires Inv(h, w)
    ensures w.s.nextCmd == 1 <==> w.accepted == []
    ensures w.s.nextCmd == 2 <==> |w.accepted| == 1
    ensures w.s.nextCmd == 3 <==> KeyDue(w.accepted)
    ensures w.s.nextCmd == 4 <==> FinalizeDue(w.accepted)
  {
    hide Transcribed, DeviceIn, Closed;
  }

  lemma BeginRight(h: Hashes, w: World, input: Input)
    requires Inv(h, w) && |w.s.info.name| < 16
    ensures BeginAnswered(w.s.info, w.accepted, input, Begin(h, w.s, input.data, input.entropy).1)
  {
    hide Inv, DeviceIn;
    NextIs(h, w);
    if input.entropy.Some? {
      assert PadTo([1], 0x10) == [1] + Zeros(15);
    }
  }

  lemma NegotiateRight(h: Hashes, w: World, input: Input)
    requires Inv(h, w) && DeviceKnown(w.s) && VersionOk(w)
    ensures NegotiateAnswered(h, w.s.info, w.s.pairing, w.accepted, input.data, Negotiate(w.s, input.data).1)
  {
    NextIs(h, w);
    var d := input.data;
    if |d| >= 0x21 && |w.accepted| == 1 {
      var device := w.s.device.value;
      DeviceIDIs(h, w.s.info, w.accepted[0].request, device.pairingID);
      DeviceIDIs(h, w.s.info, w.accepted[0].request, d[..0x20]);
      SelectsFirst(w.s.info.versions, d[0x21..]);
      hide SelectVersion, IsPairingID, FirstCommon, NoneCommon, DeviceIn, Transcribed, Commands, InOrder, KeyOk, DoneOk;
      var selected := SelectVersion(w.s.info.versions, d[0x21..]);
      if selected.Some? {
        assert PadTo([selected.value], 0x10) == [selected.value] + Zeros(15);
        assert (device.pairingID + PadTo([selected.value], 0x10))[..0x20] == device.pairingID;
      }
    }
  }

  lemma KeyRight(h: Hashes, w: World, input: Input)
    requires Inv(h, w) && DeviceKnown(w.s) && VersionOk(w)
    ensures KeyAnswered(h, w.s.info, w.accepted, input.data, GetSecretKey(w.s, input.data).1)
  {
    hide Transcribed, Closed, InOrder, Commands, UpToZero;
    NextIs(h, w);
  }

  lemma FinalizeRight(h: Hashes, w: World, input: Input)
    requires Inv(h, w) && DeviceKnown(w.s)
    ensures FinalizeAnswered(h, w.accepted, input.data, Finalize(h, w.s, input.data).1)
  {
    hide Flushed, Blocks, Transcribed, DeviceOk, KeyOk, DoneOk, FinalizeDue;
    NextIs(h, w);
    FlushedIsBlocks(w.s.exchanged);
  }

  lemma HandleRight(h: Hashes, w: World, input: Input)
    requires Inv(h, w) && DeviceKnown(w.s) && VersionOk(w) && |w.s.info.name| < 16
    ensures Answered(h, w.s.info, w.s.pairing, w.accepted, input,
                     Handle(h, w.s, input.command, input.data, input.entropy).1)
  {
    hide Inv, Begin, Negotiate, GetSecretKey, Finalize, BeginAnswered, NegotiateAnswered, KeyAnswered, FinalizeAnswered;
    match input.command
    case 1 => BeginRight(h, w, input);
    case 2 => NegotiateRight(h, w, input);
    case 3 => KeyRight(h, w, input);
    case 4 => FinalizeRight(h, w, input);
    case _ =>
  }

  lemma AdvanceKeepsVersion(h: Hashes, w: World, input: Input)
    requires Inv(h, w) && DeviceKnown(w.s) && VersionOk(w) && input.entropy.Some?
    ensures VersionOk(Advance(h, w, input))
  {
    hide DeviceIn, Transcribed, SelectVersion, KeyOk, DoneOk, Flushed, Commands;
    NextIs(h, w);
    if Command(h, w.s, input.command, input.data, input.entropy).1.Accepted? {
      AcceptedAdvance(h, w, input);
    } else {
      RejectedLeavesUnchanged(h, w.s, input.command, input.data, input.entropy);
    }
  }

  lemma {:induction false} RunKeepsVersion(h: Hashes, w: World, inputs: seq<Input>)
    requires Inv(h, w) && DeviceKnown(w.s) && VersionOk(w) && forall i :: i in inputs ==> i.entropy.Some?
    ensures VersionOk(Run(h, w, inputs))
    decreases |inputs|
  {
    hide Inv, Advance, VersionOk;
    if inputs != [] {
      AdvanceKeepsInv(h, w, inputs[0]);
      AdvanceKeepsVersion(h, w, inputs[0]);
      RunKeepsVersion(h, Advance(h, w, inputs[0]), inputs[1..]);
    }
  }

  lemma ReachedOk(h: Hashes, info: ServerInfo, pairing: bool, inputs: seq<Input>)
    requires forall i :: i in inputs ==> i.entropy.Some?
    ensures var w := Run(h, Start(info, pairing), inputs);
            Inv(h, w) && VersionOk(w) && w.s.info == info && w.s.pairing == pairing
  {
    hide Inv, Advance, Run;
    StartInv(h, info, pairing);
    RunKeepsInv(h, Start(info, pairing), inputs);
    RunKeepsVersion(h, Start(info, pairing), inputs);
    RunKeepsConfig(h, Start(info, pairing), inputs);
  }

  /**
   After any messages, valid or not, every further message gets the answer that follows from its bytes and the
   exchanges accepted so far: which one is due, the codes of rejection, and every byte of an accepted answer.
   */
  lemma EveryAnswerIsRight(h: Hashes, info: ServerInfo, pairing: bool, inputs: seq<Input>, input: Input)
    requires (forall i :: i in inputs ==> i.entropy.Some?) && |info.name| < 16
    ensures var w := Run(h, Start(info, pairing), inputs);
            && Sized(w.accepted)
            && Answered(h, info, pairing, w.accepted, input,
                        Handle(h, w.s, input.command, input.data, input.entropy).1)
  {
    hide Inv, Run, Answered, Handle;
    ReachedOk(h, info, pairing, inputs);
    HandleRight(h, Run(h, Start(info, pairing), inputs), input);
  }

  // ----- what a run hands out

  /** The k-th accepted exchange was right after those before it. */
  ghost predicate ExchangeRight(h: Hashes, info: ServerInfo, pairing: bool, accepted: seq<Step>, k: nat)
    requires k < |accepted| && Sized(accepted) && |info.name| < 16
  {
    exists entropy :: Answered(h, info, pairing, accepted[..k],
                               Input(accepted[k].command, accepted[k].request, entropy), Accepted(accepted[k].response))
  }

  ghost predicate AllRight(h: Hashes, w: World)
    requires Sized(w.accepted) && |w.s.info.name| < 16
  {
    forall k :: 0 <= k < |w.accepted| ==> ExchangeRight(h, w.s.info, w.s.pairing, w.accepted, k)
  }

  lemma AdvanceKeepsRight(h: Hashes, w: World, input: Input)
    requires Inv(h, w) && DeviceKnown(w.s) && VersionOk(w) && |w.s.info.name| < 16 && AllRight(h, w)
    requires VersionOk(Advance(h, w, input))
    ensures AllRight(h, Advance(h, w, input)) && Advance(h, w, input).s.info == w.s.info
  {
    hide Inv, Answered, Handle;
    var w', n := Advance(h, w, input), |w.accepted|;
    HandleRight(h, w, input);
    AdvanceKeepsConfig(h, w, input);
    hide DeviceKnown, VersionOk;
    assert |w'.accepted| > n ==> w'.accepted[..n] == w.accepted;
    forall k | 0 <= k < |w'.accepted|
      ensures ExchangeRight(h, w'.s.info, w'.s.pairing, w'.accepted, k)
    {
      if k < n {
        assert ExchangeRight(h, w.s.info, w.s.pairing, w.accepted, k);
        ExchangeKept(h, w.s.info, w.s.pairing, w.accepted, w'.accepted, k);
      } else {
        LastExchange(h, w.s.info, w.s.pairing, w'.accepted, input.entropy);
      }
    }
  }

  lemma ExchangeKept(h: Hashes, info: ServerInfo, pairing: bool, before: seq<Step>, after: seq<Step>, k: nat)
    requires k < |before| && before <= after && Sized(before) && Sized(after) && |info.name| < 16
    requires ExchangeRight(h, info, pairing, before, k)
    ensures ExchangeRight(h, info, pairing, after, k)
  {
    hide Answered;
    assert after[..k] == before[..k];
  }

  lemma LastExchange(h: Hashes, info: ServerInfo, pairing: bool, accepted: seq<Step>, entropy: Option<Digest>)
    requires accepted != [] && Sized(accepted) && |info.name| < 16
    requires var n := |accepted| - 1;
             Answered(h, info, pairing, accepted[..n], Input(accepted[n].command, accepted[n].request, entropy),
                      Accepted(accepted[n].response))
    ensures ExchangeRight(h, info, pairing, accepted, |accepted| - 1)
  {
    hide Answered;
  }

  lemma {:induction false} RunKeepsRight(h: Hashes, w: World, inputs: seq<Input>)
    requires Inv(h, w) && DeviceKnown(w.s) && VersionOk(w) && |w.s.info.name| < 16 && AllRight(h, w)
    requires forall i :: i in inputs ==> i.entropy.Some?
    ensures Run(h, w, inputs).s.info == w.s.info
    ensures VersionOk(Run(h, w, inputs)) && AllRight(h, Run(h, w, inputs))
    decreases |inputs|
  {
    hide Inv, Advance, VersionOk, AllRight;
    if inputs != [] {
      AdvanceKeepsInv(h, w, inputs[0]);
      AdvanceKeepsVersion(h, w, inputs[0]);
      AdvanceKeepsRight(h, w, inputs[0]);
      RunKeepsRight(h, Advance(h, w, inputs[0]), inputs[1..]);
    }
  }

  lemma RunRight(h: Hashes, info: ServerInfo, pairing: bool, inputs: seq<Input>)
    requires (forall i :: i in inputs ==> i.entropy.Some?) && |info.name| < 16
    ensures var w := Run(h, Start(info, pairing), inputs);
            && Inv(h, w) && VersionOk(w) && w.s.info == info && w.s.pairing == pairing && AllRight(h, w)
  {
    hide Advance, Run;
    StartInv(h, info, pairing);
    hide Inv;
    ReachedOk(h, info, pairing, inputs);
    RunKeepsRight(h, Start(info, pairing), inputs);
  }

  lemma CommandsAre(h: Hashes, w: World)
    requires Inv(h, w)
    ensures |w.accepted| >= 1 ==> w.accepted[0].command == 1
    ensures |w.accepted| >= 2 ==> w.accepted[1].command == 2
  {
    hide Transcribed, DeviceOk, KeyOk, DoneOk;
    assert |w.accepted| >= 1 ==> Commands(w.accepted)[0] == w.accepted[0].command;
    assert |w.accepted| >= 2 ==> Commands(w.accepted)[1] == w.accepted[1].command;
  }

  /** In any run: what the accepted negotiate and the accepted command 3 hand out, from the bytes of the begin. */
  lemma KeysHandedOut(h: Hashes, info: ServerInfo, pairing: bool, inputs: seq<Input>)
    requires (forall i :: i in inputs ==> i.entropy.Some?) && |info.name| < 16
    ensures var accepted := Run(h, Start(info, pairing), inputs).accepted;
            && Sized(accepted)
            && (|accepted| >= 2 ==> IsPairingID(h, info, accepted[0].request, accepted[1].response[..0x20]))
            && (|accepted| >= 3 && accepted[2].command == 3 ==>
                  accepted[2].response == h.sha512(info.masterKey + accepted[1].response[..0x20] + info.masterKey))
  {
    var w := Run(h, Start(info, pairing), inputs);
    RunRight(h, info, pairing, inputs);
    CommandsAre(h, w);
    hide Inv, Run, IsPairingID, FirstCommon, NoneCommon;
    if |w.accepted| >= 2 {
      assert ExchangeRight(h, info, pairing, w.accepted, 1);
    }
    if |w.accepted| >= 3 {
      assert ExchangeRight(h, info, pairing, w.accepted, 2);
    }
  }

  /** The same device is handed the same pairing ID and the same key, whatever runs it goes through. */
  lemma OneKeyPerDevice(h: Hashes, info: ServerInfo, p: seq<Input>, q: seq<Input>)
    requires (forall i :: i in p || i in q ==> i.entropy.Some?) && |info.name| < 16
    requires var a, b := Run(h, Start(info, true), p).accepted, Run(h, Start(info, true), q).accepted;
             && |a| >= 3 && |b| >= 3 && a[2].command == b[2].command == 3 && SameDevice(a[0].request, b[0].request)
    ensures var a, b := Run(h, Start(info, true), p).accepted, Run(h, Start(info, true), q).accepted;
            && |a[1].response| >= 0x20 && |b[1].response| >= 0x20
            && a[1].response[..0x20] == b[1].response[..0x20] && a[2].response == b[2].response
  {
    hide Run, IsPairingID;
    KeysHandedOut(h, info, true, p);
    KeysHandedOut(h, info, true, q);
    var a, b := Run(h, Start(info, true), p).accepted, Run(h, Start(info, true), q).accepted;
    SameDeviceSameID(h, info, a[0].request, b[0].request);
    DeviceIDIs(h, info, a[0].request, a[1].response[..0x20]);
    DeviceIDIs(h, info, b[0].request, b[1].response[..0x20]);
  }

  /** A device announced is the one that began, with what it was handed and the version it was answered. */
  lemma AnnouncedIsTheClient(h: Hashes, info: ServerInfo, pairing: bool, inputs: seq<Input>)
    requires (forall i :: i in inputs ==> i.entropy.Some?) && |info.name| < 16
    ensures var w := Run(h, Start(info, pairing), inputs);
            w.s.done ==>
              && |w.s.announced| == 1 && |w.accepted| >= 3 && Sized(w.accepted)
              && var device, begin, answer := w.s.announced[0], w.accepted[0].request, w.accepted[1].response;
              && IsNameIn(device.name, begin[0x10..0x20]) && device.ident == begin[0x20..0x30]
              && device.pairingID == answer[..0x20] && device.version == answer[0x20]
              && device.secretKey == h.sha512(info.masterKey + answer[..0x20] + info.masterKey)
  {
    var w := Run(h, Start(info, pairing), inputs);
    ReachedOk(h, info, pairing, inputs);
    hide Run;
    if w.s.done {
      DoneHasThree(h, w);
      NameOf(w.accepted[0].request[0x10..0x20]);
      hide Closed, KeyOk, InOrder, UpToZero, Commands, Transcribed;
    }
  }

  lemma DoneHasThree(h: Hashes, w: World)
    requires Inv(h, w) && w.s.done
    ensures |w.accepted| >= 3
  {
    hide DeviceOk, KeyOk, Transcribed, Closed;
  }
}
