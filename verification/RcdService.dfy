/** The handshake object: it makes the steps of `RcdHandshake` in place and feeds the running hash. */
module RcdService {
  import opened Bytes
  import opened RcdTranscript
  import opened RcdHandshake
  import opened Options

  class HandshakeService {
    const h: Hashes
    const serverInfo: ServerInfo
    const pairing: bool
    const transcript: Transcript
    var device: Option<Device>
    var nextCmd: nat
    var done: bool
    var announced: seq<Device>
    /** Everything the transcript has taken in. */
    ghost var exchanged: seq<byte>

    ghost function State(): Service
      reads this
    {
      Service(serverInfo, pairing, nextCmd, done, device, exchanged, announced)
    }

    /** Until the handshake is done the transcript holds exactly the accepted exchanges. */
    ghost predicate Ok()
      reads this, transcript
    {
      && DeviceKnown(State()) && transcript.hash == h.sha256
      && (nextCmd == 0 <==> done)
      && (!done ==> transcript.Holds(exchanged))
    }

    constructor (h: Hashes, info: ServerInfo, pairing: bool)
      ensures Ok() && State() == NewService(info, pairing) && this.h == h
      ensures fresh(transcript)
    {
      this.h, serverInfo, this.pairing := h, info, pairing;
      device, nextCmd, done, announced, exchanged := None, 1, false, [], [];
      transcript := new Transcript(h.sha256);
      new;
      hide Flushed, Unflushed;
      assert transcript.Holds([]);
    }

    method IndexOfZero(s: seq<byte>) returns (name: seq<byte>)
      ensures name == UpToZero(s)
    {
      var i := 0;
      while i < |s| && s[i] != 0
        invariant 0 <= i <= |s|
        invariant s[..i] + UpToZero(s[i..]) == UpToZero(s)
      {
        assert s[i..][1..] == s[i + 1..];
        assert s[..i] + ([s[i]] + UpToZero(s[i + 1..])) == s[..i + 1] + UpToZero(s[i + 1..]);
        i := i + 1;
      }
      assert s[..i] + [] == s[..i];
      name := s[..i];
    }

    method BeginHandshake(data: seq<byte>, entropy: Option<Digest>) returns (reply: Reply)
      requires Ok()
      modifies this`device, this`nextCmd
      ensures Ok() && (State(), reply) == Begin(h, old(State()), data, entropy)
    {
      if |data| != 0x50 {
        return Rejected(MissizedPayload);
      }
      if nextCmd != 1 {
        return Rejected(Sequence);
      }
      if data[0] != 1 {
        return Rejected(VersionMismatch);
      }
      var deviceName := IndexOfZero(data[0x10..0x20]);
      var deviceIdent := data[0x20..0x30];
      var pairingID := PairingID(h, serverInfo, deviceIdent, deviceName);
      device := Some(Device(deviceName, deviceIdent, pairingID, SecretKey(h, serverInfo, pairingID), 0));
      nextCmd := 2;
      var resp := PadTo([1], 0x10);
      resp := resp + PadTo(serverInfo.name, 0x10);
      resp := resp + serverInfo.ident;
      if entropy.None? {
        return Rejected(BadRequest);
      }
      resp := resp + entropy.value;
      reply := Accepted(resp);
    }

    /** The nested search loops of the negotiation. */
    method FindVersion(versions: seq<byte>) returns (selected: Option<byte>)
      ensures selected == SelectVersion(serverInfo.versions, versions)
    {
      var i := 0;
      while i < |serverInfo.versions|
        invariant 0 <= i <= |serverInfo.versions|
        invariant SelectVersion(serverInfo.versions, versions) == SelectVersion(serverInfo.versions[i..], versions)
      {
        var supported, j := serverInfo.versions[i], 0;
        while j < |versions| && versions[j] != supported
          invariant 0 <= j <= |versions| && supported !in versions[..j]
        {
          j := j + 1;
        }
        if j < |versions| {
          return Some(supported);
        }
        assert serverInfo.versions[i..][1..] == serverInfo.versions[i + 1..];
        i := i + 1;
      }
      return None;
    }

    method NegotiateVersion(data: seq<byte>) returns (reply: Reply)
      requires Ok()
      modifies this`device, this`nextCmd
      ensures Ok() && (State(), reply) == Negotiate(old(State()), data)
    {
      if |data| < 0x21 {
        return Rejected(MissizedPayload);
      }
      if nextCmd != 2 {
        return Rejected(Sequence);
      }
      var versions := data[0x21..];
      if |versions| != data[0x20] {
        return Rejected(MissizedPayload);
      }
      var selected := FindVersion(versions);
      if selected.None? {
        return Rejected(BadVersions);
      }
      var recognized := data[..0x20] == device.value.pairingID;
      if recognized {
        nextCmd := 4;
      } else if !pairing {
        return Rejected(UnrecognizedDevice);
      } else {
        nextCmd := 3;
      }
      device := Some(device.value.(version := selected.value));
      reply := Accepted(device.value.pairingID + PadTo([selected.value], 0x10));
    }

    method ReleaseSecretKey(data: seq<byte>) returns (reply: Reply)
      requires Ok()
      modifies this`nextCmd
      ensures Ok() && (State(), reply) == GetSecretKey(old(State()), data)
    {
      if |data| != 0x20 {
        return Rejected(MissizedPayload);
      }
      if nextCmd != 3 {
        return Rejected(Sequence);
      }
      nextCmd := 4;
      reply := Accepted(device.value.secretKey);
    }

    method FinalizeHandshake(data: seq<byte>) returns (reply: Reply)
      requires Ok()
      modifies this`nextCmd, this`done, this`announced, transcript
      ensures Ok() && (State(), reply) == Finalize(h, old(State()), data)
    {
      if |data| != 0x20 {
        return Rejected(MissizedPayload);
      }
      if nextCmd != 4 {
        return Rejected(Sequence);
      }
      var expected := transcript.FlushedDigest(exchanged);
      if expected != data {
        return Rejected(BadHash);
      }
      nextCmd := 0;
      done := true;
      announced := announced + [device.value];
      var digest := transcript.Finalize(data, exchanged);
      reply := Accepted(digest);
    }

    method Handle(command: nat, data: seq<byte>, entropy: Option<Digest>) returns (reply: Reply)
      requires Ok()
      modifies this, transcript
      ensures Ok() && (State(), reply) == RcdHandshake.Handle(h, old(State()), command, data, entropy)
    {
      match command {
        case 1 => reply := BeginHandshake(data, entropy);
        case 2 => reply := NegotiateVersion(data);
        case 3 => reply := ReleaseSecretKey(data);
        case 4 => reply := FinalizeHandshake(data);
        case _ => reply := Rejected(BadRequest);
      }
      if reply.Accepted? {
        transcript.Append(data, reply.response, exchanged);
        exchanged := exchanged + data + reply.response;
      }
    }
  }
}
