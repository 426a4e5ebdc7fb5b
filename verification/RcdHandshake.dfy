/**
 The RCD handshake: begin, negotiate the version, release the secret key (when pairing), finalize. Here as
 a step function on values.
 */
module RcdHandshake {
  import opened Bytes
  import opened RcdTranscript
  import opened Options

  type Key = s: seq<byte> | |s| == 64 witness seq(64, _ => 0)

  /** SHA-256 and SHA-512, of which nothing but the digest lengths is used. */
  datatype Hashes = Hashes(sha256: HashFunction, sha512: seq<byte> -> Key)

  datatype ServerInfo = ServerInfo(name: seq<byte>, ident: seq<byte>, masterKey: seq<byte>, versions: seq<byte>)

  /** What `ServerInfo.Validate` accepts. */
  predicate ValidInfo(info: ServerInfo) {
    |info.ident| == 16 && |info.masterKey| > 0 && |info.name| < 16 && |info.versions| > 0
  }

  datatype Device = Device(name: seq<byte>, ident: seq<byte>, pairingID: Digest, secretKey: Key, version: byte)

  datatype Code = MissizedPayload | BadRequest | VersionMismatch | Sequence | BadVersions | BadHash | UnrecognizedDevice

  datatype Reply = Accepted(response: seq<byte>) | Rejected(code: Code)

  /** `exchanged` is everything the transcript has taken in; `announced` the devices announced so far. */
  datatype Service = Service(
    info: ServerInfo,
    pairing: bool,
    nextCmd: nat,
    done: bool,
    device: Option<Device>,
    exchanged: seq<byte>,
    announced: seq<Device>)

  function NewService(info: ServerInfo, pairing: bool): Service {
    Service(info, pairing, 1, false, None, [], [])
  }

  function PairingID(h: Hashes, info: ServerInfo, ident: seq<byte>, name: seq<byte>): Digest {
    h.sha256(info.masterKey + (ident + name) + info.masterKey)
  }

  function SecretKey(h: Hashes, info: ServerInfo, pairingID: seq<byte>): Key {
    h.sha512(info.masterKey + pairingID + info.masterKey)
  }

  function PadTo(data: seq<byte>, size: nat): (r: seq<byte>)
    ensures |r| == if |data| >= size then |data| else size
    ensures data <= r
  {
    if |data| >= size then data else data + Zeros(size - |data|)
  }

  /** The bytes up to the first zero byte. */
  function UpToZero(s: seq<byte>): seq<byte> {
    if s == [] || s[0] == 0 then [] else [s[0]] + UpToZero(s[1..])
  }

  /** The first supported version that is also offered. */
  function SelectVersion(supported: seq<byte>, offered: seq<byte>): Option<byte> {
    if supported == [] then None
    else if supported[0] in offered then Some(supported[0])
    else SelectVersion(supported[1..], offered)
  }

  lemma {:induction false} SelectsCommonVersion(supported: seq<byte>, offered: seq<byte>)
    ensures SelectVersion(supported, offered).Some? <==> exists v :: v in supported && v in offered
    ensures SelectVersion(supported, offered).Some? ==>
              SelectVersion(supported, offered).value in supported && SelectVersion(supported, offered).value in offered
  {
    if supported != [] {
      SelectsCommonVersion(supported[1..], offered);
      assert forall v :: v in supported <==> v == supported[0] || v in supported[1..];
    }
  }

  // ----- the four commands

  /** The device a begin request describes. */
  function DeviceIn(h: Hashes, info: ServerInfo, data: seq<byte>): Device
    requires |data| == 0x50
  {
    var name, ident := UpToZero(data[0x10..0x20]), data[0x20..0x30];
    var pairingID := PairingID(h, info, ident, name);
    Device(name, ident, pairingID, SecretKey(h, info, pairingID), 0)
  }

  /** `entropy` is what the random source yields, or nothing when it fails. */
  function Begin(h: Hashes, s: Service, data: seq<byte>, entropy: Option<Digest>): (Service, Reply) {
    if |data| != 0x50 then (s, Rejected(MissizedPayload))
    else if s.nextCmd != 1 then (s, Rejected(Sequence))
    else if data[0] != 1 then (s, Rejected(VersionMismatch))
    else
      var begun := s.(device := Some(DeviceIn(h, s.info, data)), nextCmd := 2);
      if entropy.None? then (begun, Rejected(BadRequest))
      else (begun, Accepted(PadTo([1], 0x10) + PadTo(s.info.name, 0x10) + s.info.ident + entropy.value))
  }

  function Negotiate(s: Service, data: seq<byte>): (Service, Reply)
    requires s.nextCmd == 2 ==> s.device.Some?
  {
    if |data| < 0x21 then (s, Rejected(MissizedPayload))
    else if s.nextCmd != 2 then (s, Rejected(Sequence))
    else if |data[0x21..]| != data[0x20] then (s, Rejected(MissizedPayload))
    else
      var selected, device := SelectVersion(s.info.versions, data[0x21..]), s.device.value;
      if selected.None? then (s, Rejected(BadVersions))
      else if data[..0x20] != device.pairingID && !s.pairing then (s, Rejected(UnrecognizedDevice))
      else (s.(nextCmd := if data[..0x20] == device.pairingID then 4 else 3,
               device := Some(device.(version := selected.value))),
            Accepted(device.pairingID + PadTo([selected.value], 0x10)))
  }

  function GetSecretKey(s: Service, data: seq<byte>): (Service, Reply)
    requires s.nextCmd == 3 ==> s.device.Some?
  {
    if |data| != 0x20 then (s, Rejected(MissizedPayload))
    else if s.nextCmd != 3 then (s, Rejected(Sequence))
    else (s.(nextCmd := 4), Accepted(s.device.value.secretKey))
  }

  function Finalize(h: Hashes, s: Service, data: seq<byte>): (Service, Reply)
    requires s.nextCmd == 4 ==> s.device.Some?
  {
    if |data| != 0x20 then (s, Rejected(MissizedPayload))
    else if s.nextCmd != 4 then (s, Rejected(Sequence))
    else if h.sha256(Flushed(s.exchanged)) != data then (s, Rejected(BadHash))
    else (s.(nextCmd := 0, done := true, announced := s.announced + [s.device.value]),
          Accepted(h.sha256(s.exchanged + data)))
  }

  /** A device is known wherever a command looks at it. */
  predicate DeviceKnown(s: Service) {
    s.nextCmd in {2, 3, 4} ==> s.device.Some?
  }

  function Command(h: Hashes, s: Service, command: nat, data: seq<byte>, entropy: Option<Digest>): (Service, Reply)
    requires DeviceKnown(s)
  {
    match command
    case 1 => Begin(h, s, data, entropy)
    case 2 => Negotiate(s, data)
    case 3 => GetSecretKey(s, data)
    case 4 => Finalize(h, s, data)
    case _ => (s, Rejected(BadRequest))
  }

  /** One message: an accepted exchange goes into the transcript. */
  function Handle(h: Hashes, s: Service, command: nat, data: seq<byte>, entropy: Option<Digest>): (Service, Reply)
    requires DeviceKnown(s)
  {
    var (after, reply) := Command(h, s, command, data, entropy);
    match reply
    case Rejected(_) => (after, reply)
    case Accepted(response) => (after.(exchanged := after.exchanged + data + response), reply)
  }

  lemma HandleKeepsDeviceKnown(h: Hashes, s: Service, command: nat, data: seq<byte>, entropy: Option<Digest>)
    requires DeviceKnown(s)
    ensures DeviceKnown(Handle(h, s, command, data, entropy).0)
  {
    hide SelectVersion, PadTo, Flushed, DeviceIn;
  }

  /**
   A rejected message leaves the service as it was, unless it is a well-formed begin in its turn for
   which the random source failed: that one moves on to the next command without entering the transcript.
   */
  lemma RejectedLeavesUnchanged(h: Hashes, s: Service, command: nat, data: seq<byte>, entropy: Option<Digest>)
    requires DeviceKnown(s)
    requires Handle(h, s, command, data, entropy).1.Rejected?
    ensures Handle(h, s, command, data, entropy).0 == s <==>
            !(command == 1 && s.nextCmd == 1 && |data| == 0x50 && data[0] == 1 && entropy == None)
  {
    hide SelectVersion, PadTo, Flushed, DeviceIn;
  }
}
