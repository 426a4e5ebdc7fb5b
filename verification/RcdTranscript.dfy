/**
 The running hash over a handshake. The hash function is any function on byte strings; the object feeds
 it whole 64-byte blocks and keeps the rest.
 */
module RcdTranscript {
  import opened Bytes

  type Digest = s: seq<byte> | |s| == 32 witness seq(32, _ => 0)
  type HashFunction = seq<byte> -> Digest

  const BLOCK: nat := 64

  /** The longest prefix that is a whole number of blocks. */
  function Flushed(all: seq<byte>): seq<byte> {
    all[..|all| - |all| % BLOCK]
  }

  /** What is left behind it. */
  function Unflushed(all: seq<byte>): seq<byte> {
    all[|all| - |all| % BLOCK..]
  }

  class Transcript {
    const hash: HashFunction
    /** What has been written to the hash object so far. */
    var written: seq<byte>
    var buf: seq<byte>

    /** Everything appended so far is `all`, its whole blocks written and the rest kept. */
    ghost predicate Holds(all: seq<byte>)
      reads this
    {
      written == Flushed(all) && buf == Unflushed(all)
    }

    constructor (hash: HashFunction)
      ensures this.hash == hash && Holds([])
    {
      this.hash := hash;
      written, buf := [], [];
    }

    method Append(request: seq<byte>, response: seq<byte>, ghost all: seq<byte>)
      modifies this
      ensures written + buf == old(written) + old(buf) + request + response
      ensures old(Holds(all)) ==> Holds(all + request + response) && |buf| < BLOCK
    {
      hide Flushed, Unflushed;
      buf := buf + request;
      buf := buf + response;
      ghost var kept, w := buf, written;
      if |buf| >= BLOCK {
        var n := |buf| - |buf| % BLOCK;
        written := written + buf[..n];
        buf := buf[n..];
      }
      assert written + buf == w + kept;
      assert kept[..0] == [] && kept[0..] == kept && w + [] == w;
      if old(Holds(all)) {
        AppendBlocks(all, request + response);
        assert all + request + response == all + (request + response);
        assert Unflushed(all) + request + response == Unflushed(all) + (request + response);
      }
    }

    /** The hash of the whole blocks of everything appended. */
    method FlushedDigest(ghost all: seq<byte>) returns (digest: Digest)
      requires Holds(all)
      ensures digest == hash(Flushed(all))
    {
      digest := hash(written);
    }

    /** The hash of everything appended, and the client's digest behind it. */
    method Finalize(clientDigest: seq<byte>, ghost all: seq<byte>) returns (digest: Digest)
      requires Holds(all)
      modifies this
      ensures digest == hash(all + clientDigest)
    {
      FlushedWhole(all);
      if |buf| > 0 {
        written := written + buf;
      }
      written := written + clientDigest;
      buf := [];
      assert old(buf) == [] ==> old(written) + old(buf) == old(written);
      digest := hash(written);
    }
  }

  /** Appending to the kept bytes and flushing what became whole is flushing everything anew. */
  lemma AppendBlocks(all: seq<byte>, more: seq<byte>)
    ensures var kept := Unflushed(all) + more;
            && Flushed(all + more) == Flushed(all) + kept[..|kept| - |kept| % BLOCK]
            && Unflushed(all + more) == kept[|kept| - |kept| % BLOCK..]
            && (|kept| < BLOCK ==> |kept| - |kept| % BLOCK == 0)
  {
    var kept := Unflushed(all) + more;
    var n := |all| - |all| % BLOCK;
    assert n % BLOCK == 0;
    assert |all + more| == n + |kept|;
    assert (n + |kept|) % BLOCK == |kept| % BLOCK;
    assert all + more == Flushed(all) + kept;
  }

  lemma FlushedWhole(all: seq<byte>)
    ensures Flushed(all) + Unflushed(all) == all && |Unflushed(all)| < BLOCK && |Flushed(all)| % BLOCK == 0
  {
  }

  /** A handshake of `Append` calls, each a request and its response. */
  datatype Exchange = Exchange(request: seq<byte>, response: seq<byte>)

  function Joined(exchanges: seq<Exchange>): seq<byte> {
    if exchanges == [] then []
    else Joined(exchanges[..|exchanges| - 1]) + exchanges[|exchanges| - 1].request + exchanges[|exchanges| - 1].response
  }

  /**
   However the bytes are divided among the calls: the flushed digest is the hash of the whole blocks of
   everything appended, and the final one the hash of all of it followed by the client's digest.
   */
  method Replay(hash: HashFunction, exchanges: seq<Exchange>, clientDigest: seq<byte>)
    returns (flushed: Digest, final: Digest)
    ensures flushed == hash(Flushed(Joined(exchanges)))
    ensures final == hash(Joined(exchanges) + clientDigest)
  {
    var t := new Transcript(hash);
    var i := 0;
    while i < |exchanges|
      invariant 0 <= i <= |exchanges| && t.hash == hash && t.Holds(Joined(exchanges[..i]))
      invariant fresh(t)
    {
      t.Append(exchanges[i].request, exchanges[i].response, Joined(exchanges[..i]));
      assert exchanges[..i + 1][..i] == exchanges[..i];
      i := i + 1;
    }
    assert exchanges[..i] == exchanges;
    flushed := t.FlushedDigest(Joined(exchanges));
    final := t.Finalize(clientDigest, Joined(exchanges));
  }
}
