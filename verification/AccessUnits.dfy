/**
 The incremental splitter that cuts ffmpeg's H.264 byte stream into access units, each beginning
 with an access unit delimiter (NAL type 9), and the one-shot split it has to agree with.
 */
module AccessUnits {
  import opened Bytes

  /** What one `Read` call returned: bytes, and whether the stream goes on, ended or broke. */
  datatype Status = More | EndOfFile | Broken
  datatype Read = Read(data: seq<byte>, status: Status)

  /** How a run of the splitter stopped. `Waiting` is a run still blocked in its next `Read`. */
  datatype Outcome = Waiting | Finished | ReadFailed | EmitFailed

  /** A delimiter with a three-byte start code at `i`, whatever follows it. */
  predicate ShortDelimiter(s: seq<byte>, i: nat) {
    i + 4 <= |s| && s[i] == 0 && s[i + 1] == 0 && s[i + 2] == 1 && s[i + 3] % 0x20 == 9
  }

  /** A delimiter the scanner recognises at `i`; it wants one payload byte behind the NAL header. */
  predicate AudAt(s: seq<byte>, i: nat) {
    || (i + 6 <= |s| && s[i] == 0 && ShortDelimiter(s, i + 1))
    || (i + 5 <= |s| && ShortDelimiter(s, i))
  }

  /** The least position from `from` on at which a delimiter is recognised, or -1. */
  function FirstAud(s: seq<byte>, from: nat): (r: int)
    ensures r == -1 || from <= r <= |s| - 5
    decreases |s| - from
  {
    if from + 5 > |s| then -1
    else if AudAt(s, from) then from
    else FirstAud(s, from + 1)
  }

  lemma {:induction false} FirstAudIsLeast(s: seq<byte>, from: nat)
    ensures FirstAud(s, from) >= 0 ==> AudAt(s, FirstAud(s, from))
    ensures FirstAud(s, from) >= 0 ==> forall j :: from <= j < FirstAud(s, from) ==> !AudAt(s, j)
    ensures FirstAud(s, from) < 0 ==> forall j :: from <= j ==> !AudAt(s, j)
    decreases |s| - from
  {
    if from + 5 <= |s| && !AudAt(s, from) {
      FirstAudIsLeast(s, from + 1);
    }
  }

  /** `FirstAud` is the only answer to "least recognised position". */
  lemma FirstAudUnique(s: seq<byte>, from: nat, r: nat)
    requires from <= r && AudAt(s, r) && forall j :: from <= j < r ==> !AudAt(s, j)
    ensures FirstAud(s, from) == r
  {
    FirstAudIsLeast(s, from);
  }

  method FindAudStart(data: seq<byte>, from: nat) returns (r: int)
    ensures r == FirstAud(data, from)
  {
    var index := from;
    while index + 5 <= |data|
      invariant from <= index
      invariant FirstAud(data, from) == FirstAud(data, index)
      decreases |data| - index
    {
      if index + 6 <= |data| && data[index] == 0 && data[index + 1] == 0 && data[index + 2] == 0
         && data[index + 3] == 1 && data[index + 4] % 0x20 == 9 {
        return index;
      }
      if data[index] == 0 && data[index + 1] == 0 && data[index + 2] == 1 && data[index + 3] % 0x20 == 9 {
        return index;
      }
      index := index + 1;
    }
    return -1;
  }

  /** The units of `s` from the delimiter at `first` on: each ends at the next delimiter from `first + 5`. */
  function UnitsFrom(s: seq<byte>, first: nat): seq<seq<byte>>
    requires first <= |s|
    decreases |s| - first
  {
    var second := FirstAud(s, first + 5);
    if second < 0 then [s[first..]] else [s[first..second]] + UnitsFrom(s, second)
  }

  /** The one-shot split: whatever comes before the first delimiter is dropped. */
  function Split(s: seq<byte>): seq<seq<byte>> {
    var first := FirstAud(s, 0);
    if first < 0 then [] else UnitsFrom(s, first)
  }

  /** The units a reader can be sure of before the stream has ended. */
  function Closed(units: seq<seq<byte>>): seq<seq<byte>> {
    if units == [] then [] else units[..|units| - 1]
  }

  // ----- recognising a delimiter looks forward only, and only a few bytes

  lemma FirstAudExtends(s: seq<byte>, more: seq<byte>, from: nat)
    requires FirstAud(s, from) >= 0
    ensures FirstAud(s + more, from) == FirstAud(s, from)
  {
    var r := FirstAud(s, from);
    FirstAudIsLeast(s, from);
    assert AudAt(s + more, r);
    forall j | from <= j < r
      ensures !AudAt(s + more, j)
    {
      assert !AudAt(s, j);
      assert j + 6 <= |s|;
    }
    FirstAudUnique(s + more, from, r);
  }

  lemma AudAtShift(s: seq<byte>, k: nat, j: nat)
    requires k <= |s|
    ensures AudAt(s[k..], j) <==> AudAt(s, k + j)
  {
  }

  lemma FirstAudShift(s: seq<byte>, k: nat, from: nat)
    requires k <= |s|
    ensures FirstAud(s, k + from) ==
            if FirstAud(s[k..], from) < 0 then -1 else k + FirstAud(s[k..], from)
  {
    var r := FirstAud(s[k..], from);
    FirstAudIsLeast(s[k..], from);
    FirstAudIsLeast(s, k + from);
    forall j: nat | k + from <= j
      ensures AudAt(s, j) <==> AudAt(s[k..], j - k)
    {
      AudAtShift(s, k, j - k);
    }
    if r >= 0 {
      FirstAudUnique(s, k + from, k + r);
    }
  }

  lemma {:induction false} UnitsShift(s: seq<byte>, k: nat, first: nat)
    requires k + first <= |s|
    ensures UnitsFrom(s, k + first) == UnitsFrom(s[k..], first)
    decreases |s| - first
  {
    hide AudAt, FirstAud;
    var t := s[k..];
    var second := FirstAud(t, first + 5);
    FirstAudShift(s, k, first + 5);
    if second < 0 {
      assert s[k + first..] == t[first..];
    } else {
      assert s[k + first..k + second] == t[first..second];
      UnitsShift(s, k, second);
    }
  }

  // ----- what the loop may do to its buffer without changing the split of buffer plus future

  /** Dropping a stretch in which no delimiter starts does not change the split. */
  lemma SplitDrop(s: seq<byte>, k: nat)
    requires k <= |s|
    requires forall j :: 0 <= j < k ==> !AudAt(s, j)
    ensures Split(s) == Split(s[k..])
  {
    hide AudAt, FirstAud, UnitsFrom;
    FirstAudIsLeast(s, 0);
    FirstAudIsLeast(s, k);
    FirstAudShift(s, k, 0);
    var r := FirstAud(s, k);
    if r >= 0 {
      FirstAudUnique(s, 0, r);
      UnitsShift(s, k, r - k);
    }
  }

  /** Eight tail bytes are enough when no delimiter was found. */
  lemma KeepTail(buffer: seq<byte>, more: seq<byte>)
    requires FirstAud(buffer, 0) < 0 && |buffer| > 8
    ensures Split(buffer + more) == Split(buffer[|buffer| - 8..] + more)
  {
    var s, k := buffer + more, |buffer| - 8;
    FirstAudIsLeast(buffer, 0);
    forall j | 0 <= j < k
      ensures !AudAt(s, j)
    {
      assert !AudAt(buffer, j);
    }
    SplitDrop(s, k);
    assert s[k..] == buffer[k..] + more;
  }

  /** Bytes before the first delimiter may be dropped. */
  lemma KeepFromFirst(buffer: seq<byte>, more: seq<byte>)
    requires FirstAud(buffer, 0) >= 0
    ensures Split(buffer + more) == Split(buffer[FirstAud(buffer, 0)..] + more)
  {
    var s, k := buffer + more, FirstAud(buffer, 0);
    FirstAudExtends(buffer, more, 0);
    FirstAudIsLeast(s, 0);
    SplitDrop(s, k);
    assert s[k..] == buffer[k..] + more;
  }

  /** Once the next delimiter is in the buffer the unit before it is final. */
  lemma CutFirst(buffer: seq<byte>, more: seq<byte>, first: nat, second: nat)
    requires FirstAud(buffer, 0) == first && FirstAud(buffer, first + 5) == second
    ensures Split(buffer + more) == [buffer[first..second]] + Split(buffer[second..] + more)
  {
    var s, rest := buffer + more, buffer[second..] + more;
    FirstAudExtends(buffer, more, 0);
    FirstAudExtends(buffer, more, first + 5);
    assert s[first..second] == buffer[first..second];
    assert s[second..] == rest;
    UnitsShift(s, second, 0);
    AudStartsTail(buffer, first + 5);
    FirstAudExtends(buffer[second..], more, 0);
  }

  /** A buffer cut at a found delimiter begins with it. */
  lemma AudStartsTail(buffer: seq<byte>, from: nat)
    requires FirstAud(buffer, from) >= 0
    ensures FirstAud(buffer[FirstAud(buffer, from)..], 0) == 0
  {
    var r := FirstAud(buffer, from);
    FirstAudIsLeast(buffer, from);
    AudAtShift(buffer, r, 0);
    FirstAudUnique(buffer[r..], 0, 0);
  }

  /**
   `emitted` plus whatever `buffer` still holds is the split of everything read, for any future; and
   once a unit was emitted the buffer starts with the delimiter of the next one.
   */
  ghost predicate Agrees(total: seq<byte>, emitted: seq<seq<byte>>, buffer: seq<byte>) {
    && (forall more :: Split(total + more) == emitted + Split(buffer + more))
    && (emitted != [] ==> FirstAud(buffer, 0) == 0)
  }

  lemma AgreesAtStart()
    ensures Agrees([], [], [])
  {
    forall more: seq<byte>
      ensures Split([] + more) == [] + Split([] + more)
    {
      assert [] + more == more;
    }
  }

  lemma AgreesNow(total: seq<byte>, emitted: seq<seq<byte>>, buffer: seq<byte>)
    requires Agrees(total, emitted, buffer)
    ensures Split(total) == emitted + Split(buffer)
  {
    assert total + [] == total && buffer + [] == buffer;
  }

  lemma AgreesAppend(total: seq<byte>, emitted: seq<seq<byte>>, buffer: seq<byte>, chunk: seq<byte>)
    requires Agrees(total, emitted, buffer)
    ensures Agrees(total + chunk, emitted, buffer + chunk)
  {
    hide Split, FirstAud;
    forall more
      ensures Split(total + chunk + more) == emitted + Split(buffer + chunk + more)
    {
      assert total + chunk + more == total + (chunk + more);
      assert buffer + chunk + more == buffer + (chunk + more);
    }
    if emitted != [] {
      FirstAudExtends(buffer, chunk, 0);
    }
  }

  lemma AgreesKeepTail(total: seq<byte>, emitted: seq<seq<byte>>, buffer: seq<byte>)
    requires Agrees(total, emitted, buffer)
    requires FirstAud(buffer, 0) < 0 && |buffer| > 8
    ensures Agrees(total, emitted, buffer[|buffer| - 8..])
  {
    forall more
      ensures Split(total + more) == emitted + Split(buffer[|buffer| - 8..] + more)
    {
      KeepTail(buffer, more);
    }
  }

  lemma AgreesKeepFromFirst(total: seq<byte>, emitted: seq<seq<byte>>, buffer: seq<byte>, first: nat)
    requires Agrees(total, emitted, buffer)
    requires FirstAud(buffer, 0) == first
    ensures Agrees(total, emitted, buffer[first..])
  {
    forall more
      ensures Split(total + more) == emitted + Split(buffer[first..] + more)
    {
      KeepFromFirst(buffer, more);
    }
    AudStartsTail(buffer, 0);
  }

  lemma AgreesCut(total: seq<byte>, emitted: seq<seq<byte>>, buffer: seq<byte>, first: nat, second: nat)
    requires Agrees(total, emitted, buffer)
    requires FirstAud(buffer, 0) == first && FirstAud(buffer, first + 5) == second
    ensures Agrees(total, emitted + [buffer[first..second]], buffer[second..])
  {
    forall more
      ensures Split(total + more) == emitted + [buffer[first..second]] + Split(buffer[second..] + more)
    {
      assert Split(total + more) == emitted + Split(buffer + more);
      CutFirst(buffer, more, first, second);
      Regroup(emitted, buffer[first..second], Split(buffer[second..] + more));
    }
    AudStartsTail(buffer, first + 5);
  }

  lemma Regroup<T>(a: seq<T>, x: T, b: seq<T>)
    ensures a + ([x] + b) == a + [x] + b
  {
  }

  /** No second delimiter is in the buffer, so at most one, unfinished, unit is. */
  predicate Drained(buffer: seq<byte>) {
    FirstAud(buffer, 0) < 0 || FirstAud(buffer, FirstAud(buffer, 0) + 5) < 0
  }

  lemma SplitDrained(buffer: seq<byte>)
    requires Drained(buffer)
    ensures Split(buffer) == if FirstAud(buffer, 0) < 0 then [] else [buffer[FirstAud(buffer, 0)..]]
  {
  }

  lemma DrainedFromFirst(buffer: seq<byte>)
    requires FirstAud(buffer, 0) >= 0 && Drained(buffer)
    ensures Drained(buffer[FirstAud(buffer, 0)..])
  {
    var first := FirstAud(buffer, 0);
    AudStartsTail(buffer, 0);
    FirstAudShift(buffer, first, 5);
  }

  lemma NoAudInTail(buffer: seq<byte>)
    requires FirstAud(buffer, 0) < 0 && |buffer| > 8
    ensures Drained(buffer[|buffer| - 8..])
  {
    FirstAudShift(buffer, |buffer| - 8, 0);
    FirstAudIsLeast(buffer, 0);
    FirstAudIsLeast(buffer, |buffer| - 8);
  }

  /** At a pause the emitted units are those of the split known to be finished. */
  lemma EmittedAtPause(total: seq<byte>, emitted: seq<seq<byte>>, buffer: seq<byte>)
    requires Agrees(total, emitted, buffer) && Drained(buffer)
    ensures emitted == Closed(Split(total))
  {
    AgreesNow(total, emitted, buffer);
    SplitDrained(buffer);
  }

  /** At the end of the stream the rest of the buffer, if it starts a unit, completes the split. */
  lemma EmittedAtEnd(total: seq<byte>, emitted: seq<seq<byte>>, buffer: seq<byte>)
    requires Agrees(total, emitted, buffer) && Drained(buffer)
    ensures Split(total) ==
            if FirstAud(buffer, 0) < 0 then emitted else emitted + [buffer[FirstAud(buffer, 0)..]]
  {
    AgreesNow(total, emitted, buffer);
    SplitDrained(buffer);
  }

  /** The bytes delivered by a list of reads. */
  function Received(results: seq<Read>): seq<byte> {
    if results == [] then [] else Received(results[..|results| - 1]) + results[|results| - 1].data
  }

  lemma ReceivedNext(results: seq<Read>, n: nat)
    requires n < |results|
    ensures Received(results[..n + 1]) == Received(results[..n]) + results[n].data
  {
    assert results[..n + 1][..n] == results[..n];
  }

  /** The callback has accepted every unit but, when `failed`, the last one. */
  ghost predicate Accepted(count: nat, emitOk: nat -> bool, failed: bool) {
    && (forall i :: 0 <= i < count - (if failed then 1 else 0) ==> emitOk(i))
    && (failed ==> count > 0 && !emitOk(count - 1))
  }

  lemma NothingYet(emitOk: nat -> bool)
    ensures Drained([]) && Accepted(0, emitOk, false)
  {
  }

  /** The inner loop: cut every finished unit out of the buffer and hand it to the callback. */
  method CutUnits(buffer0: seq<byte>, emitOk: nat -> bool, sent: seq<seq<byte>>, ghost total: seq<byte>)
    returns (emitted: seq<seq<byte>>, buffer: seq<byte>, failed: bool)
    requires Agrees(total, sent, buffer0) && Accepted(|sent|, emitOk, false)
    ensures Agrees(total, emitted, buffer)
    ensures !failed ==> Drained(buffer)
    ensures Accepted(|emitted|, emitOk, failed)
  {
    emitted, buffer, failed := sent, buffer0, false;
    while true
      invariant Agrees(total, emitted, buffer) && Accepted(|emitted|, emitOk, false) && !failed
      decreases |buffer|
    {
      var first := FindAudStart(buffer, 0);
      if first < 0 {
        if |buffer| > 8 {
          AgreesKeepTail(total, emitted, buffer);
          NoAudInTail(buffer);
          buffer := buffer[|buffer| - 8..];
        }
        return;
      }
      var second := FindAudStart(buffer, first + 5);
      if second < 0 {
        if first > 0 {
          AgreesKeepFromFirst(total, emitted, buffer, first);
          DrainedFromFirst(buffer);
          buffer := buffer[first..];
        }
        return;
      }
      var accessUnit := buffer[first..second];
      AgreesCut(total, emitted, buffer, first, second);
      var ok := emitOk(|emitted|);
      emitted := emitted + [accessUnit];
      buffer := buffer[second..];
      if !ok {
        failed := true;
        return;
      }
    }
  }

  /** One successful read: append the chunk, then cut. */
  method TakeChunk(buffer0: seq<byte>, chunk: seq<byte>, emitOk: nat -> bool, sent: seq<seq<byte>>,
                   ghost total: seq<byte>)
    returns (emitted: seq<seq<byte>>, buffer: seq<byte>, failed: bool)
    requires Agrees(total, sent, buffer0) && Drained(buffer0) && Accepted(|sent|, emitOk, false)
    ensures failed ==> emitted <= Split(total + chunk)
    ensures !failed ==> Agrees(total + chunk, emitted, buffer) && Drained(buffer)
    ensures Accepted(|emitted|, emitOk, failed)
  {
    AgreesAppend(total, sent, buffer0, chunk);
    if |chunk| > 0 {
      buffer := buffer0 + chunk;
      emitted, buffer, failed := CutUnits(buffer, emitOk, sent, total + chunk);
      AgreesNow(total + chunk, emitted, buffer);
    } else {
      assert buffer0 + chunk == buffer0;
      emitted, buffer, failed := sent, buffer0, false;
    }
  }

  /** The end of the stream: what is left from the first delimiter on is the last unit. */
  method EmitRest(buffer: seq<byte>, emitOk: nat -> bool, sent: seq<seq<byte>>, ghost total: seq<byte>)
    returns (emitted: seq<seq<byte>>, failed: bool)
    requires Agrees(total, sent, buffer) && Drained(buffer) && Accepted(|sent|, emitOk, false)
    ensures emitted == Split(total)
    ensures Accepted(|emitted|, emitOk, failed)
  {
    EmittedAtEnd(total, sent, buffer);
    var start := FindAudStart(buffer, 0);
    emitted, failed := sent, false;
    if start >= 0 && |buffer| > start {
      failed := !emitOk(|emitted|);
      emitted := emitted + [buffer[start..]];
    }
  }

  /** What a run owes its caller, given how it stopped after `used` reads. */
  ghost predicate Delivered(results: seq<Read>, used: nat, emitted: seq<seq<byte>>, outcome: Outcome)
    requires used <= |results|
  {
    var units := Split(Received(results[..used]));
    match outcome
    case Finished => used > 0 && results[used - 1].status == EndOfFile && emitted == units
    case ReadFailed => used > 0 && results[used - 1].status == Broken && emitted == Closed(units)
    case Waiting => used == |results| && emitted == Closed(units)
    case EmitFailed => used > 0 && emitted <= units
  }

  /**
   The reading loop. However the stream was cut into chunks, the units handed out are those of the
   one-shot split of the bytes received: all of them once the stream ended, all but the unfinished
   last one otherwise. A callback that refuses a unit stops the loop at once.
   */
  method ReadAccessUnits(results: seq<Read>, emitOk: nat -> bool)
    returns (emitted: seq<seq<byte>>, outcome: Outcome, used: nat)
    ensures used <= |results|
    ensures forall i :: 0 <= i < used && (i < used - 1 || outcome == Waiting) ==> results[i].status == More
    ensures Delivered(results, used, emitted, outcome)
    ensures Accepted(|emitted|, emitOk, outcome == EmitFailed)
  {
    hide Agrees, Drained, Accepted, Split, Closed;
    var buffer: seq<byte> := [];
    emitted, used := [], 0;
    AgreesAtStart();
    NothingYet(emitOk);
    while used < |results|
      invariant used <= |results|
      invariant forall i :: 0 <= i < used ==> results[i].status == More
      invariant Agrees(Received(results[..used]), emitted, buffer) && Drained(buffer)
      invariant Accepted(|emitted|, emitOk, false)
    {
      var read, failed := results[used], false;
      ReceivedNext(results, used);
      emitted, buffer, failed := TakeChunk(buffer, read.data, emitOk, emitted, Received(results[..used]));
      used := used + 1;
      if failed {
        return emitted, EmitFailed, used;
      }
      if read.status == EndOfFile {
        emitted, failed := EmitRest(buffer, emitOk, emitted, Received(results[..used]));
        return emitted, if failed then EmitFailed else Finished, used;
      }
      if read.status == Broken {
        EmittedAtPause(Received(results[..used]), emitted, buffer);
        return emitted, ReadFailed, used;
      }
    }
    EmittedAtPause(Received(results[..used]), emitted, buffer);
    return emitted, Waiting, used;
  }
}
