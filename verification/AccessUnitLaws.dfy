/** What the one-shot split means: nothing but a prefix is lost, and joining undoes it. */
module AccessUnitLaws {
  import opened Bytes
  import opened AccessUnits

  /** The bytes open with a delimiter, in its short or its long form. */
  predicate OpensWithDelimiter(bytes: seq<byte>) {
    && |bytes| >= 5
    && ((bytes[..3] == [0, 0, 1] && bytes[3] % 32 == 9) || (bytes[..4] == [0, 0, 0, 1] && bytes[4] % 32 == 9))
  }

  /** A delimiter is recognised exactly where the bytes open with one and, in its long form, go on behind it. */
  lemma RecognisedExactlyIf(s: seq<byte>, i: nat)
    requires i <= |s|
    ensures AudAt(s, i) <==> OpensWithDelimiter(s[i..]) && (s[i + 2] == 1 || i + 6 <= |s|)
  {
    var t := s[i..];
    AudAtShift(s, i, 0);
    if |t| >= 5 {
      assert t[..3] == [t[0], t[1], t[2]] && t[..4] == [t[0], t[1], t[2], t[3]];
    }
  }

  lemma {:induction false} UnitsCover(s: seq<byte>, first: nat)
    requires first <= |s|
    ensures Concat(UnitsFrom(s, first)) == s[first..]
    decreases |s| - first
  {
    var second := FirstAud(s, first + 5);
    if second < 0 {
      assert [s[first..]][1..] == [];
    } else {
      UnitsCover(s, second);
      var tail := UnitsFrom(s, second);
      assert ([s[first..second]] + tail)[1..] == tail;
      assert s[first..] == s[first..second] + s[second..];
    }
  }

  /** Only the bytes before the first delimiter are dropped. */
  lemma SplitLosesOnlyAPrefix(s: seq<byte>)
    ensures Concat(Split(s)) == if FirstAud(s, 0) < 0 then [] else s[FirstAud(s, 0)..]
  {
    if FirstAud(s, 0) >= 0 {
      UnitsCover(s, FirstAud(s, 0));
    }
  }

  lemma {:induction false} UnitsOpen(s: seq<byte>, first: nat, i: nat)
    requires first <= |s| && AudAt(s, first) && i < |UnitsFrom(s, first)|
    ensures |UnitsFrom(s, first)[i]| >= 5 && OpensWithDelimiter(UnitsFrom(s, first)[i])
    decreases |s| - first
  {
    var second := FirstAud(s, first + 5);
    RecognisedExactlyIf(s, first);
    assert second >= 0 ==> s[first..second] == s[first..][..second - first];
    if second >= 0 && i > 0 {
      FirstAudIsLeast(s, first + 5);
      UnitsOpen(s, second, i - 1);
    }
  }

  /** Every unit handed to the hub starts at a delimiter. */
  lemma EveryUnitOpensWithDelimiter(s: seq<byte>, i: nat)
    requires i < |Split(s)|
    ensures |Split(s)[i]| >= 5 && OpensWithDelimiter(Split(s)[i])
  {
    FirstAudIsLeast(s, 0);
    UnitsOpen(s, FirstAud(s, 0), i);
  }

  // ----- joining encoder output and splitting it again

  /** One access unit as an encoder writes it: a delimiter in front, with payload, and none inside. */
  ghost predicate Clean(unit: seq<byte>) {
    AudAt(unit, 0) && forall j :: 5 <= j ==> !ShortDelimiter(unit, j)
  }

  /** The last byte of `unit` would be taken for the first byte of a long delimiter. */
  predicate StealsZero(unit: seq<byte>, next: seq<byte>) {
    |unit| >= 6 && unit[|unit| - 1] == 0 && ShortDelimiter(next, 0)
  }

  predicate Joinable(units: seq<seq<byte>>) {
    forall i :: 0 <= i < |units| - 1 ==> !StealsZero(units[i], units[i + 1])
  }

  /** No delimiter starts inside a clean unit, not even one reaching into the following unit. */
  lemma NoneInside(unit: seq<byte>, rest: seq<byte>, j: nat)
    requires Clean(unit) && (rest == [] || (|rest| >= 2 && rest[0] == 0 && rest[1] == 0))
    requires 5 <= j < |unit|
    ensures !ShortDelimiter(unit + rest, j)
  {
    if j + 4 <= |unit| {
      assert !ShortDelimiter(unit, j);
    }
  }

  /** The end of the first of two joined units, as the scanner finds it. */
  lemma BoundaryFound(unit: seq<byte>, next: seq<byte>, tail: seq<byte>)
    requires Clean(unit) && Clean(next)
    ensures FirstAud(unit + (next + tail), 5) ==
            if StealsZero(unit, next) then |unit| - 1 else |unit|
  {
    var rest := next + tail;
    var s := unit + rest;
    var cut := if StealsZero(unit, next) then |unit| - 1 else |unit|;
    forall j | 5 <= j < cut
      ensures !AudAt(s, j)
    {
      NoneInside(unit, rest, j);
      if j + 1 < |unit| {
        NoneInside(unit, rest, j + 1);
      } else {
        AudAtShift(s, |unit|, 0);
      }
    }
    assert s[|unit|..] == rest;
    assert AudAt(rest, 0);
    AudAtShift(s, |unit|, 0);
    assert ShortDelimiter(next, 0) ==> ShortDelimiter(s, |unit|);
    FirstAudUnique(s, 5, cut);
  }

  lemma AloneHasNoSecond(unit: seq<byte>)
    requires Clean(unit)
    ensures FirstAud(unit, 5) == -1
  {
    FirstAudIsLeast(unit, 5);
  }

  lemma StartFound(unit: seq<byte>, rest: seq<byte>)
    requires AudAt(unit, 0)
    ensures FirstAud(unit + rest, 0) == 0
  {
    assert AudAt(unit + rest, 0);
  }

  lemma JoinableTail(units: seq<seq<byte>>)
    requires |units| >= 2
    ensures Joinable(units) <==> !StealsZero(units[0], units[1]) && Joinable(units[1..])
  {
    var tail := units[1..];
    if Joinable(units) {
      forall i | 0 <= i < |tail| - 1
        ensures !StealsZero(tail[i], tail[i + 1])
      {
        assert !StealsZero(units[i + 1], units[i + 1 + 1]);
      }
    }
    if !StealsZero(units[0], units[1]) && Joinable(tail) {
      forall i | 0 <= i < |units| - 1
        ensures !StealsZero(units[i], units[i + 1])
      {
        if i > 0 {
          assert !StealsZero(tail[i - 1], tail[i - 1 + 1]);
        }
      }
    }
  }

  /** Splitting two joined units splits off the first and goes on with the rest. */
  lemma SplitJoined(unit: seq<byte>, next: seq<byte>, tail: seq<byte>)
    requires Clean(unit) && Clean(next)
    ensures var rest := next + tail;
            if StealsZero(unit, next)
            then |Split(unit + rest)| > 0 && Split(unit + rest)[0] == unit[..|unit| - 1]
            else Split(unit + rest) == [unit] + Split(rest)
  {
    var rest := next + tail;
    var s := unit + rest;
    StartFound(unit, rest);
    BoundaryFound(unit, next, tail);
    if StealsZero(unit, next) {
      assert s[0..|unit| - 1] == unit[..|unit| - 1];
    } else {
      assert s[0..|unit|] == unit;
      assert s[|unit|..] == rest;
      UnitsShift(s, |unit|, 0);
      StartFound(next, tail);
    }
  }

  /**
   Splitting undoes joining exactly when no unit of six bytes or more that ends in a zero byte is
   followed by a short delimiter.
   */
  lemma {:induction false} SplitUndoesConcat(units: seq<seq<byte>>)
    requires forall u :: u in units ==> Clean(u)
    ensures Split(Concat(units)) == units <==> Joinable(units)
  {
    if |units| == 1 {
      var unit := units[0];
      assert units[1..] == [];
      assert Concat(units) == unit;
      assert unit in units && Clean(unit);
      StartFound(unit, []);
      assert unit + [] == unit;
      AloneHasNoSecond(unit);
      assert unit[0..] == unit && units == [unit];
    } else if |units| >= 2 {
      var tail := units[1..];
      assert Concat(tail) == units[1] + Concat(tail[1..]);
      assert Clean(units[0]) && Clean(units[1]);
      SplitUndoesConcat(tail);
      JoinableTail(units);
      SplitJoined(units[0], units[1], Concat(tail[1..]));
      if !StealsZero(units[0], units[1]) {
        assert Split(Concat(units)) == [units[0]] + Split(Concat(tail));
        assert units == [units[0]] + tail;
        assert ([units[0]] + Split(Concat(tail)))[1..] == Split(Concat(tail));
      } else {
        assert |units[0][..|units[0]| - 1]| != |units[0]|;
      }
    }
  }
}
