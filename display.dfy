/** The display engine: the global digit, the seven GPIO lines and the
    driver entry points that change them. One model serves both drivers; the
    write's return value is chosen by a Variant. */
module Display {
  import opened KernelTypes
  import opened SegmentTable
  import opened CharDevice

  /** Whether requesting line `i` fails: the line is already requested, or the
      platform refuses it (`fault` names the first line it refuses). */
  predicate RequestFails(held: seq<bool>, fault: Option<nat>, i: nat): (r: bool)
    requires i < |held|
    ensures held[i] ==> r
    ensures fault == None ==> (r <==> held[i])
  {
    held[i] || fault == Some(i)
  }

  /** The first line from `from` on whose request fails, or |held| if none does. */
  function FirstFailure(held: seq<bool>, fault: Option<nat>, from: nat): (k: nat)
    requires from <= |held|
    ensures from <= k <= |held|
    ensures forall i :: from <= i < k ==> !RequestFails(held, fault, i)
    ensures k < |held| ==> RequestFails(held, fault, k)
    decreases |held| - from
  {
    if from == |held| || RequestFails(held, fault, from) then from
    else FirstFailure(held, fault, from + 1)
  }

  /** After a release of every line and with no platform refusal, a new
      initialization requests all seven lines. */
  lemma FreeLinesAllRequested(held: seq<bool>)
    requires |held| == Lines
    requires forall i :: 0 <= i < Lines ==> !held[i]
    ensures FirstFailure(held, None, 0) == Lines
  {
  }

  /** Without rollback, a line left held by a failed initialization makes the
      next initialization fail at that line at the latest. */
  lemma LeftHeldBlocks(held: seq<bool>, fault: Option<nat>, i: nat)
    requires i < |held| && held[i]
    ensures FirstFailure(held, fault, 0) <= i
  {
    assert RequestFails(held, fault, i);
  }

  class SevenSeg {
    /** The digit last written, or Blank. */
    var printedDigit: int
    /** Level of logical line i (true is high). */
    const pins: array<bool>
    /** Whether logical line i is currently requested from the GPIO layer. */
    const held: array<bool>

    /** The lines always show what printedDigit says. */
    ghost predicate Valid()
      reads this, pins
    {
      pins.Length == Lines && held.Length == Lines && pins != held &&
      Showable(printedDigit) && pins[..] == Pattern(printedDigit)
    }

    /** First module load on a board whose lines are low and free: the static
        initializer leaves the display Blank. */
    constructor ()
      ensures Valid() && fresh(pins) && fresh(held)
      ensures printedDigit == Blank
      ensures forall i :: 0 <= i < Lines ==> !held[i]
    {
      printedDigit := Blank;
      pins := new bool[Lines](_ => false);
      held := new bool[Lines](_ => false);
    }

    /** Drives the seven lines low, one index at a time. */
    method SetAllLow()
      requires pins.Length == Lines
      modifies pins
      ensures pins[..] == Pattern(Blank)
    {
      for i := 0 to Lines
        invariant forall j :: 0 <= j < i ==> !pins[j]
      {
        pins[i] := false;
      }
    }

    /** Displays `digit`, Blank (-1) included; anything outside [-1, 9] is
        refused with -1 and changes nothing. */
    method WriteDigit(digit: int) returns (ret: int)
      requires Valid()
      modifies this, pins
      ensures Valid()
      ensures ret == (if Showable(digit) then 0 else -1)
      ensures ret == 0 ==> printedDigit == digit && pins[..] == Pattern(digit)
      ensures ret != 0 ==> printedDigit == old(printedDigit) && pins[..] == old(pins[..])
    {
      if digit > 9 || digit < -1 {
        return -1;
      }
      printedDigit := digit;
      if digit == Blank {
        SetAllLow();
        return 0;
      }
      for i := 0 to Lines
        invariant printedDigit == digit
        invariant forall j :: 0 <= j < i ==> pins[j] == (Mask[digit][j] != 0)
      {
        if Mask[digit][i] != 0 {
          pins[i] := true;
        } else {
          pins[i] := false;
        }
      }
      assert pins[..] == Pattern(digit);
      return 0;
    }

    /** The exported query: the digit last written, never re-read from the lines. */
    method ReadDigit() returns (d: int)
      requires Valid()
      ensures d == printedDigit && Showable(d)
    {
      d := printedDigit;
    }

    /** The device read: `count` copies of the displayed digit's symbol, cut
        short at the first user byte that cannot be stored. */
    method Read(count: nat, fault: Option<nat>) returns (retval: nat, copied: seq<byte>)
      requires Valid()
      ensures retval == (if fault.Some? && fault.value < count then fault.value else count)
      ensures |copied| == retval
      ensures forall i :: 0 <= i < retval ==> copied[i] == DigitByte(printedDigit)
    {
      retval, copied := 0, [];
      while retval < count
        invariant retval <= count
        invariant |copied| == retval
        invariant forall i :: 0 <= i < retval ==> copied[i] == DigitByte(printedDigit)
        invariant !(fault.Some? && fault.value < retval)
      {
        var b := DigitByte(printedDigit);
        if fault == Some(retval) {
          break;
        }
        copied := copied + [b];
        retval := retval + 1;
      }
    }

    /** The device write of `input` (count == |input|) at file position
        `fPos`: the outcome is Decide's, the return value the variant's, and
        the position advances only when something is displayed. */
    method Write(variant: Variant, input: seq<byte>, fault: Option<nat>, fPos: int)
      returns (ret: int, newFPos: int)
      requires Valid()
      requires |input| >= 1
      modifies this, pins
      ensures Valid()
      ensures ret == WriteReturn(variant, Decide(input, fault), |input|)
      ensures newFPos == if Decide(input, fault).Shown? then fPos + |input| else fPos
      ensures Decide(input, fault).Shown? ==> printedDigit == Decide(input, fault).digit
      ensures Decide(input, fault).TooLong? ==> printedDigit == Blank
      ensures Decide(input, fault).CopyFault? || Decide(input, fault).Rejected? ==>
        printedDigit == old(printedDigit) && pins[..] == old(pins[..])
    {
      var count := |input|;
      var len := CopyLength(count);
      if fault.Some? && fault.value < len {
        return -EFAULT, fPos;
      }
      if len > 1 {
        SetAllLow();
        printedDigit := Blank;
        ret := if variant == SevensegLkm then -1 else count;
        return ret, fPos;
      }
      var digit := input[0] as int - '0' as int;
      var r := WriteDigit(digit);
      if r != 0 {
        ret := if variant == SevensegLkm then -1 else count;
        return ret, fPos;
      }
      printedDigit := digit;
      ret, newFPos := count, fPos + count;
    }

    /** Requests lines 0 to 6 in order as low outputs. The first failing
        request ends it with -ENODEV and leaves the earlier lines requested;
        only when all seven succeed is the display set to Blank. */
    method Init(fault: Option<nat>) returns (ret: int)
      requires pins.Length == Lines && held.Length == Lines && pins != held
      modifies this, pins, held
      ensures var k := FirstFailure(old(held[..]), fault, 0);
        && ret == (if k == Lines then 0 else -ENODEV)
        && (forall i :: 0 <= i < Lines ==> held[i] == (i < k || old(held[i])))
        && (forall i :: 0 <= i < Lines ==> pins[i] == (if i < k then false else old(pins[i])))
        && printedDigit == (if k == Lines then Blank else old(printedDigit))
      ensures ret == 0 ==> Valid()
      ensures old(Valid()) && old(printedDigit) == Blank ==> Valid()
    {
      var index := 0;
      while index < Lines
        invariant 0 <= index <= Lines
        invariant forall i :: 0 <= i < index ==> !RequestFails(old(held[..]), fault, i)
        invariant forall i :: 0 <= i < Lines ==> held[i] == (i < index || old(held[i]))
        invariant forall i :: 0 <= i < Lines ==> pins[i] == (if i < index then false else old(pins[i]))
        invariant printedDigit == old(printedDigit)
      {
        if held[index] || fault == Some(index) {
          assert RequestFails(old(held[..]), fault, index);
          return -ENODEV;
        }
        held[index], pins[index] := true, false;
        index := index + 1;
      }
      printedDigit := Blank;
      assert pins[..] == Pattern(Blank);
      return 0;
    }

    /** Module unload: frees the seven lines in order. The levels are left
        as they are. */
    method Exit()
      requires pins.Length == Lines && held.Length == Lines && pins != held
      modifies held
      ensures old(Valid()) ==> Valid()
      ensures forall i :: 0 <= i < Lines ==> !held[i]
      ensures pins[..] == old(pins[..]) && printedDigit == old(printedDigit)
    {
      for i := 0 to Lines
        invariant forall j :: 0 <= j < i ==> !held[j]
      {
        held[i] := false;
      }
    }

    /** A later module load: the static initializer sets the digit back to
        Blank, while the lines keep the levels and requests the last session
        left them with. */
    method Reload()
      modifies this
      ensures printedDigit == Blank
      ensures pins[..] == old(pins[..]) && held[..] == old(held[..])
    {
      printedDigit := Blank;
    }
  }

  /** A session against a fresh board: load, `echo 7`, read three bytes,
      `echo 3`, write '/', a long write, unload. */
  method Session(variant: Variant)
  {
    var dev := new SevenSeg();
    var r := dev.Init(None);
    assert r == 0 && dev.printedDigit == Blank;

    var w, pos := dev.Write(variant, [ByteOf('7'), ByteOf('\n')], None, 0);
    assert w == 2 && pos == 2;
    SamplePatterns();
    assert dev.pins[..] == [true, false, false, false, true, true, false];

    var n, bytes := dev.Read(3, None);
    assert bytes == [ByteOf('7'), ByteOf('7'), ByteOf('7')];

    w, pos := dev.Write(variant, [ByteOf('3')], None, pos);
    assert pos == 3 && dev.pins[..] == [true, true, true, false, true, true, false];

    w, pos := dev.Write(variant, [ByteOf('/')], None, pos);
    assert dev.printedDigit == Blank && dev.pins[..] == Pattern(Blank);
    n, bytes := dev.Read(1, None);
    assert bytes == [ByteOf('/')];

    w, pos := dev.Write(variant, [ByteOf('1'), ByteOf('2'), ByteOf('\n')], None, pos);
    assert pos == 4 && dev.printedDigit == Blank;
    assert variant == SevensegLkm ==> w == -1;
    assert variant == GpioLkm ==> w == 3;

    dev.Exit();
  }

  /** Reloads: after `echo 8` and unload the reloaded module starts with 8
      still lit; its init succeeds and blanks the display. A later init
      refused at line 3 keeps lines 0 to 2, so the next one fails at line 0. */
  method ReloadSessions(variant: Variant)
  {
    var dev := new SevenSeg();
    var r := dev.Init(None);
    var w, pos := dev.Write(variant, [ByteOf('8')], None, 0);
    dev.Exit();
    dev.Reload();
    PatternsDistinct(8, Blank);
    assert dev.printedDigit == Blank && dev.pins[..] == Pattern(8) && !dev.Valid();
    FreeLinesAllRequested(dev.held[..]);
    r := dev.Init(None);
    assert r == 0 && dev.Valid() && dev.pins[..] == Pattern(Blank);

    w, pos := dev.Write(variant, [ByteOf('8')], None, pos);
    dev.Exit();
    dev.Reload();
    assert RequestFails(dev.held[..], Some(3), 3);
    r := dev.Init(Some(3));
    assert r == -ENODEV && dev.held[0] && dev.held[2] && !dev.held[3];
    dev.Reload();
    LeftHeldBlocks(dev.held[..], None, 0);
    r := dev.Init(None);
    assert r == -ENODEV;
  }
}
