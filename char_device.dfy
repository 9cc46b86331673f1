/** The decision logic of the character device's write and the byte format of
    its read, shared by the two driver variants. Everything here is a value
    computation; the state changes are in module Display. */
module CharDevice {
  import opened KernelTypes
  import opened SegmentTable

  /** Size of the kernel-side copy buffer. */
  const BufSize := 512

  /** The copy length exactly as the drivers compute it: `count - 1` is taken
      in unsigned arithmetic and stored in a 32-bit unsigned variable, so a
      count of 0 wraps to the largest 32-bit value. */
  function CopyLengthAsWritten(count: nat): (len: nat)
    ensures len < 0x1_0000_0000
    ensures count >= 1 ==> len < BufSize && len < count
  {
    if count < BufSize then (count - 1) % 0x1_0000_0000 else BufSize - 1
  }

  /** With a count of 0 the length wraps far past the buffer, so both the copy
      and the terminator store at index `len` overrun it. */
  lemma ZeroCountOverrunsBuffer()
    ensures CopyLengthAsWritten(0) == 0xFFFF_FFFF
    ensures CopyLengthAsWritten(0) >= BufSize
  {
  }

  /** The copy length with the zero count handled: it always leaves the
      terminator inside the buffer, never exceeds the bytes the caller passed,
      and agrees with the drivers for every count from 1 on. */
  function CopyLength(count: nat): (len: nat)
    ensures len < BufSize
    ensures count == 0 || len < count
    ensures count >= 1 ==> len == CopyLengthAsWritten(count)
  {
    if count == 0 then 0 else CopyLengthAsWritten(count)
  }

  /** Whether copying `len` bytes from the user buffer fails, given the index
      of the first inaccessible user byte, if any. */
  predicate CopyFaults(fault: Option<nat>, len: nat): (r: bool)
    ensures r ==> fault.Some? && len >= 1
  {
    fault.Some? && fault.value < len
  }

  /** The two drivers: d7seg.c and new.c. */
  datatype Variant = SevensegLkm | GpioLkm

  /** What a write does, before the variant chooses a return value. */
  datatype WriteOutcome =
    | CopyFault            // the copy from user space failed; nothing changes
    | TooLong              // three or more bytes (copy length above 1): the display is blanked
    | Rejected(value: int) // first byte minus '0' is outside [-1, 9]; nothing changes
    | Shown(digit: int)    // the digit (or Blank, for '/') is displayed

  /** The branch a write of `input` takes; `input[0]` is the first user byte,
      read directly whatever the count. */
  function Decide(input: seq<byte>, fault: Option<nat>): (o: WriteOutcome)
    requires |input| >= 1
    ensures o.CopyFault? ==> |input| >= 2
    ensures o.TooLong? ==> |input| >= 3
    ensures o.Shown? || o.Rejected? ==> |input| <= 2
    ensures o.Shown? ==> Showable(o.digit) && o.digit == input[0] as int - '0' as int
    ensures o.Rejected? ==> !Showable(o.value) && o.value == input[0] as int - '0' as int
  {
    var len := CopyLength(|input|);
    if CopyFaults(fault, len) then CopyFault
    else if len > 1 then TooLong
    else
      var v := input[0] as int - '0' as int;
      if Showable(v) then Shown(v) else Rejected(v)
  }

  /** The value the write returns to user space in each variant. */
  function WriteReturn(variant: Variant, o: WriteOutcome, count: nat): (r: int)
    ensures r >= 0 ==> r == count
    ensures r < 0 ==> r == -EFAULT || (variant == SevensegLkm && r == -1)
    ensures o.Shown? ==> r == count
    ensures o.CopyFault? ==> r == -EFAULT
  {
    match o
    case CopyFault => -EFAULT
    case Shown(_) => count
    case _ => if variant == SevensegLkm then -1 else count
  }

  /** The byte a read delivers while `d` is displayed: '/' for a blank
      display, '0' to '9' for a digit. */
  function DigitByte(d: int): (b: byte)
    requires Showable(d)
    ensures b == ByteOf('/') <==> d == Blank
    ensures d != Blank ==> ByteOf('0') <= b <= ByteOf('9')
  {
    ('0' as int + d) as byte
  }

  /** A write displays `d` exactly when it passes one or two bytes whose first
      is the read symbol of `d` and the copy of the first byte does not fault. */
  lemma DecideShown(input: seq<byte>, fault: Option<nat>, d: int)
    requires |input| >= 1
    ensures Decide(input, fault) == Shown(d) <==>
      |input| <= 2 && !(|input| == 2 && fault == Some(0)) &&
      Showable(d) && input[0] == DigitByte(d)
  {
  }

  /** A write of three or more bytes whose copy succeeds blanks the display;
      at most BufSize - 1 bytes are copied. */
  lemma DecideTooLong(input: seq<byte>, fault: Option<nat>)
    requires |input| >= 1
    ensures Decide(input, fault) == TooLong <==>
      |input| >= 3 && !CopyFaults(fault, if |input| < BufSize then |input| - 1 else BufSize - 1)
  {
  }

  /** `echo d` writes the digit and a newline: it shows d, and '/' alone blanks. */
  lemma EchoShowsDigit(d: int)
    requires 0 <= d <= 9
    ensures Decide([DigitByte(d), ByteOf('\n')], None) == Shown(d)
    ensures Decide([ByteOf('/')], None) == Shown(Blank)
  {
  }

  /** What is read back after a successful write is its first byte. */
  lemma ReadEchoesWrite(input: seq<byte>, fault: Option<nat>)
    requires |input| >= 1 && Decide(input, fault).Shown?
    ensures Showable(Decide(input, fault).digit)
    ensures DigitByte(Decide(input, fault).digit) == input[0]
  {
  }

  /** d7seg.c reports every write that does not display something as an error. */
  lemma SevensegReturn(o: WriteOutcome, count: nat)
    ensures WriteReturn(SevensegLkm, o, count) == count <==> o.Shown?
    ensures !o.Shown? ==> WriteReturn(SevensegLkm, o, count) < 0
  {
  }

  /** new.c reports only a failed copy; rejected and too-long input still
      return the full count. */
  lemma GpioReturn(o: WriteOutcome, count: nat)
    ensures WriteReturn(GpioLkm, o, count) < 0 <==> o.CopyFault?
    ensures !o.CopyFault? ==> WriteReturn(GpioLkm, o, count) == count
  {
  }

  /** The variants disagree exactly on input that is rejected or too long. */
  lemma VariantsDiffer(o: WriteOutcome, count: nat)
    ensures WriteReturn(SevensegLkm, o, count) != WriteReturn(GpioLkm, o, count) <==>
      o.TooLong? || o.Rejected?
  {
  }
}
