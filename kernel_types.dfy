/** Small vocabulary shared by the driver model: bytes, optional values and the
    kernel error numbers the driver returns (negated). */
module KernelTypes {

  /** An octet, as the driver's tables and the user buffers hold them. */
  newtype byte = x: int | 0 <= x < 0x100

  datatype Option<+T> = None | Some(value: T)

  /** errno values from the Linux kernel headers. */
  const EFAULT := 14
  const ENODEV := 19

  /** The byte that encodes character `c`; only Latin-1 characters have one. */
  function ByteOf(c: char): (b: byte)
    requires c as int < 0x100
    ensures b as int == c as int
  {
    c as int as byte
  }
}
