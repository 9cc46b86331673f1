# 7-segment GPIO display driver — Dafny model

This project models the display engine of a Linux kernel driver that shows one
decimal digit on a 7-segment display wired to seven GPIO lines of a Raspberry
Pi. The engine appears twice, almost line for line, in `d7seg.c` (device
`7seg_lkm`) and `new.c` (device `gpio_lkm`). It is modelled once; the two
files differ only in the return values of the device write.

- `KernelTypes` (`kernel_types.dfy`): bytes, `Option`, and the error numbers
  `EFAULT` and `ENODEV`.
- `SegmentTable` (`segment_table.dfy`): the constant table `mask[10][7]`,
  the line map `symbols[7]`, and `Pattern(d)`. `Pattern(d)` gives the levels of
  the seven lines while `d` is shown. `Blank` is -1 and drives every line low.
- `CharDevice` (`char_device.dfy`): the value logic of the character device.
  It holds the copy length, the branch a write takes (`Decide`), the return
  value of each driver (`WriteReturn`, selected by `Variant`), and the byte a
  read delivers (`DigitByte`).
- `Display` (`display.dfy`): class `SevenSeg`, the mutable state. It has the
  global `printed_digit` (`printedDigit`), the seven line levels (`pins`) and
  the seven "requested" flags (`held`). Its methods are `write_digit_to_7seg`,
  `read_digit_from_7seg`, the device read and write, and the GPIO loops of
  module init and exit. The invariant `Valid()` says the lines show exactly
  `Pattern(printedDigit)`. `WriteDigit`, `Read`, `Write` and `Exit` keep it.
  `Init` establishes it when it succeeds, and keeps it when it held and the
  display was Blank before. `Reload` models a later module load: the static
  initializer resets `printed_digit` to -1 while the lines keep their levels
  and requests, so `Init` does not require `Valid()`. The helper `SetAllLow`
  only drives the lines low; its callers restore `Valid()`.
- `Commands` (`commands.dfy`): `which_command` from `new.c`, a lookup in
  the table of command words.

Boundary choices:
- `gpio_set_value` becomes a write to `pins`.
- `gpio_request_one` and `gpio_free` become writes to `held`. A request
  fails when the line is already requested, or at the index the optional
  `fault` argument names. That argument stands for a refusal by the platform.
- `raw_copy_from_user` and `put_user` become an input byte sequence plus an
  optional index of the first user byte that cannot be accessed.
- The direct read of `buf[0]` is the first input byte.
- The write's `count` is the length of the input sequence.

Four behaviours of the code, as the model states them:
- A failed init keeps the lines it already requested; nothing is released
  (d7seg.c:221-226, new.c:370-375).
- Exit only frees the lines (d7seg.c:274-275, new.c:436-437), although the
  comment at new.c:423 promises to set them low.
- `write_digit_to_7seg` accepts -1 and shows it as a blank display
  (d7seg.c:136, d7seg.c:141-146).
- A digit outside [-1, 9] changes nothing (d7seg.c:136-138). The device
  write blanks the display for input of three or more bytes, where the copy
  length exceeds 1 (d7seg.c:165, d7seg.c:171-174), and for a one- or
  two-byte write whose first byte is '/' (such as the "/\n" of `echo /`),
  whose value `'/' - '0'` is -1. Two bytes such as "12" show the first
  digit.

The device read never advances the file position. For a positive count it
returns 0, which callers take as end of file, only when the first user byte
cannot be stored (d7seg.c:121-130, new.c:234-248).

## Model

| member | source | states |
|---|---|---|
| `SegmentTable.Pattern` | d7seg.c:25-37 | the table lookup (all low for Blank); the result has one level per line, seven in all |
| `SegmentTable.MaskShape` | new.c:32-44 | the table has 10 rows of 7 entries, every entry 0 or 1 |
| `SegmentTable.MaskRowsDistinct` | d7seg.c:25-37 | no two digits share a row; row 8 lights all seven segments |
| `SegmentTable.PatternsDistinct` | d7seg.c:139-155 | two different shown values (digits or Blank) never drive the same line levels |
| `SegmentTable.SymbolsDistinct` | d7seg.c:39 | the seven logical lines are seven different GPIO numbers |
| `SegmentTable.SamplePatterns` | new.c:35-41 | digit 7 drives 1,0,0,0,1,1,0; digit 3 drives 1,1,1,0,1,1,0; Blank drives all low |
| `Commands.CommandNamesDistinct` | new.c:31 | the four command words are pairwise different |
| `Commands.FindCommand` | new.c:145-148 | searching from index `from` returns the first matching index at or after `from`, or `na` exactly when no later word matches |
| `Commands.WhichCommand` | new.c:142-150 | the result is an index below 4 naming the word equal to `com`, or `na` (5) exactly when `com` is no command word |
| `Commands.WhichCommandExact` | new.c:142-150 | `com` decodes to index `i` if and only if word `i` equals `com`, so any match is unique |
| `Commands.WhichCommandWords` | new.c:49-55 | "out", "in", "low" and "high" decode to 0, 1, 2 and 3; the empty word decodes to `na` |
| `CharDevice.CopyLengthAsWritten` | d7seg.c:162-165 | the drivers' 32-bit copy length: it fits in 32 bits, and for every count of at least 1 it is below 512 and below the count |
| `CharDevice.CopyFaults` | d7seg.c:167-168 | the copy of `len` user bytes fails when the first inaccessible byte lies below `len`; a fault needs at least one byte to copy |
| `CharDevice.Decide` | d7seg.c:165-185 | the branch a write takes: a copy fault needs two or more bytes, blanking for length needs three or more, and a shown or rejected value is the first byte minus '0', in [-1, 9] when shown and outside it when rejected; new.c:286-312 is the same |
| `CharDevice.WriteReturn` | new.c:289-315 | the value returned: the count, -EFAULT for a copy fault, or -1 (d7seg.c:178, d7seg.c:182) for too-long and rejected input in d7seg.c only; a shown value always returns the count |
| `CharDevice.ZeroCountOverrunsBuffer` | d7seg.c:165-170 | as written, a count of 0 yields the length 4294967295, which is past the 512-byte buffer |
| `CharDevice.CopyLength` | new.c:286-291 | the copy length leaves the terminator inside the 512-byte buffer, is below the count, and equals the drivers' arithmetic for every count of at least 1 |
| `CharDevice.DigitByte` | d7seg.c:123 | the byte a read delivers: '/' exactly for a blank display, and '0' to '9' for a digit |
| `CharDevice.DecideShown` | d7seg.c:180-188 | a write shows `d` if and only if it passes one or two bytes, its copy succeeds, `d` is in [-1, 9], and the first byte is `'0' + d` |
| `CharDevice.DecideTooLong` | d7seg.c:165-174 | a write blanks the display for length if and only if it passes three or more bytes and the bounded copy succeeds |
| `CharDevice.EchoShowsDigit` | new.c:301-315 | writing a digit and a newline shows that digit; writing '/' alone shows Blank |
| `CharDevice.ReadEchoesWrite` | d7seg.c:180-188 | after a write that shows something, the byte read back equals the first byte written |
| `CharDevice.SevensegReturn` | d7seg.c:171-188 | d7seg.c returns the count if and only if something was shown; every other write returns a negative value |
| `CharDevice.GpioReturn` | new.c:292-315 | new.c returns a negative value only when the copy faults; otherwise it returns the count |
| `CharDevice.VariantsDiffer` | new.c:299-304 | the two drivers return different values exactly for too-long and rejected input |
| `Display.RequestFails` | d7seg.c:222 | a `gpio_request_one` call fails for a line already requested; with no platform refusal it fails only then |
| `Display.FirstFailure` | d7seg.c:221-226 | the index where the request loop stops: every earlier request succeeds, and the request at that index fails unless it is the end |
| `Display.FreeLinesAllRequested` | d7seg.c:274-275 | once every line is freed and the platform refuses nothing, a new init requests all seven lines |
| `Display.LeftHeldBlocks` | new.c:370-375 | a line still held, for example after a failed init with no rollback, makes the next init stop at that line or earlier |
| `Display.SevenSeg.constructor` | d7seg.c:17 | the first module load: the static initializer makes the display Blank; the board is taken to start with every line low and free |
| `Display.SevenSeg.Reload` | new.c:27 | a later module load: the static initializer sets `printed_digit` back to -1, while the lines keep the levels and requests the previous session left |
| `Display.SevenSeg.SetAllLow` | d7seg.c:172-173 | every line is driven low |
| `Display.SevenSeg.WriteDigit` | d7seg.c:134-156 | returns 0 if and only if the digit is in [-1, 9]; then `printed_digit` is the digit and line i is high if and only if `mask[digit][i] != 0` (all low for -1); otherwise nothing changes; new.c:252-274 is the same |
| `Display.SevenSeg.ReadDigit` | d7seg.c:110-112 | returns `printed_digit`, always in [-1, 9] |
| `Display.SevenSeg.Read` | new.c:221-249 | delivers `'0' + printed_digit` into each user byte, up to `count` or the first byte that cannot be stored; returns the number delivered; d7seg.c:116-131 is the same |
| `Display.SevenSeg.Write` | d7seg.c:161-189 | returns `WriteReturn` of the variant. A copy fault or a rejected digit changes nothing. Too-long input blanks the display. A shown value becomes `printed_digit`. `f_pos` advances by the count only when something is shown. For the `GpioLkm` variant this is new.c:280-316 |
| `Display.SevenSeg.Init` | new.c:370-377 | requests the lines in order as low outputs up to the first failure. It returns -ENODEV on a failure and keeps the earlier lines held. When all seven succeed it returns 0, sets `printed_digit` to -1, and `Valid()` holds, whatever the levels were before. d7seg.c:221-228 is the same |
| `Display.SevenSeg.Exit` | new.c:436-437 | frees all seven lines and leaves their levels and `printed_digit` as they were; keeps `Valid()` when it held; d7seg.c:274-275 is the same |

## Left out

- `k7seg.c`, the sysfs attribute adapter: it is a library integer parse followed by a call to `write_digit_to_7seg`.
- Kernel registration and bookkeeping:
  - `alloc_chrdev_region`, `class_create`, `kmalloc`, `cdev_init`, `cdev_add`, `device_create` and `device_destroy`;
  - the open and release callbacks, the `file_operations` tables and the module macros;
  - the memory and region leaks on init's failure paths.
  These are registration with foreign kernel services, not display logic.
- Display.SevenSeg.Init: `ret` is the result of the GPIO request loop, not the module init's return value. After all seven requests succeed, a failing `cdev_add` (d7seg.c:232-247, new.c:381-396) or `device_create` (d7seg.c:249-255, new.c:398-404) still fails the module init. Exit then never runs, so all seven lines stay requested and the next load's init stops at line 0, as `LeftHeldBlocks` with `i == 0` states.
- All `printk` logging, including its unterminated and uninitialised arguments: it is output only.
- `raw_copy_from_user`, `put_user` and the direct user-pointer read of `buf[0]` are foreign memory accesses. They are replaced by an input sequence and a fault index. A fault on `buf[0]` itself is not modelled.
- Display.SevenSeg.Write: requires at least one input byte (`count >= 1`). Both drivers read `buf[0]` whatever the count. For a count of 0 the copy length wraps; see Findings.
- Display.SevenSeg.Write: reads the first user byte once. The drivers read `buf[0]` from user memory twice, once for `write_digit_to_7seg` and once for the assignment to `printed_digit` (d7seg.c:180 and 185, new.c:301 and 312). The model assumes both reads see the same byte. If another thread changes the buffer between them, `printed_digit` can leave [-1, 9] or disagree with the lines, which breaks `Valid()`.
- Display.SevenSeg.Write: does not model the 64-bit `loff_t` overflow of `*f_pos += count`, or `count` above the `ssize_t` range; positions and counts are unbounded integers.
- Display.SevenSeg.Init: guarantees `Valid()` afterwards only when it succeeds, or when `Valid()` held and the display was Blank beforehand. After a reload (`Reload`) `printed_digit` is -1 but the lines may still show the last digit, because exit does not drive them low; an init that fails from there leaves `Valid()` false, and the model promises only the exact new lines, requests and digit.
- The contents of the kernel copy buffer `kbuf` are not modelled; only `printk` reads them.
- Concurrency: `printed_digit` is an unsynchronised global. The model covers sequential calls only.
- Loading both drivers together is not modelled: they export the same symbols. They are alternative implementations of one engine, selected by `Variant`.
- The physical meaning of the GPIO numbers in `symbols` is not modelled. They are a constant.

## Findings

| source | as written | input that shows it | evidently intended | confidence | as-written member | corrected member |
|---|---|---|---|---|---|---|
| d7seg.c:165-170 (same in new.c:286-291) | `len = count < BUF_SIZE ? count - 1 : BUF_SIZE - 1` wraps for `count == 0` to 4294967295. The copy into the 512-byte `kbuf` and the store `kbuf[len]` then overrun it. | a `write` of 0 bytes to the device | a copy length below `BUF_SIZE` for every count | medium, not executed | `CharDevice.ZeroCountOverrunsBuffer` (about `CharDevice.CopyLengthAsWritten`) | `CharDevice.CopyLength` |
