/** nterror_to_errno of lib/errors.c, with the errno values of Linux. */
module Errors {
  import opened Octets

  const SUCCESS: u32 := 0x0000_0000
  const PENDING: u32 := 0x0000_0103
  const NO_MORE_FILES: u32 := 0x8000_0006
  const END_OF_FILE: u32 := 0xc000_0011
  const MORE_PROCESSING_REQUIRED: u32 := 0xc000_0016
  const CANCELLED: u32 := 0xc000_0120
  const SHUTDOWN: u32 := 0xffff_ffff

  const EPERM := 1
  const ENOENT := 2
  const EIO := 5
  const ENOEXEC := 8
  const EBADF := 9
  const EAGAIN := 11
  const ENOMEM := 12
  const EACCES := 13
  const EBUSY := 16
  const EEXIST := 17
  const EXDEV := 18
  const ENODEV := 19
  const ENOTDIR := 20
  const EINVAL := 22
  const EMFILE := 24
  const ETXTBSY := 26
  const ENOSPC := 28
  const EROFS := 30
  const EPIPE := 32
  const EDEADLK := 35
  const ENOTEMPTY := 39
  const ENODATA := 61
  const ENOLINK := 67
  const ENETRESET := 102
  const ETIMEDOUT := 110
  const ECONNREFUSED := 111

  /** SHUTDOWN is -1 as an int, and its negation 1. */
  function Errno(status: u32): int {
    match status
    case 0x0000_0000 | 0xc000_0011 => 0
    case 0x0000_0103 => EAGAIN
    case 0xffff_ffff => 1
    case 0xc000_000f | 0xc000_000e | 0xc000_00cc | 0xc000_0034 | 0xc000_0039 | 0xc000_003a | 0xc000_003b |
      0xc000_009b | 0xc000_0056 | 0xc000_00fb | 0xc000_0225 => ENOENT
    case 0x0006_0001 | 0xc000_0008 | 0xc000_0024 | 0xc000_0037 | 0xc000_0042 | 0xc000_0235 => EBADF
    case 0xc000_0016 => EAGAIN
    case 0xc000_0022 | 0xc000_00ca | 0xc000_006e | 0xc000_006f | 0xc000_0071 | 0xc000_0072 => EACCES
    case 0xc000_001e | 0xc000_001f | 0xc000_0021 | 0xc000_0041 | 0xc000_004b | 0xc000_0061 | 0xc000_00ba |
      0xc000_00d5 | 0xc000_010a | 0xc000_0121 | 0xc000_0123 => EPERM
    case 0xc000_0101 => ENOTEMPTY
    case 0x8000_0006 => ENODATA
    case 0xc000_006d => ECONNREFUSED
    case 0xc000_0103 => ENOTDIR
    case 0xc000_0002 | 0xc000_0010 | 0xc000_00af | 0xc000_000d | 0xc000_00bb | 0xc000_0275 => EINVAL
    case 0x8000_002d => ENOLINK
    case 0xc000_011f => EMFILE
    case 0xc000_0040 | 0xc000_0097 | 0xc000_0205 => ENOMEM
    case 0xc000_00d4 => EXDEV
    case 0xc000_0043 => ETXTBSY
    case 0xc000_0054 | 0xc000_0055 => EDEADLK
    case 0xc000_0035 => EEXIST
    case 0xc000_00b0 => EPIPE
    case 0xc000_00a2 => EROFS
    case 0xc000_0013 => ENODEV
    case 0xc000_003e | 0xc000_003f | 0xc000_009c | 0xc000_0185 => EIO
    case 0xc000_007f => ENOSPC
    case 0xc000_0120 | 0xc000_0128 | 0xc000_026e | 0xc000_020c | 0xc000_020d | 0xc000_023a | 0xc000_0241 |
      0xc000_00c9 | 0xc000_00c3 => ENETRESET
    case 0xc000_0257 => ENOEXEC
    case 0xc000_00b5 => ETIMEDOUT
    case 0xc000_009a => EBUSY
    case 0xc000_00e5 => EIO
    case _ => EIO
  }

  /** Two statuses have no errno: success, and the end of a file. */
  lemma NoErrno(status: u32)
    ensures Errno(status) == 0 <==> status == SUCCESS || status == END_OF_FILE
  {
  }

  /** What a 32-bit status is as an int. */
  function Signed(status: u32): int {
    if status < 0x8000_0000 then status else status - 0x1_0000_0000
  }
}
