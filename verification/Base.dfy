/** Word sizes, the controller page and the AmigaOS error codes. */
module Base {

  const U32: nat := 0x1_0000_0000
  const U64: nat := 0x1_0000_0000_0000_0000

  /** NVME_CTRL_PAGE_SIZE. */
  const PAGE: nat := 4096

  type Byte = b: nat | b < 256

  /** NVME_IO_ASYNC: the command is out, its reply comes later. */
  const ASYNC: int := 1

  const IOERR_ABORTED: int := -2
  const IOERR_NOCMD: int := -3
  const IOERR_BADLENGTH: int := -4
  const IOERR_BADADDRESS: int := -5
  const IOERR_UNITBUSY: int := -6
  const IOERR_SELFTEST: int := -7
  const TDERR_NOT_SPECIFIED: int := 20
  const TDERR_BAD_UNIT_NUM: int := 32
}
