/** What several components share: optional values, integer limits and errno values. */
module Common {

  datatype Option<+T> = None | Some(value: T)

  const TWO_32: nat := 0x1_0000_0000
  const TWO_64: nat := 0x1_0000_0000_0000_0000
  const U32_MAX: nat := 0xFFFF_FFFF
  const U64_MAX: nat := 0xFFFF_FFFF_FFFF_FFFF

  type U32 = x: nat | x < TWO_32
  type U64 = x: nat | x < TWO_64

  const ENOENT: int := 2
  const ENOMEM: int := 12
  const EACCES: int := 13
  const EBUSY: int := 16
  const EINVAL: int := 22
  const ENOSPC: int := 28
  const EPROTO: int := 71
  const EMSGSIZE: int := 90
  const EPROTONOSUPPORT: int := 93
  const EOPNOTSUPP: int := 95
}
