/** The panel's value types (internal/panel/client.go) and the 64-bit arithmetic they travel in. */
module Panel {

  datatype Option<+T> = None | Some(value: T)

  datatype UserInfo = UserInfo(id: int, uuid: string, email: string, speedLimit: int, deviceLimit: int)

  datatype UserTraffic = UserTraffic(uid: int, uuid: string, upload: int, download: int)

  datatype OnlineUser = OnlineUser(uid: int, ip: string)

  const MIN_INT64: int := -0x8000_0000_0000_0000
  const MAX_INT64: int := 0x7fff_ffff_ffff_ffff

  /** One minute in nanoseconds. */
  const MINUTE: int := 60_000_000_000

  const TWO_64: int := 0x1_0000_0000_0000_0000

  /** Two's complement reduction to 64 bits, as Go's int64 operators perform it. */
  function Wrap64(x: int): (r: int)
    ensures MIN_INT64 <= r <= MAX_INT64
    ensures MIN_INT64 <= x <= MAX_INT64 ==> r == x
    decreases if x > MAX_INT64 then x - MAX_INT64 else if x < MIN_INT64 then MIN_INT64 - x else 0
  {
    if x > MAX_INT64 then Wrap64(x - TWO_64)
    else if x < MIN_INT64 then Wrap64(x + TWO_64)
    else x
  }

  /** The reporting threshold in bytes: `int64(reportMin) * 1000`. */
  function Threshold(reportMin: int): int {
    Wrap64(reportMin * 1000)
  }
}
