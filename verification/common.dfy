/** Shared vocabulary of the Dexter model: optional values (Java's nullable
    references), the identities of bailiffs and agents, the outcome of a
    remote call, and Java's 32-bit `int` arithmetic. */
module Common {

  /** A Java reference that may be null. */
  datatype Option<+T> = None | Some(value: T)

  /** A bailiff (host) is known by a stable identity; the source compares
      its remote proxies with `equals`. */
  type HostId = nat

  /** The agent's UUID, an opaque value compared with `equals`. */
  type Uuid = nat

  /** The outcome of a remote call whose return value is not used:
      it returned, or it threw a RemoteException / NoSuchMethodException. */
  datatype Reply = Ok | Fault

  const INT32_MIN: int := -0x8000_0000
  const INT32_MAX: int := 0x7fff_ffff

  predicate InInt32(x: int) {
    INT32_MIN <= x <= INT32_MAX
  }

  /** Java `int` arithmetic: the result of an operation taken modulo 2^32
      into the signed range. */
  function Wrap32(x: int): (r: int)
    ensures InInt32(r)
    ensures InInt32(x) ==> r == x
    ensures (r - x) % 0x1_0000_0000 == 0
  {
    (x - INT32_MIN) % 0x1_0000_0000 + INT32_MIN
  }

  /** `Math.max(0, x)`, the clamp every duration and count setter applies. */
  function Clamp(x: int): (r: int)
    ensures r >= 0
    ensures x >= 0 ==> r == x
    ensures x < 0 ==> r == 0
  {
    if x < 0 then 0 else x
  }
}
