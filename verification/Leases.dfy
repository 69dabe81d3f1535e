/** What the three job queues share: the lease, its length and the growth of the retry delay. */
module Leases {

  const LEASE_SECONDS := 600

  datatype Lease = Lease(token: nat, until: int)

  function Pow2(n: nat): nat {
    if n == 0 then 1 else 2 * Pow2(n - 1)
  }
}
