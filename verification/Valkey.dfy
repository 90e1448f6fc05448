/** Integer keys of Valkey as the limiter and the health counters use them. Time is in nanoseconds. */
module Valkey {
  import opened Prelude

  const SECOND: int := 1_000_000_000

  /** A key holding an integer; without an expiry it lives until deleted. */
  datatype Key = Absent | Present(value: int, expiry: Option<int>) {
    predicate Live(now: int) {
      Present? && (expiry.Some? ==> now < expiry.value)
    }

    function Get(now: int): int {
      if Live(now) then value else 0
    }

    /** INCR: an expired key counts from zero again and has no expiry. */
    function Incr(now: int): Key {
      if Live(now) then this.(value := value + 1) else Present(1, None)
    }

    /** EXPIRE: a timeout that is not positive removes the key at once. */
    function Expire(now: int, ttl: int): Key {
      if Live(now) && ttl > 0 then this.(expiry := Some(now + ttl)) else Absent
    }
  }
}
