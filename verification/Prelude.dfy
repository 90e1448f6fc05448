/** Small vocabulary shared by every module. */
module Prelude {

  datatype Option<+T> = None | Some(value: T)

  datatype Result<+T, +E> = Ok(value: T) | Err(error: E)

  function Min(a: int, b: int): int {
    if a <= b then a else b
  }
}

/** The providers of internal/gateway/gateway.go. A gateway is its name. */
module Gateways {

  type Gateway = string

  const HUBTEL: Gateway := "hubtel"
  const PAYSTACK: Gateway := "paystack"
  const MOOLRE: Gateway := "moolre"

  predicate Valid(g: Gateway) {
    g == HUBTEL || g == PAYSTACK || g == MOOLRE
  }
}
