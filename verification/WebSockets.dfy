/** What the two WebSocket clients share. */
module WebSockets {

  datatype ReadyState = Connecting | Open | Closing | Closed

  /** `x * Math.pow(2, n)`, the delay before it is capped. */
  function TimesPow2(x: real, n: nat): real {
    if n == 0 then x else 2.0 * TimesPow2(x, n - 1)
  }
}
