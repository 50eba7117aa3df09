/** Powers of two, as the backoff schedules double. */
module Powers {

  function Power2(n: nat): (p: nat)
    ensures p >= 1
  {
    if n == 0 then 1 else 2 * Power2(n - 1)
  }
}
