module Powers {
  function TwoTo(k: nat): (power: nat)
    ensures power >= 1
  {
    if k == 0 then 1 else 2 * TwoTo(k - 1)
  }
}
