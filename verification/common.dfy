/** Small definitions shared by the display, the feedback laws and the game session. */
module Common {

  datatype Option<+T> = None | Some(value: T)

  /** `base` raised to the power `exp`, as the game's `pow` computes it on integers. */
  function Pow(base: int, exp: nat): (r: int)
    ensures base > 0 ==> r > 0
  {
    if exp == 0 then 1 else base * Pow(base, exp - 1)
  }
}
