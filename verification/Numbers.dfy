/** The three comparisons of the standard library that the adapter uses. */
module Numbers {
  function Min(a: int, b: int): (r: int)
    ensures r == a || r == b
    ensures r <= a && r <= b
  {
    if a < b then a else b
  }

  function Max(a: int, b: int): (r: int)
    ensures r == a || r == b
    ensures r >= a && r >= b
  {
    if a > b then a else b
  }

  function Clamp(x: int, lo: int, hi: int): (r: int)
    ensures lo <= hi ==> lo <= r <= hi && (r == x || (x < lo && r == lo) || (x > hi && r == hi))
  {
    if x < lo then lo else if x > hi then hi else x
  }
}
