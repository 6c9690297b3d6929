/** Small functions of numbers that several models share. */
module Numbers {

  function Min(a: int, b: int): int {
    if a <= b then a else b
  }

  function Abs(x: int): int {
    if x < 0 then -x else x
  }

  function MinReal(a: real, b: real): real {
    if b < a then b else a
  }

  function MaxReal(a: real, b: real): real {
    if b > a then b else a
  }

  function AbsReal(x: real): real {
    if x < 0.0 then -x else x
  }
}
