/** Arithmetic of the original C++ types, shared by all modules. */
module Common {

  datatype Option<+T> = None | Some(value: T)

  // The life of an executer.
  datatype ExecState = Idle | Running | Paused | Deleted | Finish

  function Min(a: int, b: int): int {
    if a < b then a else b
  }

  function Max(a: int, b: int): int {
    if a < b then b else a
  }

  function Clamp(x: int, lo: int, hi: int): int {
    if x < lo then lo else if hi < x then hi else x
  }

  /** Integer division of C++: truncates toward zero. */
  function CDiv(a: int, b: int): int
    requires b != 0
  {
    if a >= 0 then a / b else -((-a) / b)
  }

  /** Conversion of a floating point value to an integer: truncates toward zero. */
  function Trunc(x: real): int {
    if x >= 0.0 then x.Floor else -((-x).Floor)
  }
}
