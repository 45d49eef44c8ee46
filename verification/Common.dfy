/** Small things several parts of the model share. */
module Common {

  datatype Option<T> = None | Some(value: T)

  /** One blu is one um. */
  const BLU_PER_MM := 1000.0

  /** 32-bit unsigned integers. */
  const WORD: nat := 0x1_0000_0000

  function Word(x: int): nat { x % WORD }

  function Size(x: real): real { if x < 0.0 then -x else x }
}
