/** Fixed-width integer types of the .NET runtime, as the structures of the
    display API declare their fields, and the one narrowing cast the program makes. */
module MachineInts {

  newtype i16 = x: int | -0x8000 <= x < 0x8000
  newtype u16 = x: int | 0 <= x < 0x1_0000
  newtype i32 = x: int | -0x8000_0000 <= x < 0x8000_0000
  newtype u32 = x: int | 0 <= x < 0x1_0000_0000

  /** C#'s unchecked `(ushort)` conversion of an `int`: it keeps the low 16 bits,
      so the result is the one `ushort` congruent to the argument modulo 2^16. */
  function ToUShort(x: i32): (r: u16)
    ensures (x as int - r as int) % 0x1_0000 == 0
    ensures 0 <= x as int < 0x1_0000 ==> r as int == x as int
  {
    (x as int % 0x1_0000) as u16
  }

  /** The congruence in ToUShort's contract determines the result: no other
      `ushort` has the same low 16 bits. */
  lemma ToUShortUnique(x: i32, r: u16)
    requires (x as int - r as int) % 0x1_0000 == 0
    ensures r == ToUShort(x)
  {
  }
}
