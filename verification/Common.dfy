/** What several components use: optional values, machine words and bytes, the smaller and the larger of two numbers. */
module Common {

  datatype Option<+T> = None | Some(value: T)

  type Byte = b: int | 0 <= b < 256

  type Bytes = seq<Byte>

  /** The number of 32-bit and of 64-bit words. */
  const U32: nat := 0x1_0000_0000
  const WORD: nat := 0x1_0000_0000_0000_0000

  type Word32 = x: int | 0 <= x < 0x1_0000_0000

  function Min(a: int, b: int): int {
    if a <= b then a else b
  }

  function Max(a: int, b: int): int {
    if a <= b then b else a
  }

  lemma {:induction false} SubsetIsSmaller<T>(a: set<T>, b: set<T>)
    requires a <= b
    ensures |a| <= |b|
  {
    if a != {} {
      var x :| x in a;
      SubsetIsSmaller(a - {x}, b - {x});
    }
  }
}
