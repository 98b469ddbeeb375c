/**
 Names used by several components: optional values, global addresses and their blocks
 as in the address macros, and a fact about products.
 */
module Basics {

  datatype Option<+T> = None | Some(value: T)

  type Addr = nat

  const BLOCK_SIZE: nat := 4096

  /** The block an address lies in. */
  function ToBlock(a: Addr): Addr { a - a % BLOCK_SIZE }

  lemma MulMono(x: nat, y: nat, b: nat)
    requires x <= y
    ensures x * b <= y * b
    ensures x < y ==> x * b + b <= y * b
  {
    assert y * b == x * b + (y - x) * b;
    if x < y {
      assert (y - x) * b == b + (y - x - 1) * b;
    }
  }
}
