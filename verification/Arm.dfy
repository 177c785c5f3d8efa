/** The part of the 32-bit ARM instruction set that the assembly routines use: words, flags and
    flag-setting arithmetic. */
module Arm {
  import opened Words

  const HALF: int := 0x8000_0000

  datatype Flags = Flags(n: bool, z: bool, c: bool, v: bool) {
    predicate Lo() { !c }
    predicate Hs() { c }
    predicate Eq() { z }
    predicate Lt() { n != v }
    predicate Ge() { n == v }
    predicate Gt() { !z && n == v }
    predicate Pl() { !n }
  }

  function Signed(x: u32): int {
    if x < HALF then x else x - WORD
  }

  /** Subtraction; carry means no borrow. */
  function SubS(a: u32, b: u32): (u32, Flags) {
    var r: u32 := if a >= b then a - b else a - b + WORD;
    (r, Flags(r >= HALF, r == 0, a >= b, Signed(r) != Signed(a) - Signed(b)))
  }

  function AddS(a: u32, b: u32): (u32, Flags) {
    var r: u32 := if a + b < WORD then a + b else a + b - WORD;
    (r, Flags(r >= HALF, r == 0, a + b >= WORD, Signed(r) != Signed(a) + Signed(b)))
  }

  /** The shift distances these routines use, as factors. */
  function Factor(k: nat): (p: nat)
    requires k in {0x1a, 0x1b, 0x1e, 0x1f}
  {
    if k == 0x1a then 0x400_0000 else if k == 0x1b then 0x800_0000 else if k == 0x1e then 0x4000_0000 else 0x8000_0000
  }

  /** Shift to the left: the rest of the word falls out, its last bit into the carry; overflow is
      kept. */
  function LslS(a: u32, k: nat, v: bool): (u32, Flags)
    requires k in {0x1a, 0x1b, 0x1e, 0x1f}
  {
    var kept := WORD / Factor(k);
    var r: u32 := a % kept * Factor(k);
    (r, Flags(r >= HALF, r == 0, a / kept % 2 == 1, v))
  }

  function Bump(a: u32, k: nat): u32 {
    (a + k) % WORD
  }

  lemma TestLow2(a: u32, v: bool)
    ensures LslS(a, 0x1e, v).1.z <==> a % 4 == 0
  {
  }

  lemma TestLow5(a: u32, v: bool)
    ensures LslS(a, 0x1b, v).1.z <==> a % 32 == 0
  {
  }

  lemma TestLow1(a: u32, v: bool)
    ensures LslS(a, 0x1f, v).1.n <==> a % 2 == 1
    ensures LslS(a, 0x1f, v).1.c <==> a / 2 % 2 == 1
  {
  }

  lemma SubFacts(a: u32, b: u32)
    ensures SubS(a, b).0 == (a - b) % WORD && (SubS(a, b).1.c <==> a >= b)
    ensures a < HALF && b < HALF ==> (SubS(a, b).1.Ge() <==> a >= b)
  {
  }

  /** The conditions after a subtraction compare its operands, without sign and with. */
  lemma Compared(a: u32, b: u32)
    ensures var f := SubS(a, b).1;
            && (f.Eq() <==> a == b) && (f.Hs() <==> a >= b) && (f.Lo() <==> a < b)
            && (f.Ge() <==> Signed(a) >= Signed(b)) && (f.Lt() <==> Signed(a) < Signed(b)) && (f.Gt() <==> Signed(a) > Signed(b))
    ensures SubS(a, b).1.Pl() <==> Signed(SubS(a, b).0) >= 0
    ensures AddS(a, b).1.Pl() <==> Signed(AddS(a, b).0) >= 0
    ensures AddS(a, b).0 == (a + b) % WORD && (AddS(a, b).1.c <==> a + b >= 0x1_0000_0000)
  {
  }

  /** A post-incremented pointer, as long as the access was inside memory. */
  lemma BumpFrom(base: u32, i: nat, n: nat)
    requires 0 < n && base + i + n <= WORD
    ensures (base + i) % WORD == base + i && Bump((base + i) % WORD, n) == (base + (i + n)) % WORD
  {
  }
}
