// Bitwise `&` and `|` of JavaScript on non-negative integers, and the arithmetic they amount to
// for the masks of the DNS header.
module Bits {

  function And(a: nat, b: nat): nat {
    if a == 0 || b == 0 then 0
    else 2 * And(a / 2, b / 2) + if a % 2 == 1 && b % 2 == 1 then 1 else 0
  }

  function Or(a: nat, b: nat): nat {
    if a == 0 then b
    else if b == 0 then a
    else 2 * Or(a / 2, b / 2) + if a % 2 == 1 || b % 2 == 1 then 1 else 0
  }

  lemma AndDouble(a: nat, m: nat)
    ensures And(a, 2 * m) == 2 * And(a / 2, m)
  {
    assert 2 * m / 2 == m && 2 * m % 2 == 0;
  }

  lemma {:induction false} OrDisjoint(a: nat, b: nat)
    requires And(a, b) == 0
    ensures Or(a, b) == a + b
  {
    if a != 0 && b != 0 {
      OrDisjoint(a / 2, b / 2);
    }
  }

  lemma {:induction false} AndCommutes(a: nat, b: nat)
    ensures And(a, b) == And(b, a)
  {
    if a != 0 && b != 0 {
      AndCommutes(a / 2, b / 2);
    }
  }

  lemma AndBit(a: nat)
    ensures And(a, 1) == a % 2
  {
  }

  lemma AndOdd(a: nat, m: nat)
    ensures And(a, 2 * m + 1) == 2 * And(a / 2, m) + a % 2
  {
  }

  lemma ModSplit(a: nat)
    ensures a % 4 == 2 * (a / 2 % 2) + a % 2
  {
  }

  lemma DivDiv(a: nat)
    ensures a / 2 / 2 == a / 4 && a / 4 / 4 == a / 16 && a / 16 / 16 == a / 256
  {
  }

  lemma And4(a: nat, m: nat)
    ensures And(a, 4 * m) == 4 * And(a / 4, m)
    ensures And(a, 4 * m + 3) == 4 * And(a / 4, m) + a % 4
  {
    hide And;
    And4Even(a, m);
    And4Odd(a, m);
  }

  lemma And4Even(a: nat, m: nat)
    ensures And(a, 4 * m) == 4 * And(a / 4, m)
  {
    hide And;
    AndDouble(a, 2 * m);
    AndDouble(a / 2, m);
    DivDiv(a);
  }

  lemma And4Odd(a: nat, m: nat)
    ensures And(a, 4 * m + 3) == 4 * And(a / 4, m) + a % 4
  {
    hide And;
    AndOdd(a, 2 * m + 1);
    AndOdd(a / 2, m);
    DivDiv(a);
    ModSplit(a);
  }

  lemma And16(a: nat, m: nat)
    ensures And(a, 16 * m) == 16 * And(a / 16, m)
    ensures And(a, 16 * m + 15) == 16 * And(a / 16, m) + a % 16
  {
    hide And;
    DivDiv(a);
    And4(a, 4 * m);
    And4(a / 4, m);
    And4(a, 4 * m + 3);
    assert a % 16 == 4 * (a / 4 % 4) + a % 4;
  }

  lemma And256(a: nat, m: nat)
    ensures And(a, 256 * m) == 256 * And(a / 256, m)
  {
    hide And;
    DivDiv(a);
    And16(a, 16 * m);
    And16(a / 16, m);
  }

  lemma AndZero(a: nat)
    ensures And(a, 0) == 0
  {
  }

  lemma AndNibble(a: nat)
    ensures And(a, 0xf) == a % 16
  {
    hide And;
    And16(a, 0);
    AndZero(a / 16);
  }

  lemma AndBits2(a: nat)
    ensures And(a, 3) == a % 4
  {
    hide And;
    And4(a, 0);
    AndZero(a / 4);
  }

  /** `value & 0xc0` and `value & 0x3f` for a byte. */
  lemma AndLabelBits(b: nat)
    requires b < 256
    ensures And(b, 0xc0) == 64 * (b / 64) && And(b, 0x3f) == b % 64
  {
    hide And;
    And16(b, 0xc);
    And4(b / 16, 3);
    AndBits2(b / 64);
    assert b / 16 / 4 == b / 64 && b / 64 % 4 == b / 64;
    And16(b, 3);
    AndBits2(b / 16);
    assert b % 64 == 16 * (b / 16 % 4) + b % 16;
  }

  /** The masks of the header's flag word (section 4.1.1 of RFC 1035). */
  lemma AndFlagBits(f: nat)
    requires f < 0x1_0000
    ensures And(f, 0x8000) == 0x8000 * (f / 0x8000)
    ensures And(f, 0x7800) == 0x800 * (f / 0x800 % 16)
    ensures And(f, 0x0100) == 0x100 * (f / 0x100 % 2)
    ensures And(f, 0x000f) == f % 16
  {
    hide And;
    And256(f, 0x80);
    And256(f, 0x78);
    And256(f, 1);
    AndNibble(f);
    AndHighByte(f / 256);
    assert f / 256 / 128 == f / 0x8000 && f / 256 / 8 == f / 0x800;
  }

  lemma AndHighByte(b: nat)
    requires b < 256
    ensures And(b, 0x80) == 128 * (b / 128) && And(b, 0x78) == 8 * (b / 8 % 16) && And(b, 1) == b % 2
  {
    hide And;
    And16(b, 8);
    And4(b / 16, 2);
    AndDouble(b / 64, 1);
    AndBit(b / 128);
    AndBit(b);
    AndDouble(b, 60);
    And4(b / 2, 15);
    AndNibble(b / 8);
    assert b / 16 / 4 == b / 64 && b / 64 / 2 == b / 128 && b / 2 / 4 == b / 8 && b / 128 % 2 == b / 128;
  }

  /** Nothing in common between a multiple of 16 and a nibble. */
  lemma AndHigh16(q: nat, b: nat)
    requires b < 16
    ensures And(16 * q, b) == 0
  {
    AndCommutes(b, 16 * q);
    And16(b, q);
  }

  lemma AndHigh256(q: nat, b: nat)
    requires b < 256
    ensures And(256 * q, b) == 0
  {
    AndCommutes(b, 256 * q);
    And256(b, q);
  }
}
