/** Single-bit operations on unsigned words, stated on their numeric
    value: bit j of w is `(w / 2^j) % 2`. `SetBit` is `w | (1 << p)` and
    `ClearBit` is `w &^ (1 << p)`; the lemmas show they change bit p and
    no other bit, and keep a word inside its width. */
module Bits {
  import opened Base

  /** Bit j of w is set. */
  predicate Bit(w: nat, j: nat) {
    (w / Pow2(j)) % 2 == 1
  }

  /** A set bit p contributes 2^p, so the word is at least that large. */
  lemma SetBitIsBelowWord(w: nat, p: nat)
    requires Bit(w, p)
    ensures Pow2(p) <= w
  {
    if w < Pow2(p) {
      DivModUnique(w, 0, w, Pow2(p));
    }
  }

  /** `w | (1 << p)`. */
  function SetBit(w: nat, p: nat): nat {
    if Bit(w, p) then w else w + Pow2(p)
  }

  /** `w &^ (1 << p)`. */
  function ClearBit(w: nat, p: nat): nat {
    if Bit(w, p) then SetBitIsBelowWord(w, p); w - Pow2(p) else w
  }

  /** Halving first and then dividing by k is dividing by 2k. */
  lemma HalfThenDivide(w: nat, k: nat)
    requires k > 0
    ensures (w / 2) / k == w / (2 * k)
  {
    var q := (w / 2) / k;
    var r := (w / 2) % k;
    assert w == q * (2 * k) + (2 * r + w % 2);
    DivModUnique(w, q, 2 * r + w % 2, 2 * k);
  }

  /** Bit j > 0 of w is bit j - 1 of w / 2. */
  lemma BitOfHalf(w: nat, j: nat)
    requires j > 0
    ensures Bit(w, j) == Bit(w / 2, j - 1)
  {
    HalfThenDivide(w, Pow2(j - 1));
  }

  /** Bit 0 is the parity. */
  lemma BitZero(w: nat)
    ensures Bit(w, 0) == (w % 2 == 1)
  {
  }

  /** Adding 2^p to a word whose bit p is clear sets bit p and changes no
      other bit: there is no carry. */
  lemma {:induction false} AddClearBit(w: nat, p: nat, j: nat)
    requires !Bit(w, p)
    ensures Bit(w + Pow2(p), j) == (j == p || Bit(w, j))
    decreases p
  {
    var v := w + Pow2(p);
    if p == 0 {
      BitZero(w);
      assert w % 2 == 0 && v == w + 1;
      DivModUnique(v, w / 2, 1, 2);
      if j > 0 {
        BitOfHalf(v, j);
        BitOfHalf(w, j);
      } else {
        BitZero(v);
      }
    } else {
      BitOfHalf(w, p);
      assert v == w + 2 * Pow2(p - 1);
      DivModUnique(v, w / 2 + Pow2(p - 1), w % 2, 2);
      if j > 0 {
        AddClearBit(w / 2, p - 1, j - 1);
        BitOfHalf(v, j);
        BitOfHalf(w, j);
      } else {
        BitZero(v);
        BitZero(w);
      }
    }
  }

  /** `w | (1 << p)` has bit p set and every other bit as in w. */
  lemma SetBitEffect(w: nat, p: nat, j: nat)
    ensures Bit(SetBit(w, p), j) == (j == p || Bit(w, j))
  {
    if !Bit(w, p) {
      AddClearBit(w, p, j);
    }
  }

  /** `w &^ (1 << p)` has bit p clear and every other bit as in w. */
  lemma ClearBitEffect(w: nat, p: nat, j: nat)
    ensures Bit(ClearBit(w, p), j) == (j != p && Bit(w, j))
  {
    if Bit(w, p) {
      var v := ClearBit(w, p);
      assert v + Pow2(p) == w;
      var q := w / Pow2(p);
      DivModUnique(v, q - 1, w % Pow2(p), Pow2(p));
      assert !Bit(v, p);
      AddClearBit(v, p, j);
    }
  }

  /** Setting a bit that was clear and clearing it again gives the word
      back. */
  lemma SetThenClear(w: nat, p: nat)
    requires !Bit(w, p)
    ensures ClearBit(SetBit(w, p), p) == w
  {
    SetBitEffect(w, p, p);
  }

  /** Setting a bit below the width keeps the word inside the width. */
  lemma {:induction false} SetBitWithin(w: nat, p: nat, n: nat)
    requires w < Pow2(n) && p < n
    ensures SetBit(w, p) < Pow2(n)
    decreases p
  {
    if !Bit(w, p) {
      if p == 0 {
        assert w % 2 == 0;
        assert Pow2(n) == 2 * Pow2(n - 1);
        DivBelow(w, 2, Pow2(n - 1));
      } else {
        BitOfHalf(w, p);
        assert Pow2(n) == 2 * Pow2(n - 1);
        DivBelow(w, 2, Pow2(n - 1));
        SetBitWithin(w / 2, p - 1, n - 1);
        assert w + Pow2(p) == 2 * (w / 2 + Pow2(p - 1)) + w % 2;
      }
    }
  }

  // ---------------------------------------------------------------------
  // Whole-word operations

  /** `a | b`, bit by bit from the least significant end. */
  function Or(a: nat, b: nat): nat
    decreases a + b
  {
    if a == 0 && b == 0 then 0
    else 2 * Or(a / 2, b / 2) + (if a % 2 == 1 || b % 2 == 1 then 1 else 0)
  }

  /** `a &^ b`: the bits of a that are clear in b. */
  function AndNot(a: nat, b: nat): nat
    decreases a
  {
    if a == 0 then 0
    else 2 * AndNot(a / 2, b / 2) + (if a % 2 == 1 && b % 2 == 0 then 1 else 0)
  }

  /** `a & b`. */
  function And(a: nat, b: nat): nat
    decreases a
  {
    if a == 0 then 0
    else 2 * And(a / 2, b / 2) + (if a % 2 == 1 && b % 2 == 1 then 1 else 0)
  }

  /** Bit j of 2x + c is c for j = 0 and bit j - 1 of x above. */
  lemma BitOfTwice(x: nat, c: nat, j: nat)
    requires c <= 1
    ensures Bit(2 * x + c, j) == if j == 0 then c == 1 else Bit(x, j - 1)
  {
    if j > 0 {
      BitOfHalf(2 * x + c, j);
      assert (2 * x + c) / 2 == x;
    }
  }

  /** Every bit of `a | b` is the disjunction of the bits. */
  lemma {:induction false} OrBit(a: nat, b: nat, j: nat)
    ensures Bit(Or(a, b), j) == (Bit(a, j) || Bit(b, j))
    decreases a + b
  {
    if a == 0 && b == 0 {
      assert Bit(0, j) == false;
    } else {
      var c := if a % 2 == 1 || b % 2 == 1 then 1 else 0;
      BitOfTwice(Or(a / 2, b / 2), c, j);
      if j > 0 {
        OrBit(a / 2, b / 2, j - 1);
        BitOfHalf(a, j);
        BitOfHalf(b, j);
      }
    }
  }

  /** Every bit of `a &^ b` is set exactly when it is set in a and clear in
      b. */
  lemma {:induction false} AndNotBit(a: nat, b: nat, j: nat)
    ensures Bit(AndNot(a, b), j) == (Bit(a, j) && !Bit(b, j))
    decreases a
  {
    if a == 0 {
      assert Bit(0, j) == false;
    } else {
      var c := if a % 2 == 1 && b % 2 == 0 then 1 else 0;
      BitOfTwice(AndNot(a / 2, b / 2), c, j);
      if j > 0 {
        AndNotBit(a / 2, b / 2, j - 1);
        BitOfHalf(a, j);
        BitOfHalf(b, j);
      } else {
        BitZero(a);
        BitZero(b);
      }
    }
  }

  /** Every bit of `a & b` is the conjunction of the bits. */
  lemma {:induction false} AndBit(a: nat, b: nat, j: nat)
    ensures Bit(And(a, b), j) == (Bit(a, j) && Bit(b, j))
    decreases a
  {
    if a == 0 {
      assert Bit(0, j) == false;
    } else {
      var c := if a % 2 == 1 && b % 2 == 1 then 1 else 0;
      BitOfTwice(And(a / 2, b / 2), c, j);
      if j > 0 {
        AndBit(a / 2, b / 2, j - 1);
        BitOfHalf(a, j);
        BitOfHalf(b, j);
      } else {
        BitZero(a);
        BitZero(b);
      }
    }
  }

  /** `a | b` of two n-bit words is an n-bit word. */
  lemma {:induction false} OrWithin(a: nat, b: nat, n: nat)
    requires a < Pow2(n) && b < Pow2(n)
    ensures Or(a, b) < Pow2(n)
    decreases n
  {
    if n > 0 && (a != 0 || b != 0) {
      DivBelow(a, 2, Pow2(n - 1));
      DivBelow(b, 2, Pow2(n - 1));
      OrWithin(a / 2, b / 2, n - 1);
    }
  }

  /** `a &^ b` never exceeds a. */
  lemma {:induction false} AndNotAtMost(a: nat, b: nat)
    ensures AndNot(a, b) <= a
    decreases a
  {
    if a > 0 {
      AndNotAtMost(a / 2, b / 2);
    }
  }

  /** Two words with the same bits are equal. */
  lemma {:induction false} BitsDetermineWord(a: nat, b: nat)
    requires forall j: nat :: Bit(a, j) == Bit(b, j)
    ensures a == b
    decreases a + b
  {
    if a != b {
      BitZero(a);
      BitZero(b);
      assert a % 2 == b % 2 by {
        assert Bit(a, 0) == Bit(b, 0);
      }
      forall j: nat
        ensures Bit(a / 2, j) == Bit(b / 2, j)
      {
        BitOfHalf(a, j + 1);
        BitOfHalf(b, j + 1);
        assert Bit(a, j + 1) == Bit(b, j + 1);
      }
      BitsDetermineWord(a / 2, b / 2);
    }
  }
}
