/** Bitwise operations on machine words, as arithmetic on their binary digits. */
module Words {
  function ShiftLeft(w: nat, k: nat): (r: nat)
    ensures r >= w
  {
    if k == 0 then w else 2 * ShiftLeft(w, k - 1)
  }

  /** A 64-bit word. */
  type Word = w: nat | w < ShiftLeft(1, 64) witness 0

  /** Binary digit `i`. */
  predicate Bit(w: nat, i: nat) {
    if i == 0 then w % 2 == 1 else Bit(w / 2, i - 1)
  }

  function Or(a: nat, b: nat): nat {
    if a == 0 then b else 2 * Or(a / 2, b / 2) + if a % 2 == 1 || b % 2 == 1 then 1 else 0
  }

  /** `a & ~b`. */
  function AndNot(a: nat, b: nat): (r: nat)
    ensures r <= a
  {
    if a == 0 then 0 else 2 * AndNot(a / 2, b / 2) + if a % 2 == 1 && b % 2 == 0 then 1 else 0
  }

  lemma {:induction false} BitOfZero(i: nat)
    ensures !Bit(0, i)
  {
    if i > 0 {
      BitOfZero(i - 1);
    }
  }

  lemma {:induction false} BitOfShift(w: nat, k: nat, i: nat)
    ensures Bit(ShiftLeft(w, k), i) <==> i >= k && Bit(w, i - k)
    decreases k
  {
    if k > 0 && i > 0 {
      BitOfShift(w, k - 1, i - 1);
    }
  }

  lemma {:induction false} BitOfOr(a: nat, b: nat, i: nat)
    ensures Bit(Or(a, b), i) <==> Bit(a, i) || Bit(b, i)
    decreases a
  {
    if a == 0 {
      BitOfZero(i);
    } else if i > 0 {
      BitOfOr(a / 2, b / 2, i - 1);
    }
  }

  lemma {:induction false} BitOfAndNot(a: nat, b: nat, i: nat)
    ensures Bit(AndNot(a, b), i) <==> Bit(a, i) && !Bit(b, i)
    decreases a
  {
    if a == 0 {
      BitOfZero(i);
    } else if i > 0 {
      BitOfAndNot(a / 2, b / 2, i - 1);
    }
  }

  lemma {:induction false} OrStaysBelow(a: nat, b: nat, n: nat)
    requires a < ShiftLeft(1, n) && b < ShiftLeft(1, n)
    ensures Or(a, b) < ShiftLeft(1, n)
    decreases n
  {
    if a > 0 {
      OrStaysBelow(a / 2, b / 2, n - 1);
    }
  }

  lemma BitOfOne(i: nat)
    ensures Bit(1, i) <==> i == 0
  {
    if i > 0 {
      BitOfZero(i - 1);
    }
  }

  lemma BitOfNibble(i: nat)
    ensures Bit(0xF, i) <==> i < 4
  {
    if i >= 4 {
      BitOfZero(i - 4);
      assert Bit(0xF, i) == Bit(7, i - 1) == Bit(3, i - 2) == Bit(1, i - 3) == Bit(0, i - 4);
    } else {
      assert i == 0 || i == 1 || i == 2 || i == 3;
      assert Bit(7, 0) && Bit(7, 1) && Bit(7, 2);
    }
  }
}
