/**
 * A 64-bit word is the row of its 64 bits, least significant first; the
 * bitwise operators of C++ work on each position.
 */
module Bits {

  const WORD: nat := 64

  type Word = w: seq<bool> | |w| == 64 witness Same(false)

  function Same(b: bool): seq<bool> {
    seq(64, _ => b)
  }

  const ZERO: Word := Same(false)
  const ONES: Word := Same(true)

  function And(a: Word, b: Word): Word {
    seq(WORD, k requires 0 <= k < WORD => a[k] && b[k])
  }

  function Or(a: Word, b: Word): Word {
    seq(WORD, k requires 0 <= k < WORD => a[k] || b[k])
  }

  function Not(a: Word): Word {
    seq(WORD, k requires 0 <= k < WORD => !a[k])
  }

  // The shift amount is taken modulo 64, as the x86 shift instruction does.
  function Shl(a: Word, n: nat): Word {
    var m := n % 64;
    seq(WORD, k requires 0 <= k < WORD => m <= k && a[k - m])
  }

  // __builtin_ctzl, with 64 for the zero word.
  function TrailingZeros(w: Word): (n: nat)
    ensures n <= WORD
    ensures forall k :: 0 <= k < n ==> !w[k]
    ensures n < WORD ==> w[n]
    ensures n == WORD <==> w == ZERO
  {
    FirstSetFrom(w, 0)
  }

  function FirstSetFrom(w: Word, i: nat): (n: nat)
    requires i <= WORD
    ensures i <= n <= WORD
    ensures forall k :: i <= k < n ==> !w[k]
    ensures n < WORD ==> w[n]
    decreases WORD - i
  {
    if i == WORD || w[i] then i else FirstSetFrom(w, i + 1)
  }
}
