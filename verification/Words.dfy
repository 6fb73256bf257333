/** 32-bit words as C's unsigned operators see them, bit by bit. */
module Words {

  /** A 32-bit word, least significant bit first. */
  type Word = s: seq<bool> | |s| == 32 witness seq(32, i => false)

  function Zero(): Word { Ones(0) }

  /** (1 << n) - 1 */
  function Ones(n: nat): Word { seq(32, i => i < n) }

  function Shl(w: Word, k: nat): Word { seq(32, i requires 0 <= i < 32 => i >= k && w[i - k]) }

  function Shr(w: Word, k: nat): Word { seq(32, i requires 0 <= i < 32 => i + k < 32 && w[i + k]) }

  function And(w: Word, v: Word): Word { seq(32, i requires 0 <= i < 32 => w[i] && v[i]) }

  function Or(w: Word, v: Word): Word { seq(32, i requires 0 <= i < 32 => w[i] || v[i]) }

  function AndNot(w: Word, v: Word): Word { seq(32, i requires 0 <= i < 32 => w[i] && !v[i]) }

  /** The units lo .. hi-1. */
  function Range(lo: nat, hi: nat): Word { seq(32, i => lo <= i < hi) }

  lemma ShiftedOnes(n: nat, j: nat)
    ensures Shl(Ones(n), j) == Range(j, j + n)
  {
  }

  lemma ShiftOnce(n: nat, k: nat)
    ensures Shl(Shl(Ones(n), k), 1) == Shl(Ones(n), k + 1)
  {
  }
}
