/** Unsigned 32-bit integers as lists of bits. */
module Words {

  /** An unsigned 32-bit integer as its bits, least significant bit first. */
  type Word = w: seq<bool> | |w| == 32 witness seq(32, _ => false)

  const ONE: Word := seq(32, k => k == 0)

  function And(x: Word, y: Word): Word {
    seq(32, k requires 0 <= k < 32 => x[k] && y[k])
  }

  function Or(x: Word, y: Word): Word {
    seq(32, k requires 0 <= k < 32 => x[k] || y[k])
  }

  function Not(x: Word): Word {
    seq(32, k requires 0 <= k < 32 => !x[k])
  }

  function ShiftLeft(x: Word, n: nat): Word {
    seq(32, k requires 0 <= k < 32 => n <= k && x[k - n])
  }

  function ShiftRight(x: Word, n: nat): Word {
    seq(32, k requires 0 <= k < 32 => k + n < 32 && x[k + n])
  }

  /** x modulo two to the power of n. */
  function Low(x: Word, n: nat): Word {
    seq(32, k requires 0 <= k < 32 => k < n && x[k])
  }
}
