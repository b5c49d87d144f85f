/** The machine words of the i386 layout: `ulong` and `pid_t` have the same 32 bits. */
module Words {
  const WORD: int := 0x1_0000_0000
  const HALF: int := 0x8000_0000

  type Word = n: int | 0 <= n < WORD

  /** The bit pattern of `(ulong)-1`, where both counters of a slot start. */
  const MINUS_ONE: Word := WORD - 1

  /** `w + 1` on an unsigned word. */
  function Succ(w: Word): Word {
    (w + 1) % WORD
  }

  /** Counting modulo the word. */
  lemma SuccMod(x: int)
    ensures Succ(x % WORD) == (x + 1) % WORD
  {
  }

  lemma AddMod(x: int, y: int)
    ensures (x % WORD + y) % WORD == (x + y) % WORD
  {
  }

  function Times(x: nat, y: nat): nat {
    x * y
  }

  /** An unsigned word returned as a C `int`. */
  function ToInt(w: Word): int {
    if w < HALF then w else w - WORD
  }
}
