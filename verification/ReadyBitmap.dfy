/** The ready-priority bitmap of the port layer (portmacro.h).  The word is the set of the
  * positions of its one-bits. */
module ReadyBitmap {
  type Bitmap = set<int>

  /** portRECORD_READY_PRIORITY: b | (1UL << p) */
  function Record(b: Bitmap, p: int): Bitmap {
    b + {p}
  }

  /** portRESET_READY_PRIORITY: b & ~(1UL << p) */
  function Reset(b: Bitmap, p: int): Bitmap {
    b - {p}
  }

  /** The clz instruction on the low bits of the word. */
  function LeadingZeros(b: Bitmap, width: nat): (n: nat)
    ensures n <= width
  {
    if width == 0 || width - 1 in b then 0 else 1 + LeadingZeros(b, width - 1)
  }

  /** portGET_HIGHEST_PRIORITY */
  function Highest(b: Bitmap): int {
    31 - LeadingZeros(b, 32)
  }

  lemma {:induction false} LeadingZerosStopAtTheTop(b: Bitmap, width: nat, q: int)
    requires 0 <= q < width && q in b
    ensures width - 1 - LeadingZeros(b, width) in b
    ensures q <= width - 1 - LeadingZeros(b, width)
  {
    if width - 1 !in b {
      LeadingZerosStopAtTheTop(b, width - 1, q);
    }
  }

  /** The port's selection is the highest recorded priority. */
  lemma HighestIsHighest(b: Bitmap, q: int)
    requires 0 <= q < 32 && q in b
    ensures Highest(b) in b && q <= Highest(b)
  {
    LeadingZerosStopAtTheTop(b, 32, q);
  }
}
