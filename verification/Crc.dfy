/** The CRC of dvStorage.c: a table of 16 words and two look-ups per byte, against the
  * bit-serial shift register of CRC-32/MPEG-2 (Annex A of ISO/IEC 13818-1).
  * A word is the sequence of its bits, the most significant first. */
module Crc {
  /** The polynomial x^32 + x^26 + x^23 + x^22 + x^16 + x^12 + x^11 + x^10 + x^8 + x^7 + x^5 + x^4 + x^2 + x + 1,
    * without its leading term. */
  const POLYNOMIAL: HexWord := "04C11DB7"

  const INITIAL: HexWord := "FFFFFFFF"

  const TABLE: seq<HexWord> := [
    "00000000", "04C11DB7", "09823B6E", "0D4326D9", "130476DC", "17C56B6B", "1A864DB2", "1E475005",
    "2608EDB8", "22C9F00F", "2F8AD6D6", "2B4BCB61", "350C9B64", "31CD86D3", "3C8EA00A", "384FBDBD"]

  type Byte = x: int | 0 <= x < 256

  /** A word as its eight hexadecimal digits. */
  type HexWord = h: string | |h| == 8 witness "00000000"

  type Word = w: seq<bool> | |w| == 32 witness seq(32, _ => false)

  // ---------------------------------------------------------------------------
  // Numbers and their bits.
  // ---------------------------------------------------------------------------

  function Pow2(k: nat): (p: int)
    ensures p > 0
  {
    if k == 0 then 1 else 2 * Pow2(k - 1)
  }

  /** The k low bits of n. */
  function Bits(n: int, k: nat): (bits: seq<bool>)
    ensures |bits| == k
    decreases k, n
  {
    if k == 0 then [] else Bits(n / 2, k - 1) + [n % 2 == 1]
  }

  function Value(bits: seq<bool>): (n: int)
    ensures 0 <= n < Pow2(|bits|)
  {
    if bits == [] then 0 else 2 * Value(bits[..|bits| - 1]) + if bits[|bits| - 1] then 1 else 0
  }

  lemma {:induction false} BitsOfValue(bits: seq<bool>)
    ensures Bits(Value(bits), |bits|) == bits
  {
    if bits != [] {
      BitsOfValue(bits[..|bits| - 1]);
    }
  }

  lemma {:induction false} ValueOfBits(n: int, k: nat)
    requires 0 <= n < Pow2(k)
    ensures Value(Bits(n, k)) == n
    decreases k
  {
    if k > 0 {
      ValueOfBits(n / 2, k - 1);
      assert Bits(n, k)[..k - 1] == Bits(n / 2, k - 1);
    }
  }

  /** Four bits, the most significant first. */
  datatype Nibble = Nibble(a: bool, b: bool, c: bool, d: bool) {
    function Bit(j: int): bool {
      if j == 0 then a else if j == 1 then b else if j == 2 then c else d
    }

    function Plus(other: Nibble): Nibble {
      Nibble(a != other.a, b != other.b, c != other.c, d != other.d)
    }

    /** Shifted left by one place, with a bit entering at the bottom. */
    function Shifted(bit: bool): Nibble {
      Nibble(b, c, d, bit)
    }
  }

  function Digit(c: char): Nibble {
    Nibble(
      '8' <= c,
      '4' <= c <= '7' || 'C' <= c,
      c == '2' || c == '3' || c == '6' || c == '7' || c == 'A' || c == 'B' || c == 'E' || c == 'F',
      c == '1' || c == '3' || c == '5' || c == '7' || c == '9' || c == 'B' || c == 'D' || c == 'F')
  }

  function Hex(h: HexWord): (w: Word)
    ensures forall i :: 0 <= i < 32 ==> w[i] == Digit(h[i / 4]).Bit(i % 4)
  {
    seq(32, i requires 0 <= i < 32 => Digit(h[i / 4]).Bit(i % 4))
  }

  // ---------------------------------------------------------------------------
  // Words.
  // ---------------------------------------------------------------------------

  function Zeros(k: nat): (bits: seq<bool>)
    ensures |bits| == k && forall i :: 0 <= i < k ==> !bits[i]
  {
    seq(k, _ => false)
  }

  function Xor(a: seq<bool>, b: seq<bool>): (r: seq<bool>)
    requires |a| == |b|
    ensures |r| == |a| && forall i :: 0 <= i < |a| ==> r[i] == (a[i] != b[i])
  {
    seq(|a|, i requires 0 <= i < |a| && |a| == |b| => a[i] != b[i])
  }

  function When(bit: bool, w: seq<bool>): (r: seq<bool>)
    ensures |r| == |w|
  {
    if bit then w else Zeros(|w|)
  }

  /** The word shifted left by k places. */
  function Left(w: seq<bool>, k: nat): (r: seq<bool>)
    requires k <= |w|
    ensures |r| == |w|
  {
    w[k..] + Zeros(k)
  }

  // ---------------------------------------------------------------------------
  // The shift register.
  // ---------------------------------------------------------------------------

  function Poly(): Word {
    Hex(POLYNOMIAL)
  }

  /** One message bit enters at the top. */
  function BitStep(s: Word, bit: bool): Word {
    Xor(Left(s, 1), When(s[0] != bit, Poly()))
  }

  function Feed(s: Word, bits: seq<bool>): Word {
    if bits == [] then s else BitStep(Feed(s, bits[..|bits| - 1]), bits[|bits| - 1])
  }

  function AllBits(message: seq<Byte>): (bits: seq<bool>)
    ensures |bits| == 8 * |message|
  {
    if message == [] then [] else AllBits(message[..|message| - 1]) + Bits(message[|message| - 1], 8)
  }

  function Initial(): Word {
    Hex(INITIAL)
  }

  /** The bit-serial CRC of a message. */
  function Serial(message: seq<Byte>): Word {
    Feed(Initial(), AllBits(message))
  }

  lemma DropLast<T>(a: seq<T>, b: seq<T>) returns (whole: seq<T>, rest: seq<T>, last: T)
    requires b != []
    ensures whole == a + b && whole != [] && rest == b[..|b| - 1] && last == b[|b| - 1]
    ensures whole[..|whole| - 1] == a + rest && whole[|whole| - 1] == last
  {
    whole, rest, last := a + b, b[..|b| - 1], b[|b| - 1];
  }

  lemma {:induction false} FeedJoin(s: Word, a: seq<bool>, b: seq<bool>)
    ensures Feed(s, a + b) == Feed(Feed(s, a), b)
    decreases |b|
  {
    if b == [] {
      assert a + b == a;
    } else {
      var whole, rest, last := DropLast(a, b);
      FeedJoin(s, a, rest);
    }
  }

  lemma {:induction false} AllBitsJoin(a: seq<Byte>, b: seq<Byte>)
    ensures AllBits(a + b) == AllBits(a) + AllBits(b)
    decreases |b|
  {
    if b == [] {
      assert a + b == a;
    } else {
      var whole, rest, last := DropLast(a, b);
      AllBitsJoin(a, rest);
    }
  }

  // ---------------------------------------------------------------------------
  // The table.
  // ---------------------------------------------------------------------------

  function Index(a: bool, b: bool, c: bool, d: bool): (i: int)
    ensures 0 <= i < 16
  {
    (if a then 8 else 0) + (if b then 4 else 0) + (if c then 2 else 0) + (if d then 1 else 0)
  }

  function Row(i: int): Word
    requires 0 <= i < 16
  {
    Hex(TABLE[i])
  }

  predicate DigitAdds(a: char, b: char, c: char) {
    Digit(a).Plus(Digit(b)) == Digit(c)
  }

  predicate Adds(a: HexWord, b: HexWord, c: HexWord) {
    && DigitAdds(a[0], b[0], c[0]) && DigitAdds(a[1], b[1], c[1]) && DigitAdds(a[2], b[2], c[2]) && DigitAdds(a[3], b[3], c[3])
    && DigitAdds(a[4], b[4], c[4]) && DigitAdds(a[5], b[5], c[5]) && DigitAdds(a[6], b[6], c[6]) && DigitAdds(a[7], b[7], c[7])
  }

  predicate DigitShifts(a: char, next: char, b: char) {
    Digit(a).Shifted(Digit(next).a) == Digit(b)
  }

  predicate Doubles(a: HexWord, b: HexWord) {
    && DigitShifts(a[0], a[1], b[0]) && DigitShifts(a[1], a[2], b[1]) && DigitShifts(a[2], a[3], b[2]) && DigitShifts(a[3], a[4], b[3])
    && DigitShifts(a[4], a[5], b[4]) && DigitShifts(a[5], a[6], b[5]) && DigitShifts(a[6], a[7], b[6]) && DigitShifts(a[7], '0', b[7])
  }

  predicate ShiftsAt(a: HexWord, b: HexWord, k: nat)
    requires k < 8
  {
    Digit(a[k]).Shifted(k < 7 && Digit(a[k + 1]).a) == Digit(b[k])
  }

  lemma DoublesDigit(a: HexWord, b: HexWord, k: nat)
    requires Doubles(a, b) && k < 8
    ensures ShiftsAt(a, b, k)
  {
    assert k < 4 ==> k == 0 || k == 1 || k == 2 || k == 3;
    assert k >= 4 ==> k == 4 || k == 5 || k == 6 || k == 7;
  }

  lemma AddsDigit(a: HexWord, b: HexWord, c: HexWord, k: nat)
    requires Adds(a, b, c) && k < 8
    ensures DigitAdds(a[k], b[k], c[k])
  {
    assert k < 4 ==> k == 0 || k == 1 || k == 2 || k == 3;
    assert k >= 4 ==> k == 4 || k == 5 || k == 6 || k == 7;
  }

  lemma AddsWords(a: HexWord, b: HexWord, c: HexWord)
    requires Adds(a, b, c)
    ensures Xor(Hex(a), Hex(b)) == Hex(c)
  {
    var sum := Xor(Hex(a), Hex(b));
    forall i | 0 <= i < 32
      ensures sum[i] == Hex(c)[i]
    {
      AddsDigit(a, b, c, i / 4);
    }
  }

  lemma ShiftedWords(a: HexWord, b: HexWord)
    requires forall k :: 0 <= k < 8 ==> ShiftsAt(a, b, k)
    ensures Left(Hex(a), 1) == Hex(b)
  {
    var shifted := Left(Hex(a), 1);
    forall i | 0 <= i < 32
      ensures shifted[i] == Hex(b)[i]
    {
      assert ShiftsAt(a, b, i / 4);
      assert i < 31 ==> Hex(a)[i + 1] == Digit(a[(i + 1) / 4]).Bit((i + 1) % 4);
    }
  }

  lemma DoublesWords(a: HexWord, b: HexWord)
    requires Doubles(a, b)
    ensures Left(Hex(a), 1) == Hex(b)
  {
    forall k | 0 <= k < 8
      ensures ShiftsAt(a, b, k)
    {
      DoublesDigit(a, b, k);
    }
    ShiftedWords(a, b);
  }

  lemma TableRows()
    ensures TABLE[0] == "00000000" && TABLE[1] == "04C11DB7"
    ensures TABLE[2] == "09823B6E" && TABLE[3] == "0D4326D9"
    ensures TABLE[4] == "130476DC" && TABLE[5] == "17C56B6B"
    ensures TABLE[6] == "1A864DB2" && TABLE[7] == "1E475005"
    ensures TABLE[8] == "2608EDB8" && TABLE[9] == "22C9F00F"
    ensures TABLE[10] == "2F8AD6D6" && TABLE[11] == "2B4BCB61"
    ensures TABLE[12] == "350C9B64" && TABLE[13] == "31CD86D3"
    ensures TABLE[14] == "3C8EA00A" && TABLE[15] == "384FBDBD"
  {
  }

  lemma Sum3()
    ensures Adds("09823B6E", "04C11DB7", "0D4326D9")
  {
  }

  lemma Sum5()
    ensures Adds("130476DC", "04C11DB7", "17C56B6B")
  {
  }

  lemma Sum6()
    ensures Adds("130476DC", "09823B6E", "1A864DB2")
  {
  }

  lemma Sum7()
    ensures Adds("130476DC", "0D4326D9", "1E475005")
  {
  }

  lemma Sum9()
    ensures Adds("2608EDB8", "04C11DB7", "22C9F00F")
  {
  }

  lemma Sum10()
    ensures Adds("2608EDB8", "09823B6E", "2F8AD6D6")
  {
  }

  lemma Sum11()
    ensures Adds("2608EDB8", "0D4326D9", "2B4BCB61")
  {
  }

  lemma Sum12()
    ensures Adds("2608EDB8", "130476DC", "350C9B64")
  {
  }

  lemma Sum13()
    ensures Adds("2608EDB8", "17C56B6B", "31CD86D3")
  {
  }

  lemma Sum14()
    ensures Adds("2608EDB8", "1A864DB2", "3C8EA00A")
  {
  }

  lemma Sum15()
    ensures Adds("2608EDB8", "1E475005", "384FBDBD")
  {
  }

  lemma Shift1()
    ensures Doubles("04C11DB7", "09823B6E")
  {
  }

  lemma Shift2()
    ensures Doubles("09823B6E", "130476DC")
  {
  }

  lemma Shift4()
    ensures Doubles("130476DC", "2608EDB8")
  {
  }

  lemma LowRowsAdd(high: int, low: int)
    requires high in {2, 4} && 0 < low < high
    ensures Row(high + low) == Xor(Row(high), Row(low))
  {
    TableRows();
    match high + low
    case 3 => Sum3();
    case 5 => Sum5();
    case 6 => Sum6();
    case _ => Sum7();
    AddsWords(TABLE[high], TABLE[low], TABLE[high + low]);
  }

  lemma MiddleRowsAdd(high: int, low: int)
    requires high == 8 && 1 <= low < 3
    ensures Row(high + low) == Xor(Row(high), Row(low))
  {
    TableRows();
    if low == 1 { Sum9(); } else { Sum10(); }
    AddsWords(TABLE[high], TABLE[low], TABLE[high + low]);
  }

  lemma HighRowsAdd(high: int, low: int)
    requires high == 8 && 3 <= low < 6
    ensures Row(high + low) == Xor(Row(high), Row(low))
  {
    TableRows();
    if low == 3 { Sum11(); } else if low == 4 { Sum12(); } else { Sum13(); }
    AddsWords(TABLE[high], TABLE[low], TABLE[high + low]);
  }

  lemma TopRowsAdd(high: int, low: int)
    requires high == 8 && 6 <= low < 8
    ensures Row(high + low) == Xor(Row(high), Row(low))
  {
    TableRows();
    if low == 6 { Sum14(); } else { Sum15(); }
    AddsWords(TABLE[high], TABLE[low], TABLE[high + low]);
  }

  lemma RowsAdd(high: int, low: int)
    requires high in {1, 2, 4, 8} && 0 < low < high
    ensures Row(high + low) == Xor(Row(high), Row(low))
  {
    if high < 8 {
      LowRowsAdd(high, low);
    } else if low < 3 {
      MiddleRowsAdd(high, low);
    } else if low < 6 {
      HighRowsAdd(high, low);
    } else {
      TopRowsAdd(high, low);
    }
  }

  lemma RowsShift(i: int)
    requires i in {1, 2, 4}
    ensures Row(2 * i) == Left(Row(i), 1)
  {
    TableRows();
    if i == 1 {
      Shift1();
    } else if i == 2 {
      Shift2();
    } else {
      Shift4();
    }
    DoublesWords(TABLE[i], TABLE[2 * i]);
  }

  lemma RowZero(i: nat)
    requires i < 32
    ensures !Row(0)[i]
  {
    TableRows();
  }

  /** Bit i of a word, and 0 past its end. */
  predicate At(w: Word, i: nat) {
    i < 32 && w[i]
  }

  lemma LeftAt(w: Word, v: Word, i: nat)
    requires v == Left(w, 1)
    ensures At(v, i) == At(w, i + 1)
  {
  }

  lemma RowsAt(i: nat)
    requires i < 32
    ensures Row(1) == Poly() && Row(2)[i] == At(Poly(), i + 1)
    ensures Row(4)[i] == At(Poly(), i + 2) && Row(8)[i] == At(Poly(), i + 3)
  {
    assert Row(1) == Poly() by { TableRows(); }
    RowsShift(1);
    RowsShift(2);
    RowsShift(4);
    LeftAt(Row(4), Row(8), i);
    LeftAt(Row(2), Row(4), i);
    LeftAt(Row(2), Row(4), i + 1);
    LeftAt(Row(1), Row(2), i);
    LeftAt(Row(1), Row(2), i + 1);
    LeftAt(Row(1), Row(2), i + 2);
  }

  /** Bit i of every row. */
  function Column(i: nat): (column: seq<bool>)
    requires i < 32
    ensures |column| == 16 && forall k :: 0 <= k < 16 ==> column[k] == Row(k)[i]
  {
    seq(16, k requires 0 <= k < 16 => Row(k)[i])
  }

  /** Splitting off the top bit of an index splits off a row. */
  predicate Linear(column: seq<bool>) {
    && |column| == 16
    && !column[0]
    && forall high, low :: high in {1, 2, 4, 8} && 0 < low < high ==> column[high + low] == (column[high] != column[low])
  }

  lemma ColumnIsLinear(i: nat)
    requires i < 32
    ensures Linear(Column(i))
  {
    RowZero(i);
    forall high, low | high in {1, 2, 4, 8} && 0 < low < high
      ensures Column(i)[high + low] == (Column(i)[high] != Column(i)[low])
    {
      RowsAdd(high, low);
    }
  }

  lemma LinearAt(column: seq<bool>, a: bool, b: bool, c: bool, d: bool)
    requires Linear(column)
    ensures column[Index(a, b, c, d)] ==
      ((a && column[8]) != ((b && column[4]) != ((c && column[2]) != (d && column[1]))))
  {
    assert column[2 + 1] == (column[2] != column[1]);
    assert column[4 + 1] == (column[4] != column[1]) && column[4 + 2] == (column[4] != column[2]);
    assert column[4 + 3] == (column[4] != column[3]);
    assert column[8 + 4] == (column[8] != column[4]);
    assert forall low :: 0 < low < 8 ==> column[8 + low] == (column[8] != column[low]);
  }

  /** Each row is the sum of the polynomial shifted by the places of its index's ones. */
  lemma RowAt(a: bool, b: bool, c: bool, d: bool, i: nat)
    requires i < 32
    ensures Row(Index(a, b, c, d))[i] ==
      ((a && At(Poly(), i + 3)) != ((b && At(Poly(), i + 2)) != ((c && At(Poly(), i + 1)) != (d && At(Poly(), i)))))
  {
    RowsAt(i);
    ColumnIsLinear(i);
    LinearAt(Column(i), a, b, c, d);
  }

  // ---------------------------------------------------------------------------
  // Two look-ups a byte compute the shift register.
  // ---------------------------------------------------------------------------

  /** What one step does to each bit. */
  predicate Steps(s: Word, bit: bool, next: Word) {
    forall i :: 0 <= i < 32 ==> next[i] == (At(s, i + 1) != ((s[0] != bit) && At(Poly(), i)))
  }

  lemma BitStepSteps(s: Word, bit: bool)
    ensures Steps(s, bit, BitStep(s, bit))
  {
  }

  lemma TopOfPoly()
    ensures !Poly()[0] && !Poly()[1] && !Poly()[2] && Poly()[31]
  {
    assert Digit(POLYNOMIAL[0]) == Nibble(false, false, false, false) && Digit(POLYNOMIAL[7]).d;
  }

  /** The first four bits of the register decide the four feedbacks: the polynomial starts with zeros. */
  lemma Feedbacks(s: Word, a: bool, s1: Word, b: bool, s2: Word, c: bool, s3: Word)
    requires Steps(s, a, s1) && Steps(s1, b, s2) && Steps(s2, c, s3)
    ensures s1[0] == s[1] && s2[0] == s[2] && s3[0] == s[3]
  {
    TopOfPoly();
    assert s1[0] == s[1] && s1[1] == s[2] && s1[2] == s[3];
    assert s2[0] == s1[1] && s2[1] == s1[2];
  }

  lemma FourSteps(s: Word, a: bool, s1: Word, b: bool, s2: Word, c: bool, s3: Word, d: bool, s4: Word, i: nat)
    requires Steps(s, a, s1) && Steps(s1, b, s2) && Steps(s2, c, s3) && Steps(s3, d, s4) && i < 32
    ensures s4[i] == (At(s, i + 4) != Row(Index(s[0] != a, s[1] != b, s[2] != c, s[3] != d))[i])
  {
    Feedbacks(s, a, s1, b, s2, c, s3);
    RowAt(s[0] != a, s[1] != b, s[2] != c, s[3] != d, i);
    assert At(s3, i + 1) == (At(s2, i + 2) != ((s[2] != c) && At(Poly(), i + 1)));
    assert At(s2, i + 2) == (At(s1, i + 3) != ((s[1] != b) && At(Poly(), i + 2)));
    assert At(s1, i + 3) == (At(s, i + 4) != ((s[0] != a) && At(Poly(), i + 3)));
  }

  /** One look-up. */
  function Lookup(crc: Word, nibble: seq<bool>): Word
    requires |nibble| == 4
  {
    Xor(Left(crc, 4), Row(Index(crc[0] != nibble[0], crc[1] != nibble[1], crc[2] != nibble[2], crc[3] != nibble[3])))
  }

  lemma LastStep(s: Word, bits: seq<bool>) returns (before: Word)
    requires bits != []
    ensures before == Feed(s, bits[..|bits| - 1])
    ensures Steps(before, bits[|bits| - 1], Feed(s, bits))
  {
    before := Feed(s, bits[..|bits| - 1]);
    BitStepSteps(before, bits[|bits| - 1]);
  }

  lemma FourFed(s: Word, n: seq<bool>) returns (s1: Word, s2: Word, s3: Word)
    requires |n| == 4
    ensures Steps(s, n[0], s1) && Steps(s1, n[1], s2) && Steps(s2, n[2], s3) && Steps(s3, n[3], Feed(s, n))
  {
    var m := n[..3];
    var l := n[..2];
    s3 := LastStep(s, n);
    s2 := LastStep(s, m);
    assert m[..2] == l;
    s1 := LastStep(s, l);
    assert l[..1] == [n[0]];
    var s0 := LastStep(s, [n[0]]);
    assert [n[0]][..0] == [];
  }

  lemma LookupAfterSteps(s: Word, n: seq<bool>, s1: Word, s2: Word, s3: Word, s4: Word)
    requires |n| == 4 && Steps(s, n[0], s1) && Steps(s1, n[1], s2) && Steps(s2, n[2], s3) && Steps(s3, n[3], s4)
    ensures Lookup(s, n) == s4
  {
    forall i | 0 <= i < 32
      ensures Lookup(s, n)[i] == s4[i]
    {
      FourSteps(s, n[0], s1, n[1], s2, n[2], s3, n[3], s4, i);
    }
  }

  lemma LookupFeeds(s: Word, nibble: seq<bool>)
    requires |nibble| == 4
    ensures Lookup(s, nibble) == Feed(s, nibble)
  {
    var s1, s2, s3 := FourFed(s, nibble);
    LookupAfterSteps(s, nibble, s1, s2, s3, Feed(s, nibble));
  }

  /** The body of the loop: the high half of a byte, then its low half. */
  function ByteStep(crc: Word, byte: Byte): Word {
    Lookup(Lookup(crc, Bits(byte, 8)[..4]), Bits(byte, 8)[4..])
  }

  lemma Fed(s: Word, nibble: seq<bool>) returns (t: Word)
    requires |nibble| == 4
    ensures t == Lookup(s, nibble) == Feed(s, nibble)
  {
    LookupFeeds(s, nibble);
    t := Feed(s, nibble);
  }

  lemma LookupsFeed(s: Word, high: seq<bool>, low: seq<bool>)
    requires |high| == |low| == 4
    ensures Lookup(Lookup(s, high), low) == Feed(s, high + low)
  {
    var t := Fed(s, high);
    var u := Fed(t, low);
    FeedJoin(s, high, low);
  }

  lemma ByteStepFeeds(s: Word, byte: Byte)
    ensures ByteStep(s, byte) == Feed(s, Bits(byte, 8))
  {
    var bits := Bits(byte, 8);
    LookupsFeed(s, bits[..4], bits[4..]);
    assert bits == bits[..4] + bits[4..];
  }

  lemma OneByteMore(message: seq<Byte>, byte: Byte, longer: seq<Byte>)
    requires longer == message + [byte]
    ensures Serial(longer) == ByteStep(Serial(message), byte)
  {
    assert longer[..|message|] == message;
    FeedJoin(Initial(), AllBits(message), Bits(byte, 8));
    ByteStepFeeds(Serial(message), byte);
  }

  /** crc_mpeg2 over the range [first, last) of a byte array. */
  method CrcMpeg2(bytes: array<Byte>, first: nat, last: nat) returns (crc: Word)
    requires first <= last <= bytes.Length
    ensures crc == Serial(bytes[first..last])
  {
    crc := Hex(INITIAL);
    var next := first;
    while next != last
      invariant first <= next <= last
      invariant crc == Serial(bytes[first..next])
    {
      OneByteMore(bytes[first..next], bytes[next], bytes[first..next + 1]);
      var byte := Bits(bytes[next], 8);
      crc := Lookup(crc, byte[..4]);
      crc := Lookup(crc, byte[4..]);
      next := next + 1;
    }
  }

  // ---------------------------------------------------------------------------
  // A message followed by its CRC, most significant byte first.
  // ---------------------------------------------------------------------------

  function BigEndian(crc: Word): (bytes: seq<Byte>)
    ensures |bytes| == 4
  {
    [ByteOf(crc[..8]), ByteOf(crc[8..16]), ByteOf(crc[16..24]), ByteOf(crc[24..])]
  }

  function ByteOf(bits: seq<bool>): Byte
    requires |bits| == 8
  {
    EightBits();
    Value(bits)
  }

  lemma EightBits()
    ensures Pow2(8) == 256
  {
  }

  lemma {:induction false} AllBitsOfFour(a: Byte, b: Byte, c: Byte, d: Byte)
    ensures AllBits([a, b, c, d]) == Bits(a, 8) + Bits(b, 8) + Bits(c, 8) + Bits(d, 8)
  {
    AllBitsJoin([a, b, c], [d]);
    AllBitsJoin([a, b], [c]);
    AllBitsJoin([a], [b]);
    assert [a, b, c, d] == [a, b, c] + [d] && [a, b, c] == [a, b] + [c] && [a, b] == [a] + [b];
    forall x: Byte
      ensures AllBits([x]) == Bits(x, 8)
    {
      assert [x][..0] == [];
    }
  }

  lemma FourJoin(w: seq<bool>, a: seq<bool>, b: seq<bool>, c: seq<bool>, d: seq<bool>)
    requires |w| == 32 && a == w[..8] && b == w[8..16] && c == w[16..24] && d == w[24..]
    ensures a + b + c + d == w
  {
  }

  lemma BitsOfByteOf(bits: seq<bool>)
    requires |bits| == 8
    ensures Bits(ByteOf(bits), 8) == bits
  {
    BitsOfValue(bits);
  }

  lemma AllBitsOfBigEndian(crc: Word)
    ensures AllBits(BigEndian(crc)) == crc
  {
    var a, b, c, d := crc[..8], crc[8..16], crc[16..24], crc[24..];
    BitsOfByteOf(a);
    BitsOfByteOf(b);
    BitsOfByteOf(c);
    BitsOfByteOf(d);
    AllBitsOfFour(ByteOf(a), ByteOf(b), ByteOf(c), ByteOf(d));
    FourJoin(crc, a, b, c, d);
  }

  lemma LastByte(a: seq<Byte>)
    requires a != []
    ensures AllBits(a)[..8 * (|a| - 1)] == AllBits(a[..|a| - 1])
    ensures AllBits(a)[8 * (|a| - 1)..] == Bits(a[|a| - 1], 8)
  {
  }

  lemma {:induction false} AllBitsInjective(a: seq<Byte>, b: seq<Byte>)
    requires AllBits(a) == AllBits(b)
    ensures a == b
  {
    assert |a| == |b|;
    if a != [] {
      var n := |a| - 1;
      LastByte(a);
      LastByte(b);
      EightBits();
      ValueOfBits(a[n], 8);
      ValueOfBits(b[n], 8);
      AllBitsInjective(a[..n], b[..n]);
      assert a == a[..n] + [a[n]] && b == b[..n] + [b[n]];
    }
  }

  lemma OwnStep(s: Word, k: nat, before: Word, next: Word)
    requires 0 < k <= 32 && before == Left(s, k - 1) && Steps(before, s[k - 1], next)
    ensures next == Left(s, k)
  {
    assert before[0] == s[k - 1];
    var left := Left(s, k);
    forall i | 0 <= i < 32
      ensures next[i] == left[i]
    {
      assert next[i] == At(before, i + 1);
    }
  }

  /** A register fed its own leading bits gives no feedback. */
  lemma {:induction false} FeedOwn(s: Word, k: nat)
    requires k <= 32
    ensures Feed(s, s[..k]) == Left(s, k)
  {
    if k > 0 {
      FeedOwn(s, k - 1);
      var before := LastStep(s, s[..k]);
      assert s[..k][..k - 1] == s[..k - 1];
      OwnStep(s, k, before, Feed(s, s[..k]));
    }
  }

  // ---------------------------------------------------------------------------
  // Errors in bursts.
  // ---------------------------------------------------------------------------

  lemma StepInjects(s: Word, t: Word, bit: bool)
    requires s != t
    ensures BitStep(s, bit) != BitStep(t, bit)
  {
    TopOfPoly();
    BitStepSteps(s, bit);
    BitStepSteps(t, bit);
    var u, v := BitStep(s, bit), BitStep(t, bit);
    if u == v {
      assert u[31] == (s[0] != bit) && v[31] == (t[0] != bit);
      forall i | 0 <= i < 32
        ensures s[i] == t[i]
      {
        if i > 0 {
          assert u[i - 1] == v[i - 1];
        }
      }
    }
  }

  lemma {:induction false} FeedInjects(s: Word, t: Word, bits: seq<bool>)
    requires s != t
    ensures Feed(s, bits) != Feed(t, bits)
  {
    if bits != [] {
      var n := |bits| - 1;
      FeedInjects(s, t, bits[..n]);
      StepInjects(Feed(s, bits[..n]), Feed(t, bits[..n]), bits[n]);
    }
  }

  /** The registers differ somewhere in their m low bits. */
  predicate LowDiffer(s: Word, t: Word, m: nat) {
    exists j :: 32 - m <= j < 32 && 0 <= j && s[j] != t[j]
  }

  /** A difference climbs one place a step, and a feedback enters at the very bottom. */
  lemma DifferenceClimbs(s: Word, a: bool, u: Word, t: Word, b: bool, v: Word, m: nat)
    requires Steps(s, a, u) && Steps(t, b, v) && m < 32
    requires (s == t && a != b) || LowDiffer(s, t, m)
    ensures LowDiffer(u, v, m + 1)
  {
    TopOfPoly();
    assert u[31] == (s[0] != a) && v[31] == (t[0] != b);
    if u[31] == v[31] {
      var j :| 32 - m <= j < 32 && 0 <= j && s[j] != t[j];
      assert u[j - 1] != v[j - 1];
    }
  }

  lemma {:induction false} BurstReaches(s: Word, x: seq<bool>, y: seq<bool>)
    requires |x| == |y| <= 32 && x != y
    ensures LowDiffer(Feed(s, x), Feed(s, y), |x|)
    decreases |x|
  {
    var n := |x| - 1;
    var p, q, a, b := x[..n], y[..n], x[n], y[n];
    assert x == p + [a] && y == q + [b];
    var t := LastStep(s, x);
    var u := LastStep(s, y);
    if p != q {
      BurstReaches(s, p, q);
    }
    DifferenceClimbs(t, a, Feed(s, x), u, b, Feed(s, y), n);
  }

  /** Two messages of one length that differ only within 32 consecutive bits have different CRCs. */
  lemma BurstsAreDetected(a: seq<Byte>, b: seq<Byte>, i: nat, j: nat)
    requires |a| == |b| && a != b
    requires i <= j <= 8 * |a| && j <= i + 32
    requires AllBits(a)[..i] == AllBits(b)[..i] && AllBits(a)[j..] == AllBits(b)[j..]
    ensures Serial(a) != Serial(b)
  {
    var x, y := AllBits(a), AllBits(b);
    if x == y {
      AllBitsInjective(a, b);
    }
    assert x == x[..i] + x[i..j] + x[j..] && y == y[..i] + y[i..j] + y[j..];
    BurstBetween(Initial(), x[..i], x[i..j], y[i..j], x[j..]);
  }

  lemma BurstBetween(s: Word, prefix: seq<bool>, x: seq<bool>, y: seq<bool>, suffix: seq<bool>)
    requires |x| == |y| <= 32 && x != y
    ensures Feed(s, prefix + x + suffix) != Feed(s, prefix + y + suffix)
  {
    var t := Feed(s, prefix);
    FeedJoin(s, prefix, x);
    FeedJoin(s, prefix, y);
    FeedJoin(s, prefix + x, suffix);
    FeedJoin(s, prefix + y, suffix);
    BurstReaches(t, x, y);
    FeedInjects(Feed(t, x), Feed(t, y), suffix);
  }

  lemma OnlyItsOwnBitsCancel(s: Word, t: seq<bool>)
    requires |t| == 32
    ensures Feed(s, t) == Zeros(32) <==> t == s
  {
    FeedOwn(s, 32);
    assert s[..32] == s && Left(s, 32) == Zeros(32);
    if t != s {
      BurstReaches(s, t, s);
    }
  }

  /** Four bytes after a message bring the register to zero exactly when they are the message's CRC. */
  lemma ZeroMeansIntact(message: seq<Byte>, tail: seq<Byte>)
    requires |tail| == 4
    ensures Serial(message + tail) == Zeros(32) <==> tail == BigEndian(Serial(message))
  {
    var s := Serial(message);
    AllBitsJoin(message, tail);
    FeedJoin(Initial(), AllBits(message), AllBits(tail));
    OnlyItsOwnBitsCancel(s, AllBits(tail));
    AllBitsOfBigEndian(s);
    if AllBits(tail) == s {
      AllBitsInjective(tail, BigEndian(s));
    }
  }
}
