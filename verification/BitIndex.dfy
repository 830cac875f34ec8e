/** Machine words as the sets of their set bits, and the find-first-set routine of the scheduler.
    Setting bit p is `w + {p}`, clearing it is `w - {p}`, and the zero word is the empty set. */
module BitIndex {

  type Word = w: set<nat> | forall b | b in w :: b < 32 witness {}

  // (value >> 8 * k) & 0xff, as a number.
  function ByteValue(w: Word, k: nat): (v: nat)
    ensures v < 256
  {
    Nibble(w, 8 * k) + 16 * Nibble(w, 8 * k + 4)
  }

  function Nibble(w: Word, b: nat): (v: nat)
    ensures v < 16
  {
    (if b in w then 1 else 0) + (if b + 1 in w then 2 else 0) + (if b + 2 in w then 4 else 0) + (if b + 3 in w then 8 else 0)
  }

  // The first column of __lowest_bit_bitmap, and the other columns of any of its rows.
  function FirstColumn(hi: nat): nat
    requires hi < 16
  {
    [0, 4, 5, 4, 6, 4, 5, 4, 7, 4, 5, 4, 6, 4, 5, 4][hi]
  }

  function Row(lo: nat): nat
    requires lo < 16
  {
    [0, 0, 1, 0, 2, 0, 1, 0, 3, 0, 1, 0, 2, 0, 1, 0][lo]
  }

  /** __lowest_bit_bitmap: its sixteen rows differ only in their first entry. */
  function LowestBitBitmap(v: nat): nat
    requires v < 256
  {
    if v % 16 == 0 then FirstColumn(v / 16) else Row(v % 16)
  }

  /** __rt_ffs: one plus the index of the lowest set bit, 0 for the empty word. */
  function Ffs(value: Word): nat {
    if value == {} then 0
    else if ByteValue(value, 0) != 0 then LowestBitBitmap(ByteValue(value, 0)) + 1
    else if ByteValue(value, 1) != 0 then LowestBitBitmap(ByteValue(value, 1)) + 9
    else if ByteValue(value, 2) != 0 then LowestBitBitmap(ByteValue(value, 2)) + 17
    else LowestBitBitmap(ByteValue(value, 3)) + 25
  }

  lemma RowFindsLowest(w: Word, b: nat)
    requires Nibble(w, b) != 0
    ensures var r := Row(Nibble(w, b)); r < 4 && b + r in w && forall q: nat | b <= q < b + r :: q !in w
  {
  }

  lemma FirstColumnFindsLowest(w: Word, b: nat)
    requires Nibble(w, b + 4) != 0
    ensures var r := FirstColumn(Nibble(w, b + 4)); r < 8 && b + r in w && forall q: nat | b + 4 <= q < b + r :: q !in w
  {
  }

  lemma ZeroNibble(w: Word, b: nat)
    ensures Nibble(w, b) == 0 <==> forall q: nat | b <= q < b + 4 :: q !in w
  {
  }

  lemma TableFindsLowest(w: Word, k: nat)
    requires ByteValue(w, k) != 0
    ensures var r := LowestBitBitmap(ByteValue(w, k));
            r < 8 && 8 * k + r in w && forall q: nat | 8 * k <= q < 8 * k + r :: q !in w
  {
    var lo, hi := Nibble(w, 8 * k), Nibble(w, 8 * k + 4);
    assert (lo + 16 * hi) % 16 == lo && (lo + 16 * hi) / 16 == hi;
    ZeroNibble(w, 8 * k);
    if lo == 0 {
      FirstColumnFindsLowest(w, 8 * k);
    } else {
      RowFindsLowest(w, 8 * k);
    }
  }

  lemma ZeroByte(w: Word, k: nat)
    ensures ByteValue(w, k) == 0 <==> forall q: nat | 8 * k <= q < 8 * k + 8 :: q !in w
  {
  }

  /** The routine returns the lowest set bit: it is set and every bit below it is clear. */
  lemma FfsFindsLowest(value: Word)
    requires value != {}
    ensures 1 <= Ffs(value) <= 32 && Ffs(value) - 1 in value
    ensures forall q: nat | q < Ffs(value) - 1 :: q !in value
  {
    ZeroByte(value, 0);
    ZeroByte(value, 1);
    ZeroByte(value, 2);
    ZeroByte(value, 3);
    var b :| b in value;
    if ByteValue(value, 0) != 0 {
      TableFindsLowest(value, 0);
    } else if ByteValue(value, 1) != 0 {
      TableFindsLowest(value, 1);
    } else if ByteValue(value, 2) != 0 {
      TableFindsLowest(value, 2);
    } else {
      TableFindsLowest(value, 3);
    }
  }
}
