/** Byte strings and the order Go gives them (`bytes.Compare`, and `<` on strings). */
module Bytes {

  newtype byte = x: int | 0 <= x < 256
  type Bytes = seq<byte>

  /** `bytes.Compare(a, b) < 0`. */
  predicate Less(a: Bytes, b: Bytes) {
    if b == [] then false
    else if a == [] then true
    else if a[0] != b[0] then a[0] < b[0]
    else Less(a[1..], b[1..])
  }

  lemma {:induction false} LessIrreflexive(a: Bytes)
    ensures !Less(a, a)
  {
    if a != [] {
      LessIrreflexive(a[1..]);
    }
  }

  lemma {:induction false} LessTransitive(a: Bytes, b: Bytes, c: Bytes)
    requires Less(a, b) && Less(b, c)
    ensures Less(a, c)
  {
    if a != [] && a[0] == b[0] && b[0] == c[0] {
      LessTransitive(a[1..], b[1..], c[1..]);
    }
  }

  lemma {:induction false} LessTotal(a: Bytes, b: Bytes)
    ensures a == b || Less(a, b) || Less(b, a)
  {
    if a != [] && b != [] && a[0] == b[0] {
      LessTotal(a[1..], b[1..]);
      if a[1..] == b[1..] {
        assert a == [a[0]] + a[1..];
        assert b == [b[0]] + b[1..];
      }
    }
  }

  lemma LessAsymmetric(a: Bytes, b: Bytes)
    requires Less(a, b)
    ensures !Less(b, a)
  {
    if Less(b, a) {
      LessTransitive(a, b, a);
      LessIrreflexive(a);
    }
  }

  /** `binary.LittleEndian.PutUint64`: the low eight base-256 digits of `n`. */
  function LittleEndian64(n: nat): (r: Bytes)
    ensures |r| == 8
  {
    LowDigits(n, 8)
  }

  function LowDigits(n: nat, count: nat): (r: Bytes)
    ensures |r| == count
  {
    if count == 0 then [] else [(n % 256) as byte] + LowDigits(n / 256, count - 1)
  }

  /** `binary.LittleEndian.Uint64`: the least significant byte comes first. */
  function LittleEndianValue(b: Bytes): nat {
    if b == [] then 0 else b[0] as nat + 256 * LittleEndianValue(b[1..])
  }

  function Power256(k: nat): nat {
    if k == 0 then 1 else 256 * Power256(k - 1)
  }

  lemma {:induction false} LowDigitsRead(n: nat, count: nat)
    requires n < Power256(count)
    ensures LittleEndianValue(LowDigits(n, count)) == n
  {
    if count > 0 {
      LowDigitsRead(n / 256, count - 1);
      assert LowDigits(n, count)[1..] == LowDigits(n / 256, count - 1);
    }
  }

  /** Every uint64 can be read back from its eight bytes. */
  lemma LittleEndianRoundTrip(n: nat)
    requires n < 0x1_0000_0000_0000_0000
    ensures LittleEndianValue(LittleEndian64(n)) == n
  {
    assert Power256(8) == 0x1_0000_0000_0000_0000 by {
      assert Power256(4) == 0x1_0000_0000;
    }
    LowDigitsRead(n, 8);
  }
}
