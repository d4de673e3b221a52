/** Bytes, big-endian words and in-place field replacement, as the wire formats use them. */
module Bytes {

  type byte = x: int | 0 <= x < 0x100

  type u16 = x: int | 0 <= x < 0x1_0000

  datatype Option<+T> = None | Some(value: T)

  function Be16(x: u16): (r: seq<byte>)
    ensures |r| == 2
  {
    [x / 0x100, x % 0x100]
  }

  /** The big-endian word at index `i`. */
  function Word(s: seq<byte>, i: nat): u16
    requires i + 2 <= |s|
  {
    s[i] as int * 0x100 + s[i + 1] as int
  }

  function Zeros(n: nat): (r: seq<byte>)
    ensures |r| == n
    ensures forall i :: 0 <= i < n ==> r[i] == 0
  {
    seq(n, _ => 0)
  }

  /** `s` with the field starting at `at` replaced by `field`. */
  function Patch(s: seq<byte>, at: nat, field: seq<byte>): (r: seq<byte>)
    requires at + |field| <= |s|
    ensures |r| == |s|
  {
    s[..at] + field + s[at + |field|..]
  }

  lemma WordOfBe16(x: u16)
    ensures Word(Be16(x), 0) == x
  {
  }

  /** A two-byte field is recovered from its word. */
  lemma Be16OfWord(s: seq<byte>, i: nat)
    requires i + 2 <= |s|
    ensures Be16(Word(s, i)) == s[i..i + 2]
  {
    assert Word(s, i) / 0x100 == s[i];
  }
}
