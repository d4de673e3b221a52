/**
The Internet checksum: sections 1 and 2 of RFC 1071.

The sum of the big-endian 16-bit words (an odd last byte is padded with a zero byte),
with carries folded back in, complemented.
*/
module InternetChecksum {
  import opened Bytes

  function WordSum(s: seq<byte>): (r: nat)
  {
    if |s| == 0 then 0
    else if |s| == 1 then s[0] * 0x100
    else Word(s, 0) + WordSum(s[2..])
  }

  /** End-around carry: add the carries back into the low word until none is left. */
  function FoldCarries(n: nat): (r: u16)
  {
    if n < 0x1_0000 then n else FoldCarries(n % 0x1_0000 + n / 0x1_0000)
  }

  function Checksum(s: seq<byte>): u16
  {
    0xffff - FoldCarries(WordSum(s))
  }

  lemma SubtractMultiple(a: nat, b: nat, q: nat)
    requires a == b + q * 0xffff
    ensures a % 0xffff == b % 0xffff
  {
  }

  /** Folding computes the residue modulo 65535, taken in 1..65535 unless the sum is zero. */
  lemma {:induction false} FoldIsResidue(n: nat)
    ensures FoldCarries(n) == if n == 0 then 0 else 1 + (n - 1) % 0xffff
  {
    if n >= 0x1_0000 {
      var folded := n % 0x1_0000 + n / 0x1_0000;
      FoldIsResidue(folded);
      SubtractMultiple(n - 1, folded - 1, n / 0x1_0000);
    }
  }

  /** What checking for a zero checksum checks: a positive multiple of 65535. */
  lemma ZeroChecksum(s: seq<byte>)
    ensures Checksum(s) == 0 <==> WordSum(s) > 0 && WordSum(s) % 0xffff == 0
  {
    FoldIsResidue(WordSum(s));
    if WordSum(s) > 0 {
      LastResidue(WordSum(s));
    }
  }

  lemma LastResidue(n: nat)
    requires n > 0
    ensures (n - 1) % 0xffff == 0xfffe <==> n % 0xffff == 0
  {
    var q, r := (n - 1) / 0xffff, (n - 1) % 0xffff;
    assert n == q * 0xffff + (r + 1);
    SubtractMultiple(n, r + 1, q);
  }

  lemma {:induction false} WordSumAppend(a: seq<byte>, b: seq<byte>)
    requires |a| % 2 == 0
    ensures WordSum(a + b) == WordSum(a) + WordSum(b)
  {
    if |a| == 0 {
      assert a + b == b;
    } else {
      assert (a + b)[2..] == a[2..] + b;
      WordSumAppend(a[2..], b);
    }
  }

  /** Behind an odd number of bytes, two bytes count as the word with its bytes swapped. */
  lemma {:induction false} WordSumAppendSwapped(a: seq<byte>, w: u16)
    requires |a| % 2 == 1
    ensures WordSum(a + [w % 0x100, w / 0x100]) == WordSum(a) + w
  {
    var tail: seq<byte> := [w % 0x100, w / 0x100];
    if |a| == 1 {
      assert (a + tail)[2..] == [w / 0x100];
    } else {
      assert (a + tail)[2..] == a[2..] + tail;
      WordSumAppendSwapped(a[2..], w);
    }
  }

  /** Replacing a word-aligned field moves the sum by exactly the change of that word. */
  lemma {:induction false} WordSumPatch(s: seq<byte>, at: nat, w: u16)
    requires at % 2 == 0 && at + 2 <= |s|
    ensures WordSum(Patch(s, at, Be16(w))) == WordSum(s) - Word(s, at) + w
  {
    var p := Patch(s, at, Be16(w));
    if at == 0 {
      assert p[2..] == s[2..];
    } else {
      assert p[2..] == Patch(s[2..], at - 2, Be16(w));
      WordSumPatch(s[2..], at - 2, w);
    }
  }

  lemma {:induction false} WordSumPositive(s: seq<byte>, i: nat)
    requires i < |s| && s[i] > 0
    ensures WordSum(s) > 0
  {
    if i >= 2 {
      WordSumPositive(s[2..], i - 2);
    }
  }

  /**
  Which words complete a sum `n` to one that checks: the computed checksum, and, when that is
  zero, also the other one's-complement zero.
  */
  lemma Completes(n: nat, w: u16)
    ensures n + w > 0 && (n + w) % 0xffff == 0
       <==> w == 0xffff - FoldCarries(n) || (w == 0xffff && FoldCarries(n) == 0xffff)
  {
    FoldIsResidue(n);
    if n > 0 {
      var q, r := (n - 1) / 0xffff, (n - 1) % 0xffff;
      assert n + w == q * 0xffff + (r + 1 + w);
      SubtractMultiple(n + w, r + 1 + w, q);
      CompletesResidue(r + 1, w);
    }
  }

  lemma CompletesResidue(k: nat, w: u16)
    requires 1 <= k <= 0xffff
    ensures (k + w) % 0xffff == 0 <==> w == 0xffff - k || (w == 0xffff && k == 0xffff)
  {
  }

  /**
  Recomputing a checksum field of data that checks gives the field back, except that the
  all-ones zero comes back as the canonical one.
  */
  lemma RecomputedField(s: seq<byte>, at: nat)
    requires at % 2 == 0 && at + 2 <= |s| && Checksum(s) == 0
    requires WordSum(Patch(s, at, [0, 0])) > 0
    ensures Checksum(Patch(s, at, [0, 0])) == if Word(s, at) == 0xffff then 0 else Word(s, at)
  {
    var n := WordSum(Patch(s, at, [0, 0]));
    assert Be16(0) == [0, 0];
    WordSumPatch(s, at, 0);
    ZeroChecksum(s);
    Completes(n, Word(s, at));
    FoldIsResidue(n);
  }
}
