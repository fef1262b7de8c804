/**
 * Byte offsets into a text held as a sequence of characters.
 *
 * The lexer keeps its cursor as a byte offset into UTF-8 text, as Rust's `str`
 * does.  Here the text is a `seq<char>` and every character occupies
 * `Utf8Len(c)` bytes; `ByteLen` sums those widths, and `CharIndex` maps a byte
 * offset back to the character index that starts there (if one does).
 */
module Utf8 {
  import opened Wrappers

  /** Number of bytes `c` occupies in UTF-8 (Rust's `char::len_utf8`). */
  function Utf8Len(c: char): (n: nat)
    ensures 1 <= n <= 4
    ensures n == 1 <==> c as int < 0x80
  {
    if c as int < 0x80 then 1
    else if c as int < 0x800 then 2
    else if c as int < 0x1_0000 then 3
    else 4
  }

  /** Number of bytes `s` occupies in UTF-8. */
  function ByteLen(s: seq<char>): nat
  {
    if |s| == 0 then 0 else ByteLen(s[..|s| - 1]) + Utf8Len(s[|s| - 1])
  }

  /** Extending a prefix by one character adds that character's width. */
  lemma ByteLenStep(s: seq<char>, k: nat)
    requires k < |s|
    ensures ByteLen(s[..k + 1]) == ByteLen(s[..k]) + Utf8Len(s[k])
  {
    assert s[..k + 1][..k] == s[..k];
  }

  /** The byte length of a concatenation is the sum of the byte lengths. */
  lemma {:induction false} ByteLenAppend(a: seq<char>, b: seq<char>)
    ensures ByteLen(a + b) == ByteLen(a) + ByteLen(b)
    decreases |b|
  {
    if |b| == 0 {
      assert a + b == a;
    } else {
      var b' := b[..|b| - 1];
      assert (a + b)[..|a + b| - 1] == a + b';
      ByteLenAppend(a, b');
    }
  }

  /** Longer prefixes occupy strictly more bytes: one or more per extra character. */
  lemma {:induction false} ByteLenIncreasing(s: seq<char>, i: nat, j: nat)
    requires i <= j <= |s|
    ensures ByteLen(s[..i]) + (j - i) <= ByteLen(s[..j])
    decreases j - i
  {
    if i < j {
      ByteLenStep(s, j - 1);
      ByteLenIncreasing(s, i, j - 1);
    }
  }

  /** Searches the prefixes `s[..k]`, `s[..k+1]`, ... for one that is `b` bytes long. */
  function IndexFrom(s: seq<char>, b: nat, k: nat, off: nat): (r: Option<nat>)
    requires k <= |s| && off == ByteLen(s[..k])
    ensures r.Some? ==> k <= r.value <= |s| && ByteLen(s[..r.value]) == b
    ensures r.None? ==> forall m :: k <= m <= |s| ==> ByteLen(s[..m]) != b
    decreases |s| - k
  {
    if off == b then Some(k)
    else if k == |s| then None
    else
      ByteLenStep(s, k);
      IndexFrom(s, b, k + 1, off + Utf8Len(s[k]))
  }

  /**
   * The index of the character that starts at byte offset `b` of `s`
   * (`|s|` for the offset just past the end), or `None` when `b` falls
   * inside a character or beyond the end.
   */
  function CharIndex(s: seq<char>, b: nat): (r: Option<nat>)
    ensures r.Some? ==> r.value <= |s| && ByteLen(s[..r.value]) == b
    ensures r.None? ==> forall m :: 0 <= m <= |s| ==> ByteLen(s[..m]) != b
  {
    assert s[..0] == [];
    IndexFrom(s, b, 0, 0)
  }

  /** Rust's `str::is_char_boundary`: slicing the text at byte `b` does not panic. */
  predicate IsCharBoundary(s: seq<char>, b: nat)
  {
    CharIndex(s, b).Some?
  }

  /** The byte offset of character `k` maps back to `k`: CharIndex inverts prefix lengths. */
  lemma CharIndexOf(s: seq<char>, k: nat)
    requires k <= |s|
    ensures CharIndex(s, ByteLen(s[..k])) == Some(k)
  {
    var r := CharIndex(s, ByteLen(s[..k]));
    var k' := r.value;
    if k' < k {
      ByteLenIncreasing(s, k', k);
    } else if k < k' {
      ByteLenIncreasing(s, k, k');
    }
  }

  /** Byte order and character order agree on character boundaries. */
  lemma CharIndexMonotone(s: seq<char>, b1: nat, b2: nat)
    requires IsCharBoundary(s, b1) && IsCharBoundary(s, b2)
    ensures b1 <= b2 <==> CharIndex(s, b1).value <= CharIndex(s, b2).value
  {
    var i, j := CharIndex(s, b1).value, CharIndex(s, b2).value;
    if i < j {
      ByteLenIncreasing(s, i, j);
    } else if j < i {
      ByteLenIncreasing(s, j, i);
    }
  }

  /** The bytes between two boundaries are the bytes of the characters between them. */
  lemma SliceByteLen(s: seq<char>, i: nat, j: nat)
    requires i <= j <= |s|
    ensures ByteLen(s[i..j]) == ByteLen(s[..j]) - ByteLen(s[..i])
  {
    assert s[..j] == s[..i] + s[i..j];
    ByteLenAppend(s[..i], s[i..j]);
  }
}
