/**
 * The generic lexer of src/lib.rs: a cursor over an input text, kept as byte
 * offsets exactly as the Rust struct keeps them, and an item vector that only
 * grows.  `Abs()` reads the byte offsets as character indices, and every
 * method is proved to move that view as the matching function of module
 * Scanner does, while also stating what happens to the byte offsets.
 */
module Lexer {
  import opened Wrappers
  import opened Utf8
  import opened Scanner

  class Lexer<T> {
    const input: seq<char>
    var start: nat
    var pos: nat
    var width: nat
    var items: seq<Item<T>>

    /**
     * `start` and `pos` are character boundaries, and `width` is 0 or the
     * byte width of the character that ends at `pos`.
     */
    ghost predicate Valid()
      reads this
    {
      && IsCharBoundary(input, start)
      && IsCharBoundary(input, pos)
      && (width != 0 ==>
            0 < CharIndex(input, pos).value
            && width == Utf8Len(input[CharIndex(input, pos).value - 1]))
    }

    /** The state in character indices. */
    ghost function Abs(): (c: Cfg<T>)
      reads this
      requires Valid()
      ensures WellFormed(input, c)
      ensures ByteLen(input[..c.mark]) == start && ByteLen(input[..c.cur]) == pos
      ensures c.back <==> width != 0
      ensures c.items == items
    {
      Cfg(CharIndex(input, start).value, CharIndex(input, pos).value, width != 0, items)
    }

    /** `pos - width` is a character boundary: one `backup` lands on the start of the character last read. */
    lemma BackupTarget()
      requires Valid()
      ensures width <= pos
      ensures width != 0 ==> CharIndex(input, pos - width) == Some(Abs().cur - 1)
    {
      if width != 0 {
        ByteLenStep(input, Abs().cur - 1);
        CharIndexOf(input, Abs().cur - 1);
      }
    }

    /** The byte offsets are ordered exactly when the character indices are. */
    lemma StartBeforePos()
      requires Valid()
      ensures start <= pos <==> Abs().mark <= Abs().cur
    {
      CharIndexMonotone(input, start, pos);
    }

    /** `Lexer::new`: start, cursor and width at 0, no items. */
    constructor (input: seq<char>)
      ensures this.input == input
      ensures start == 0 && pos == 0 && width == 0 && items == []
      ensures Valid() && Abs() == Init()
    {
      this.input := input;
      start, pos, width := 0, 0, 0;
      items := [];
      new;
      CharIndexOf(input, 0);
    }

    /** `remaining_input`: the suffix of the input that starts at byte `pos`. */
    function RemainingInput(): (r: seq<char>)
      reads this
      requires Valid()
      ensures |r| <= |input| && input == input[..|input| - |r|] + r
      ensures ByteLen(input[..|input| - |r|]) == pos
      ensures r == input[Abs().cur..]
    {
      input[CharIndex(input, pos).value..]
    }

    /** `current`: the text between byte `start` and byte `pos`; the slice panics when `start > pos`. */
    function Current(): (r: seq<char>)
      reads this
      requires Valid() && start <= pos
      ensures Abs().mark <= Abs().cur && r == Pending(input, Abs())
      ensures ByteLen(r) == pos - start
    {
      CharIndexMonotone(input, start, pos);
      SliceByteLen(input, Abs().mark, Abs().cur);
      input[CharIndex(input, start).value..CharIndex(input, pos).value]
    }

    /**
     * `next`: at the end of the input, `None` with `pos` unchanged and
     * `width` cleared; otherwise the character at `pos`, with `width` set to
     * its UTF-8 width and `pos` advanced by exactly that.
     */
    method Next() returns (ch: Option<char>)
      requires Valid()
      modifies this`pos, this`width
      ensures Valid()
      ensures (ch, Abs()) == Scanner.Next(input, old(Abs()))
      ensures ch.None? ==> pos == old(pos) && width == 0
      ensures ch.Some? ==> width == Utf8Len(ch.value) && pos == old(pos) + width
    {
      ghost var k := Abs().cur;
      var rest := RemainingInput();
      if |rest| == 0 {
        width := 0;
        ch := None;
      } else {
        ch := Some(rest[0]);
        width := Utf8Len(rest[0]);
        ByteLenStep(input, k);
        CharIndexOf(input, k + 1);
        pos := pos + width;
      }
    }

    /** `ignore`: the pending text is dropped; only `start` moves, to `pos`. */
    method Ignore()
      requires Valid()
      modifies this`start
      ensures Valid() && start == pos
      ensures Abs() == Scanner.Ignore(old(Abs()))
    {
      start := pos;
    }

    /** `backup`: `pos` steps back by `width`, and `width` becomes 0, so a second backup does nothing. */
    method Backup()
      requires Valid()
      modifies this`pos, this`width
      ensures Valid() && width == 0
      ensures pos == old(pos) - old(width)
      ensures Abs() == Scanner.Backup(old(Abs()))
    {
      BackupTarget();
      pos := pos - width;
      width := 0;
    }

    /** `peek`: what the next `next` returns; `pos` is unchanged and `width` is 0. */
    method Peek() returns (ch: Option<char>)
      requires Valid()
      modifies this`pos, this`width
      ensures Valid() && pos == old(pos) && width == 0
      ensures (ch, Abs()) == Scanner.Peek(input, old(Abs()))
    {
      ch := Next();
      Backup();
    }

    /** `accept`: consume one character when it is in `valid` and report it; otherwise `pos` is unchanged. */
    method Accept(valid: seq<char>) returns (ok: bool)
      requires Valid()
      modifies this`pos, this`width
      ensures Valid()
      ensures (ok, Abs()) == Scanner.Accept(input, old(Abs()), valid)
      ensures !ok ==> pos == old(pos)
    {
      var ch := Next();
      if ch.Some? && ch.value in valid {
        ok := true;
      } else {
        Backup();
        ok := false;
      }
    }

    /** `accept_run`: consume the longest prefix of the remaining input made of characters in `valid`. */
    method AcceptRun(valid: seq<char>) returns (found: bool)
      requires Valid()
      modifies this`pos, this`width
      ensures Valid() && width == 0
      ensures (found, Abs()) == Scanner.AcceptRun(input, old(Abs()), valid)
    {
      ghost var i := Abs().cur;
      ghost var j := RunEnd(input, i, valid);
      found := false;
      while true
        invariant Valid() && Abs().mark == old(Abs()).mark && items == old(items)
        invariant i <= Abs().cur && RunEnd(input, Abs().cur, valid) == j
        invariant found <==> Abs().cur > i
        decreases |input| - Abs().cur
      {
        var ch := Next();
        if ch.None? || ch.value !in valid {
          break;
        }
        found := true;
      }
      Backup();
    }

    /** `emit`: push one item whose text is the slice from `start` to `pos`, then move `start` to `pos`. */
    method Emit(typ: T)
      requires Valid() && start <= pos
      modifies this`items, this`start
      ensures Valid() && start == pos
      ensures items == old(items) + [Item(typ, old(Current()))]
      ensures Abs() == Scanner.Emit(input, old(Abs()), typ)
    {
      var val := Current();
      items := items + [Item(typ, val)];
      start := pos;
    }

    /** `emit_nonempty`: `emit` when `pos > start`; nothing happens otherwise. */
    method EmitNonempty(typ: T)
      requires Valid()
      modifies this`items, this`start
      ensures Valid()
      ensures old(pos) <= old(start) ==> items == old(items) && start == old(start)
      ensures Abs() == Scanner.EmitNonempty(input, old(Abs()), typ)
    {
      CharIndexMonotone(input, pos, start);
      if pos > start {
        Emit(typ);
      }
    }
  }
}
