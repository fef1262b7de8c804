/**
 * The lexer's scanning primitives as functions on a cursor state.
 *
 * `Cfg` is the state of a `Lexer` with offsets counted in characters rather
 * than bytes: `mark` is the character where the pending token starts (the
 * Rust field `start`), `cur` the character under the cursor (`pos`), and
 * `back` records whether `width` is non-zero, that is, whether one `backup`
 * would step over the character just read.  The class in module Lexer keeps
 * byte offsets and is proved to follow these functions step by step.
 */
module Scanner {
  import opened Wrappers

  /** A token: its caller-defined type and the exact text it covers. */
  datatype Item<T> = Item(typ: T, val: seq<char>)

  datatype Cfg<T> = Cfg(mark: nat, cur: nat, back: bool, items: seq<Item<T>>)

  /** Offsets lie within the input, and an undo step never moves before its start. */
  predicate WellFormed<T>(input: seq<char>, c: Cfg<T>)
  {
    c.mark <= |input| && c.cur <= |input| && (c.back ==> 0 < c.cur)
  }

  /** The state `Lexer::new` creates: well formed over any input, at its start, holding no text. */
  function Init<T>(): (r: Cfg<T>)
    ensures forall input: seq<char> :: WellFormed(input, r)
    ensures r.mark == r.cur == 0 && !r.back && Concat(r.items) == []
  {
    Cfg(0, 0, false, [])
  }

  /** `next`: the character at the cursor, advancing over it; `None` at the end. */
  function Next<T>(input: seq<char>, c: Cfg<T>): (r: (Option<char>, Cfg<T>))
    requires WellFormed(input, c)
    ensures WellFormed(input, r.1)
  {
    if c.cur < |input| then (Some(input[c.cur]), c.(cur := c.cur + 1, back := true))
    else (None, c.(back := false))
  }

  /** `backup`: step back over the character last read, if any, and forget it. */
  function Backup<T>(c: Cfg<T>): (r: Cfg<T>)
    requires c.back ==> 0 < c.cur
    ensures !r.back
  {
    c.(cur := if c.back then c.cur - 1 else c.cur, back := false)
  }

  /** `peek`: `next` followed by `backup`. */
  function Peek<T>(input: seq<char>, c: Cfg<T>): (r: (Option<char>, Cfg<T>))
    requires WellFormed(input, c)
    ensures WellFormed(input, r.1)
  {
    var n := Next(input, c);
    (n.0, Backup(n.1))
  }

  /** `ignore`: drop the pending text by moving the token start to the cursor. */
  function Ignore<T>(c: Cfg<T>): (r: Cfg<T>)
    ensures r.mark == r.cur == c.cur
    ensures r.back == c.back && r.items == c.items
  {
    c.(mark := c.cur)
  }

  /** `accept`: consume one character if it is one of `valid`, otherwise leave the cursor. */
  function Accept<T>(input: seq<char>, c: Cfg<T>, valid: seq<char>): (r: (bool, Cfg<T>))
    requires WellFormed(input, c)
    ensures WellFormed(input, r.1)
  {
    var n := Next(input, c);
    if n.0.Some? && n.0.value in valid then (true, n.1) else (false, Backup(n.1))
  }

  /** The end of the longest run of characters from `valid` that starts at index `i`. */
  function RunEnd(input: seq<char>, i: nat, valid: seq<char>): (j: nat)
    requires i <= |input|
    ensures i <= j <= |input|
    ensures forall k :: i <= k < j ==> input[k] in valid
    ensures j == |input| || input[j] !in valid
    decreases |input| - i
  {
    if i < |input| && input[i] in valid then RunEnd(input, i + 1, valid) else i
  }

  /**
   * `accept_run`: consume the longest run of characters from `valid`; true
   * when it was not empty.  The final `backup` leaves nothing to undo.
   */
  function AcceptRun<T>(input: seq<char>, c: Cfg<T>, valid: seq<char>): (r: (bool, Cfg<T>))
    requires WellFormed(input, c)
    ensures WellFormed(input, r.1)
  {
    var j := RunEnd(input, c.cur, valid);
    (j > c.cur, c.(cur := j, back := false))
  }

  /** `current`: the pending text, from the token start to the cursor. */
  function Pending<T>(input: seq<char>, c: Cfg<T>): (r: seq<char>)
    requires c.mark <= c.cur <= |input|
    ensures |r| == c.cur - c.mark
  {
    input[c.mark..c.cur]
  }

  /** `emit`: push the pending text as an item of type `typ`; the next token starts here. */
  function Emit<T>(input: seq<char>, c: Cfg<T>, typ: T): (r: Cfg<T>)
    requires c.mark <= c.cur <= |input|
    ensures r.mark == r.cur == c.cur && r.back == c.back
  {
    c.(items := c.items + [Item(typ, Pending(input, c))], mark := c.cur)
  }

  /** `emit_nonempty`: `emit`, but only when the cursor is past the token start. */
  function EmitNonempty<T>(input: seq<char>, c: Cfg<T>, typ: T): (r: Cfg<T>)
    requires c.cur <= |input|
    ensures r.cur == c.cur && r.back == c.back && (c.mark <= c.cur ==> r.mark == c.cur)
  {
    if c.cur > c.mark then Emit(input, c, typ) else c
  }

  /** The texts of `items`, concatenated in order. */
  function Concat<T>(items: seq<Item<T>>): seq<char>
  {
    if |items| == 0 then [] else Concat(items[..|items| - 1]) + items[|items| - 1].val
  }

  /** Everything read so far that has not been dropped by `ignore`: the items' texts, then the pending text. */
  function Accounted<T>(input: seq<char>, c: Cfg<T>): seq<char>
    requires c.mark <= c.cur <= |input|
  {
    Concat(c.items) + Pending(input, c)
  }

  // ---------------------------------------------------------------------
  // Properties of the primitives
  // ---------------------------------------------------------------------

  /** `next` at the end returns `None` and leaves the cursor; otherwise it returns the character at the cursor and steps over it. */
  lemma NextSpec<T>(input: seq<char>, c: Cfg<T>)
    requires WellFormed(input, c)
    ensures var r := Next(input, c);
      && (r.0.None? <==> c.cur == |input|)
      && (r.0.Some? ==> r.0.value == input[c.cur] && r.1.cur == c.cur + 1 && r.1.back)
      && (r.0.None? ==> r.1.cur == c.cur && !r.1.back)
      && r.1.mark == c.mark && r.1.items == c.items
  {
  }

  /** A `backup` straight after a successful `next` restores the cursor, and reading again yields the same character. */
  lemma BackupUndoesNext<T>(input: seq<char>, c: Cfg<T>)
    requires WellFormed(input, c)
    requires Next(input, c).0.Some?
    ensures Backup(Next(input, c).1) == c.(back := false)
    ensures Next(input, Backup(Next(input, c).1)) == Next(input, c)
  {
  }

  /** A second consecutive `backup` does nothing: only one step of undo exists. */
  lemma BackupTwice<T>(c: Cfg<T>)
    requires c.back ==> 0 < c.cur
    ensures Backup(Backup(c)) == Backup(c)
  {
  }

  /** `peek` returns what `next` would and changes nothing but clearing the undo step; peeking again gives the same answer. */
  lemma PeekSpec<T>(input: seq<char>, c: Cfg<T>)
    requires WellFormed(input, c)
    ensures Peek(input, c) == (Next(input, c).0, c.(back := false))
    ensures Peek(input, Peek(input, c).1) == Peek(input, c)
  {
  }

  /** `accept` consumes one character exactly when there is one and it belongs to `valid`. */
  lemma AcceptSpec<T>(input: seq<char>, c: Cfg<T>, valid: seq<char>)
    requires WellFormed(input, c)
    ensures var r := Accept(input, c, valid);
      && (r.0 <==> c.cur < |input| && input[c.cur] in valid)
      && r.1.cur == (if r.0 then c.cur + 1 else c.cur)
      && r.1.mark == c.mark && r.1.items == c.items
  {
  }

  /**
   * `accept_run` stops at the first character outside `valid` or at the end,
   * has consumed only characters of `valid`, and reports whether it consumed any.
   */
  lemma AcceptRunSpec<T>(input: seq<char>, c: Cfg<T>, valid: seq<char>)
    requires WellFormed(input, c)
    ensures var r := AcceptRun(input, c, valid);
      && c.cur <= r.1.cur <= |input|
      && (forall k :: c.cur <= k < r.1.cur ==> input[k] in valid)
      && (r.1.cur == |input| || input[r.1.cur] !in valid)
      && (r.0 <==> r.1.cur > c.cur)
      && r.1.mark == c.mark && r.1.items == c.items && !r.1.back
  {
  }

  /** The run end is determined: any index reached through `valid` characters that stops at a non-member or the end is it. */
  lemma {:induction false} RunEndUnique(input: seq<char>, i: nat, j: nat, valid: seq<char>)
    requires i <= j <= |input|
    requires forall k :: i <= k < j ==> input[k] in valid
    requires j == |input| || input[j] !in valid
    ensures RunEnd(input, i, valid) == j
    decreases j - i
  {
    if i < j {
      RunEndUnique(input, i + 1, j, valid);
    }
  }

  lemma ConcatAppend<T>(items: seq<Item<T>>, it: Item<T>)
    ensures Concat(items + [it]) == Concat(items) + it.val
  {
    assert (items + [it])[..|items|] == items;
  }

  /** Concatenation regroups freely; stated once for the calculations about accounted text. */
  lemma AppendAssoc<X>(a: seq<X>, b: seq<X>, c: seq<X>)
    ensures a + b + c == a + (b + c)
  {
  }

  /**
   * `emit` appends one item holding exactly the pending text and keeps every
   * earlier item; it loses no text: the items' texts plus the pending text are the same before and after.
   */
  lemma EmitSpec<T>(input: seq<char>, c: Cfg<T>, typ: T)
    requires c.mark <= c.cur <= |input|
    ensures var r := Emit(input, c, typ);
      && |r.items| == |c.items| + 1
      && r.items[..|c.items|] == c.items
      && r.items[|c.items|] == Item(typ, input[c.mark..c.cur])
      && r.mark == r.cur == c.cur && r.back == c.back
      && Accounted(input, r) == Accounted(input, c)
  {
    var r := Emit(input, c, typ);
    assert r.items[..|c.items|] == c.items;
    ConcatAppend(c.items, Item(typ, Pending(input, c)));
    assert Pending(input, r) == [];
  }

  /** `emit_nonempty` appends nothing when there is no pending text, and otherwise acts as `emit`. */
  lemma EmitNonemptySpec<T>(input: seq<char>, c: Cfg<T>, typ: T)
    requires c.cur <= |input|
    ensures c.cur <= c.mark ==> EmitNonempty(input, c, typ) == c
    ensures c.mark < c.cur ==> EmitNonempty(input, c, typ) == Emit(input, c, typ)
    ensures c.mark < c.cur ==> |EmitNonempty(input, c, typ).items[|c.items|].val| > 0
  {
  }

  /** Reading one character adds it to the accounted text. */
  lemma NextAccounts<T>(input: seq<char>, c: Cfg<T>)
    requires WellFormed(input, c) && c.mark <= c.cur < |input|
    ensures Accounted(input, Next(input, c).1) == Accounted(input, c) + [input[c.cur]]
  {
    assert input[c.mark..c.cur + 1] == input[c.mark..c.cur] + [input[c.cur]];
  }

  /** `ignore` drops exactly the pending text from the accounted text. */
  lemma IgnoreDrops<T>(input: seq<char>, c: Cfg<T>)
    requires c.mark <= c.cur <= |input|
    ensures Accounted(input, Ignore(c)) == Concat(c.items)
  {
    assert Pending(input, Ignore(c)) == [];
  }
}
