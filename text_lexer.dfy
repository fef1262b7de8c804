/**
 * The comma and comment scanner of tests/lib.rs, written against the lexer.
 *
 * `lex_text` collects text up to a `,` or a `//`; a `,` becomes its own
 * `Comma` item and a `//` hands over to `lex_comment`, which collects the
 * comment up to the end of its line and drops that newline.  Both states end
 * the scan at the end of the input with a final empty `EOF` item.
 *
 * `ScanText`, `ScanComment` and `RunFrom` define what the states and the
 * driver do, as functions of the cursor state; `LexText`, `LexComment`, `Run`
 * and `Lex` are the loops of the source, proved to compute them.
 */
module TextLexer {
  import opened Wrappers
  import opened Scanner
  import L = Lexer

  datatype ItemType = Comma | Text | Comment | EOF

  /** The two state functions of the grammar, `lex_text` and `lex_comment`. */
  datatype State = InText | InComment

  /** What a state function returns: `Some(StateFn(next))` or `None`. */
  datatype Step = Continue(next: State) | Done

  /** `remaining_input().starts_with("//")` at character index `i`. */
  predicate StartsComment(input: seq<char>, i: nat)
  {
    i + 2 <= |input| && input[i] == '/' && input[i + 1] == '/'
  }

  /** `StartsComment` is exactly `starts_with("//")` on the input from index `i`. */
  lemma StartsCommentSpec(input: seq<char>, i: nat)
    requires i <= |input|
    ensures StartsComment(input, i) <==> "//" <= input[i..]
  {
    if StartsComment(input, i) {
      assert input[i..][..2] == "//";
    }
  }

  /** The items end with one empty `EOF`, as both states leave them when they stop. */
  predicate EndsWithEof(items: seq<Item<ItemType>>)
  {
    |items| > 0 && items[|items| - 1] == Item(EOF, "")
  }

  /** `lex_text`, from a state whose pending text starts no later than the cursor. */
  function ScanText(input: seq<char>, c: Cfg<ItemType>): (r: (Step, Cfg<ItemType>))
    requires WellFormed(input, c) && c.mark <= c.cur
    ensures WellFormed(input, r.1) && r.1.mark <= r.1.cur
    ensures r.0 == Done ==> r.1.mark == r.1.cur == |input|
    ensures r.0.Continue? ==> r.0.next == InComment && r.1.cur > c.cur
    decreases |input| - c.cur
  {
    if StartsComment(input, c.cur) then
      var c1 := EmitNonempty(input, c, Text);
      (Continue(InComment), Next(input, c1).1)
    else
      var n := Next(input, c);
      match n.0
      case None => (Done, Emit(input, EmitNonempty(input, n.1, Text), EOF))
      case Some(ch) =>
        if ch == ',' then
          ScanText(input, CommaStep(input, n.1))
        else
          ScanText(input, n.1)
  }

  /**
   * The `Some(',')` arm of `lex_text`, right after reading the comma: step
   * back over it, emit the pending text if any, read the comma again and
   * emit it as its own item.
   */
  function CommaStep(input: seq<char>, c: Cfg<ItemType>): (r: Cfg<ItemType>)
    requires WellFormed(input, c) && c.mark <= c.cur && c.back
    ensures WellFormed(input, r) && r.mark == r.cur == c.cur
  {
    var c2 := EmitNonempty(input, Backup(c), Text);
    Emit(input, Next(input, c2).1, Comma)
  }

  /** `lex_comment`, from a state whose pending text starts no later than the cursor. */
  function ScanComment(input: seq<char>, c: Cfg<ItemType>): (r: (Step, Cfg<ItemType>))
    requires WellFormed(input, c) && c.mark <= c.cur
    ensures WellFormed(input, r.1) && r.1.mark <= r.1.cur
    ensures r.0 == Done ==> r.1.mark == r.1.cur == |input|
    ensures r.0.Continue? ==> r.0.next == InText && r.1.cur > c.cur
    decreases |input| - c.cur
  {
    var n := Next(input, c);
    match n.0
    case None => (Done, Emit(input, EmitNonempty(input, n.1, Comment), EOF))
    case Some(ch) =>
      if ch == '\n' then
        (Continue(InText), NewlineStep(input, n.1))
      else
        ScanComment(input, n.1)
  }

  /**
   * The `Some('\n')` arm of `lex_comment`, right after reading the newline:
   * step back over it, emit the comment if non-empty, then read the newline
   * again and drop it.
   */
  function NewlineStep(input: seq<char>, c: Cfg<ItemType>): (r: Cfg<ItemType>)
    requires WellFormed(input, c) && c.mark <= c.cur && c.back
    ensures WellFormed(input, r) && r.mark == r.cur == c.cur
  {
    var c2 := EmitNonempty(input, Backup(c), Comment);
    Ignore(Next(input, c2).1)
  }

  /** One call of the state function `s`. */
  function StepOf(input: seq<char>, c: Cfg<ItemType>, s: State): (r: (Step, Cfg<ItemType>))
    requires WellFormed(input, c) && c.mark <= c.cur
    ensures WellFormed(input, r.1) && r.1.mark <= r.1.cur
    ensures r.0 == Done ==> r.1.mark == r.1.cur == |input|
    ensures r.0.Continue? ==> r.1.cur > c.cur
  {
    match s
    case InText => ScanText(input, c)
    case InComment => ScanComment(input, c)
  }

  /** `Lexer::run`: call the current state until one returns `None`; the final state. */
  function RunFrom(input: seq<char>, c: Cfg<ItemType>, s: State): (r: Cfg<ItemType>)
    requires WellFormed(input, c) && c.mark <= c.cur
    ensures WellFormed(input, r) && r.mark == r.cur == |input|
    decreases |input| - c.cur
  {
    var step := StepOf(input, c, s);
    match step.0
    case Done => step.1
    case Continue(next) => RunFrom(input, step.1, next)
  }

  /** `lex`: the items of a run from a fresh lexer; whichever state it starts in, the last is an empty `EOF`. */
  function Tokens(input: seq<char>, s: State): (r: seq<Item<ItemType>>)
    ensures EndsWithEof(r)
  {
    RunEof(input, Init(), s);
    RunFrom(input, Init(), s).items
  }

  /** Characters other than `,` that start no comment stay pending text of `lex_text`. */
  lemma {:induction false} ScanTextPlain(input: seq<char>, c: Cfg<ItemType>, j: nat)
    requires WellFormed(input, c) && c.mark <= c.cur <= j <= |input|
    requires forall k | c.cur <= k < j :: input[k] != ',' && !StartsComment(input, k)
    ensures c.cur < j ==> ScanText(input, c) == ScanText(input, c.(cur := j, back := true))
    decreases j - c.cur
  {
    if c.cur < j {
      ScanTextPlain(input, Next(input, c).1, j);
    }
  }

  /** Characters other than a newline stay pending text of `lex_comment`. */
  lemma {:induction false} ScanCommentPlain(input: seq<char>, c: Cfg<ItemType>, j: nat)
    requires WellFormed(input, c) && c.mark <= c.cur <= j <= |input|
    requires forall k | c.cur <= k < j :: input[k] != '\n'
    ensures c.cur < j ==> ScanComment(input, c) == ScanComment(input, c.(cur := j, back := true))
    decreases j - c.cur
  {
    if c.cur < j {
      ScanCommentPlain(input, Next(input, c).1, j);
    }
  }

  /** `lex_text` on a lexer: the loop of the source, proved to act as `ScanText`. */
  method LexText(l: L.Lexer<ItemType>) returns (step: Step)
    requires l.Valid() && l.Abs().mark <= l.Abs().cur
    modifies l
    ensures l.Valid() && (step, l.Abs()) == ScanText(l.input, old(l.Abs()))
  {
    while true
      invariant l.Valid() && l.Abs().mark <= l.Abs().cur
      invariant ScanText(l.input, l.Abs()) == ScanText(l.input, old(l.Abs()))
      decreases |l.input| - l.Abs().cur
    {
      ghost var c := l.Abs();
      var rest := l.RemainingInput();
      if |rest| >= 2 && rest[0] == '/' && rest[1] == '/' {
        assert StartsComment(l.input, c.cur);
        l.EmitNonempty(Text);
        var _ := l.Next();
        return Continue(InComment);
      }
      assert !StartsComment(l.input, c.cur);
      var ch := l.Next();
      if ch.None? {
        break;
      }
      if ch.value == ',' {
        SplitComma(l);
      }
    }
    l.EmitNonempty(Text);
    l.StartBeforePos();
    l.Emit(EOF);
    return Done;
  }

  /** The `Some(',')` arm of `lex_text` on a lexer. */
  method SplitComma(l: L.Lexer<ItemType>)
    requires l.Valid() && l.Abs().mark <= l.Abs().cur && l.Abs().back
    modifies l
    ensures l.Valid() && l.Abs() == CommaStep(l.input, old(l.Abs()))
  {
    l.Backup();
    l.EmitNonempty(Text);
    var _ := l.Next();
    l.StartBeforePos();
    l.Emit(Comma);
  }

  /** `lex_comment` on a lexer: the loop of the source, proved to act as `ScanComment`. */
  method LexComment(l: L.Lexer<ItemType>) returns (step: Step)
    requires l.Valid() && l.Abs().mark <= l.Abs().cur
    modifies l
    ensures l.Valid() && (step, l.Abs()) == ScanComment(l.input, old(l.Abs()))
  {
    while true
      invariant l.Valid() && l.Abs().mark <= l.Abs().cur
      invariant ScanComment(l.input, l.Abs()) == ScanComment(l.input, old(l.Abs()))
      decreases |l.input| - l.Abs().cur
    {
      var ch := l.Next();
      if ch.None? {
        break;
      }
      if ch.value == '\n' {
        l.Backup();
        l.EmitNonempty(Comment);
        var _ := l.Next();
        l.Ignore();
        return Continue(InText);
      }
    }
    l.EmitNonempty(Comment);
    l.StartBeforePos();
    l.Emit(EOF);
    return Done;
  }

  /** `Lexer::run`: call the state functions, starting with `start`, until one returns `None`. */
  method Run(l: L.Lexer<ItemType>, start: State)
    requires l.Valid() && l.Abs().mark <= l.Abs().cur
    modifies l
    ensures l.Valid() && l.Abs() == RunFrom(l.input, old(l.Abs()), start)
  {
    var state := start;
    while true
      invariant l.Valid() && l.Abs().mark <= l.Abs().cur
      invariant RunFrom(l.input, l.Abs(), state) == RunFrom(l.input, old(l.Abs()), start)
      decreases |l.input| - l.Abs().cur
    {
      var step := Call(l, state);
      if step.Done? {
        break;
      }
      state := step.next;
    }
  }

  /** `state(self)`: one call of the current state function. */
  method Call(l: L.Lexer<ItemType>, state: State) returns (step: Step)
    requires l.Valid() && l.Abs().mark <= l.Abs().cur
    modifies l
    ensures l.Valid() && (step, l.Abs()) == StepOf(l.input, old(l.Abs()), state)
  {
    match state
    case InText => step := LexText(l);
    case InComment => step := LexComment(l);
  }

  /** `lex`: a fresh lexer over `input`, run from `start`; its items. */
  method Lex(input: seq<char>, start: State) returns (items: seq<Item<ItemType>>)
    ensures items == Tokens(input, start)
  {
    var l := new L.Lexer(input);
    Run(l, start);
    items := l.items;
  }

  // ---------------------------------------------------------------------
  // Nothing is lost but the newlines that end comments
  // ---------------------------------------------------------------------

  /**
   * A reference definition of the text the items carry: `s` with every
   * newline that ends a `//` comment removed.  `inComment` says whether `s`
   * starts inside a comment.
   */
  function Kept(s: seq<char>, inComment: bool): seq<char>
    decreases |s|
  {
    if |s| == 0 then []
    else if inComment && s[0] == '\n' then Kept(s[1..], false)
    else if !inComment && |s| >= 2 && s[0] == '/' && s[1] == '/' then "//" + Kept(s[2..], true)
    else [s[0]] + Kept(s[1..], inComment)
  }

  /** One step of `Kept` on the input from index `i`. */
  lemma KeptStep(input: seq<char>, i: nat, inComment: bool)
    requires i < |input|
    ensures inComment && input[i] == '\n' ==> Kept(input[i..], inComment) == Kept(input[i + 1..], false)
    ensures !inComment && StartsComment(input, i) ==> Kept(input[i..], inComment) == "//" + Kept(input[i + 2..], true)
    ensures (if inComment then input[i] != '\n' else !StartsComment(input, i))
        ==> Kept(input[i..], inComment) == [input[i]] + Kept(input[i + 1..], inComment)
  {
    assert input[i..][1..] == input[i + 1..];
    if i + 2 <= |input| {
      assert input[i..][2..] == input[i + 2..];
    }
  }

  /** The pending text, emitted as an item if non-empty, stays accounted for. */
  lemma PendingAccounted(input: seq<char>, c: Cfg<ItemType>, typ: ItemType)
    requires c.mark <= c.cur <= |input|
    ensures Concat(c.items + PendingItem(input, c.mark, c.cur, typ)) == Accounted(input, c)
  {
    if c.mark < c.cur {
      ConcatAppend(c.items, Item(typ, input[c.mark..c.cur]));
    } else {
      assert c.items + [] == c.items;
    }
  }

  /** The text accounted for so far, then what `Kept` keeps of the input from the cursor on. */
  function Tally(input: seq<char>, c: Cfg<ItemType>, inComment: bool): seq<char>
    requires c.mark <= c.cur <= |input|
  {
    Accounted(input, c) + Kept(input[c.cur..], inComment)
  }

  /** At a `//`, the text before it and the first `/` stay accounted for. */
  lemma KeepsAtComment(input: seq<char>, c: Cfg<ItemType>)
    requires c.mark <= c.cur && StartsComment(input, c.cur)
    ensures Tally(input, Cfg(c.cur, c.cur + 1, true, c.items + PendingItem(input, c.mark, c.cur, Text)), true)
         == Tally(input, c, false)
  {
    var c1 := Cfg(c.cur, c.cur + 1, true, c.items + PendingItem(input, c.mark, c.cur, Text));
    var rest := Kept(input[c.cur + 2..], true);
    calc {
      Tally(input, c1, true);
      Concat(c1.items) + input[c.cur..c.cur + 1] + Kept(input[c.cur + 1..], true);
      { PendingAccounted(input, c, Text);
        assert input[c.cur..c.cur + 1] == "/";
        KeptStep(input, c.cur + 1, true); }
      Accounted(input, c) + "/" + ("/" + rest);
      { AppendAssoc(Accounted(input, c), "/", "/" + rest); }
      Accounted(input, c) + ("/" + ("/" + rest));
      { assert "/" + ("/" + rest) == "//" + rest; }
      Accounted(input, c) + ("//" + rest);
      { KeptStep(input, c.cur, false); }
      Tally(input, c, false);
    }
  }

  /** At the end, the pending text and the empty `EOF` keep everything accounted for. */
  lemma KeepsAtEnd(input: seq<char>, c: Cfg<ItemType>, typ: ItemType, inComment: bool)
    requires c.mark <= c.cur == |input|
    ensures Accounted(input, Cfg(c.cur, c.cur, false, c.items + PendingItem(input, c.mark, c.cur, typ) + [Item(EOF, "")]))
         == Tally(input, c, inComment)
  {
    var items := c.items + PendingItem(input, c.mark, c.cur, typ);
    var r := Cfg(c.cur, c.cur, false, items + [Item(EOF, "")]);
    assert Pending(input, r) == [];
    assert Kept(input[c.cur..], inComment) == [] by {
      assert input[c.cur..] == [];
    }
    calc {
      Accounted(input, r);
      Concat(items + [Item(EOF, "")]) + [];
      { ConcatAppend(items, Item(EOF, "")); }
      Concat(items) + [];
      { PendingAccounted(input, c, typ); }
      Accounted(input, c) + Kept(input[c.cur..], inComment);
    }
  }

  /** The newline that ends a comment is the one character dropped. */
  lemma KeepsAtNewline(input: seq<char>, c: Cfg<ItemType>)
    requires c.mark <= c.cur < |input| && input[c.cur] == '\n'
    ensures Tally(input, Cfg(c.cur + 1, c.cur + 1, true, c.items + PendingItem(input, c.mark, c.cur, Comment)), false)
         == Tally(input, c, true)
  {
    var c1 := Cfg(c.cur + 1, c.cur + 1, true, c.items + PendingItem(input, c.mark, c.cur, Comment));
    PendingAccounted(input, c, Comment);
    KeptStep(input, c.cur, true);
    calc {
      Tally(input, c1, false);
      Concat(c1.items) + input[c1.mark..c1.cur] + Kept(input[c.cur + 1..], false);
      { assert input[c1.mark..c1.cur] == []; }
      Accounted(input, c) + Kept(input[c.cur + 1..], false);
      Accounted(input, c) + Kept(input[c.cur..], true);
    }
  }

  /** A `,` in text moves to its own item and stays accounted for. */
  lemma KeepsAtComma(input: seq<char>, c: Cfg<ItemType>)
    requires c.mark <= c.cur < |input| && input[c.cur] == ',' && !StartsComment(input, c.cur)
    ensures Tally(input, Cfg(c.cur + 1, c.cur + 1, true, c.items + PendingItem(input, c.mark, c.cur, Text) + [Item(Comma, ",")]), false)
         == Tally(input, c, false)
  {
    PendingAccounted(input, c, Text);
    ConcatAppend(c.items + PendingItem(input, c.mark, c.cur, Text), Item(Comma, ","));
    KeptStep(input, c.cur, false);
  }

  /** A character that changes no mode joins the pending text and stays accounted for. */
  lemma KeepsPlain(input: seq<char>, c: Cfg<ItemType>, inComment: bool)
    requires c.mark <= c.cur < |input|
    requires if inComment then input[c.cur] != '\n' else !StartsComment(input, c.cur)
    ensures Tally(input, c.(cur := c.cur + 1, back := true), inComment) == Tally(input, c, inComment)
  {
    assert input[c.mark..c.cur + 1] == input[c.mark..c.cur] + [input[c.cur]];
    KeptStep(input, c.cur, inComment);
  }

  /** Each arm of `lex_text` keeps the tally; the arms that loop are given the tally of the rest. */
  lemma TextKeepsComment(input: seq<char>, c: Cfg<ItemType>)
    requires WellFormed(input, c) && c.mark <= c.cur && StartsComment(input, c.cur)
    ensures Tally(input, ScanText(input, c).1, true) == Tally(input, c, false)
  {
    TextAtComment(input, c);
    KeepsAtComment(input, c);
  }

  lemma TextKeepsEnd(input: seq<char>, c: Cfg<ItemType>)
    requires WellFormed(input, c) && c.mark <= c.cur == |input|
    ensures Tally(input, ScanText(input, c).1, true) == Tally(input, c, false)
  {
    TextAtEnd(input, c);
    KeepsAtEnd(input, c, Text, false);
    assert input[|input|..] == [];
  }

  lemma TextKeepsComma(input: seq<char>, c: Cfg<ItemType>)
    requires WellFormed(input, c) && c.mark <= c.cur < |input|
    requires input[c.cur] == ',' && !StartsComment(input, c.cur)
    requires var c1 := Cfg(c.cur + 1, c.cur + 1, true, c.items + PendingItem(input, c.mark, c.cur, Text) + [Item(Comma, ",")]);
      Tally(input, ScanText(input, c1).1, true) == Tally(input, c1, false)
    ensures Tally(input, ScanText(input, c).1, true) == Tally(input, c, false)
  {
    TextAtComma(input, c);
    KeepsAtComma(input, c);
  }

  lemma TextKeepsPlain(input: seq<char>, c: Cfg<ItemType>)
    requires WellFormed(input, c) && c.mark <= c.cur < |input|
    requires input[c.cur] != ',' && !StartsComment(input, c.cur)
    requires var c1 := c.(cur := c.cur + 1, back := true);
      Tally(input, ScanText(input, c1).1, true) == Tally(input, c1, false)
    ensures Tally(input, ScanText(input, c).1, true) == Tally(input, c, false)
  {
    TextAtPlain(input, c);
    KeepsPlain(input, c, false);
  }

  /** `lex_text` moves text from the input to the items, dropping nothing. */
  lemma {:induction false} ScanTextKeeps(input: seq<char>, c: Cfg<ItemType>)
    requires WellFormed(input, c) && c.mark <= c.cur
    ensures Tally(input, ScanText(input, c).1, true) == Tally(input, c, false)
    decreases |input| - c.cur
  {
    if StartsComment(input, c.cur) {
      TextKeepsComment(input, c);
    } else if c.cur == |input| {
      TextKeepsEnd(input, c);
    } else if input[c.cur] == ',' {
      ScanTextKeeps(input, Cfg(c.cur + 1, c.cur + 1, true, c.items + PendingItem(input, c.mark, c.cur, Text) + [Item(Comma, ",")]));
      TextKeepsComma(input, c);
    } else {
      ScanTextKeeps(input, c.(cur := c.cur + 1, back := true));
      TextKeepsPlain(input, c);
    }
  }

  /** Each arm of `lex_comment` keeps the tally, dropping only the newline that ends the comment. */
  lemma CommentKeepsEnd(input: seq<char>, c: Cfg<ItemType>)
    requires WellFormed(input, c) && c.mark <= c.cur == |input|
    ensures Tally(input, ScanComment(input, c).1, false) == Tally(input, c, true)
  {
    CommentAtEnd(input, c);
    KeepsAtEnd(input, c, Comment, true);
    assert input[|input|..] == [];
  }

  lemma CommentKeepsNewline(input: seq<char>, c: Cfg<ItemType>)
    requires WellFormed(input, c) && c.mark <= c.cur < |input| && input[c.cur] == '\n'
    ensures Tally(input, ScanComment(input, c).1, false) == Tally(input, c, true)
  {
    CommentAtNewline(input, c);
    KeepsAtNewline(input, c);
  }

  lemma CommentKeepsPlain(input: seq<char>, c: Cfg<ItemType>)
    requires WellFormed(input, c) && c.mark <= c.cur < |input| && input[c.cur] != '\n'
    requires var c1 := c.(cur := c.cur + 1, back := true);
      Tally(input, ScanComment(input, c1).1, false) == Tally(input, c1, true)
    ensures Tally(input, ScanComment(input, c).1, false) == Tally(input, c, true)
  {
    CommentAtPlain(input, c);
    KeepsPlain(input, c, true);
  }

  /** `lex_comment` moves text from the input to the items, dropping only the newline that ends the comment. */
  lemma {:induction false} ScanCommentKeeps(input: seq<char>, c: Cfg<ItemType>)
    requires WellFormed(input, c) && c.mark <= c.cur
    ensures Tally(input, ScanComment(input, c).1, false) == Tally(input, c, true)
    decreases |input| - c.cur
  {
    if c.cur == |input| {
      CommentKeepsEnd(input, c);
    } else if input[c.cur] == '\n' {
      CommentKeepsNewline(input, c);
    } else {
      ScanCommentKeeps(input, c.(cur := c.cur + 1, back := true));
      CommentKeepsPlain(input, c);
    }
  }

  /** A whole run moves the rest of the input to the items, dropping only the newlines that end comments. */
  lemma {:induction false} RunKeeps(input: seq<char>, c: Cfg<ItemType>, s: State)
    requires WellFormed(input, c) && c.mark <= c.cur
    ensures Accounted(input, RunFrom(input, c, s)) == Tally(input, c, s == InComment)
    decreases |input| - c.cur
  {
    var step := StepOf(input, c, s);
    if s == InText {
      ScanTextKeeps(input, c);
    } else {
      ScanCommentKeeps(input, c);
    }
    if step.0.Continue? {
      RunKeeps(input, step.1, step.0.next);
    } else {
      assert input[step.1.cur..] == [];
    }
  }

  /** The texts of the items of `lex`, in order, are the input without the newlines that end comments. */
  lemma TokensKeep(input: seq<char>, s: State)
    ensures Concat(Tokens(input, s)) == Kept(input, s == InComment)
  {
    var c0: Cfg<ItemType> := Init();
    RunKeeps(input, c0, s);
    var r := RunFrom(input, c0, s);
    assert Pending(input, r) == [];
    assert Concat(r.items) + [] == Concat(r.items);
    assert Accounted(input, c0) == [];
    assert input[c0.cur..] == input;
  }

  // ---------------------------------------------------------------------
  // Every item has the shape of its type
  // ---------------------------------------------------------------------

  /**
   * What each item type looks like: a text is non-empty and holds no `,`
   * and no `//`; a comma is `","`; a comment starts with `//` and holds no
   * newline; `EOF` is empty.
   */
  predicate WellTyped(it: Item<ItemType>)
  {
    match it.typ
    case Text =>
      && |it.val| > 0 && ',' !in it.val
      && forall k | 0 <= k < |it.val| - 1 :: !(it.val[k] == '/' && it.val[k + 1] == '/')
    case Comma => it.val == ","
    case Comment => |it.val| >= 2 && it.val[0] == '/' && it.val[1] == '/' && '\n' !in it.val
    case EOF => it.val == ""
  }

  /** Well-typed items, none of them `EOF`. */
  predicate Shaped(items: seq<Item<ItemType>>)
  {
    forall k | 0 <= k < |items| :: items[k].typ != EOF && WellTyped(items[k])
  }

  /** What a run ends with: well-typed items and then one empty `EOF`. */
  predicate Final(items: seq<Item<ItemType>>)
  {
    |items| > 0 && items[|items| - 1] == Item(EOF, "") && Shaped(items[..|items| - 1])
  }

  /** Pending text of `lex_text`: no `,` and no start of a `//`. */
  predicate TextPending(input: seq<char>, c: Cfg<ItemType>)
  {
    c.mark <= c.cur <= |input| && forall k | c.mark <= k < c.cur :: input[k] != ',' && !StartsComment(input, k)
  }

  /** Pending text of `lex_comment`: a `//` and no newline. */
  predicate CommentPending(input: seq<char>, c: Cfg<ItemType>)
  {
    c.mark < c.cur <= |input| && StartsComment(input, c.mark) && forall k | c.mark <= k < c.cur :: input[k] != '\n'
  }

  lemma ShapedAppend(items: seq<Item<ItemType>>, it: Item<ItemType>)
    requires Shaped(items) && it.typ != EOF && WellTyped(it)
    ensures Shaped(items + [it])
  {
  }

  lemma TextItem(input: seq<char>, c: Cfg<ItemType>)
    requires TextPending(input, c) && c.mark < c.cur
    ensures WellTyped(Item(Text, input[c.mark..c.cur]))
  {
    var v := input[c.mark..c.cur];
    forall k | 0 <= k < |v| - 1
      ensures !(v[k] == '/' && v[k + 1] == '/')
    {
      assert v[k] == input[c.mark + k] && v[k + 1] == input[c.mark + k + 1];
    }
  }

  lemma CommentItem(input: seq<char>, c: Cfg<ItemType>)
    requires CommentPending(input, c) && c.mark + 2 <= c.cur
    ensures WellTyped(Item(Comment, input[c.mark..c.cur]))
  {
  }

  /** Emitting pending text of `lex_text` keeps the items well typed. */
  lemma PendingTextShaped(input: seq<char>, c: Cfg<ItemType>)
    requires TextPending(input, c) && Shaped(c.items)
    ensures Shaped(c.items + PendingItem(input, c.mark, c.cur, Text))
  {
    if c.mark < c.cur {
      TextItem(input, c);
      ShapedAppend(c.items, Item(Text, input[c.mark..c.cur]));
    } else {
      assert c.items + [] == c.items;
    }
  }

  lemma FinalAppend(items: seq<Item<ItemType>>)
    requires Shaped(items)
    ensures Final(items + [Item(EOF, "")])
  {
    assert (items + [Item(EOF, "")])[..|items|] == items;
  }

  /** What a step of `lex_text` leaves: well-typed items, and a `//` pending when `lex_comment` takes over. */
  predicate TextStepShaped(input: seq<char>, r: (Step, Cfg<ItemType>))
  {
    && (r.0.Continue? ==> Shaped(r.1.items) && CommentPending(input, r.1))
    && (r.0 == Done ==> Final(r.1.items))
  }

  /** Each arm of `lex_text` keeps the items well typed; the arms that loop are given that the rest does. */
  lemma TextShapeComment(input: seq<char>, c: Cfg<ItemType>)
    requires WellFormed(input, c) && TextPending(input, c) && Shaped(c.items) && StartsComment(input, c.cur)
    ensures TextStepShaped(input, ScanText(input, c))
  {
    TextAtComment(input, c);
    PendingTextShaped(input, c);
  }

  lemma TextShapeEnd(input: seq<char>, c: Cfg<ItemType>)
    requires WellFormed(input, c) && TextPending(input, c) && Shaped(c.items) && c.cur == |input|
    ensures TextStepShaped(input, ScanText(input, c))
  {
    TextAtEnd(input, c);
    PendingTextShaped(input, c);
    FinalAppend(c.items + PendingItem(input, c.mark, c.cur, Text));
  }

  /** The items after a `,`: the pending text, if any, then the comma. */
  lemma CommaShaped(input: seq<char>, c: Cfg<ItemType>)
    requires TextPending(input, c) && Shaped(c.items)
    ensures Shaped(c.items + PendingItem(input, c.mark, c.cur, Text) + [Item(Comma, ",")])
  {
    PendingTextShaped(input, c);
    ShapedAppend(c.items + PendingItem(input, c.mark, c.cur, Text), Item(Comma, ","));
  }

  lemma TextShapeComma(input: seq<char>, c: Cfg<ItemType>)
    requires WellFormed(input, c) && c.mark <= c.cur < |input|
    requires input[c.cur] == ',' && !StartsComment(input, c.cur)
    requires var c1 := Cfg(c.cur + 1, c.cur + 1, true, c.items + PendingItem(input, c.mark, c.cur, Text) + [Item(Comma, ",")]);
      TextStepShaped(input, ScanText(input, c1))
    ensures TextStepShaped(input, ScanText(input, c))
  {
    TextAtComma(input, c);
  }

  lemma TextShapePlain(input: seq<char>, c: Cfg<ItemType>)
    requires WellFormed(input, c) && c.mark <= c.cur < |input|
    requires input[c.cur] != ',' && !StartsComment(input, c.cur)
    requires TextStepShaped(input, ScanText(input, c.(cur := c.cur + 1, back := true)))
    ensures TextStepShaped(input, ScanText(input, c))
  {
    TextAtPlain(input, c);
  }

  /** `lex_text` emits only well-typed items, and hands over to `lex_comment` with a `//` pending. */
  lemma {:induction false} ScanTextShape(input: seq<char>, c: Cfg<ItemType>)
    requires WellFormed(input, c) && TextPending(input, c) && Shaped(c.items)
    ensures TextStepShaped(input, ScanText(input, c))
    decreases |input| - c.cur
  {
    if StartsComment(input, c.cur) {
      TextShapeComment(input, c);
    } else if c.cur == |input| {
      TextShapeEnd(input, c);
    } else if input[c.cur] == ',' {
      CommaShaped(input, c);
      ScanTextShape(input, Cfg(c.cur + 1, c.cur + 1, true, c.items + PendingItem(input, c.mark, c.cur, Text) + [Item(Comma, ",")]));
      TextShapeComma(input, c);
    } else {
      ScanTextShape(input, c.(cur := c.cur + 1, back := true));
      TextShapePlain(input, c);
    }
  }

  /** What a step of `lex_comment` leaves: well-typed items, and nothing pending when `lex_text` takes over. */
  predicate CommentStepShaped(r: (Step, Cfg<ItemType>))
  {
    && (r.0.Continue? ==> Shaped(r.1.items) && r.1.mark == r.1.cur)
    && (r.0 == Done ==> Final(r.1.items))
  }

  /** `lex_comment`, entered with a `//` pending, emits one well-typed comment and hands back with nothing pending. */
  lemma {:induction false} ScanCommentShape(input: seq<char>, c: Cfg<ItemType>)
    requires WellFormed(input, c) && CommentPending(input, c) && Shaped(c.items)
    ensures CommentStepShaped(ScanComment(input, c))
    decreases |input| - c.cur
  {
    if c.cur == |input| {
      CommentAtEnd(input, c);
      CommentItem(input, c);
      ShapedAppend(c.items, Item(Comment, input[c.mark..c.cur]));
      FinalAppend(c.items + PendingItem(input, c.mark, c.cur, Comment));
    } else if input[c.cur] == '\n' {
      CommentAtNewline(input, c);
      CommentItem(input, c);
      ShapedAppend(c.items, Item(Comment, input[c.mark..c.cur]));
    } else {
      CommentAtPlain(input, c);
      ScanCommentShape(input, c.(cur := c.cur + 1, back := true));
    }
  }

  /** A run from a state with nothing wrong pending ends with well-typed items and one final `EOF`. */
  lemma {:induction false} RunShape(input: seq<char>, c: Cfg<ItemType>, s: State)
    requires WellFormed(input, c) && Shaped(c.items)
    requires s == InText ==> TextPending(input, c)
    requires s == InComment ==> CommentPending(input, c)
    ensures Final(RunFrom(input, c, s).items)
    decreases |input| - c.cur
  {
    var step := StepOf(input, c, s);
    if s == InText {
      ScanTextShape(input, c);
    } else {
      ScanCommentShape(input, c);
    }
    if step.0.Continue? {
      RunShape(input, step.1, step.0.next);
    }
  }

  /**
   * `lex` from `lex_text` yields well-typed items followed by exactly one
   * `EOF`, which is empty; so `EOF` is the only item with an empty text.
   */
  lemma TokensShape(input: seq<char>)
    ensures Final(Tokens(input, InText))
  {
    RunShape(input, Init(), InText);
  }

  /** The item `emit_nonempty(typ)` pushes for the pending text from `mark` to `cur`: none when it is empty. */
  function PendingItem(input: seq<char>, mark: nat, cur: nat, typ: ItemType): (r: seq<Item<ItemType>>)
    requires mark <= cur <= |input|
    ensures |r| <= 1 && (r == [] <==> mark == cur)
  {
    if mark < cur then [Item(typ, input[mark..cur])] else []
  }

  /** A `//` ahead: the pending text is emitted if non-empty, one `/` is consumed and `lex_comment` takes over. */
  lemma TextAtComment(input: seq<char>, c: Cfg<ItemType>)
    requires WellFormed(input, c) && c.mark <= c.cur
    requires StartsComment(input, c.cur)
    ensures ScanText(input, c)
         == (Continue(InComment), Cfg(c.cur, c.cur + 1, true, c.items + PendingItem(input, c.mark, c.cur, Text)))
  {
    EmitPending(input, c, Text);
  }

  /** `emit_nonempty` moves the token start to the cursor and appends the pending item, if any. */
  lemma EmitPending(input: seq<char>, c: Cfg<ItemType>, typ: ItemType)
    requires c.mark <= c.cur <= |input|
    ensures EmitNonempty(input, c, typ) == c.(mark := c.cur, items := c.items + PendingItem(input, c.mark, c.cur, typ))
  {
    assert c.items + [] == c.items;
  }

  /** A `,` closes the pending text (emitted if non-empty) and becomes an item of its own. */
  lemma TextAtComma(input: seq<char>, c: Cfg<ItemType>)
    requires WellFormed(input, c) && c.mark <= c.cur < |input|
    requires input[c.cur] == ',' && !StartsComment(input, c.cur)
    ensures ScanText(input, c)
         == ScanText(input, Cfg(c.cur + 1, c.cur + 1, true,
                                c.items + PendingItem(input, c.mark, c.cur, Text) + [Item(Comma, ",")]))
  {
    EmitPending(input, c, Text);
    assert input[c.cur..c.cur + 1] == [','];
  }

  /** Any other character joins the pending text of `lex_text`. */
  lemma TextAtPlain(input: seq<char>, c: Cfg<ItemType>)
    requires WellFormed(input, c) && c.mark <= c.cur < |input|
    requires input[c.cur] != ',' && !StartsComment(input, c.cur)
    ensures ScanText(input, c) == ScanText(input, c.(cur := c.cur + 1, back := true))
  {
  }

  /** Any character but a newline joins the pending text of `lex_comment`. */
  lemma CommentAtPlain(input: seq<char>, c: Cfg<ItemType>)
    requires WellFormed(input, c) && c.mark <= c.cur < |input| && input[c.cur] != '\n'
    ensures ScanComment(input, c) == ScanComment(input, c.(cur := c.cur + 1, back := true))
  {
  }

  /** At the end of the input `lex_text` emits the pending text if non-empty, then one empty `EOF`, and stops. */
  lemma TextAtEnd(input: seq<char>, c: Cfg<ItemType>)
    requires WellFormed(input, c) && c.mark <= c.cur == |input|
    ensures ScanText(input, c)
         == (Done, Cfg(c.cur, c.cur, false, c.items + PendingItem(input, c.mark, c.cur, Text) + [Item(EOF, "")]))
  {
    EmitPending(input, c.(back := false), Text);
  }

  /**
   * A newline ends the comment: the text before it is emitted as `Comment`
   * if non-empty, the newline is consumed and dropped, and `lex_text` takes over.
   */
  lemma CommentAtNewline(input: seq<char>, c: Cfg<ItemType>)
    requires WellFormed(input, c) && c.mark <= c.cur < |input|
    requires input[c.cur] == '\n'
    ensures ScanComment(input, c)
         == (Continue(InText), Cfg(c.cur + 1, c.cur + 1, true, c.items + PendingItem(input, c.mark, c.cur, Comment)))
  {
    var items := c.items + PendingItem(input, c.mark, c.cur, Comment);
    var n := c.(cur := c.cur + 1, back := true);
    assert Next(input, c) == (Some('\n'), n);
    EmitPending(input, c.(back := false), Comment);
    assert EmitNonempty(input, Backup(n), Comment) == Cfg(c.cur, c.cur, false, items);
    assert NewlineStep(input, n) == Cfg(c.cur + 1, c.cur + 1, true, items);
  }

  /** At the end of the input `lex_comment` emits the pending comment if non-empty, then one empty `EOF`, and stops. */
  lemma CommentAtEnd(input: seq<char>, c: Cfg<ItemType>)
    requires WellFormed(input, c) && c.mark <= c.cur == |input|
    ensures ScanComment(input, c)
         == (Done, Cfg(c.cur, c.cur, false, c.items + PendingItem(input, c.mark, c.cur, Comment) + [Item(EOF, "")]))
  {
    EmitPending(input, c.(back := false), Comment);
  }

  /** When `lex_text` stops, its last item is an empty `EOF`. */
  lemma {:induction false} ScanTextEof(input: seq<char>, c: Cfg<ItemType>)
    requires WellFormed(input, c) && c.mark <= c.cur
    ensures ScanText(input, c).0 == Done ==> EndsWithEof(ScanText(input, c).1.items)
    decreases |input| - c.cur
  {
    if StartsComment(input, c.cur) {
      TextAtComment(input, c);
    } else if c.cur == |input| {
      TextAtEnd(input, c);
    } else if input[c.cur] == ',' {
      TextAtComma(input, c);
      var items := c.items + PendingItem(input, c.mark, c.cur, Text) + [Item(Comma, ",")];
      ScanTextEof(input, Cfg(c.cur + 1, c.cur + 1, true, items));
    } else {
      TextAtPlain(input, c);
      ScanTextEof(input, c.(cur := c.cur + 1, back := true));
    }
  }

  /** When `lex_comment` stops, its last item is an empty `EOF`. */
  lemma {:induction false} ScanCommentEof(input: seq<char>, c: Cfg<ItemType>)
    requires WellFormed(input, c) && c.mark <= c.cur
    ensures ScanComment(input, c).0 == Done ==> EndsWithEof(ScanComment(input, c).1.items)
    decreases |input| - c.cur
  {
    if c.cur == |input| {
      CommentAtEnd(input, c);
    } else if input[c.cur] == '\n' {
      CommentAtNewline(input, c);
    } else {
      CommentAtPlain(input, c);
      ScanCommentEof(input, c.(cur := c.cur + 1, back := true));
    }
  }

  /** Every run, from either state, ends with an empty `EOF`. */
  lemma {:induction false} RunEof(input: seq<char>, c: Cfg<ItemType>, s: State)
    requires WellFormed(input, c) && c.mark <= c.cur
    ensures EndsWithEof(RunFrom(input, c, s).items)
    decreases |input| - c.cur
  {
    var step := StepOf(input, c, s);
    if s == InText {
      ScanTextEof(input, c);
    } else {
      ScanCommentEof(input, c);
    }
    if step.0.Continue? {
      RunEof(input, step.1, step.0.next);
    }
  }

  /** A word that `lex_text` keeps as pending text: no `,` and no `/`. */
  predicate PlainWord(w: seq<char>)
  {
    forall k | 0 <= k < |w| :: w[k] != ',' && w[k] != '/'
  }

  /** The characters of a plain word are neither a `,` nor the start of a `//`. */
  lemma PlainAt(input: seq<char>, i: nat, w: seq<char>)
    requires i + |w| <= |input| && input[i..i + |w|] == w && PlainWord(w)
    ensures forall k | i <= k < i + |w| :: input[k] != ',' && !StartsComment(input, k)
  {
    forall k | i <= k < i + |w|
      ensures input[k] != ',' && !StartsComment(input, k)
    {
      assert input[k] == w[k - i];
    }
  }

  /** A plain word followed by a `,` gives a `Text` item and a `Comma` item. */
  lemma TextWordComma(input: seq<char>, c: Cfg<ItemType>, w: seq<char>)
    requires WellFormed(input, c) && c.mark == c.cur && c.cur + |w| < |input|
    requires input[c.cur..c.cur + |w|] == w && input[c.cur + |w|] == ',' && 0 < |w| && PlainWord(w)
    ensures ScanText(input, c)
         == ScanText(input, Cfg(c.cur + |w| + 1, c.cur + |w| + 1, true, c.items + [Item(Text, w), Item(Comma, ",")]))
  {
    var e := c.cur + |w|;
    TextRun(input, c, w);
    TextAtComma(input, c.(cur := e, back := true));
    assert c.items + [Item(Text, w)] + [Item(Comma, ",")] == c.items + [Item(Text, w), Item(Comma, ",")];
  }

  /** A plain word followed by `//` gives a `Text` item and hands over to `lex_comment`. */
  lemma TextWordComment(input: seq<char>, c: Cfg<ItemType>, w: seq<char>)
    requires WellFormed(input, c) && c.mark == c.cur && c.cur + |w| <= |input|
    requires input[c.cur..c.cur + |w|] == w && StartsComment(input, c.cur + |w|) && 0 < |w| && PlainWord(w)
    ensures ScanText(input, c)
         == (Continue(InComment), Cfg(c.cur + |w|, c.cur + |w| + 1, true, c.items + [Item(Text, w)]))
  {
    var e := c.cur + |w|;
    var c1 := c.(cur := e, back := true);
    assert PendingItem(input, c.mark, e, Text) == [Item(Text, w)];
    TextAtComment(input, c1);
    TextRun(input, c, w);
  }

  /** Over a plain word `lex_text` reads on, keeping it pending. */
  lemma TextRun(input: seq<char>, c: Cfg<ItemType>, w: seq<char>)
    requires WellFormed(input, c) && c.mark <= c.cur && c.cur + |w| <= |input|
    requires input[c.cur..c.cur + |w|] == w && 0 < |w| && PlainWord(w)
    ensures ScanText(input, c) == ScanText(input, c.(cur := c.cur + |w|, back := true))
  {
    var e := c.cur + |w|;
    PlainAt(input, c.cur, w);
    ScanTextPlain(input, c, e);
  }

  /** A plain word that ends the input gives a `Text` item and the final `EOF`. */
  lemma TextWordEnd(input: seq<char>, c: Cfg<ItemType>, w: seq<char>)
    requires WellFormed(input, c) && c.mark == c.cur
    requires input[c.cur..] == w && 0 < |w| && PlainWord(w)
    ensures ScanText(input, c) == (Done, Cfg(|input|, |input|, false, c.items + [Item(Text, w), Item(EOF, "")]))
  {
    assert input[c.cur..c.cur + |w|] == w;
    TextRun(input, c, w);
    TextAtEnd(input, c.(cur := |input|, back := true));
    assert c.items + [Item(Text, w)] + [Item(EOF, "")] == c.items + [Item(Text, w), Item(EOF, "")];
  }

  /** A comment closed by a newline gives one `Comment` item and hands back to `lex_text` past the newline. */
  lemma CommentLine(input: seq<char>, c: Cfg<ItemType>, w: seq<char>)
    requires WellFormed(input, c) && c.mark < c.cur < c.mark + |w| < |input|
    requires input[c.mark..c.mark + |w|] == w && input[c.mark + |w|] == '\n' && '\n' !in w
    ensures ScanComment(input, c)
         == (Continue(InText), Cfg(c.mark + |w| + 1, c.mark + |w| + 1, true, c.items + [Item(Comment, w)]))
  {
    var e := c.mark + |w|;
    var c1 := c.(cur := e, back := true);
    assert PendingItem(input, c.mark, e, Comment) == [Item(Comment, w)];
    CommentAtNewline(input, c1);
    CommentRun(input, c, w);
  }

  /** Inside a comment `lex_comment` reads on up to the newline. */
  lemma CommentRun(input: seq<char>, c: Cfg<ItemType>, w: seq<char>)
    requires WellFormed(input, c) && c.mark < c.cur < c.mark + |w| <= |input|
    requires input[c.mark..c.mark + |w|] == w && '\n' !in w
    ensures ScanComment(input, c) == ScanComment(input, c.(cur := c.mark + |w|, back := true))
  {
    var e := c.mark + |w|;
    NoNewlineAt(input, c.mark, w);
    ScanCommentPlain(input, c, e);
  }

  /** A piece of the input equal to a text with no newline holds no newline. */
  lemma NoNewlineAt(input: seq<char>, i: nat, w: seq<char>)
    requires i + |w| <= |input| && input[i..i + |w|] == w && '\n' !in w
    ensures forall k | i <= k < i + |w| :: input[k] != '\n'
  {
    forall k | i <= k < i + |w|
      ensures input[k] != '\n'
    {
      assert input[k] == w[k - i];
    }
  }

  const Example := "foo,bar,baz // some comment\nfoo,bar"

  /** The example cut into its two lines and the comment between. */
  lemma ExampleLines()
    ensures Example[..12] == "foo,bar,baz " && Example[12..27] == "// some comment"
    ensures Example[27..] == "\nfoo,bar"
  {
    var a, b, c := "foo,bar,baz ", "// some comment", "\nfoo,bar";
    assert Example == a + b + c;
    assert (a + b + c)[|a|..|a| + |b|] == b;
    assert (a + b + c)[..|a|] == a;
    assert (a + b + c)[|a| + |b|..] == c;
  }

  /** The example's texts hold no `,` and no `/`. */
  lemma ExampleWordsPlain()
    ensures PlainWord("foo") && PlainWord("bar") && PlainWord("baz ")
  {
  }

  /** The words of the example's first line, at their places. */
  lemma ExampleFirstPieces()
    ensures Example[0..3] == "foo" && Example[4..7] == "bar" && Example[8..12] == "baz "
    ensures Example[3] == ',' && Example[7] == ',' && StartsComment(Example, 12)
  {
    ExampleLines();
    var a := Example[..12];
    assert Example[0..3] == a[0..3] && Example[4..7] == a[4..7] && Example[8..12] == a[8..12];
  }

  /** The words of the example's second line, at their places. */
  lemma ExampleSecondPieces()
    ensures Example[28..31] == "foo" && Example[31] == ',' && Example[32..] == "bar"
  {
    ExampleLines();
    var c := Example[27..];
    assert Example[28..31] == c[1..4] && Example[32..] == c[5..];
  }

  /** The example's first line up to its comment: three texts and two commas. */
  lemma ExampleFirstLine(s: seq<char>, items: seq<Item<ItemType>>)
    requires s == Example
    ensures ScanText(s, Cfg(0, 0, false, items)) == (Continue(InComment), Cfg(12, 13, true, items + [
      Item(Text, "foo"), Item(Comma, ","), Item(Text, "bar"), Item(Comma, ","), Item(Text, "baz ")]))
  {
    ExampleFirstPieces();
    ExampleWordsPlain();
    var i1 := items + [Item(Text, "foo"), Item(Comma, ",")];
    var i2 := i1 + [Item(Text, "bar"), Item(Comma, ",")];
    TextWordComma(s, Cfg(0, 0, false, items), "foo");
    TextWordComma(s, Cfg(4, 4, true, i1), "bar");
    TextWordComment(s, Cfg(8, 8, true, i2), "baz ");
    assert i2 + [Item(Text, "baz ")] == items + [
      Item(Text, "foo"), Item(Comma, ","), Item(Text, "bar"), Item(Comma, ","), Item(Text, "baz ")];
  }

  /** The example's comment, up to and without its newline. */
  lemma ExampleComment(s: seq<char>, items: seq<Item<ItemType>>)
    requires s == Example
    ensures ScanComment(s, Cfg(12, 13, true, items))
         == (Continue(InText), Cfg(28, 28, true, items + [Item(Comment, "// some comment")]))
  {
    ExampleLines();
    CommentLine(s, Cfg(12, 13, true, items), "// some comment");
  }

  /** The example's second line: a text, a comma, a text, then `EOF`. */
  lemma ExampleSecondLine(s: seq<char>, items: seq<Item<ItemType>>)
    requires s == Example
    ensures ScanText(s, Cfg(28, 28, true, items))
         == (Done, Cfg(35, 35, false, items + [Item(Text, "foo"), Item(Comma, ","), Item(Text, "bar"), Item(EOF, "")]))
  {
    ExampleSecondPieces();
    ExampleWordsPlain();
    var i1 := items + [Item(Text, "foo"), Item(Comma, ",")];
    TextWordComma(s, Cfg(28, 28, true, items), "foo");
    TextWordEnd(s, Cfg(32, 32, true, i1), "bar");
    assert i1 + [Item(Text, "bar"), Item(EOF, "")]
        == items + [Item(Text, "foo"), Item(Comma, ","), Item(Text, "bar"), Item(EOF, "")];
  }

  /** The literal scenario of tests/lib.rs, compared on item types and texts. */
  lemma Scenario()
    ensures Tokens(Example, InText) == [
      Item(Text, "foo"), Item(Comma, ","), Item(Text, "bar"), Item(Comma, ","),
      Item(Text, "baz "), Item(Comment, "// some comment"),
      Item(Text, "foo"), Item(Comma, ","), Item(Text, "bar"), Item(EOF, "")]
  {
    var s := Example;
    var i3 := [Item(Text, "foo"), Item(Comma, ","), Item(Text, "bar"), Item(Comma, ","), Item(Text, "baz ")];
    var i4 := i3 + [Item(Comment, "// some comment")];
    ExampleFirstLine(s, []);
    assert [] + i3 == i3;
    ExampleComment(s, i3);
    ExampleSecondLine(s, i4);
    assert RunFrom(s, Init(), InText) == RunFrom(s, Cfg(12, 13, true, i3), InComment);
    assert RunFrom(s, Cfg(12, 13, true, i3), InComment) == RunFrom(s, Cfg(28, 28, true, i4), InText);
  }
}
