/**
 * The arithmetic tokenizer of examples/calc.rs, written against the lexer.
 *
 * `lex_group_or_number` expects an operand: it emits `(` and a `-` that
 * negates a group, and hands a number over to `lex_number`; `lex_number`
 * takes an optional sign, digits, and an optional `.` with more digits;
 * `lex_binary_op` expects an operator, emitting any `)` on the way.
 * Whitespace is skipped everywhere.  A character that fits no rule makes the
 * Rust program panic; here that ends the run with a `Panicked` outcome.
 *
 * `SkipWhitespace`, `ScanGroupOrNumber`, `ScanBinaryOp`, `ScanNumber` and
 * `RunFrom` define what the states and the driver do, as functions of the
 * cursor state; `IgnoreWhitespace`, `LexGroupOrNumber`, `LexBinaryOp`,
 * `LexNumber`, `Run` and `Lex` are the code of the source, proved to compute them.
 */
module CalcLexer {
  import opened Wrappers
  import opened Scanner
  import L = Lexer

  datatype ItemType =
    | Number
    | GroupStart
    | GroupEnd
    | OperatorPlus
    | OperatorMinus
    | OperatorMul
    | OperatorDiv
    | OperatorNegate

  /** The three state functions, `lex_group_or_number`, `lex_binary_op` and `lex_number`. */
  datatype State = InGroupOrNumber | InBinaryOp | InNumber

  /** Why the Rust program panics: no operator where one is due, or no digit where a number is due. */
  datatype PanicReason = ExpectedOperator(found: char) | ExpectedNumber(got: Option<char>)

  /** What a state function does: `Some(StateFn(next))`, `None`, or a panic. */
  datatype Outcome = Continue(next: State) | Done | Panicked(reason: PanicReason)

  const NumberSigns := "+-"
  const Digits := "0123456789"
  const DecimalSign := "."
  const NegateSign := '-'

  /** `char::is_whitespace`: the characters with the Unicode `White_Space` property. */
  predicate IsWhitespace(ch: char)
  {
    var n := ch as int;
    || 0x09 <= n <= 0x0D || n == 0x20 || n == 0x85 || n == 0xA0 || n == 0x1680
    || 0x2000 <= n <= 0x200A || n == 0x2028 || n == 0x2029 || n == 0x202F || n == 0x205F || n == 0x3000
  }

  /** The operator item a character stands for after an operand: one for each of `+ - * /`, none otherwise. */
  function OperatorType(ch: char): Option<ItemType>
  {
    match ch
    case '+' => Some(OperatorPlus)
    case '-' => Some(OperatorMinus)
    case '*' => Some(OperatorMul)
    case '/' => Some(OperatorDiv)
    case _ => None
  }

  /** Exactly the four operator characters have an operator item, and it is well typed. */
  lemma OperatorTypeSpec(ch: char)
    ensures OperatorType(ch).Some? <==> ch in "+-*/"
    ensures OperatorType(ch).Some? ==> WellTyped(Item(OperatorType(ch).value, [ch]))
  {
  }

  /** How many states may follow one another without the cursor moving. */
  function Rank(s: State): nat
  {
    match s
    case InNumber => 0
    case InGroupOrNumber => 1
    case InBinaryOp => 2
  }

  /**
   * `ignore_whitespace`: skip and drop whitespace; false (`None`) at the end
   * of the input, otherwise true with the cursor on the first other character.
   */
  function SkipWhitespace(input: seq<char>, c: Cfg<ItemType>): (r: (bool, Cfg<ItemType>))
    requires WellFormed(input, c) && c.mark <= c.cur
    ensures WellFormed(input, r.1) && r.1.mark <= r.1.cur && c.cur <= r.1.cur && r.1.items == c.items && !r.1.back
    ensures r.0 <==> r.1.cur < |input|
    ensures r.0 ==> !IsWhitespace(input[r.1.cur])
    ensures forall k | c.cur <= k < r.1.cur :: IsWhitespace(input[k])
    ensures r.1.mark == if r.1.cur == c.cur then c.mark else r.1.cur
    decreases |input| - c.cur
  {
    var n := Next(input, c);
    match n.0
    case None => (false, n.1)
    case Some(ch) =>
      if IsWhitespace(ch) then SkipWhitespace(input, Ignore(n.1))
      else (true, Backup(n.1))
  }

  /** `lex_group_or_number`, from a state whose pending text starts no later than the cursor. */
  function ScanGroupOrNumber(input: seq<char>, c: Cfg<ItemType>): (r: (Outcome, Cfg<ItemType>))
    requires WellFormed(input, c) && c.mark <= c.cur
    ensures WellFormed(input, r.1) && r.1.mark <= r.1.cur
    ensures r.0 == Done ==> r.1.cur == |input|
    ensures r.0.Continue? ==> (r.0.next == InBinaryOp && r.1.cur > c.cur) || (r.0.next == InNumber && r.1.cur >= c.cur)
    ensures !r.0.Panicked?
    decreases |input| - c.cur
  {
    var n := Next(input, c);
    match n.0
    case None => (Done, n.1)
    case Some(ch) =>
      if IsWhitespace(ch) then
        ScanGroupOrNumber(input, Ignore(n.1))
      else if ch == NegateSign then
        var p := Peek(input, n.1);
        if p.0.Some? && p.0.value in Digits then (Continue(InNumber), Backup(p.1))
        else ScanGroupOrNumber(input, Emit(input, p.1, OperatorNegate))
      else if ch == '(' then
        ScanGroupOrNumber(input, Emit(input, n.1, GroupStart))
      else if ch == ')' then
        (Continue(InBinaryOp), Emit(input, n.1, GroupEnd))
      else
        (Continue(InNumber), Backup(n.1))
  }

  /** `lex_binary_op`, from a state whose pending text starts no later than the cursor. */
  function ScanBinaryOp(input: seq<char>, c: Cfg<ItemType>): (r: (Outcome, Cfg<ItemType>))
    requires WellFormed(input, c) && c.mark <= c.cur
    ensures WellFormed(input, r.1) && r.1.mark <= r.1.cur
    ensures r.0 == Done ==> r.1.cur == |input|
    ensures r.0.Continue? ==> r.0.next == InGroupOrNumber && r.1.cur > c.cur
    decreases |input| - c.cur
  {
    var n := Next(input, c);
    match n.0
    case None => (Done, n.1)
    case Some(ch) =>
      if IsWhitespace(ch) then
        ScanBinaryOp(input, Ignore(n.1))
      else if ch == ')' then
        ScanBinaryOp(input, Emit(input, n.1, GroupEnd))
      else
        match OperatorType(ch)
        case Some(t) => (Continue(InGroupOrNumber), Emit(input, n.1, t))
        case None => (Panicked(ExpectedOperator(ch)), n.1)
  }

  /** `lex_number`, from a state whose pending text starts no later than the cursor. */
  function ScanNumber(input: seq<char>, c: Cfg<ItemType>): (r: (Outcome, Cfg<ItemType>))
    requires WellFormed(input, c) && c.mark <= c.cur
    ensures WellFormed(input, r.1) && r.1.mark <= r.1.cur
    ensures r.0 == Done ==> r.1.cur == |input|
    ensures r.0.Continue? ==> r.0.next == InBinaryOp && r.1.cur > c.cur
  {
    var w := SkipWhitespace(input, c);
    if !w.0 then (Done, w.1) else NumberText(input, w.1)
  }

  /** The rest of `lex_number` once the whitespace is skipped: sign, digits, fraction, and the `Number` item. */
  function NumberText(input: seq<char>, c: Cfg<ItemType>): (r: (Outcome, Cfg<ItemType>))
    requires WellFormed(input, c) && c.mark <= c.cur
    ensures WellFormed(input, r.1) && r.1.mark <= r.1.cur
    ensures r.0 != Done
    ensures r.0.Continue? ==> r.0.next == InBinaryOp && r.1.cur > c.cur
  {
    var a := Accept(input, c, NumberSigns).1;
    var d := AcceptRun(input, a, Digits);
    if !d.0 then
      var n := Next(input, Backup(d.1));
      (Panicked(ExpectedNumber(n.0)), n.1)
    else
      (Continue(InBinaryOp), Fraction(input, d.1))
  }

  /** The end of `lex_number` after its digits: an optional `.` and digits, then the `Number` item. */
  function Fraction(input: seq<char>, c: Cfg<ItemType>): (r: Cfg<ItemType>)
    requires WellFormed(input, c) && c.mark <= c.cur
    ensures WellFormed(input, r) && r.mark == r.cur >= c.cur
  {
    var f := Accept(input, c, DecimalSign);
    var e := if f.0 then AcceptRun(input, f.1, Digits).1 else f.1;
    Emit(input, e, Number)
  }

  /** One call of the state function `s`. */
  function StepOf(input: seq<char>, c: Cfg<ItemType>, s: State): (r: (Outcome, Cfg<ItemType>))
    requires WellFormed(input, c) && c.mark <= c.cur
    ensures WellFormed(input, r.1) && r.1.mark <= r.1.cur
    ensures r.0 == Done ==> r.1.cur == |input|
    ensures r.0.Continue? ==> r.1.cur > c.cur || (r.1.cur == c.cur && Rank(r.0.next) < Rank(s))
  {
    match s
    case InGroupOrNumber => ScanGroupOrNumber(input, c)
    case InBinaryOp => ScanBinaryOp(input, c)
    case InNumber => ScanNumber(input, c)
  }

  /**
   * `Lexer::run`: call the current state until one returns `None`; the
   * final state, or the reason of the panic that ends the run.
   */
  function RunFrom(input: seq<char>, c: Cfg<ItemType>, s: State): (r: Result<Cfg<ItemType>, PanicReason>)
    requires WellFormed(input, c) && c.mark <= c.cur
    ensures r.Success? ==> WellFormed(input, r.value) && r.value.mark <= r.value.cur == |input|
    decreases |input| - c.cur, Rank(s)
  {
    var step := StepOf(input, c, s);
    match step.0
    case Done => Success(step.1)
    case Panicked(why) => Failure(why)
    case Continue(next) => RunFrom(input, step.1, next)
  }

  /**
   * `lex`: the items of a run from a fresh lexer, or the panic that ends it;
   * a panic names a character of the input that fits no rule there, or the
   * end of the input where a digit was due.
   */
  function Tokens(input: seq<char>, s: State): (r: Result<seq<Item<ItemType>>, PanicReason>)
    ensures r.Failure? ==> PanicFits(input, r.error)
  {
    RunPanics(input, Init(), s);
    match RunFrom(input, Init(), s)
    case Success(c) => Success(c.items)
    case Failure(why) => Failure(why)
  }

  // ---------------------------------------------------------------------
  // The state functions on a lexer
  // ---------------------------------------------------------------------

  /** `ignore_whitespace` on a lexer. */
  method IgnoreWhitespace(l: L.Lexer<ItemType>) returns (found: bool)
    requires l.Valid() && l.Abs().mark <= l.Abs().cur
    modifies l
    ensures l.Valid() && (found, l.Abs()) == SkipWhitespace(l.input, old(l.Abs()))
  {
    while true
      invariant l.Valid() && l.Abs().mark <= l.Abs().cur
      invariant SkipWhitespace(l.input, l.Abs()) == SkipWhitespace(l.input, old(l.Abs()))
      decreases |l.input| - l.Abs().cur
    {
      var ch := l.Next();
      if ch.None? {
        return false;
      }
      if IsWhitespace(ch.value) {
        l.Ignore();
      } else {
        l.Backup();
        break;
      }
    }
    return true;
  }

  /** `lex_binary_op` on a lexer; a panic of the source is returned as `Panicked`. */
  method LexBinaryOp(l: L.Lexer<ItemType>) returns (o: Outcome)
    requires l.Valid() && l.Abs().mark <= l.Abs().cur
    modifies l
    ensures l.Valid() && (o, l.Abs()) == ScanBinaryOp(l.input, old(l.Abs()))
  {
    while true
      invariant l.Valid() && l.Abs().mark <= l.Abs().cur
      invariant ScanBinaryOp(l.input, l.Abs()) == ScanBinaryOp(l.input, old(l.Abs()))
      decreases |l.input| - l.Abs().cur
    {
      var ch := l.Next();
      if ch.None? {
        return Done;
      }
      l.StartBeforePos();
      if IsWhitespace(ch.value) {
        l.Ignore();
      } else if ch.value == ')' {
        l.Emit(GroupEnd);
      } else {
        match ch.value {
          case '+' => l.Emit(OperatorPlus);
          case '-' => l.Emit(OperatorMinus);
          case '*' => l.Emit(OperatorMul);
          case '/' => l.Emit(OperatorDiv);
          case _ => return Panicked(ExpectedOperator(ch.value));
        }
        break;
      }
    }
    return Continue(InGroupOrNumber);
  }

  /** `lex_group_or_number` on a lexer. */
  method LexGroupOrNumber(l: L.Lexer<ItemType>) returns (o: Outcome)
    requires l.Valid() && l.Abs().mark <= l.Abs().cur
    modifies l
    ensures l.Valid() && (o, l.Abs()) == ScanGroupOrNumber(l.input, old(l.Abs()))
  {
    while true
      invariant l.Valid() && l.Abs().mark <= l.Abs().cur
      invariant ScanGroupOrNumber(l.input, l.Abs()) == ScanGroupOrNumber(l.input, old(l.Abs()))
      decreases |l.input| - l.Abs().cur
    {
      var ch := l.Next();
      if ch.None? {
        return Done;
      }
      l.StartBeforePos();
      if IsWhitespace(ch.value) {
        l.Ignore();
      } else if ch.value == NegateSign {
        var p := l.Peek();
        if p.Some? && p.value in Digits {
          l.Backup();
          return Continue(InNumber);
        }
        l.Emit(OperatorNegate);
      } else if ch.value == '(' {
        l.Emit(GroupStart);
      } else if ch.value == ')' {
        l.Emit(GroupEnd);
        return Continue(InBinaryOp);
      } else {
        l.Backup();
        return Continue(InNumber);
      }
    }
  }

  /** `lex_number` on a lexer; a panic of the source is returned as `Panicked`. */
  method LexNumber(l: L.Lexer<ItemType>) returns (o: Outcome)
    requires l.Valid() && l.Abs().mark <= l.Abs().cur
    modifies l
    ensures l.Valid() && (o, l.Abs()) == ScanNumber(l.input, old(l.Abs()))
  {
    var found := IgnoreWhitespace(l);
    if !found {
      return Done;
    }
    o := LexNumberText(l);
  }

  /** The rest of `lex_number` on a lexer, once the whitespace is skipped. */
  method LexNumberText(l: L.Lexer<ItemType>) returns (o: Outcome)
    requires l.Valid() && l.Abs().mark <= l.Abs().cur
    modifies l
    ensures l.Valid() && (o, l.Abs()) == NumberText(l.input, old(l.Abs()))
  {
    ghost var c := l.Abs();
    var _ := l.Accept(NumberSigns);
    ghost var a := l.Abs();
    assert a == Accept(l.input, c, NumberSigns).1;
    var digits := l.AcceptRun(Digits);
    assert (digits, l.Abs()) == AcceptRun(l.input, a, Digits);
    if !digits {
      l.Backup();
      var got := l.Next();
      return Panicked(ExpectedNumber(got));
    }
    LexFraction(l);
    return Continue(InBinaryOp);
  }

  /** The end of `lex_number` on a lexer: the fraction, if any, and the `Number` item. */
  method LexFraction(l: L.Lexer<ItemType>)
    requires l.Valid() && l.Abs().mark <= l.Abs().cur
    modifies l
    ensures l.Valid() && l.Abs() == Fraction(l.input, old(l.Abs()))
  {
    ghost var d := l.Abs();
    var point := l.Accept(DecimalSign);
    assert (point, l.Abs()) == Accept(l.input, d, DecimalSign);
    if point {
      var _ := l.AcceptRun(Digits);
    }
    l.StartBeforePos();
    l.Emit(Number);
  }

  /** `state(self)`: one call of the current state function. */
  method Call(l: L.Lexer<ItemType>, state: State) returns (o: Outcome)
    requires l.Valid() && l.Abs().mark <= l.Abs().cur
    modifies l
    ensures l.Valid() && (o, l.Abs()) == StepOf(l.input, old(l.Abs()), state)
  {
    match state
    case InGroupOrNumber => o := LexGroupOrNumber(l);
    case InBinaryOp => o := LexBinaryOp(l);
    case InNumber => o := LexNumber(l);
  }

  /**
   * `Lexer::run`: call the state functions, starting with `start`, until one
   * returns `None` (result `None`) or panics (result the reason).
   */
  method Run(l: L.Lexer<ItemType>, start: State) returns (panicked: Option<PanicReason>)
    requires l.Valid() && l.Abs().mark <= l.Abs().cur
    modifies l
    ensures l.Valid()
    ensures RunFrom(l.input, old(l.Abs()), start).Success? ==>
      panicked == None && l.Abs() == RunFrom(l.input, old(l.Abs()), start).value
    ensures RunFrom(l.input, old(l.Abs()), start).Failure? ==>
      panicked == Some(RunFrom(l.input, old(l.Abs()), start).error)
  {
    var state := start;
    while true
      invariant l.Valid() && l.Abs().mark <= l.Abs().cur
      invariant RunFrom(l.input, l.Abs(), state) == RunFrom(l.input, old(l.Abs()), start)
      decreases |l.input| - l.Abs().cur, Rank(state)
    {
      var o := Call(l, state);
      match o
      case Done => return None;
      case Panicked(why) => return Some(why);
      case Continue(next) => state := next;
    }
  }

  /** `lex`: a fresh lexer over `input`, run from `start`; its items, or the panic that ends the run. */
  method Lex(input: seq<char>, start: State) returns (r: Result<seq<Item<ItemType>>, PanicReason>)
    ensures r == Tokens(input, start)
  {
    var l := new L.Lexer(input);
    var panicked := Run(l, start);
    if panicked.Some? {
      return Failure(panicked.value);
    }
    return Success(l.items);
  }

  // ---------------------------------------------------------------------
  // What each state does, case by case
  // ---------------------------------------------------------------------

  /** `ignore_whitespace` stops on the first non-whitespace character, having dropped the whitespace before it. */
  lemma SkipWhitespaceSpec(input: seq<char>, c: Cfg<ItemType>, j: nat)
    requires WellFormed(input, c) && c.mark <= c.cur <= j <= |input|
    requires forall k | c.cur <= k < j :: IsWhitespace(input[k])
    requires j == |input| || !IsWhitespace(input[j])
    ensures SkipWhitespace(input, c)
         == (j < |input|, Cfg(if j == c.cur then c.mark else j, j, false, c.items))
  {
  }

  /** Whitespace is dropped and `lex_group_or_number` goes on. */
  lemma GroupOrNumberAtWhitespace(input: seq<char>, c: Cfg<ItemType>)
    requires WellFormed(input, c) && c.mark <= c.cur < |input| && IsWhitespace(input[c.cur])
    ensures ScanGroupOrNumber(input, c) == ScanGroupOrNumber(input, Cfg(c.cur + 1, c.cur + 1, true, c.items))
  {
  }

  /** A `-` before a digit is left pending and `lex_number` takes over, the `-` included. */
  lemma GroupOrNumberAtSignedNumber(input: seq<char>, c: Cfg<ItemType>)
    requires WellFormed(input, c) && c.mark <= c.cur && c.cur + 1 < |input|
    requires input[c.cur] == '-' && input[c.cur + 1] in Digits
    ensures ScanGroupOrNumber(input, c) == (Continue(InNumber), Cfg(c.mark, c.cur + 1, false, c.items))
  {
  }

  /** Any other `-` is emitted as a negation and `lex_group_or_number` goes on. */
  lemma GroupOrNumberAtNegate(input: seq<char>, c: Cfg<ItemType>)
    requires WellFormed(input, c) && c.mark == c.cur < |input| && input[c.cur] == '-'
    requires c.cur + 1 == |input| || input[c.cur + 1] !in Digits
    ensures ScanGroupOrNumber(input, c)
         == ScanGroupOrNumber(input, Cfg(c.cur + 1, c.cur + 1, false, c.items + [Item(OperatorNegate, "-")]))
  {
    assert input[c.cur..c.cur + 1] == "-";
  }

  /** A `(` is emitted and `lex_group_or_number` goes on. */
  lemma GroupOrNumberAtOpen(input: seq<char>, c: Cfg<ItemType>)
    requires WellFormed(input, c) && c.mark == c.cur < |input| && input[c.cur] == '('
    ensures ScanGroupOrNumber(input, c)
         == ScanGroupOrNumber(input, Cfg(c.cur + 1, c.cur + 1, true, c.items + [Item(GroupStart, "(")]))
  {
    assert input[c.cur..c.cur + 1] == "(";
  }

  /** A `)` is emitted and `lex_binary_op` takes over. */
  lemma GroupOrNumberAtClose(input: seq<char>, c: Cfg<ItemType>)
    requires WellFormed(input, c) && c.mark == c.cur < |input| && input[c.cur] == ')'
    ensures ScanGroupOrNumber(input, c)
         == (Continue(InBinaryOp), Cfg(c.cur + 1, c.cur + 1, true, c.items + [Item(GroupEnd, ")")]))
  {
    assert input[c.cur..c.cur + 1] == ")";
  }

  /** Any other character is pushed back for `lex_number`. */
  lemma GroupOrNumberAtOperand(input: seq<char>, c: Cfg<ItemType>)
    requires WellFormed(input, c) && c.mark <= c.cur < |input|
    requires !IsWhitespace(input[c.cur]) && input[c.cur] !in "-()"
    ensures ScanGroupOrNumber(input, c) == (Continue(InNumber), c.(back := false))
  {
  }

  /** At the end of the input, `lex_group_or_number` returns `None`. */
  lemma GroupOrNumberAtEnd(input: seq<char>, c: Cfg<ItemType>)
    requires WellFormed(input, c) && c.mark <= c.cur == |input|
    ensures ScanGroupOrNumber(input, c) == (Done, c.(back := false))
  {
  }

  /** Whitespace is dropped and `lex_binary_op` goes on. */
  lemma BinaryOpAtWhitespace(input: seq<char>, c: Cfg<ItemType>)
    requires WellFormed(input, c) && c.mark <= c.cur < |input| && IsWhitespace(input[c.cur])
    ensures ScanBinaryOp(input, c) == ScanBinaryOp(input, Cfg(c.cur + 1, c.cur + 1, true, c.items))
  {
  }

  /** A `)` is emitted and `lex_binary_op` goes on. */
  lemma BinaryOpAtClose(input: seq<char>, c: Cfg<ItemType>)
    requires WellFormed(input, c) && c.mark == c.cur < |input| && input[c.cur] == ')'
    ensures ScanBinaryOp(input, c)
         == ScanBinaryOp(input, Cfg(c.cur + 1, c.cur + 1, true, c.items + [Item(GroupEnd, ")")]))
  {
    assert input[c.cur..c.cur + 1] == ")";
  }

  /** One of `+ - * /` is emitted as its operator and `lex_group_or_number` takes over. */
  lemma BinaryOpAtOperator(input: seq<char>, c: Cfg<ItemType>)
    requires WellFormed(input, c) && c.mark == c.cur < |input| && OperatorType(input[c.cur]).Some?
    ensures ScanBinaryOp(input, c)
         == (Continue(InGroupOrNumber),
             Cfg(c.cur + 1, c.cur + 1, true, c.items + [Item(OperatorType(input[c.cur]).value, [input[c.cur]])]))
  {
    assert input[c.cur..c.cur + 1] == [input[c.cur]];
  }

  /** Any other character makes `lex_binary_op` panic. */
  lemma BinaryOpAtUnexpected(input: seq<char>, c: Cfg<ItemType>)
    requires WellFormed(input, c) && c.mark <= c.cur < |input|
    requires !IsWhitespace(input[c.cur]) && input[c.cur] != ')' && OperatorType(input[c.cur]).None?
    ensures ScanBinaryOp(input, c).0 == Panicked(ExpectedOperator(input[c.cur]))
  {
  }

  /** At the end of the input, `lex_binary_op` returns `None`. */
  lemma BinaryOpAtEnd(input: seq<char>, c: Cfg<ItemType>)
    requires WellFormed(input, c) && c.mark <= c.cur == |input|
    ensures ScanBinaryOp(input, c) == (Done, c.(back := false))
  {
  }

  /** Where the digits of a number start: after the sign, if there is one. */
  function DigitsStart(input: seq<char>, i: nat): (s: nat)
    requires i < |input|
    ensures s == i || (s == i + 1 && input[i] in NumberSigns)
  {
    if input[i] in NumberSigns then i + 1 else i
  }

  /** Where a number ends: after its digits, and after a `.` and the digits that follow, if any. */
  function NumberEnd(input: seq<char>, j: nat): (k: nat)
    requires j <= |input|
    ensures j <= k <= |input|
  {
    if j < |input| && input[j] == '.' then RunEnd(input, j + 1, Digits) else j
  }

  /** Without a digit after the optional sign, `lex_number` panics, reporting the character after the sign. */
  lemma NumberMissing(input: seq<char>, c: Cfg<ItemType>)
    requires WellFormed(input, c) && c.mark <= c.cur < |input|
    requires RunEnd(input, DigitsStart(input, c.cur), Digits) == DigitsStart(input, c.cur)
    ensures var s := DigitsStart(input, c.cur);
      NumberText(input, c).0 == Panicked(ExpectedNumber(if s < |input| then Some(input[s]) else None))
  {
    var s := DigitsStart(input, c.cur);
    AcceptSpec(input, c, NumberSigns);
    var a := Accept(input, c, NumberSigns);
    assert a.1 == Cfg(c.mark, s, a.0, c.items);
    var d := AcceptRun(input, a.1, Digits);
    assert d == (false, Cfg(c.mark, s, false, c.items));
  }

  /**
   * With digits after the optional sign, `lex_number` takes them, then a `.`
   * and the digits after it if present, and emits everything from the token
   * start as one `Number`.
   */
  lemma NumberFound(input: seq<char>, c: Cfg<ItemType>)
    requires WellFormed(input, c) && c.mark <= c.cur < |input|
    requires RunEnd(input, DigitsStart(input, c.cur), Digits) > DigitsStart(input, c.cur)
    ensures var k := NumberEnd(input, RunEnd(input, DigitsStart(input, c.cur), Digits));
      NumberText(input, c) == (Continue(InBinaryOp), Cfg(k, k, false, c.items + [Item(Number, input[c.mark..k])]))
  {
    var s := DigitsStart(input, c.cur);
    AcceptSpec(input, c, NumberSigns);
    var a := Accept(input, c, NumberSigns);
    assert a.1 == Cfg(c.mark, s, a.0, c.items);
    var j := RunEnd(input, s, Digits);
    var d := AcceptRun(input, a.1, Digits);
    assert d == (true, Cfg(c.mark, j, false, c.items));
    AcceptSpec(input, d.1, DecimalSign);
    var f := Accept(input, d.1, DecimalSign);
    assert f.0 <==> j < |input| && input[j] == '.';
    var e := if f.0 then AcceptRun(input, f.1, Digits).1 else f.1;
    assert e == Cfg(c.mark, NumberEnd(input, j), false, c.items);
  }

  // ---------------------------------------------------------------------
  // A successful run keeps every character but whitespace, in well-typed items
  // ---------------------------------------------------------------------

  /** A reference definition: `s` with its whitespace removed. */
  function NoWhitespace(s: seq<char>): seq<char>
  {
    if |s| == 0 then [] else (if IsWhitespace(s[0]) then [] else [s[0]]) + NoWhitespace(s[1..])
  }

  /** The characters a number is made of are not whitespace. */
  lemma NumberCharsSolid(ch: char)
    requires ch in Digits || ch in NumberSigns || ch == '.'
    ensures !IsWhitespace(ch)
  {
  }

  lemma NoWhitespaceStep(input: seq<char>, i: nat)
    requires i < |input|
    ensures NoWhitespace(input[i..]) == (if IsWhitespace(input[i]) then [] else [input[i]]) + NoWhitespace(input[i + 1..])
  {
    assert input[i..][1..] == input[i + 1..];
  }

  /** Whitespace from `i` to `j` contributes nothing. */
  lemma {:induction false} NoWhitespaceSkip(input: seq<char>, i: nat, j: nat)
    requires i <= j <= |input|
    requires forall k | i <= k < j :: IsWhitespace(input[k])
    ensures NoWhitespace(input[i..]) == NoWhitespace(input[j..])
    decreases j - i
  {
    if i < j {
      calc {
        NoWhitespace(input[i..]);
        { NoWhitespaceStep(input, i); }
        NoWhitespace(input[i + 1..]);
        { NoWhitespaceSkip(input, i + 1, j); }
        NoWhitespace(input[j..]);
      }
    }
  }

  /** Text without whitespace from `i` to `j` contributes itself. */
  lemma {:induction false} NoWhitespaceSolid(input: seq<char>, i: nat, j: nat)
    requires i <= j <= |input|
    requires forall k | i <= k < j :: !IsWhitespace(input[k])
    ensures NoWhitespace(input[i..]) == input[i..j] + NoWhitespace(input[j..])
    decreases j - i
  {
    if i < j {
      calc {
        NoWhitespace(input[i..]);
        { NoWhitespaceStep(input, i); }
        [input[i]] + NoWhitespace(input[i + 1..]);
        { NoWhitespaceSolid(input, i + 1, j); }
        [input[i]] + (input[i + 1..j] + NoWhitespace(input[j..]));
        { assert input[i..j] == [input[i]] + input[i + 1..j]; }
        input[i..j] + NoWhitespace(input[j..]);
      }
    }
  }

  predicate AllDigits(s: seq<char>)
  {
    forall k | 0 <= k < |s| :: s[k] in Digits
  }

  /**
   * The text of a number: an optional `+` or `-`, one or more digits, and
   * optionally a `.` followed by zero or more digits.
   */
  predicate IsNumberText(v: seq<char>)
  {
    var b := if |v| > 0 && v[0] in NumberSigns then v[1..] else v;
    exists n | 0 < n <= |b| :: AllDigits(b[..n]) && (n == |b| || (b[n] == '.' && AllDigits(b[n + 1..])))
  }

  /** What each item type's text is. */
  predicate WellTyped(it: Item<ItemType>)
  {
    match it.typ
    case Number => IsNumberText(it.val)
    case GroupStart => it.val == "("
    case GroupEnd => it.val == ")"
    case OperatorPlus => it.val == "+"
    case OperatorMinus => it.val == "-"
    case OperatorMul => it.val == "*"
    case OperatorDiv => it.val == "/"
    case OperatorNegate => it.val == "-"
  }

  predicate AllWellTyped(items: seq<Item<ItemType>>)
  {
    forall k | 0 <= k < |items| :: WellTyped(items[k])
  }

  /**
   * How each state is entered: with nothing pending, except that
   * `lex_number` may find a `-` pending before the digit under the cursor.
   */
  predicate Entry(input: seq<char>, c: Cfg<ItemType>, s: State)
  {
    || c.mark == c.cur
    || (s == InNumber && c.mark + 1 == c.cur < |input| && input[c.mark] == '-' && input[c.cur] in Digits)
  }

  /** The pending text and what is left of the input, without its whitespace. */
  function Owed(input: seq<char>, c: Cfg<ItemType>): seq<char>
    requires c.mark <= c.cur <= |input|
  {
    Accounted(input, c) + NoWhitespace(input[c.cur..])
  }

  lemma AppendWellTyped(items: seq<Item<ItemType>>, it: Item<ItemType>)
    requires AllWellTyped(items) && WellTyped(it)
    ensures AllWellTyped(items + [it])
  {
  }

  /** Dropping one whitespace character with `ignore` loses nothing that is owed. */
  lemma OwedDropWhitespace(input: seq<char>, c: Cfg<ItemType>)
    requires c.mark == c.cur < |input| && IsWhitespace(input[c.cur])
    ensures Owed(input, Cfg(c.cur + 1, c.cur + 1, true, c.items)) == Owed(input, c)
  {
    NoWhitespaceStep(input, c.cur);
  }

  /** Emitting one character as an item, or leaving it pending, loses nothing that is owed. */
  lemma OwedKeepChar(input: seq<char>, c: Cfg<ItemType>, t: ItemType, b: bool)
    requires c.mark == c.cur < |input| && !IsWhitespace(input[c.cur])
    ensures Owed(input, Cfg(c.cur + 1, c.cur + 1, b, c.items + [Item(t, [input[c.cur]])])) == Owed(input, c)
    ensures Owed(input, Cfg(c.cur, c.cur + 1, b, c.items)) == Owed(input, c)
  {
    NoWhitespaceStep(input, c.cur);
    ConcatAppend(c.items, Item(t, [input[c.cur]]));
    assert input[c.cur..c.cur + 1] == [input[c.cur]];
  }

  /** Digits from `s`, then optionally a `.` and more digits, after an optional sign at `m`: the text of a number. */
  lemma NumberTextIs(input: seq<char>, m: nat, s: nat)
    requires m <= s <= m + 1 && s <= |input|
    requires s == m + 1 ==> input[m] in NumberSigns
    requires RunEnd(input, s, Digits) > s
    ensures IsNumberText(input[m..NumberEnd(input, RunEnd(input, s, Digits))])
  {
    var j := RunEnd(input, s, Digits);
    var k := NumberEnd(input, j);
    DigitNotSign(input[s]);
    SignSplit(input, m, s, k);
    DigitsSlice(input, s, j);
    if j < |input| && input[j] == '.' {
      DigitsSlice(input, j + 1, k);
      PointSplit(input, s, j, k);
      NumberShape(input[s..k], input[s..j], input[j + 1..k]);
    } else {
      NumberShape(input[s..k], input[s..j], []);
    }
  }

  /** The text from `m` without its sign, when `s` is past the sign. */
  lemma SignSplit(input: seq<char>, m: nat, s: nat, k: nat)
    requires m <= s <= m + 1 && s < k <= |input|
    requires s == m + 1 ==> input[m] in NumberSigns
    requires input[s] !in NumberSigns
    ensures var v := input[m..k];
      input[s..k] == if |v| > 0 && v[0] in NumberSigns then v[1..] else v
  {
  }

  lemma PointSplit(input: seq<char>, s: nat, j: nat, k: nat)
    requires s <= j < k <= |input| && input[j] == '.'
    ensures input[s..k] == input[s..j] + ['.'] + input[j + 1..k]
  {
  }

  lemma DigitNotSign(ch: char)
    requires ch in Digits
    ensures ch !in NumberSigns
  {
  }

  lemma DigitsSlice(input: seq<char>, i: nat, j: nat)
    requires i <= j <= |input|
    requires forall k | i <= k < j :: input[k] in Digits
    ensures AllDigits(input[i..j])
  {
    forall t | 0 <= t < j - i
      ensures input[i..j][t] in Digits
    {
      assert input[i..j][t] == input[i + t];
    }
  }

  /** Digits, then either nothing or a `.` and digits: the unsigned part of a number. */
  lemma NumberShape(b: seq<char>, whole: seq<char>, frac: seq<char>)
    requires |whole| > 0 && AllDigits(whole) && AllDigits(frac)
    requires b == whole || b == whole + ['.'] + frac
    ensures exists n | 0 < n <= |b| :: AllDigits(b[..n]) && (n == |b| || (b[n] == '.' && AllDigits(b[n + 1..])))
  {
    var n := |whole|;
    assert b[..n] == whole;
    if b != whole {
      assert b[n] == '.' && b[n + 1..] == frac;
    }
  }

  /** The digits, `.` and fraction digits of a number are not whitespace. */
  lemma NumberSolid(input: seq<char>, s: nat)
    requires s <= |input|
    ensures var k := NumberEnd(input, RunEnd(input, s, Digits));
      forall i | s <= i < k :: !IsWhitespace(input[i])
  {
    var k := NumberEnd(input, RunEnd(input, s, Digits));
    forall i | s <= i < k
      ensures !IsWhitespace(input[i])
    {
      NumberCharsSolid(input[i]);
    }
  }

  /** After an item is emitted, what is owed is the items' texts and the rest of the input. */
  lemma OwedAfterItem(input: seq<char>, k: nat, items: seq<Item<ItemType>>, it: Item<ItemType>)
    requires k <= |input|
    ensures Owed(input, Cfg(k, k, false, items + [it])) == Concat(items) + it.val + NoWhitespace(input[k..])
  {
    ConcatAppend(items, it);
    assert Pending(input, Cfg(k, k, false, items + [it])) == [];
  }

  /** Emitting text from `m` to `k` that holds no whitespace loses nothing that is owed. */
  lemma OwedSolidItem(input: seq<char>, m: nat, k: nat, items: seq<Item<ItemType>>, t: ItemType)
    requires m <= k <= |input|
    requires forall i | m <= i < k :: !IsWhitespace(input[i])
    ensures Owed(input, Cfg(k, k, false, items + [Item(t, input[m..k])])) == Concat(items) + NoWhitespace(input[m..])
  {
    var v := input[m..k];
    calc {
      Owed(input, Cfg(k, k, false, items + [Item(t, v)]));
      { OwedAfterItem(input, k, items, Item(t, v)); }
      Concat(items) + v + NoWhitespace(input[k..]);
      { AppendAssoc(Concat(items), v, NoWhitespace(input[k..])); }
      Concat(items) + (v + NoWhitespace(input[k..]));
      { NoWhitespaceSolid(input, m, k); }
      Concat(items) + NoWhitespace(input[m..]);
    }
  }

  /** The number a number state emits, from its optional sign at `m`, loses nothing that is owed. */
  lemma NumberOwed(input: seq<char>, m: nat, s: nat, items: seq<Item<ItemType>>)
    requires m <= s <= m + 1 && s <= |input|
    requires s == m + 1 ==> input[m] in NumberSigns
    ensures var k := NumberEnd(input, RunEnd(input, s, Digits));
      Owed(input, Cfg(k, k, false, items + [Item(Number, input[m..k])])) == Concat(items) + NoWhitespace(input[m..])
  {
    NumberSolid(input, s);
    if s == m + 1 {
      NumberCharsSolid(input[m]);
    }
    OwedSolidItem(input, m, NumberEnd(input, RunEnd(input, s, Digits)), items, Number);
  }

  /** Once the whitespace is skipped, `lex_number` is `NumberText`. */
  lemma ScanNumberAfterWhitespace(input: seq<char>, c: Cfg<ItemType>, w: Cfg<ItemType>)
    requires WellFormed(input, c) && c.mark <= c.cur
    requires SkipWhitespace(input, c) == (true, w)
    ensures ScanNumber(input, c) == NumberText(input, w)
  {
  }

  /**
   * What a step of `lex_group_or_number` entered with nothing pending
   * leaves: the next state is entered as it expects, every emitted item is
   * well-typed, and the text owed stays the same.
   */
  predicate GroupStepSound(input: seq<char>, c: Cfg<ItemType>, r: (Outcome, Cfg<ItemType>))
    requires c.mark <= c.cur <= |input| && r.1.mark <= r.1.cur <= |input|
  {
    && (r.0.Continue? ==> Entry(input, r.1, r.0.next))
    && (r.0 == Done ==> r.1.mark == r.1.cur)
    && AllWellTyped(r.1.items)
    && Owed(input, r.1) == Owed(input, c)
  }

  /** A character `lex_group_or_number` skips or emits and loops on keeps the step sound, given that the rest does. */
  lemma GroupSoundWhitespace(input: seq<char>, c: Cfg<ItemType>)
    requires WellFormed(input, c) && c.mark == c.cur < |input| && IsWhitespace(input[c.cur])
    requires var c1 := Cfg(c.cur + 1, c.cur + 1, true, c.items);
      GroupStepSound(input, c1, ScanGroupOrNumber(input, c1))
    ensures GroupStepSound(input, c, ScanGroupOrNumber(input, c))
  {
    GroupOrNumberAtWhitespace(input, c);
    OwedDropWhitespace(input, c);
  }

  lemma GroupSoundNegate(input: seq<char>, c: Cfg<ItemType>)
    requires WellFormed(input, c) && c.mark == c.cur < |input| && input[c.cur] == '-'
    requires c.cur + 1 == |input| || input[c.cur + 1] !in Digits
    requires var c1 := Cfg(c.cur + 1, c.cur + 1, false, c.items + [Item(OperatorNegate, "-")]);
      GroupStepSound(input, c1, ScanGroupOrNumber(input, c1))
    ensures GroupStepSound(input, c, ScanGroupOrNumber(input, c))
  {
    GroupOrNumberAtNegate(input, c);
    OwedKeepChar(input, c, OperatorNegate, false);
  }

  lemma GroupSoundOpen(input: seq<char>, c: Cfg<ItemType>)
    requires WellFormed(input, c) && c.mark == c.cur < |input| && input[c.cur] == '('
    requires var c1 := Cfg(c.cur + 1, c.cur + 1, true, c.items + [Item(GroupStart, "(")]);
      GroupStepSound(input, c1, ScanGroupOrNumber(input, c1))
    ensures GroupStepSound(input, c, ScanGroupOrNumber(input, c))
  {
    GroupOrNumberAtOpen(input, c);
    OwedKeepChar(input, c, GroupStart, true);
  }

  /** A character that ends `lex_group_or_number` leaves the step sound. */
  lemma GroupSoundSigned(input: seq<char>, c: Cfg<ItemType>)
    requires WellFormed(input, c) && c.mark == c.cur && c.cur + 1 < |input| && AllWellTyped(c.items)
    requires input[c.cur] == '-' && input[c.cur + 1] in Digits
    ensures GroupStepSound(input, c, ScanGroupOrNumber(input, c))
  {
    GroupOrNumberAtSignedNumber(input, c);
    OwedKeepChar(input, c, OperatorNegate, false);
  }

  lemma GroupSoundClose(input: seq<char>, c: Cfg<ItemType>)
    requires WellFormed(input, c) && c.mark == c.cur < |input| && input[c.cur] == ')' && AllWellTyped(c.items)
    ensures GroupStepSound(input, c, ScanGroupOrNumber(input, c))
  {
    GroupOrNumberAtClose(input, c);
    OwedKeepChar(input, c, GroupEnd, true);
    AppendWellTyped(c.items, Item(GroupEnd, ")"));
  }

  /** `lex_group_or_number` entered with nothing pending is sound. */
  lemma {:induction false} GroupOrNumberSound(input: seq<char>, c: Cfg<ItemType>)
    requires WellFormed(input, c) && c.mark == c.cur && AllWellTyped(c.items)
    ensures GroupStepSound(input, c, ScanGroupOrNumber(input, c))
    decreases |input| - c.cur
  {
    if c.cur == |input| {
      GroupOrNumberAtEnd(input, c);
      return;
    }
    var ch := input[c.cur];
    if IsWhitespace(ch) {
      GroupOrNumberSound(input, Cfg(c.cur + 1, c.cur + 1, true, c.items));
      GroupSoundWhitespace(input, c);
    } else if ch == '-' && c.cur + 1 < |input| && input[c.cur + 1] in Digits {
      GroupSoundSigned(input, c);
    } else if ch == '-' {
      AppendWellTyped(c.items, Item(OperatorNegate, "-"));
      GroupOrNumberSound(input, Cfg(c.cur + 1, c.cur + 1, false, c.items + [Item(OperatorNegate, "-")]));
      GroupSoundNegate(input, c);
    } else if ch == '(' {
      AppendWellTyped(c.items, Item(GroupStart, "("));
      GroupOrNumberSound(input, Cfg(c.cur + 1, c.cur + 1, true, c.items + [Item(GroupStart, "(")]));
      GroupSoundOpen(input, c);
    } else if ch == ')' {
      GroupSoundClose(input, c);
    } else {
      GroupOrNumberAtOperand(input, c);
    }
  }

  /**
   * What a step of `lex_binary_op` entered with nothing pending leaves,
   * unless it panics: nothing pending, every emitted item well-typed, and
   * the same text owed.
   */
  predicate BinaryStepSound(input: seq<char>, c: Cfg<ItemType>, r: (Outcome, Cfg<ItemType>))
    requires c.mark <= c.cur <= |input| && r.1.mark <= r.1.cur <= |input|
  {
    !r.0.Panicked? ==>
      && r.1.mark == r.1.cur
      && AllWellTyped(r.1.items)
      && Owed(input, r.1) == Owed(input, c)
  }

  lemma BinarySoundWhitespace(input: seq<char>, c: Cfg<ItemType>)
    requires WellFormed(input, c) && c.mark == c.cur < |input| && IsWhitespace(input[c.cur])
    requires var c1 := Cfg(c.cur + 1, c.cur + 1, true, c.items);
      BinaryStepSound(input, c1, ScanBinaryOp(input, c1))
    ensures BinaryStepSound(input, c, ScanBinaryOp(input, c))
  {
    BinaryOpAtWhitespace(input, c);
    OwedDropWhitespace(input, c);
  }

  lemma BinarySoundClose(input: seq<char>, c: Cfg<ItemType>)
    requires WellFormed(input, c) && c.mark == c.cur < |input| && input[c.cur] == ')'
    requires var c1 := Cfg(c.cur + 1, c.cur + 1, true, c.items + [Item(GroupEnd, ")")]);
      BinaryStepSound(input, c1, ScanBinaryOp(input, c1))
    ensures BinaryStepSound(input, c, ScanBinaryOp(input, c))
  {
    BinaryOpAtClose(input, c);
    OwedKeepChar(input, c, GroupEnd, true);
  }

  lemma BinarySoundOperator(input: seq<char>, c: Cfg<ItemType>)
    requires WellFormed(input, c) && c.mark == c.cur < |input| && OperatorType(input[c.cur]).Some?
    requires AllWellTyped(c.items)
    ensures BinaryStepSound(input, c, ScanBinaryOp(input, c))
  {
    BinaryOpAtOperator(input, c);
    var t := OperatorType(input[c.cur]).value;
    OwedKeepChar(input, c, t, true);
    AppendWellTyped(c.items, Item(t, [input[c.cur]]));
  }

  /** `lex_binary_op` entered with nothing pending is sound unless it panics. */
  lemma {:induction false} BinaryOpSound(input: seq<char>, c: Cfg<ItemType>)
    requires WellFormed(input, c) && c.mark == c.cur && AllWellTyped(c.items)
    ensures BinaryStepSound(input, c, ScanBinaryOp(input, c))
    decreases |input| - c.cur
  {
    if c.cur == |input| {
      BinaryOpAtEnd(input, c);
      return;
    }
    var ch := input[c.cur];
    if IsWhitespace(ch) {
      BinaryOpSound(input, Cfg(c.cur + 1, c.cur + 1, true, c.items));
      BinarySoundWhitespace(input, c);
    } else if ch == ')' {
      AppendWellTyped(c.items, Item(GroupEnd, ")"));
      BinaryOpSound(input, Cfg(c.cur + 1, c.cur + 1, true, c.items + [Item(GroupEnd, ")")]));
      BinarySoundClose(input, c);
    } else if OperatorType(ch).Some? {
      BinarySoundOperator(input, c);
    } else {
      BinaryOpAtUnexpected(input, c);
    }
  }

  /** `lex_number` entered with a `-` pending before a digit. */
  lemma NumberSoundSigned(input: seq<char>, c: Cfg<ItemType>)
    requires WellFormed(input, c) && AllWellTyped(c.items)
    requires c.mark + 1 == c.cur < |input| && input[c.mark] == '-' && input[c.cur] in Digits
    ensures var r := ScanNumber(input, c);
      && r.0 == Continue(InBinaryOp) && r.1.mark == r.1.cur
      && AllWellTyped(r.1.items)
      && Owed(input, r.1) == Owed(input, c)
  {
    NumberCharsSolid(input[c.cur]);
    SkipWhitespaceSpec(input, c, c.cur);
    var w := Cfg(c.mark, c.cur, false, c.items);
    ScanNumberAfterWhitespace(input, c, w);
    assert DigitsStart(input, c.cur) == c.cur;
    NumberFound(input, w);
    var k := NumberEnd(input, RunEnd(input, c.cur, Digits));
    NumberTextIs(input, c.mark, c.cur);
    AppendWellTyped(c.items, Item(Number, input[c.mark..k]));
    NumberOwed(input, c.mark, c.cur, c.items);
    NumberCharsSolid(input[c.mark]);
    OwedOnePending(input, c);
  }

  /** With one character that is not whitespace pending, what is owed is the items' texts and the input from it on, without whitespace. */
  lemma OwedOnePending(input: seq<char>, c: Cfg<ItemType>)
    requires c.mark + 1 == c.cur <= |input| && !IsWhitespace(input[c.mark])
    ensures Owed(input, c) == Concat(c.items) + NoWhitespace(input[c.mark..])
  {
    NoWhitespaceStep(input, c.mark);
    assert Pending(input, c) == [input[c.mark]];
  }

  /** `lex_number` once the whitespace is skipped, at a number with nothing pending. */
  lemma NumberSoundAt(input: seq<char>, i: nat, items: seq<Item<ItemType>>)
    requires i < |input| && AllWellTyped(items)
    ensures var r := NumberText(input, Cfg(i, i, false, items));
      !r.0.Panicked? ==>
        && r.1.mark == r.1.cur
        && AllWellTyped(r.1.items)
        && Owed(input, r.1) == Concat(items) + NoWhitespace(input[i..])
  {
    var w := Cfg(i, i, false, items);
    var s := DigitsStart(input, i);
    if RunEnd(input, s, Digits) == s {
      NumberMissing(input, w);
      return;
    }
    NumberFound(input, w);
    var k := NumberEnd(input, RunEnd(input, s, Digits));
    NumberTextIs(input, i, s);
    AppendWellTyped(items, Item(Number, input[i..k]));
    NumberOwed(input, i, s, items);
  }

  /** `lex_number` entered with nothing pending. */
  lemma NumberSoundPlain(input: seq<char>, c: Cfg<ItemType>)
    requires WellFormed(input, c) && c.mark == c.cur && AllWellTyped(c.items)
    ensures var r := ScanNumber(input, c);
      !r.0.Panicked? ==>
        && r.1.mark == r.1.cur
        && AllWellTyped(r.1.items)
        && Owed(input, r.1) == Owed(input, c)
  {
    var w := SkipWhitespace(input, c);
    NoWhitespaceSkip(input, c.cur, w.1.cur);
    assert Owed(input, c) == Concat(c.items) + NoWhitespace(input[w.1.cur..]) by {
      assert Pending(input, c) == [];
    }
    if w.0 {
      ScanNumberAfterWhitespace(input, c, w.1);
      assert w.1 == Cfg(w.1.cur, w.1.cur, false, c.items);
      NumberSoundAt(input, w.1.cur, c.items);
    } else {
      assert Pending(input, w.1) == [];
    }
  }

  /** One state call, entered as it expects, keeps the run's invariant unless it panics. */
  lemma StepSound(input: seq<char>, c: Cfg<ItemType>, s: State)
    requires WellFormed(input, c) && c.mark <= c.cur && Entry(input, c, s) && AllWellTyped(c.items)
    ensures var r := StepOf(input, c, s);
      !r.0.Panicked? ==>
        && (r.0.Continue? ==> Entry(input, r.1, r.0.next))
        && (r.0 == Done ==> r.1.mark == r.1.cur)
        && AllWellTyped(r.1.items)
        && Owed(input, r.1) == Owed(input, c)
  {
    match s
    case InGroupOrNumber => GroupOrNumberSound(input, c);
    case InBinaryOp => BinaryOpSound(input, c);
    case InNumber =>
      if c.mark == c.cur {
        NumberSoundPlain(input, c);
      } else {
        NumberSoundSigned(input, c);
      }
  }

  /** A run that ends without a panic has well-typed items whose texts are what was owed when it started. */
  lemma {:induction false} RunSound(input: seq<char>, c: Cfg<ItemType>, s: State)
    requires WellFormed(input, c) && c.mark <= c.cur && Entry(input, c, s) && AllWellTyped(c.items)
    ensures RunFrom(input, c, s).Success? ==>
      && AllWellTyped(RunFrom(input, c, s).value.items)
      && Concat(RunFrom(input, c, s).value.items) == Owed(input, c)
    decreases |input| - c.cur, Rank(s)
  {
    var step := StepOf(input, c, s);
    StepSound(input, c, s);
    match step.0
    case Done =>
      assert Pending(input, step.1) == [] && input[step.1.cur..] == [];
    case Panicked(_) =>
    case Continue(next) =>
      RunSound(input, step.1, next);
  }

  /**
   * What `lex` returns when no state panics: every item's text is what its
   * type says (a number, a parenthesis, an operator), and the texts, in
   * order, are the whole input with its whitespace removed.
   */
  lemma TokensSound(input: seq<char>, s: State)
    ensures Tokens(input, s).Success? ==>
      && AllWellTyped(Tokens(input, s).value)
      && Concat(Tokens(input, s).value) == NoWhitespace(input)
  {
    var c: Cfg<ItemType> := Init();
    RunSound(input, c, s);
    assert Owed(input, c) == NoWhitespace(input) by {
      assert Pending(input, c) == [] && input[0..] == input;
    }
  }

  // ---------------------------------------------------------------------
  // What a panic reports
  // ---------------------------------------------------------------------

  /**
   * The reason of a panic is one the source can reach: a character of the
   * input that is neither whitespace, `)` nor an operator where an operator
   * is due, or what `next` returns where a digit is due: the end of the
   * input or a character of it that is no digit.
   */
  predicate PanicFits(input: seq<char>, why: PanicReason)
  {
    match why
    case ExpectedOperator(ch) => ch in input && !IsWhitespace(ch) && ch != ')' && OperatorType(ch).None?
    case ExpectedNumber(got) => got.None? || (got.value in input && got.value !in Digits)
  }

  /** `lex_binary_op` panics only on a character that fits none of its arms. */
  lemma {:induction false} BinaryOpPanics(input: seq<char>, c: Cfg<ItemType>)
    requires WellFormed(input, c) && c.mark <= c.cur
    ensures ScanBinaryOp(input, c).0.Panicked? ==> PanicFits(input, ScanBinaryOp(input, c).0.reason)
    decreases |input| - c.cur
  {
    var n := Next(input, c);
    if n.0.Some? {
      var ch := n.0.value;
      assert ch == input[c.cur];
      if IsWhitespace(ch) {
        BinaryOpPanics(input, Ignore(n.1));
      } else if ch == ')' {
        BinaryOpPanics(input, Emit(input, n.1, GroupEnd));
      }
    }
  }

  /** `lex_number` panics only where no digit follows the optional sign. */
  lemma NumberPanics(input: seq<char>, c: Cfg<ItemType>)
    requires WellFormed(input, c) && c.mark <= c.cur
    ensures ScanNumber(input, c).0.Panicked? ==> PanicFits(input, ScanNumber(input, c).0.reason)
  {
    var w := SkipWhitespace(input, c);
    if w.0 {
      var a := Accept(input, w.1, NumberSigns).1;
      var j := RunEnd(input, a.cur, Digits);
      if j < |input| {
        assert input[j] in input;
      }
    }
  }

  /** A run panics only as one of its states does. */
  lemma {:induction false} RunPanics(input: seq<char>, c: Cfg<ItemType>, s: State)
    requires WellFormed(input, c) && c.mark <= c.cur
    ensures RunFrom(input, c, s).Failure? ==> PanicFits(input, RunFrom(input, c, s).error)
    decreases |input| - c.cur, Rank(s)
  {
    var step := StepOf(input, c, s);
    if s == InBinaryOp {
      BinaryOpPanics(input, c);
    } else if s == InNumber {
      NumberPanics(input, c);
    }
    if step.0.Continue? {
      RunPanics(input, step.1, step.0.next);
    }
  }

  // ---------------------------------------------------------------------
  // Runs, one token at a time
  // ---------------------------------------------------------------------

  /** A run continues with the state the current one returns. */
  lemma RunContinues(input: seq<char>, c: Cfg<ItemType>, s: State)
    requires WellFormed(input, c) && c.mark <= c.cur
    requires StepOf(input, c, s).0.Continue?
    ensures RunFrom(input, c, s) == RunFrom(input, StepOf(input, c, s).1, StepOf(input, c, s).0.next)
  {
  }

  /** Whitespace between tokens leaves the run unchanged, in either of the two states that skip it. */
  lemma RunSkipsSpace(input: seq<char>, c: Cfg<ItemType>, s: State)
    requires WellFormed(input, c) && c.mark == c.cur < |input| && IsWhitespace(input[c.cur])
    requires s != InNumber
    ensures RunFrom(input, c, s) == RunFrom(input, Cfg(c.cur + 1, c.cur + 1, true, c.items), s)
  {
    if s == InGroupOrNumber {
      GroupOrNumberAtWhitespace(input, c);
    } else {
      BinaryOpAtWhitespace(input, c);
    }
  }

  /** A `-` that does not start a number is a negation. */
  lemma RunNegate(input: seq<char>, c: Cfg<ItemType>)
    requires WellFormed(input, c) && c.mark == c.cur < |input| && input[c.cur] == '-'
    requires c.cur + 1 == |input| || input[c.cur + 1] !in Digits
    ensures RunFrom(input, c, InGroupOrNumber)
         == RunFrom(input, Cfg(c.cur + 1, c.cur + 1, false, c.items + [Item(OperatorNegate, "-")]), InGroupOrNumber)
  {
    GroupOrNumberAtNegate(input, c);
  }

  /** A `(` opens a group where a number may come. */
  lemma RunOpen(input: seq<char>, c: Cfg<ItemType>)
    requires WellFormed(input, c) && c.mark == c.cur < |input| && input[c.cur] == '('
    ensures RunFrom(input, c, InGroupOrNumber)
         == RunFrom(input, Cfg(c.cur + 1, c.cur + 1, true, c.items + [Item(GroupStart, "(")]), InGroupOrNumber)
  {
    GroupOrNumberAtOpen(input, c);
  }

  /** A `)` where an operator may come closes a group. */
  lemma RunClose(input: seq<char>, c: Cfg<ItemType>)
    requires WellFormed(input, c) && c.mark == c.cur < |input| && input[c.cur] == ')'
    ensures RunFrom(input, c, InBinaryOp)
         == RunFrom(input, Cfg(c.cur + 1, c.cur + 1, true, c.items + [Item(GroupEnd, ")")]), InBinaryOp)
  {
    BinaryOpAtClose(input, c);
  }

  /** An operator is emitted and a number or group may come next. */
  lemma RunOperator(input: seq<char>, c: Cfg<ItemType>, t: ItemType)
    requires WellFormed(input, c) && c.mark == c.cur < |input| && OperatorType(input[c.cur]) == Some(t)
    ensures RunFrom(input, c, InBinaryOp)
         == RunFrom(input, Cfg(c.cur + 1, c.cur + 1, true, c.items + [Item(t, [input[c.cur]])]), InGroupOrNumber)
  {
    BinaryOpAtOperator(input, c);
    RunContinues(input, c, InBinaryOp);
  }

  /** A run where an operator may come ends at the end of the input. */
  lemma RunEnds(input: seq<char>, c: Cfg<ItemType>)
    requires WellFormed(input, c) && c.mark <= c.cur == |input|
    ensures RunFrom(input, c, InBinaryOp) == Success(c.(back := false))
  {
    BinaryOpAtEnd(input, c);
  }

  /**
   * Digits from the cursor up to `k`, with nothing pending or a `-` pending
   * before them, followed by neither a digit nor a `.`: `lex_number` emits
   * them, the `-` included, as one `Number`.
   */
  lemma RunNumber(input: seq<char>, c: Cfg<ItemType>, k: nat)
    requires WellFormed(input, c) && c.cur < k <= |input|
    requires c.mark == c.cur || (c.mark + 1 == c.cur && input[c.mark] == '-')
    requires forall j | c.cur <= j < k :: input[j] in Digits
    requires k == |input| || (input[k] !in Digits && input[k] != '.')
    ensures RunFrom(input, c, InNumber)
         == RunFrom(input, Cfg(k, k, false, c.items + [Item(Number, input[c.mark..k])]), InBinaryOp)
  {
    NumberDigitsAt(input, Cfg(c.mark, c.cur, false, c.items), k);
    NumberCharsSolid(input[c.cur]);
    SkipWhitespaceSpec(input, c, c.cur);
    ScanNumberAfterWhitespace(input, c, Cfg(c.mark, c.cur, false, c.items));
    RunContinues(input, c, InNumber);
  }

  /** `NumberText` at a run of digits that ends at `k`, with no sign under the cursor. */
  lemma NumberDigitsAt(input: seq<char>, c: Cfg<ItemType>, k: nat)
    requires WellFormed(input, c) && c.mark <= c.cur < k <= |input|
    requires forall j | c.cur <= j < k :: input[j] in Digits
    requires k == |input| || (input[k] !in Digits && input[k] != '.')
    ensures NumberText(input, c) == (Continue(InBinaryOp), Cfg(k, k, false, c.items + [Item(Number, input[c.mark..k])]))
  {
    assert DigitsStart(input, c.cur) == c.cur;
    RunEndUnique(input, c.cur, k, Digits);
    assert NumberEnd(input, k) == k;
    NumberFound(input, c);
  }

  /** A number where a number or group may come, with or without its `-`. */
  lemma RunNumberFirst(input: seq<char>, c: Cfg<ItemType>, k: nat)
    requires WellFormed(input, c) && c.mark == c.cur && c.cur < k <= |input|
    requires forall j | c.cur <= j < k :: input[j] in Digits
    requires k == |input| || (input[k] !in Digits && input[k] != '.')
    ensures RunFrom(input, c, InGroupOrNumber)
         == RunFrom(input, Cfg(k, k, false, c.items + [Item(Number, input[c.cur..k])]), InBinaryOp)
  {
    NumberCharsSolid(input[c.cur]);
    GroupOrNumberAtOperand(input, c);
    RunContinues(input, c, InGroupOrNumber);
    RunNumber(input, c.(back := false), k);
  }

  /** A `-` right before digits where a number may come: a negative number. */
  lemma RunSignedNumber(input: seq<char>, c: Cfg<ItemType>, k: nat)
    requires WellFormed(input, c) && c.mark == c.cur && c.cur + 1 < k <= |input| && input[c.cur] == '-'
    requires forall j | c.cur + 1 <= j < k :: input[j] in Digits
    requires k == |input| || (input[k] !in Digits && input[k] != '.')
    ensures RunFrom(input, c, InGroupOrNumber)
         == RunFrom(input, Cfg(k, k, false, c.items + [Item(Number, input[c.cur..k])]), InBinaryOp)
  {
    GroupOrNumberAtSignedNumber(input, c);
    RunContinues(input, c, InGroupOrNumber);
    RunNumber(input, Cfg(c.mark, c.cur + 1, false, c.items), k);
  }

  /** A character from `0` to `9` is one of the digits. */
  lemma DigitMember(ch: char)
    requires '0' <= ch <= '9'
    ensures ch in Digits
  {
    assert Digits[ch as int - '0' as int] == ch;
  }

  /** A character outside `0` to `9` is not one of the digits. */
  lemma NotDigit(ch: char)
    requires ch < '0' || '9' < ch
    ensures ch !in Digits
  {
  }

  lemma ShortSlices(s: seq<char>, i: nat)
    ensures i + 1 <= |s| ==> s[i..i + 1] == [s[i]]
    ensures i + 2 <= |s| ==> s[i..i + 2] == [s[i], s[i + 1]]
    ensures i + 3 <= |s| ==> s[i..i + 3] == [s[i], s[i + 1], s[i + 2]]
  {
  }

  /** An operator with whitespace on both sides, where an operator may come. */
  lemma RunSpacedOperator(input: seq<char>, c: Cfg<ItemType>, t: ItemType)
    requires WellFormed(input, c) && c.mark == c.cur && c.cur + 2 < |input|
    requires IsWhitespace(input[c.cur]) && OperatorType(input[c.cur + 1]) == Some(t) && IsWhitespace(input[c.cur + 2])
    ensures RunFrom(input, c, InBinaryOp)
         == RunFrom(input, Cfg(c.cur + 3, c.cur + 3, true, c.items + [Item(t, [input[c.cur + 1]])]), InGroupOrNumber)
  {
    var i := c.cur;
    RunSkipsSpace(input, c, InBinaryOp);
    RunOperator(input, Cfg(i + 1, i + 1, true, c.items), t);
    RunSkipsSpace(input, Cfg(i + 2, i + 2, true, c.items + [Item(t, [input[i + 1]])]), InGroupOrNumber);
  }

  /** A character from `0` to `9` is a run of one digit, and its slice is exactly it. */
  lemma OneDigit(s: seq<char>, i: nat)
    requires i < |s| && '0' <= s[i] <= '9'
    ensures forall j | i <= j < i + 1 :: s[j] in Digits
    ensures s[i..i + 1] == [s[i]]
  {
    DigitMember(s[i]);
  }

  /** A single digit where a number or group may come, followed by neither a digit nor a `.`. */
  lemma RunDigit(input: seq<char>, c: Cfg<ItemType>)
    requires WellFormed(input, c) && c.mark == c.cur < |input| && '0' <= input[c.cur] <= '9'
    requires c.cur + 1 == |input| || (input[c.cur + 1] !in Digits && input[c.cur + 1] != '.')
    ensures RunFrom(input, c, InGroupOrNumber)
         == RunFrom(input, Cfg(c.cur + 1, c.cur + 1, false, c.items + [Item(Number, [input[c.cur]])]), InBinaryOp)
  {
    OneDigit(input, c.cur);
    RunNumberFirst(input, c, c.cur + 1);
  }

  /** A `-` and a single digit where a number or group may come, followed by neither a digit nor a `.`. */
  lemma RunSignedDigit(input: seq<char>, c: Cfg<ItemType>)
    requires WellFormed(input, c) && c.mark == c.cur && c.cur + 1 < |input| && input[c.cur] == '-'
    requires '0' <= input[c.cur + 1] <= '9'
    requires c.cur + 2 == |input| || (input[c.cur + 2] !in Digits && input[c.cur + 2] != '.')
    ensures RunFrom(input, c, InGroupOrNumber)
         == RunFrom(input, Cfg(c.cur + 2, c.cur + 2, false, c.items + [Item(Number, [input[c.cur], input[c.cur + 1]])]), InBinaryOp)
  {
    OneDigit(input, c.cur + 1);
    ShortSlices(input, c.cur);
    RunSignedNumber(input, c, c.cur + 2);
  }

  /** Three characters from `0` to `9` in a row are digits, and their slice is exactly them. */
  lemma ThreeDigits(s: seq<char>, i: nat)
    requires i + 2 < |s| && '0' <= s[i] <= '9' && '0' <= s[i + 1] <= '9' && '0' <= s[i + 2] <= '9'
    ensures forall j | i <= j < i + 3 :: s[j] in Digits
    ensures s[i..i + 3] == [s[i], s[i + 1], s[i + 2]]
  {
    DigitMember(s[i]);
    DigitMember(s[i + 1]);
    DigitMember(s[i + 2]);
    ShortSlices(s, i);
  }

  /** Three digits where a number or group may come, followed by neither a digit nor a `.`. */
  lemma RunThreeDigits(input: seq<char>, c: Cfg<ItemType>)
    requires WellFormed(input, c) && c.mark == c.cur && c.cur + 2 < |input|
    requires '0' <= input[c.cur] <= '9' && '0' <= input[c.cur + 1] <= '9' && '0' <= input[c.cur + 2] <= '9'
    requires c.cur + 3 == |input| || (input[c.cur + 3] !in Digits && input[c.cur + 3] != '.')
    ensures RunFrom(input, c, InGroupOrNumber)
         == RunFrom(input, Cfg(c.cur + 3, c.cur + 3, false,
              c.items + [Item(Number, [input[c.cur], input[c.cur + 1], input[c.cur + 2]])]), InBinaryOp)
  {
    ThreeDigits(input, c.cur);
    RunNumberFirst(input, c, c.cur + 3);
  }

  // ---------------------------------------------------------------------
  // The example of `test_parser`
  // ---------------------------------------------------------------------

  const Example := "-( 123 + 2 * 3 ) * 4 + -5 * -(5+6)"

  lemma ExampleChars0()
    ensures |Example| == 34 && Example[0] == '-' && Example[1] == '(' && Example[2] == ' ' && Example[3] == '1' && Example[4] == '2'
  {
  }

  lemma ExampleChars1()
    ensures |Example| == 34 && Example[5] == '3' && Example[6] == ' ' && Example[7] == '+' && Example[8] == ' ' && Example[9] == '2'
  {
  }

  lemma ExampleChars2()
    ensures |Example| == 34 && Example[10] == ' ' && Example[11] == '*' && Example[12] == ' ' && Example[13] == '3' && Example[14] == ' '
  {
  }

  lemma ExampleChars3()
    ensures |Example| == 34 && Example[15] == ')' && Example[16] == ' ' && Example[17] == '*' && Example[18] == ' ' && Example[19] == '4'
  {
  }

  lemma ExampleChars4()
    ensures |Example| == 34 && Example[20] == ' ' && Example[21] == '+' && Example[22] == ' ' && Example[23] == '-' && Example[24] == '5'
  {
  }

  lemma ExampleChars5()
    ensures |Example| == 34 && Example[25] == ' ' && Example[26] == '*' && Example[27] == ' ' && Example[28] == '-' && Example[29] == '('
  {
  }

  lemma ExampleChars6()
    ensures |Example| == 34 && Example[30] == '5' && Example[31] == '+' && Example[32] == '6' && Example[33] == ')'
  {
  }

  /** Whitespace, operators and `)` end a number. */
  lemma EndsNumber(ch: char)
    requires IsWhitespace(ch) || OperatorType(ch).Some? || ch == ')'
    ensures ch !in Digits && ch != '.'
  {
    NotDigit(ch);
  }

  /** `-(`: a negation straight before a group. */
  lemma RunNegateOpen(input: seq<char>, c: Cfg<ItemType>)
    requires WellFormed(input, c) && c.mark == c.cur && c.cur + 1 < |input| && input[c.cur] == '-' && input[c.cur + 1] == '('
    ensures RunFrom(input, c, InGroupOrNumber)
         == RunFrom(input, Cfg(c.cur + 2, c.cur + 2, true, c.items + [Item(OperatorNegate, "-"), Item(GroupStart, "(")]),
              InGroupOrNumber)
  {
    NotDigit(input[c.cur + 1]);
    var i1 := c.items + [Item(OperatorNegate, "-")];
    assert i1 + [Item(GroupStart, "(")] == c.items + [Item(OperatorNegate, "-"), Item(GroupStart, "(")];
    RunNegate(input, c);
    RunOpen(input, Cfg(c.cur + 1, c.cur + 1, false, i1));
  }

  /** A single digit, then an operator with whitespace on both sides. */
  lemma RunDigitSpacedOperator(input: seq<char>, c: Cfg<ItemType>, t: ItemType)
    requires WellFormed(input, c) && c.mark == c.cur && c.cur + 3 < |input| && '0' <= input[c.cur] <= '9'
    requires IsWhitespace(input[c.cur + 1]) && OperatorType(input[c.cur + 2]) == Some(t) && IsWhitespace(input[c.cur + 3])
    ensures RunFrom(input, c, InGroupOrNumber)
         == RunFrom(input, Cfg(c.cur + 4, c.cur + 4, true,
              c.items + [Item(Number, [input[c.cur]]), Item(t, [input[c.cur + 2]])]), InGroupOrNumber)
  {
    var i := c.cur;
    EndsNumber(input[i + 1]);
    var i1 := c.items + [Item(Number, [input[i]])];
    assert i1 + [Item(t, [input[i + 2]])] == c.items + [Item(Number, [input[i]]), Item(t, [input[i + 2]])];
    RunDigit(input, c);
    RunSpacedOperator(input, Cfg(i + 1, i + 1, false, i1), t);
  }

  /** A `-` and a single digit, then an operator with whitespace on both sides. */
  lemma RunSignedDigitSpacedOperator(input: seq<char>, c: Cfg<ItemType>, t: ItemType)
    requires WellFormed(input, c) && c.mark == c.cur && c.cur + 4 < |input| && input[c.cur] == '-'
    requires '0' <= input[c.cur + 1] <= '9'
    requires IsWhitespace(input[c.cur + 2]) && OperatorType(input[c.cur + 3]) == Some(t) && IsWhitespace(input[c.cur + 4])
    ensures RunFrom(input, c, InGroupOrNumber)
         == RunFrom(input, Cfg(c.cur + 5, c.cur + 5, true,
              c.items + [Item(Number, [input[c.cur], input[c.cur + 1]]), Item(t, [input[c.cur + 3]])]), InGroupOrNumber)
  {
    var i := c.cur;
    EndsNumber(input[i + 2]);
    var i1 := c.items + [Item(Number, [input[i], input[i + 1]])];
    assert i1 + [Item(t, [input[i + 3]])] == c.items + [Item(Number, [input[i], input[i + 1]]), Item(t, [input[i + 3]])];
    RunSignedDigit(input, c);
    RunSpacedOperator(input, Cfg(i + 2, i + 2, false, i1), t);
  }

  /** A single digit, then an operator straight after it. */
  lemma RunDigitOperator(input: seq<char>, c: Cfg<ItemType>, t: ItemType)
    requires WellFormed(input, c) && c.mark == c.cur && c.cur + 1 < |input| && '0' <= input[c.cur] <= '9'
    requires OperatorType(input[c.cur + 1]) == Some(t)
    ensures RunFrom(input, c, InGroupOrNumber)
         == RunFrom(input, Cfg(c.cur + 2, c.cur + 2, true,
              c.items + [Item(Number, [input[c.cur]]), Item(t, [input[c.cur + 1]])]), InGroupOrNumber)
  {
    var i := c.cur;
    EndsNumber(input[i + 1]);
    var i1 := c.items + [Item(Number, [input[i]])];
    assert i1 + [Item(t, [input[i + 1]])] == c.items + [Item(Number, [input[i]]), Item(t, [input[i + 1]])];
    RunDigit(input, c);
    RunOperator(input, Cfg(i + 1, i + 1, false, i1), t);
  }

  /** A single digit, then a `)` straight after it. */
  lemma RunDigitClose(input: seq<char>, c: Cfg<ItemType>)
    requires WellFormed(input, c) && c.mark == c.cur && c.cur + 1 < |input| && '0' <= input[c.cur] <= '9'
    requires input[c.cur + 1] == ')'
    ensures RunFrom(input, c, InGroupOrNumber)
         == RunFrom(input, Cfg(c.cur + 2, c.cur + 2, true, c.items + [Item(Number, [input[c.cur]]), Item(GroupEnd, ")")]),
              InBinaryOp)
  {
    var i := c.cur;
    EndsNumber(input[i + 1]);
    var i1 := c.items + [Item(Number, [input[i]])];
    assert i1 + [Item(GroupEnd, ")")] == c.items + [Item(Number, [input[i]]), Item(GroupEnd, ")")];
    RunDigit(input, c);
    RunClose(input, Cfg(i + 1, i + 1, false, i1));
  }

  /** A single digit, then whitespace, then a `)`. */
  lemma RunDigitSpaceClose(input: seq<char>, c: Cfg<ItemType>)
    requires WellFormed(input, c) && c.mark == c.cur && c.cur + 2 < |input| && '0' <= input[c.cur] <= '9'
    requires IsWhitespace(input[c.cur + 1]) && input[c.cur + 2] == ')'
    ensures RunFrom(input, c, InGroupOrNumber)
         == RunFrom(input, Cfg(c.cur + 3, c.cur + 3, true, c.items + [Item(Number, [input[c.cur]]), Item(GroupEnd, ")")]),
              InBinaryOp)
  {
    var i := c.cur;
    EndsNumber(input[i + 1]);
    var i1 := c.items + [Item(Number, [input[i]])];
    assert i1 + [Item(GroupEnd, ")")] == c.items + [Item(Number, [input[i]]), Item(GroupEnd, ")")];
    RunDigit(input, c);
    RunSkipsSpace(input, Cfg(i + 1, i + 1, false, i1), InBinaryOp);
    RunClose(input, Cfg(i + 2, i + 2, true, i1));
  }

  /** `-( 123 + `: a negation, a group start, a number and an operator. */
  lemma ExampleOpen(s: seq<char>, items: seq<Item<ItemType>>)
    requires |s| > 9 && s[0] == '-' && s[1] == '(' && s[2] == ' '
    ensures RunFrom(s, Cfg(0, 0, false, items), InGroupOrNumber)
         == RunFrom(s, Cfg(3, 3, true, items + [Item(OperatorNegate, "-"), Item(GroupStart, "(")]), InGroupOrNumber)
  {
    RunNegateOpen(s, Cfg(0, 0, false, items));
    RunSkipsSpace(s, Cfg(2, 2, true, items + [Item(OperatorNegate, "-"), Item(GroupStart, "(")]), InGroupOrNumber);
  }

  lemma ExampleSum(s: seq<char>, items: seq<Item<ItemType>>)
    requires |s| > 9 && s[3] == '1' && s[4] == '2' && s[5] == '3'
    requires s[6] == ' ' && s[7] == '+' && s[8] == ' '
    ensures RunFrom(s, Cfg(3, 3, true, items), InGroupOrNumber)
         == RunFrom(s, Cfg(9, 9, true, items + [Item(Number, "123"), Item(OperatorPlus, "+")]), InGroupOrNumber)
  {
    NotDigit(s[6]);
    RunThreeDigits(s, Cfg(3, 3, true, items));
    RunSpacedOperator(s, Cfg(6, 6, false, items + [Item(Number, "123")]), OperatorPlus);
    assert items + [Item(Number, "123")] + [Item(OperatorPlus, "+")] == items + [Item(Number, "123"), Item(OperatorPlus, "+")];
  }

  lemma ExampleFirst(s: seq<char>, items: seq<Item<ItemType>>)
    requires |s| > 9 && s[0] == '-' && s[1] == '(' && s[2] == ' ' && s[3] == '1' && s[4] == '2' && s[5] == '3'
    requires s[6] == ' ' && s[7] == '+' && s[8] == ' '
    ensures RunFrom(s, Cfg(0, 0, false, items), InGroupOrNumber) == RunFrom(s, Cfg(9, 9, true, items + [
      Item(OperatorNegate, "-"), Item(GroupStart, "("), Item(Number, "123"), Item(OperatorPlus, "+")]), InGroupOrNumber)
  {
    var i2 := items + [Item(OperatorNegate, "-"), Item(GroupStart, "(")];
    ExampleOpen(s, items);
    ExampleSum(s, i2);
    assert i2 + [Item(Number, "123"), Item(OperatorPlus, "+")]
        == items + [Item(OperatorNegate, "-"), Item(GroupStart, "("), Item(Number, "123"), Item(OperatorPlus, "+")];
  }

  /** `2 * 3 )`: a product closing the group. */
  lemma ExampleSecond(s: seq<char>, items: seq<Item<ItemType>>)
    requires |s| > 16 && s[9] == '2' && s[10] == ' ' && s[11] == '*' && s[12] == ' ' && s[13] == '3'
    requires s[14] == ' ' && s[15] == ')'
    ensures RunFrom(s, Cfg(9, 9, true, items), InGroupOrNumber) == RunFrom(s, Cfg(16, 16, true, items + [
      Item(Number, "2"), Item(OperatorMul, "*"), Item(Number, "3"), Item(GroupEnd, ")")]), InBinaryOp)
  {
    var i2 := items + [Item(Number, "2"), Item(OperatorMul, "*")];
    RunDigitSpacedOperator(s, Cfg(9, 9, true, items), OperatorMul);
    RunDigitSpaceClose(s, Cfg(13, 13, true, i2));
    assert i2 + [Item(Number, "3"), Item(GroupEnd, ")")]
        == items + [Item(Number, "2"), Item(OperatorMul, "*"), Item(Number, "3"), Item(GroupEnd, ")")];
  }

  /** ` * 4 + -5 * `: operators around a number and a negative number. */
  lemma ExampleThird(s: seq<char>, items: seq<Item<ItemType>>)
    requires |s| > 28 && s[16] == ' ' && s[17] == '*' && s[18] == ' ' && s[19] == '4' && s[20] == ' '
    requires s[21] == '+' && s[22] == ' ' && s[23] == '-' && s[24] == '5' && s[25] == ' ' && s[26] == '*' && s[27] == ' '
    ensures RunFrom(s, Cfg(16, 16, true, items), InBinaryOp) == RunFrom(s, Cfg(28, 28, true, items + [
      Item(OperatorMul, "*"), Item(Number, "4"), Item(OperatorPlus, "+"), Item(Number, "-5"), Item(OperatorMul, "*")]),
      InGroupOrNumber)
  {
    var i1 := items + [Item(OperatorMul, "*")];
    var i3 := i1 + [Item(Number, "4"), Item(OperatorPlus, "+")];
    RunSpacedOperator(s, Cfg(16, 16, true, items), OperatorMul);
    RunDigitSpacedOperator(s, Cfg(19, 19, true, i1), OperatorPlus);
    RunSignedDigitSpacedOperator(s, Cfg(23, 23, true, i3), OperatorMul);
    AppendFive(items, Item(OperatorMul, "*"), Item(Number, "4"), Item(OperatorPlus, "+"), Item(Number, "-5"), Item(OperatorMul, "*"));
  }

  lemma AppendFive<T>(items: seq<T>, a: T, b: T, c: T, d: T, e: T)
    ensures items + [a] + [b, c] + [d, e] == items + [a, b, c, d, e]
  {
  }

  /** `-(5+6)` to the end of the input: a negated group without whitespace. */
  lemma ExampleLast(s: seq<char>, items: seq<Item<ItemType>>)
    requires |s| == 34 && s[28] == '-' && s[29] == '(' && s[30] == '5' && s[31] == '+' && s[32] == '6' && s[33] == ')'
    ensures RunFrom(s, Cfg(28, 28, true, items), InGroupOrNumber) == Success(Cfg(34, 34, false, items + [
      Item(OperatorNegate, "-"), Item(GroupStart, "("), Item(Number, "5"), Item(OperatorPlus, "+"), Item(Number, "6"),
      Item(GroupEnd, ")")]))
  {
    var i2 := items + [Item(OperatorNegate, "-"), Item(GroupStart, "(")];
    var i4 := i2 + [Item(Number, "5"), Item(OperatorPlus, "+")];
    var i6 := i4 + [Item(Number, "6"), Item(GroupEnd, ")")];
    RunNegateOpen(s, Cfg(28, 28, true, items));
    RunDigitOperator(s, Cfg(30, 30, true, i2), OperatorPlus);
    RunDigitClose(s, Cfg(32, 32, true, i4));
    RunEnds(s, Cfg(34, 34, true, i6));
    assert i6 == items + [
      Item(OperatorNegate, "-"), Item(GroupStart, "("), Item(Number, "5"), Item(OperatorPlus, "+"), Item(Number, "6"),
      Item(GroupEnd, ")")];
  }

  const FirstItems: seq<Item<ItemType>> :=
    [Item(OperatorNegate, "-"), Item(GroupStart, "("), Item(Number, "123"), Item(OperatorPlus, "+")]
  const SecondItems: seq<Item<ItemType>> :=
    [Item(Number, "2"), Item(OperatorMul, "*"), Item(Number, "3"), Item(GroupEnd, ")")]
  const ThirdItems: seq<Item<ItemType>> :=
    [Item(OperatorMul, "*"), Item(Number, "4"), Item(OperatorPlus, "+"), Item(Number, "-5"), Item(OperatorMul, "*")]
  const LastItems: seq<Item<ItemType>> :=
    [Item(OperatorNegate, "-"), Item(GroupStart, "("), Item(Number, "5"), Item(OperatorPlus, "+"), Item(Number, "6"),
     Item(GroupEnd, ")")]

  /** The run over the example, piece by piece. */
  lemma ExampleRun()
    ensures RunFrom(Example, Init(), InGroupOrNumber)
         == Success(Cfg(34, 34, false, FirstItems + SecondItems + ThirdItems + LastItems))
  {
    var s := Example;
    ExampleChars0();
    ExampleChars1();
    ExampleChars2();
    ExampleChars3();
    ExampleChars4();
    ExampleChars5();
    ExampleChars6();
    ExampleFirst(s, []);
    assert [] + FirstItems == FirstItems;
    ExampleSecond(s, FirstItems);
    ExampleThird(s, FirstItems + SecondItems);
    ExampleLast(s, FirstItems + SecondItems + ThirdItems);
  }

  lemma ExampleItems()
    ensures FirstItems + SecondItems + ThirdItems + LastItems == [
      Item(OperatorNegate, "-"), Item(GroupStart, "("), Item(Number, "123"), Item(OperatorPlus, "+"),
      Item(Number, "2"), Item(OperatorMul, "*"), Item(Number, "3"), Item(GroupEnd, ")"),
      Item(OperatorMul, "*"), Item(Number, "4"), Item(OperatorPlus, "+"), Item(Number, "-5"), Item(OperatorMul, "*"),
      Item(OperatorNegate, "-"), Item(GroupStart, "("), Item(Number, "5"), Item(OperatorPlus, "+"), Item(Number, "6"),
      Item(GroupEnd, ")")]
  {
  }

  /** The example `-( 123 + 2 * 3 ) * 4 + -5 * -(5+6)`, lexed from `lex_group_or_number`, gives exactly these 19 items. */
  lemma Scenario()
    ensures Tokens(Example, InGroupOrNumber) == Success([
      Item(OperatorNegate, "-"), Item(GroupStart, "("), Item(Number, "123"), Item(OperatorPlus, "+"),
      Item(Number, "2"), Item(OperatorMul, "*"), Item(Number, "3"), Item(GroupEnd, ")"),
      Item(OperatorMul, "*"), Item(Number, "4"), Item(OperatorPlus, "+"), Item(Number, "-5"), Item(OperatorMul, "*"),
      Item(OperatorNegate, "-"), Item(GroupStart, "("), Item(Number, "5"), Item(OperatorPlus, "+"), Item(Number, "6"),
      Item(GroupEnd, ")")])
  {
    ExampleRun();
    ExampleItems();
  }
}
