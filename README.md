# lexer-rs in Dafny

A model of `lexer-rs`, a small hand-written lexer library in Rust in the style
of Rob Pike's state-function lexers, together with the two grammars written
against it in the repository:

- **The generic lexer** (`src/lib.rs`). A `Lexer` holds an input text, a token
  start `start`, a cursor `pos`, the byte width `width` of the character read
  last, and a vector of items. State functions move the cursor with `next`,
  `peek`, `backup`, `accept` and `accept_run`, drop text with `ignore`, and
  push items with `emit` and `emit_nonempty`. `run` calls state functions
  until one returns `None`, and `lex` runs a fresh lexer and returns its items.
- **The arithmetic tokenizer** (`examples/calc.rs`). It has the states
  `lex_group_or_number`, `lex_binary_op` and `lex_number`, plus the helper
  `ignore_whitespace`. It splits an expression into numbers, parentheses,
  binary operators and a negation sign, and it panics on a character that
  fits no rule.
- **The comma/comment grammar** (`tests/lib.rs`). It has the states
  `lex_text` and `lex_comment`. It splits text at `,` and turns every `//`
  up to the end of its line into a `Comment` item. Both states end with an
  empty `EOF` item.

The model is in five modules:

| module | file | contents |
|---|---|---|
| `Utf8` | `utf8.dfy` | UTF-8 widths of characters, and the map from a byte offset to the character that starts there |
| `Scanner` | `scanner.dfy` | the lexer's primitives as functions on a cursor state counted in characters, and their properties |
| `Lexer` | `lexer.dfy` | `class Lexer<T>`, which keeps byte offsets as the Rust struct does; each method is proved to act as its `Scanner` function |
| `TextLexer` | `text_lexer.dfy` | `lex_text`, `lex_comment`, `run` and `lex` for the comma/comment grammar |
| `CalcLexer` | `calc_lexer.dfy` | `ignore_whitespace`, `lex_group_or_number`, `lex_binary_op`, `lex_number`, `run` and `lex` for the arithmetic grammar |

A shared `Wrappers` module (`wrappers.dfy`) holds `Option` and `Result`.

Each state function appears twice:

- as a pure function (`ScanText`, `ScanGroupOrNumber`, ...), which defines its
  effect on the cursor state;
- as a method with the loop of the source (`LexText`, `LexGroupOrNumber`, ...),
  which runs on a `Lexer` object and is proved to compute that function.

The properties are proved about the functions. They cover three things:

- what each branch of each state does;
- that the items' texts, in order, are the input minus exactly the characters
  the grammar drops;
- that every item's text has the shape its type promises.

`run` loops over function pointers in Rust. Here each grammar's states form a
closed datatype, and the loop is proved to terminate:

- every state call either advances the cursor or hands over to a state of
  lower rank without moving it;
- the measure is therefore (characters left, rank of the state).

A panic of the calculator becomes a `Panicked` outcome, and `lex` then
returns `Failure` with the reason.

## Model

| member | source | states |
|---|---|---|
| Utf8.Utf8Len | src/lib.rs:45 | a character's UTF-8 width is 1 to 4 bytes, and it is 1 exactly for ASCII |
| Utf8.ByteLen | src/lib.rs:45-46 | the bytes a text takes in UTF-8: the sum of its characters' widths, which is what `pos` has grown by after `next` read them |
| Utf8.ByteLenStep | src/lib.rs:45-46 | reading one more character adds exactly that character's width to the byte offset |
| Utf8.ByteLenAppend | src/lib.rs:95 | the byte length of two texts joined is the sum of their byte lengths |
| Utf8.ByteLenIncreasing | src/lib.rs:46 | every character read moves the byte offset forward by at least one, so different character indices have different byte offsets |
| Utf8.CharIndex | src/lib.rs:43 | the character index that starts at byte `b`: when there is one, the text before it is exactly `b` bytes long; `None` means no prefix is `b` bytes long, so slicing the input at `b` would panic |
| Utf8.CharIndexOf | src/lib.rs:43 | the byte offset where character `k` starts maps back to `k`, so each character index has one byte boundary |
| Utf8.CharIndexMonotone | src/lib.rs:102 | on character boundaries, `pos > start` compares byte offsets the way the character indices compare |
| Utf8.SliceByteLen | src/lib.rs:95 | the text between two boundaries spans exactly the bytes between them |
| Scanner.Init | src/lib.rs:21-29 | the state of a new lexer is well formed over any input, with token start and cursor at 0, nothing to step back over, and no text in its items |
| Scanner.Next | src/lib.rs:42-53 | `next` keeps the cursor within the input, and a backup it allows never steps before the start |
| Scanner.Backup | src/lib.rs:65-68 | after `backup` there is nothing left to step back over: `width` is 0 |
| Scanner.Peek | src/lib.rs:59-63 | `peek` keeps the cursor within the input |
| Scanner.Ignore | src/lib.rs:55-57 | `ignore` moves the token start to the cursor and changes nothing else |
| Scanner.Accept | src/lib.rs:70-78 | `accept` keeps the cursor within the input |
| Scanner.RunEnd | src/lib.rs:80-90 | the end of the run `accept_run` reads from `i`: every character before it is in `valid`, and it is the end of the input or a character not in `valid` |
| Scanner.AcceptRun | src/lib.rs:80-90 | `accept_run` keeps the cursor within the input |
| Scanner.Pending | src/lib.rs:107-109 | the pending text holds one character for each index from the token start to the cursor |
| Scanner.Emit | src/lib.rs:92-99 | after `emit` the token starts at the cursor, and the cursor has not moved |
| Scanner.EmitNonempty | src/lib.rs:101-105 | `emit_nonempty` never moves the cursor, and it leaves the token start at the cursor |
| Scanner.NextSpec | src/lib.rs:42-53 | `next` returns `None` exactly at the end of the input and then keeps the cursor; otherwise it returns the character under the cursor and steps over it; the token start and the items are untouched |
| Scanner.BackupUndoesNext | src/lib.rs:65-68 | a `backup` right after a successful `next` restores the cursor, and reading again gives the same character |
| Scanner.BackupTwice | src/lib.rs:65-68 | a second `backup` in a row changes nothing: only one step can be undone |
| Scanner.PeekSpec | src/lib.rs:59-63 | `peek` returns what `next` would return and leaves the cursor where it was; peeking twice gives the same answer |
| Scanner.AcceptSpec | src/lib.rs:70-78 | `accept` consumes one character if and only if one is there and it is in `valid` |
| Scanner.AcceptRunSpec | src/lib.rs:80-90 | `accept_run` consumes only characters of `valid` and stops at the first other character or at the end; it returns true if and only if it consumed any |
| Scanner.RunEndUnique | src/lib.rs:80-90 | the end of the run `accept_run` consumes is unique: any index reached through `valid` characters that stops at a non-member or at the end is that end |
| Scanner.EmitSpec | src/lib.rs:92-99 | `emit` appends one item holding exactly the pending text and keeps earlier items; the new token starts at the cursor; no text is lost |
| Scanner.EmitNonemptySpec | src/lib.rs:101-105 | with no pending text `emit_nonempty` changes nothing; otherwise it acts as `emit` and the new item's text is non-empty |
| Scanner.NextAccounts | src/lib.rs:42-53 | reading a character adds exactly that character to the text held by the items and the pending text |
| Scanner.IgnoreDrops | src/lib.rs:55-57 | `ignore` drops exactly the pending text and nothing emitted |
| Lexer.Lexer.Valid | src/lib.rs:11-17 | the class invariant: `start` and `pos` are character boundaries of the input, and a non-zero `width` is the width of the character just before `pos` |
| Lexer.Lexer.Abs | src/lib.rs:11-17 | a valid lexer's byte offsets `start` and `pos` are character boundaries within the input, and `width` is non-zero exactly when a `backup` has a character to step over |
| Lexer.Lexer.BackupTarget | src/lib.rs:66 | `pos - width` does not underflow, and it is the start of the character read last |
| Lexer.Lexer.StartBeforePos | src/lib.rs:102 | `start <= pos` as bytes if and only if as characters |
| Lexer.Lexer.constructor | src/lib.rs:21-29 | a new lexer has `start`, `pos` and `width` at 0 and no items |
| Lexer.Lexer.RemainingInput | src/lib.rs:111-113 | the result is the suffix of the input that starts at byte `pos` |
| Lexer.Lexer.Current | src/lib.rs:107-109 | the result is the pending text, from byte `start` to byte `pos`, and its byte length is `pos - start`; it is defined when `start <= pos` |
| Lexer.Lexer.Next | src/lib.rs:42-53 | at the end: `None`, `pos` unchanged, `width` 0; otherwise the character at `pos`, `width` its UTF-8 width and `pos` advanced by that width; the character view moves as `Scanner.Next` |
| Lexer.Lexer.Ignore | src/lib.rs:55-57 | only `start` changes, to `pos` |
| Lexer.Lexer.Backup | src/lib.rs:65-68 | `pos` steps back by the old `width`, to the start of the character read last, and `width` becomes 0 |
| Lexer.Lexer.Peek | src/lib.rs:59-63 | returns what `next` would; `pos` is unchanged and `width` is 0 |
| Lexer.Lexer.Accept | src/lib.rs:70-78 | moves as `Scanner.Accept`; on false `pos` is unchanged |
| Lexer.Lexer.AcceptRun | src/lib.rs:80-90 | the loop consumes the longest run of `valid` characters, as `Scanner.AcceptRun`, and leaves `width` at 0 |
| Lexer.Lexer.Emit | src/lib.rs:92-99 | pushes one item whose text is the slice from `start` to `pos`, then moves `start` to `pos` |
| Lexer.Lexer.EmitNonempty | src/lib.rs:101-105 | when `pos <= start` nothing changes; otherwise it acts as `Emit` |
| TextLexer.ScanText | tests/lib.rs:14-35 | `lex_text` either ends at the end of the input with nothing pending, or hands over to `lex_comment` with the cursor moved forward |
| TextLexer.CommaStep | tests/lib.rs:23-28 | after the comma arm the cursor is just past the comma and nothing is pending |
| TextLexer.ScanComment | tests/lib.rs:38-56 | `lex_comment` either ends at the end of the input with nothing pending, or hands over to `lex_text` with the cursor moved forward |
| TextLexer.NewlineStep | tests/lib.rs:42-48 | after the newline arm the cursor is just past the newline and nothing is pending |
| TextLexer.StepOf | src/lib.rs:35 | one state call either finishes at the end of the input or moves the cursor forward |
| TextLexer.RunFrom | src/lib.rs:31-40 | `run` terminates with the cursor at the end of the input and nothing pending |
| TextLexer.LexText | tests/lib.rs:14-35 | the loop of `lex_text` on a lexer computes `ScanText` |
| TextLexer.SplitComma | tests/lib.rs:23-28 | the comma arm on a lexer computes `CommaStep` |
| TextLexer.LexComment | tests/lib.rs:38-56 | the loop of `lex_comment` on a lexer computes `ScanComment` |
| TextLexer.Call | src/lib.rs:35 | calling the current state on a lexer computes `StepOf` |
| TextLexer.Run | src/lib.rs:31-40 | the loop of `run` on a lexer computes `RunFrom` |
| TextLexer.Lex | src/lib.rs:117-122 | `lex` returns the items of `RunFrom` from a fresh lexer |
| TextLexer.Tokens | src/lib.rs:117-122 | `lex` with the comma/comment grammar: whichever state it starts in, the last item is an empty `EOF` |
| TextLexer.StartsComment | tests/lib.rs:16 | `remaining_input().starts_with("//")` with the cursor at character `i` |
| TextLexer.StartsCommentSpec | tests/lib.rs:16 | `StartsComment` holds exactly when `//` is a prefix of the input from `i` |
| TextLexer.TextAtComment | tests/lib.rs:16-20 | with `//` ahead, `lex_text` emits the pending text if non-empty, consumes one `/` and hands over to `lex_comment` |
| TextLexer.TextAtComma | tests/lib.rs:23-28 | a `,` closes the pending text, emitted if non-empty, and becomes a `Comma` item `","` of its own |
| TextLexer.TextAtPlain | tests/lib.rs:29 | any other character joins the pending text |
| TextLexer.TextAtEnd | tests/lib.rs:32-34 | at the end of the input `lex_text` emits the pending text if non-empty, then one empty `EOF`, and stops |
| TextLexer.CommentAtNewline | tests/lib.rs:42-48 | a newline ends the comment: the comment is emitted if non-empty, the newline is consumed and dropped, and `lex_text` takes over |
| TextLexer.CommentAtPlain | tests/lib.rs:50 | any character but a newline joins the pending comment |
| TextLexer.CommentAtEnd | tests/lib.rs:53-55 | at the end of the input `lex_comment` emits the pending comment if non-empty, then one empty `EOF`, and stops |
| TextLexer.ScanTextPlain | tests/lib.rs:15-31 | a stretch with no `,` and no `//` is read through without emitting anything |
| TextLexer.ScanCommentPlain | tests/lib.rs:39-51 | a stretch with no newline is read through without emitting anything |
| TextLexer.ScanTextEof | tests/lib.rs:32-34 | when `lex_text` stops, its last item is an empty `EOF` |
| TextLexer.ScanCommentEof | tests/lib.rs:53-55 | when `lex_comment` stops, its last item is an empty `EOF` |
| TextLexer.RunEof | src/lib.rs:31-40 | every run, from either state, ends with an empty `EOF` item |
| TextLexer.ScanTextKeeps | tests/lib.rs:14-35 | `lex_text` moves input text into items and pending text without losing or adding a character |
| TextLexer.ScanCommentKeeps | tests/lib.rs:38-56 | `lex_comment` does the same, except that it drops the newline that ends the comment |
| TextLexer.RunKeeps | src/lib.rs:31-40 | a run moves the rest of the input into the items, dropping only the newlines that end comments |
| TextLexer.TokensKeep | tests/lib.rs:42-48 | the items' texts, in order, equal an independent definition of the input with the comment-ending newlines removed |
| TextLexer.ScanTextShape | tests/lib.rs:14-35 | every item `lex_text` emits has the shape of its type, and a `//` is pending when `lex_comment` takes over |
| TextLexer.ScanCommentShape | tests/lib.rs:38-56 | every item `lex_comment` emits has the shape of its type |
| TextLexer.RunShape | src/lib.rs:31-40 | a run ends with well-typed items followed by exactly one `EOF` |
| TextLexer.TokensShape | tests/lib.rs:32-34 | `lex` from `lex_text` gives non-empty texts without `,` or `//`, lone `","` commas, and `//` comments without newlines, then exactly one empty `EOF` as the last item |
| TextLexer.Scenario | tests/lib.rs:59-81 | `lex` on `"foo,bar,baz // some comment\nfoo,bar"` yields the ten items of the test, compared on type and text |
| CalcLexer.SkipWhitespace | examples/calc.rs:23-35 | `ignore_whitespace` skips only whitespace and drops it; it returns false exactly at the end of the input, and otherwise stops on a non-whitespace character |
| CalcLexer.ScanGroupOrNumber | examples/calc.rs:59-84 | `lex_group_or_number` never panics; it ends only at the end of the input, and it hands over to `lex_binary_op` after moving or to `lex_number` |
| CalcLexer.ScanBinaryOp | examples/calc.rs:37-57 | `lex_binary_op` ends only at the end of the input, and it hands over to `lex_group_or_number` only after moving |
| CalcLexer.ScanNumber | examples/calc.rs:86-105 | `lex_number` ends only at the end of the input, and it hands over to `lex_binary_op` only after moving |
| CalcLexer.NumberText | examples/calc.rs:91-104 | past the whitespace, `lex_number` either panics or emits and hands over to `lex_binary_op`; it never ends the run |
| CalcLexer.Fraction | examples/calc.rs:98-102 | the fraction part leaves the cursor at or after where it was and nothing pending |
| CalcLexer.StepOf | src/lib.rs:35-36 | a state call that continues either moves the cursor or hands over to a state of lower rank; this is what makes `run` terminate |
| CalcLexer.RunFrom | src/lib.rs:31-40 | a `run` that does not panic ends at the end of the input |
| CalcLexer.IgnoreWhitespace | examples/calc.rs:23-35 | the loop on a lexer computes `SkipWhitespace` |
| CalcLexer.LexBinaryOp | examples/calc.rs:37-57 | the loop on a lexer computes `ScanBinaryOp`; the panic becomes `Panicked` |
| CalcLexer.LexGroupOrNumber | examples/calc.rs:59-84 | the loop on a lexer computes `ScanGroupOrNumber` |
| CalcLexer.LexNumber | examples/calc.rs:86-105 | `lex_number` on a lexer computes `ScanNumber` |
| CalcLexer.LexNumberText | examples/calc.rs:91-104 | its part after the whitespace computes `NumberText`; the panic becomes `Panicked` |
| CalcLexer.LexFraction | examples/calc.rs:98-102 | the fraction and the emit on a lexer compute `Fraction` |
| CalcLexer.Call | src/lib.rs:35 | calling the current state on a lexer computes `StepOf` |
| CalcLexer.Run | src/lib.rs:31-40 | the loop of `run` on a lexer reaches `RunFrom`'s final state, or returns the panic reason |
| CalcLexer.Lex | src/lib.rs:117-122 | `lex` returns `Tokens`: the items of a run from a fresh lexer, or the panic |
| CalcLexer.Tokens | src/lib.rs:117-122 | `lex` with the calculator grammar: the items, or a panic whose reason is a character of the input that fits no operator arm, or what `next` returned where a digit was due (the end of the input or a non-digit of the input) |
| CalcLexer.IsWhitespace | examples/calc.rs:27 | `char::is_whitespace`: the code points with the Unicode `White_Space` property |
| CalcLexer.OperatorType | examples/calc.rs:44-49 | the item type of an operator character, and none for any other character |
| CalcLexer.OperatorTypeSpec | examples/calc.rs:44-49 | exactly `+ - * /` have an operator type, and the item of each holds that one character |
| CalcLexer.SkipWhitespaceSpec | examples/calc.rs:23-35 | `ignore_whitespace` stops exactly at the first non-whitespace character or at the end, and it drops what it skipped |
| CalcLexer.GroupOrNumberAtWhitespace | examples/calc.rs:63 | whitespace where an operand is due is dropped |
| CalcLexer.GroupOrNumberAtSignedNumber | examples/calc.rs:64-68 | a `-` before a digit stays pending and `lex_number` takes over with the cursor on the digit |
| CalcLexer.GroupOrNumberAtNegate | examples/calc.rs:69 | a `-` not before a digit is emitted as `OperatorNegate` and an operand is still due |
| CalcLexer.GroupOrNumberAtOpen | examples/calc.rs:71-73 | `(` is emitted as `GroupStart` and an operand is still due |
| CalcLexer.GroupOrNumberAtClose | examples/calc.rs:74-77 | `)` is emitted as `GroupEnd` and `lex_binary_op` takes over |
| CalcLexer.GroupOrNumberAtOperand | examples/calc.rs:78-81 | any other character is left under the cursor for `lex_number` |
| CalcLexer.GroupOrNumberAtEnd | examples/calc.rs:62 | at the end of the input the run stops |
| CalcLexer.BinaryOpAtWhitespace | examples/calc.rs:41 | whitespace where an operator is due is dropped |
| CalcLexer.BinaryOpAtClose | examples/calc.rs:42 | `)` is emitted as `GroupEnd` and an operator is still due |
| CalcLexer.BinaryOpAtOperator | examples/calc.rs:43-51 | `+ - * /` are emitted as their operator items and `lex_group_or_number` takes over |
| CalcLexer.BinaryOpAtUnexpected | examples/calc.rs:49 | any other character is a panic naming that character |
| CalcLexer.BinaryOpAtEnd | examples/calc.rs:40 | at the end of the input the run stops |
| CalcLexer.DigitsStart | examples/calc.rs:91 | the optional sign is skipped only when it is `+` or `-` |
| CalcLexer.NumberEnd | examples/calc.rs:98-100 | the fraction part never ends before the integer digits or past the input |
| CalcLexer.NumberMissing | examples/calc.rs:93-96 | with no digit after the optional sign, `lex_number` panics with the character at that place, or `None` at the end |
| CalcLexer.NumberFound | examples/calc.rs:91-104 | otherwise it emits one `Number` holding the sign, the digits and the optional fraction, and hands over to `lex_binary_op` |
| CalcLexer.NumberTextIs | examples/calc.rs:91-102 | the text of every `Number` item is an optional sign, one or more digits, and an optional `.` followed by digits |
| CalcLexer.GroupOrNumberSound | examples/calc.rs:59-84 | `lex_group_or_number` emits only well-typed items and loses no non-whitespace character |
| CalcLexer.BinaryOpSound | examples/calc.rs:37-57 | `lex_binary_op`, when it does not panic, emits only well-typed items and loses no non-whitespace character |
| CalcLexer.NumberSoundSigned | examples/calc.rs:64-68 | a number entered with its `-` pending is emitted whole, sign included |
| CalcLexer.NumberSoundPlain | examples/calc.rs:86-105 | `lex_number`, when it does not panic, emits a well-typed number and loses no non-whitespace character |
| CalcLexer.StepSound | src/lib.rs:35 | every state call that does not panic keeps the items well typed and loses no non-whitespace character |
| CalcLexer.RunSound | src/lib.rs:31-40 | a run that does not panic turns exactly the non-whitespace rest of the input into well-typed items |
| CalcLexer.TokensSound | src/lib.rs:117-122 | when `lex` does not panic, every item's text is what its type says, and the texts in order are the whole input with its whitespace removed |
| CalcLexer.BinaryOpPanics | examples/calc.rs:37-57 | `lex_binary_op` panics only on a character of the input that is neither whitespace, nor `)`, nor an operator |
| CalcLexer.NumberPanics | examples/calc.rs:93-96 | `lex_number` panics only where no digit follows the optional sign, reporting the end of the input or a character of the input that is not a digit |
| CalcLexer.RunPanics | src/lib.rs:31-40 | a run panics only as one of its states does, so its reason is one of those two |
| CalcLexer.RunSkipsSpace | examples/calc.rs:41 | whitespace between tokens does not change the run |
| CalcLexer.RunNumber | examples/calc.rs:86-105 | digits followed by neither a digit nor `.` become one `Number` item, including a pending `-` |
| CalcLexer.RunSignedNumber | examples/calc.rs:64-68 | a `-` directly before digits, where an operand is due, is part of the number, not a negation |
| CalcLexer.Scenario | examples/calc.rs:193-221 | `lex` on `"-( 123 + 2 * 3 ) * 4 + -5 * -(5+6)"` from `lex_group_or_number` yields the nineteen items of the test |

## Left out

- The calculator's evaluator (`evaluate`, `evaluate_group` and the rest in `examples/calc.rs`) and its `main` read-eval loop are not part of this model. They parse and compute with floating point and do standard I/O.
- A Rust panic in `lex_binary_op` or `lex_number` unwinds the program. Here it is a `Panicked` outcome, and `lex` returns `Failure` with the reason. The panic message is reduced to its data: the unexpected character, or what `next` returned.
- The slice `&input[start..pos]` in `emit` and `current` panics when `start > pos` or when an offset is not a character boundary. The model proves that every offset the lexer reaches is a boundary. `start <= pos` is a precondition of `Lexer.Lexer.Emit` and `Lexer.Lexer.Current`. It holds wherever the two grammars call them.
- `StateFn` wraps a function pointer, so a state can be any function. Each grammar's states are instead a closed datatype (`State`), and `Call` dispatches on it.
- `char::is_whitespace` is written out as the characters with the Unicode `White_Space` property.
- `str::contains(ch)` on the constant sets becomes membership in a sequence of characters.
- Items borrow slices of the input (`&'a str`). Here an item holds its text as a value.
- The item vector is pushed in place in Rust. Here it is a `seq` field that the methods reassign.
- In tests/lib.rs, `test_lexer` builds its expected items with `col` and `lineno` fields, which `Item` in `src/lib.rs` does not have. `TextLexer.Scenario` compares the items on `typ` and `val` only.
- The `Debug`/`PartialEq` derivations and the `println!` calls of the tests are left out.
- The lexer is generic over any `T: PartialEq`. `Lexer.Lexer<T>` is generic over any `T`, and the two grammars use their own `ItemType`.
