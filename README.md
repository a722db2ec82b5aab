# drawerrs command parser and canvas, in Dafny

This project models the core of `drawerrs`, a console program that reads
drawing commands one line at a time and keeps an ASCII canvas. The model
covers three parts:

- **The tokenizer** shared by both parsers (`tokens.dfy`, module `Tokens`).
  The input is trimmed and split on whitespace. The first token, the verb,
  is upper-cased and the other tokens are kept verbatim. This module also
  holds the `str::parse` conversions the parsers apply to argument tokens:
  to `usize` (64-bit) and to `char`.
- **`Command::from`** of `src/command.rs` (`command.dfy`, module `Commands`).
  It parses a line into `LINE`, `RECT`, `CIRC`, `CANV`, `CHAR`, `READ`,
  `SAVE`, `INFO`, `SHOW` or `QUIT` with their arguments. The result is
  `Err("")` when the line is empty, the verb is unknown or the number of
  arguments is wrong.
- **`parse`** of `src/main.rs` (`main.dfy`, module `MainParse`). This is the
  earlier copy of the same parser. Its commands use flat coordinates, and
  it has no `INFO` or `SHOW`. `MainParse.ParseAgrees` proves that `parse` is
  `Command::from` with the result narrowed: points are flattened, and
  `INFO` and `SHOW` become errors.
- **The `Canvas` grid** of `src/canvas.rs` (`canvas.dfy`, module `Grid`). It
  is a class with `width`, `height` and the rows `data`. It is created
  blank, written one cell at a time with `set`/`setp`, and rendered by
  `Display` as one line per row.

`command_tests.dfy` and `main_tests.dfy` state examples from the `tests`
modules of the two parsers as lemmas about concrete inputs: at least one
layout of every test except `rect_is_parsed` and `circ_is_parsed` (see
"Left out"). `Grid.CanvasExamples` checks the canvas tests as client code.

The main results:

- Both parsers ignore surrounding whitespace and the length and kind of
  whitespace runs.
- Both ignore the case of the verb but keep the case of the arguments.
- Both reject empty input.
- A parsed command is determined by its keyword and argument tokens.
- Writing a command in canonical form (`Commands.Format`) and parsing it
  gives the command back, for a command whose fields are spelled as
  whitespace-free words (`Commands.Printable`). `Read("")`, `Read("a b")`
  and `Char(' ')` are not printable and do not come back. Every command the
  parser returns is printable, so the canonical text of a parsed line
  parses to the same command: the canonical form is a normal form.
- `Canvas::set` changes exactly one cell.
- The rendered text of a canvas has `height * (width + 1)` characters, and
  line `y` holds row `y` followed by a newline.

The model follows the code in these points:

- The code has no `RECTANGLE` or `CIRCLE` spelling. Only `RECT` and `CIRC`
  are accepted.
- The code returns the same empty error string for every rejected line.
  It has no separate empty-input, unknown-command or invalid-argument
  error.
- A numeric or `char` argument that does not convert makes the code panic
  (`unwrap`). It is not a parse error.
- `Canvas::new` accepts zero dimensions. The code has no
  `InvalidDimension` error.
- No rasterization of lines, rectangles or circles exists in
  `src/canvas.rs`, `src/command.rs` or `src/main.rs`.

## Model

| member | source | states |
|---|---|---|
| Tokens.WordLength | src/command.rs:22 | the length of the longest whitespace-free prefix: no whitespace before it, whitespace at it if inside the string |
| Tokens.Split | src/command.rs:22 | `split_whitespace` yields only non-empty, whitespace-free words |
| Tokens.TrimStart | src/command.rs:21 | the result is a suffix, everything removed is whitespace, and it does not start with whitespace |
| Tokens.TrimEnd | src/command.rs:21 | the result is a prefix, everything removed is whitespace, and it does not end with whitespace |
| Tokens.Trim | src/command.rs:21-22 | the trimmed line neither starts nor ends with whitespace, and trimming before splitting does not change the words |
| Tokens.SplitSeparated | src/command.rs:22 | any non-empty whitespace run separates: `Split(a + w + b) == Split(a) + Split(b)` |
| Tokens.SplitLeadingSpace | src/command.rs:22 | leading whitespace does not change the words |
| Tokens.SplitTrailingSpace | src/command.rs:22 | trailing whitespace does not change the words |
| Tokens.SplitAllSpace | src/command.rs:22 | a whitespace-only string has no words |
| Tokens.SplitJoin | src/command.rs:22 | splitting words joined by single spaces gives the words back |
| Tokens.SplitKeepsNonSpace | src/command.rs:22 | the concatenated words are exactly the non-whitespace characters of the input, in order |
| Tokens.SpaceCodes | src/command.rs:21-22 | the whitespace `trim` and `split_whitespace` recognise (`Tokens.IsSpace`) is the space and code points 9 to 13; no letter, digit or `+` is whitespace |
| Tokens.ToUpper | src/command.rs:26 | the result is never a lower-case letter; `a`..`z` map to `A`..`Z` and every other character is kept |
| Tokens.UpperCase | src/command.rs:26 | same length, upper-cased character by character |
| Tokens.UpperCaseIdempotent | src/command.rs:26 | upper-casing twice equals upper-casing once |
| Tokens.UpperCaseWord | src/command.rs:26 | upper-casing keeps a word a word |
| Tokens.Tokenize | src/command.rs:20-32 | as many tokens as words; the first is the upper-cased first word and the rest are the other words verbatim |
| Tokens.TokenizeWords | src/command.rs:20-32 | every token is a non-empty whitespace-free word |
| Tokens.TokenizeAllSpace | src/command.rs:33-35 | whitespace-only input has no tokens |
| Tokens.TokenizeIgnoresSurroundingSpace | src/command.rs:21 | whitespace before and after the input does not change the tokens |
| Tokens.TokenizeIgnoresSpaceRuns | src/command.rs:22 | any two non-empty whitespace runs between tokens are interchangeable |
| Tokens.TokenizeIgnoresVerbCase | src/command.rs:24-29 | two spellings of the verb that upper-case alike give the same tokens |
| Tokens.TokenizeJoin | src/command.rs:20-32 | the tokens of words joined by spaces are the words, with the first upper-cased |
| Tokens.Decimal | src/command.rs:38-41 | the canonical numeral of `n` is non-empty, all digits, unsigned, and has value `n` |
| Tokens.UsizeLiteralSign | src/command.rs:38-41 | `parse::<usize>()` (`Tokens.IsUsizeLiteral`, `Tokens.UsizeValue`) accepts one optional leading `+` with the same value, and rejects the empty token, a lone `+`, a second sign and `-` |
| Tokens.ValueLeadingZero | src/command.rs:38-41 | a leading zero does not change the value of a numeral |
| Tokens.UsizeLiteralBound | src/command.rs:38-41 | a numeral converts to `usize` exactly when its value is below 2^64, with or without a leading zero |
| Tokens.DecimalRoundTrip | src/command.rs:38-41 | the canonical numeral of a `usize` is a word that `parse::<usize>()` accepts and reads back as the same number |
| Tokens.Spellings | src/command.rs:37-73 | one canonical token per field, in order |
| Tokens.SpellingDenotes | src/command.rs:37-73 | a field's canonical token converts back to that field, and to no other field of the same kind |
| Tokens.DenotesAllUnique | src/command.rs:37-73 | conversion is a function of the token: argument tokens determine fields of given kinds |
| Tokens.DenotesFits | src/command.rs:37-73 | tokens that convert to fields of the listed kinds pass those kinds' conversions |
| Grid.Blank | src/canvas.rs:20-27 | `height` rows of `width` cells, every cell a space |
| Grid.Updated | src/canvas.rs:31-33 | the dimensions are kept, cell `(x, y)` holds `ch`, and every other cell is unchanged |
| Grid.RenderLayout | src/canvas.rs:9-17 | the fold's text has `Offset(height)` characters and line `i` is row `i` plus a newline |
| Grid.Render | src/canvas.rs:11-14 | the fold over no rows is the empty text, and the fold over at least one row is not empty |
| Grid.RenderSize | src/canvas.rs:9-17 | the rendered text has `height * (width + 1)` characters, line `i` being row `i` plus a newline |
| Grid.RenderCell | src/canvas.rs:9-17 | the character at column `x` of line `y` is cell `(x, y)`, or the newline after the last column |
| Grid.BlankRender | src/canvas.rs:20-27 | a new canvas renders as `height` lines of `width` spaces |
| Grid.BlankRenderFourByTwo | src/canvas.rs:59-62 | `Canvas::new(4, 2)` renders as two lines of four spaces followed by newlines |
| Grid.Canvas.constructor | src/canvas.rs:20-27 | the new canvas has the given dimensions and blank rows |
| Grid.Canvas.Set | src/canvas.rs:31-33 | the dimensions are kept, `get(x, y)` is `ch`, and every other cell reads as before |
| Grid.Canvas.SetPoint | src/canvas.rs:34-36 | the same as `set`, at the point's `.0` and `.1` coordinates |
| Grid.Canvas.ToString | src/canvas.rs:9-17 | a text of `height * (width + 1)` characters whose line `y` is row `y` plus a newline |
| Commands.CommandConforms | src/command.rs:36-78 | each command's fields have the kinds its verb's arm converts |
| Commands.KeywordIsUpperWord | src/command.rs:36-78 | every verb of the match is an upper-case word |
| Commands.SignatureKeywords | src/command.rs:36-78 | the verbs of the match table (`Commands.Signature`) are exactly the keywords of the commands, each an upper-case word |
| Commands.CommandDetermined | src/command.rs:4-15 | keyword and fields determine the command |
| Commands.FromTokens | src/command.rs:33-79 | the result is never an error with a message; it is a command exactly when some arm takes the verb and arity; a command carries that verb and fields the argument tokens convert to |
| Commands.From | src/command.rs:18-80 | the same, stated about the input: the keyword is the upper-cased first word and the fields come from the other words |
| Commands.FromTokensUnique | src/command.rs:36-78 | the matched command is the only command with that keyword whose fields the argument tokens denote |
| Commands.FromUnique | src/command.rs:18-80 | the parsed command is the only command its contract allows |
| Commands.CanonicalTokensRoundTrip | src/command.rs:36-78 | matching a command's canonical tokens gives the command back |
| Commands.FormatRoundTrip | src/command.rs:18-80 | parsing the canonical text of a printable command gives the command back |
| Commands.FromTokensPrintable | src/command.rs:36-78 | a command matched from whitespace-free tokens has whitespace-free canonical fields |
| Commands.FromCanonical | src/command.rs:18-80 | every parsed command prints canonically and re-parses to itself |
| Commands.FromEmpty | src/command.rs:33-35 | empty or whitespace-only input is `Err("")` |
| Commands.FromIgnoresSurroundingSpace | src/command.rs:21 | surrounding whitespace does not change the result |
| Commands.FromIgnoresSpaceRuns | src/command.rs:22 | the whitespace between tokens does not change the result |
| Commands.FromIgnoresVerbCase | src/command.rs:24-29 | the case of the verb does not change the result |
| Commands.FromTokensFilename | src/command.rs:72-73 | the file name of `READ`/`SAVE` is the second token |
| Commands.FromKeepsArgumentCase | src/command.rs:24-31 | the file name is the second word of the input, not upper-cased |
| Commands.FromByTokens | src/command.rs:18-35 | inputs with the same tokens parse alike |
| CommandTests.LineFormat | src/command.rs:88-97 | the canonical text of `Line(Point(1, 2), Point(3, 4))` is `LINE 1 2 3 4` |
| CommandTests.LineExample | src/command.rs:88-97 | `LINE 1 2 3 4` parses to `Line(Point(1, 2), Point(3, 4))` |
| CommandTests.LineTabExample | src/command.rs:88-97 | `line\t1 2 3 4` parses to the same command |
| CommandTests.LineSpacedExample | src/command.rs:88-97 | `Line  1  2  3\t4\n` parses to the same command |
| CommandTests.ReadCanonicalExample | src/command.rs:140-150 | `READ FileName` parses to `Read("FileName")` |
| CommandTests.ReadExample | src/command.rs:140-150 | ` READ FileName` parses to `Read("FileName")`, the name keeping its case |
| CommandTests.ArityExamples | src/command.rs:77 | `QUIT x` and `LINE 1 2 3`, a known verb with the wrong arity, are `Err("")` |
| MainParse.ParseTokens | src/main.rs:95-135 | the match of `parse` on the tokens: error exactly when no arm takes the verb and arity; otherwise that verb and converted fields |
| MainParse.Parse | src/main.rs:77-136 | the same, stated about the input |
| MainParse.Widen | src/main.rs:7-34 | each `parse` command has a `Command::from` counterpart with the same keyword and fields, which narrows back to it |
| MainParse.Narrow | src/main.rs:7-34 | a `Command::from` result becomes an error exactly when it is an error, `Info` or `Show`; otherwise it keeps the keyword and fields |
| MainParse.NarrowOk | src/main.rs:7-34 | the only `Command::from` result that narrows to a command is that command widened |
| MainParse.SignatureAgrees | src/main.rs:99-132 | the verb table of `parse` is that of `Command::from` without `INFO` and `SHOW` |
| MainParse.SignatureKeywords | src/main.rs:99-132 | the verbs of the table of `parse` (`MainParse.Signature`) are exactly the keywords of its commands, whose fields have the listed kinds |
| MainParse.ConvertibleAgrees | src/main.rs:99-132 | both parsers need the same argument conversions to succeed |
| MainParse.ParseTokensAgrees | src/main.rs:99-135 | on the same tokens, `parse` gives the narrowed result of `Command::from`'s match |
| MainParse.ParseAgrees | src/main.rs:77-136 | `parse(input)` is `Command::from(input)` narrowed |
| MainParse.FromOfParse | src/main.rs:77-136 | a command `parse` returns is what `Command::from` returns on the same input, widened |
| MainParse.ParseOfFrom | src/main.rs:77-136 | what `Command::from` returns, `parse` returns narrowed |
| MainParse.InfoAndShowTokens | src/main.rs:131-132 | a lone `INFO` or `SHOW` token is an error of `parse` but a command of `Command::from` |
| MainParse.ParseRejectsInfoAndShow | src/main.rs:131-132 | the same for any input that tokenizes to a lone `INFO` or `SHOW` |
| MainParse.ParseFormatRoundTrip | src/main.rs:77-136 | parsing the canonical text of a printable command gives it back |
| MainParse.ParseEmpty | src/main.rs:95-97 | empty or whitespace-only input is `Err("")` |
| MainParse.ParseIgnoresSurroundingSpace | src/main.rs:81 | surrounding whitespace does not change the result |
| MainParse.ParseIgnoresSpaceRuns | src/main.rs:82 | the whitespace between tokens does not change the result |
| MainParse.ParseIgnoresVerbCase | src/main.rs:84-90 | the case of the verb does not change the result |
| MainParse.ParseTokensFilename | src/main.rs:129-130 | the file name of `READ`/`SAVE` is the second token |
| MainParse.ParseKeepsArgumentCase | src/main.rs:84-90 | the file name is the second word of the input, not upper-cased |
| MainParse.ParseByTokens | src/main.rs:77-97 | inputs with the same tokens parse alike |
| MainTests.CanvExample | src/main.rs:177-186 | ` CANV 100 200` parses to `Canv(100, 200)` |
| MainTests.CharExample | src/main.rs:188-194 | ` CHAR *` parses to `Char('*')` |
| MainTests.SaveExample | src/main.rs:209-220 | ` SAVE FileName` parses to `Save("FileName")` |
| MainTests.QuitExample | src/main.rs:222-229 | ` \tQUIT ` parses to `Quit` |
| MainTests.InfoExample | src/main.rs:131-132 | `info` is `Err("")` for `parse` but `Info` for `Command::from` |
| MainTests.ShowExample | src/command.rs:172-178 | `show` is `Show` for `Command::from` but `Err("")` for `parse` |
| MainTests.ParseLineExample | src/main.rs:142-154 | `LINE 1 2 3 4` parses to `Line(1, 2, 3, 4)` |
| MainTests.ParseReadExample | src/main.rs:195-207 | ` READ FileName` parses to `Read("FileName")`, the name keeping its case |
| MainTests.FromCanvExample | src/command.rs:120-130 | ` CANV 100 200` parses to `Canv(100, 200)` with `Command::from` |
| MainTests.FromCharExample | src/command.rs:131-138 | ` CHAR *` parses to `Char('*')` with `Command::from` |
| MainTests.FromSaveExample | src/command.rs:151-162 | ` SAVE FileName` parses to `Save("FileName")` with `Command::from`, the name keeping its case |
| MainTests.FromQuitExample | src/command.rs:179-186 | ` \tQUIT ` parses to `Quit` with `Command::from` |

## Left out

- The interactive loop `main` (src/main.rs:36-75) does console I/O and dispatch. It is not modelled. Its only canvas effects are `canvas.set(3, 3, '*')` and replacing the canvas, which `Grid.Canvas.Set` and `Grid.Canvas.constructor` cover.
- `Point::as_f64` (src/canvas.rs:48-52) converts to floating point, which is not modelled.
- A numeric argument that is not a `usize` numeral (non-digits such as `LINE a b c d`, a `-` sign, or a value of 2^64 or more), or a `CHAR` argument that is not exactly one character, makes both parsers panic in `unwrap`. The model states instead that the conversions of the matched arm succeed, as the precondition `Convertible`. No error path is invented for it.
- `Tokens.IsSpace`: only ASCII whitespace is modelled. Rust's `char::is_whitespace` also accepts Unicode spaces such as U+0085 and U+00A0.
- `Tokens.ToUpper`: only `a`..`z` are upper-cased. Rust's `to_uppercase` also maps other letters, some of them to several characters.
- `Grid.Canvas.Width` and `Grid.Canvas.Height` only return a field. They have no contract of their own, and the `new_matches_size` test is checked in `Grid.CanvasExamples`.
- `Grid.Canvas.Get` has no contract of its own. It is the cell read, and `Grid.Canvas.Set`'s contract is stated through it.
- Out-of-range `get`/`set` panics in the source. The model states in-range coordinates as a precondition, as Rust's indexing demands.
- Reading and writing files (`READ`/`SAVE`) is done by no code in these files. The parsers only carry the file name.
- `usize` is taken as 64-bit (`Tokens.USIZE_LIMIT`).
- The tests `rect_is_parsed` and `circ_is_parsed` of both parsers have no example lemma. Their layouts are covered only by the general lemmas on whitespace, verb case and the canonical form.
- Of the other parser tests, one layout per parser is stated (three for `line_is_parsed` of src/command.rs). The remaining layouts follow from the same general lemmas and are not restated one by one.
