/** `Command` and `Command::from` of src/command.rs: one line of input becomes
    a typed command, or an error when the input is empty, the verb is unknown
    or the verb has the wrong number of arguments. */
module Commands {
  import opened Tokens
  import opened Grid

  datatype Command =
    | Line(from: Point, to: Point)
    | Rect(p1: Point, p2: Point)
    | Circ(p: Point, r: Usize)
    | Canv(width: Usize, height: Usize)
    | Char(ch: char)
    | Read(filename: string)
    | Save(filename: string)
    | Info
    | Show
    | Quit

  /** The verb table: the arms of the `match`, as the kinds of the arguments
      each upper-case verb takes. */
  function Signature(verb: string): Option<seq<Kind>> {
    match verb
    case "LINE" => Some([Numeric, Numeric, Numeric, Numeric])
    case "RECT" => Some([Numeric, Numeric, Numeric, Numeric])
    case "CIRC" => Some([Numeric, Numeric, Numeric])
    case "CANV" => Some([Numeric, Numeric])
    case "CHAR" => Some([Character])
    case "READ" => Some([Text])
    case "SAVE" => Some([Text])
    case "INFO" => Some([])
    case "SHOW" => Some([])
    case "QUIT" => Some([])
    case _ => None
  }

  /** Some arm of the `match` takes the tokens. */
  predicate Accepted(toks: seq<string>) {
    |toks| > 0 && Admits(Signature(toks[0]), toks[1..])
  }

  /** The `parse().unwrap()` calls of the arm taking the tokens succeed. */
  predicate Convertible(toks: seq<string>) {
    Accepted(toks) ==> Conforms(toks[1..], Signature(toks[0]).value)
  }

  /** The verb a command is written with. */
  function Keyword(c: Command): string {
    match c
    case Line(_, _) => "LINE"
    case Rect(_, _) => "RECT"
    case Circ(_, _) => "CIRC"
    case Canv(_, _) => "CANV"
    case Char(_) => "CHAR"
    case Read(_) => "READ"
    case Save(_) => "SAVE"
    case Info => "INFO"
    case Show => "SHOW"
    case Quit => "QUIT"
  }

  /** The arguments a command carries, in the order they are written. */
  function Fields(c: Command): seq<Field> {
    match c
    case Line(from, to) => [Num(from.x), Num(from.y), Num(to.x), Num(to.y)]
    case Rect(p1, p2) => [Num(p1.x), Num(p1.y), Num(p2.x), Num(p2.y)]
    case Circ(p, r) => [Num(p.x), Num(p.y), Num(r)]
    case Canv(width, height) => [Num(width), Num(height)]
    case Char(ch) => [Chr(ch)]
    case Read(filename) => [Str(filename)]
    case Save(filename) => [Str(filename)]
    case Info => []
    case Show => []
    case Quit => []
  }

  /** Every command fits the verb table under its own keyword. */
  lemma CommandConforms(c: Command)
    ensures Signature(Keyword(c)).Some?
    ensures KindsMatch(Fields(c), Signature(Keyword(c)).value)
  {
  }

  /** The verbs of the table are exactly the keywords of the commands, so
      each of them is an upper-case word. */
  lemma SignatureKeywords(verb: string)
    ensures Signature(verb).Some? <==> exists c :: Keyword(c) == verb
    ensures Signature(verb).Some? ==> IsWord(verb) && UpperCase(verb) == verb
  {
    if Signature(verb).Some? {
      var o := Point(0, 0);
      var c :=
        match verb
        case "LINE" => Line(o, o)
        case "RECT" => Rect(o, o)
        case "CIRC" => Circ(o, 0)
        case "CANV" => Canv(0, 0)
        case "CHAR" => Char(' ')
        case "READ" => Read("")
        case "SAVE" => Save("")
        case "INFO" => Info
        case "SHOW" => Show
        case _ => Quit;
      assert Keyword(c) == verb;
      KeywordIsUpperWord(c);
    }
    if exists c :: Keyword(c) == verb {
      var c :| Keyword(c) == verb;
      CommandConforms(c);
    }
  }

  /** Keywords are single upper-case words. */
  lemma KeywordIsUpperWord(c: Command)
    ensures IsWord(Keyword(c))
    ensures UpperCase(Keyword(c)) == Keyword(c)
  {
    var k := Keyword(c);
    assert |k| == 4 && forall i :: 0 <= i < 4 ==> 'A' <= k[i] <= 'Z';
    UpperCaseOfUpper(k);
  }

  /** A command is determined by its keyword and its fields. */
  lemma CommandDetermined(c: Command, d: Command)
    requires Keyword(c) == Keyword(d) && Fields(c) == Fields(d)
    ensures c == d
  {
    match c
    case Line(_, _) => assert Fields(c)[..4] == Fields(d)[..4];
    case Rect(_, _) => assert Fields(c)[..4] == Fields(d)[..4];
    case _ =>
  }

  /** The `match` of `Command::from` on the token list. */
  function FromTokens(toks: seq<string>): (r: Result<Command>)
    requires Convertible(toks)
    ensures r.Err? ==> r.message == ""
    ensures r.Ok? <==> Accepted(toks)
    ensures r.Ok? ==> Keyword(r.value) == toks[0]
    ensures r.Ok? ==> DenotesAll(toks[1..], Fields(r.value))
  {
    if |toks| == 0 then Err("")
    else
      var n := |toks|;
      match toks[0]
      case "LINE" =>
        if n == 5 then Ok(Line(Point(UsizeValue(toks[1]), UsizeValue(toks[2])), Point(UsizeValue(toks[3]), UsizeValue(toks[4]))))
        else Err("")
      case "RECT" =>
        if n == 5 then Ok(Rect(Point(UsizeValue(toks[1]), UsizeValue(toks[2])), Point(UsizeValue(toks[3]), UsizeValue(toks[4]))))
        else Err("")
      case "CIRC" => if n == 4 then Ok(Circ(Point(UsizeValue(toks[1]), UsizeValue(toks[2])), UsizeValue(toks[3]))) else Err("")
      case "CANV" => if n == 3 then Ok(Canv(UsizeValue(toks[1]), UsizeValue(toks[2]))) else Err("")
      case "CHAR" => if n == 2 then Ok(Char(toks[1][0])) else Err("")
      case "READ" => if n == 2 then Ok(Read(toks[1])) else Err("")
      case "SAVE" => if n == 2 then Ok(Save(toks[1])) else Err("")
      case "INFO" => if n == 1 then Ok(Info) else Err("")
      case "SHOW" => if n == 1 then Ok(Show) else Err("")
      case "QUIT" => if n == 1 then Ok(Quit) else Err("")
      case _ => Err("")
  }

  /** `Command::from`: tokenize, then match. */
  function From(input: string): (r: Result<Command>)
    requires Convertible(Tokenize(input))
    ensures r.Err? ==> r.message == ""
    ensures r.Ok? <==> Accepted(Tokenize(input))
    ensures r.Ok? ==> Keyword(r.value) == UpperCase(Split(input)[0])
    ensures r.Ok? ==> DenotesAll(Split(input)[1..], Fields(r.value))
  {
    FromTokens(Tokenize(input))
  }

  /** A keyword and argument tokens determine the command: the result of
      `FromTokens` is the only command its contract allows. */
  lemma FromTokensUnique(toks: seq<string>, c: Command)
    requires Convertible(toks) && Accepted(toks)
    requires Keyword(c) == toks[0] && DenotesAll(toks[1..], Fields(c))
    ensures FromTokens(toks) == Ok(c)
  {
    var d := FromTokens(toks).value;
    var kinds := Signature(toks[0]).value;
    CommandConforms(c);
    CommandConforms(d);
    assert KindsMatch(Fields(c), kinds) && KindsMatch(Fields(d), kinds);
    DenotesAllUnique(toks[1..], Fields(c), Fields(d));
    CommandDetermined(c, d);
  }

  /** The result of `From` is the only command its contract allows. */
  lemma FromUnique(input: string, c: Command)
    requires Convertible(Tokenize(input)) && Accepted(Tokenize(input))
    requires Keyword(c) == Tokenize(input)[0] && DenotesAll(Tokenize(input)[1..], Fields(c))
    ensures From(input) == Ok(c)
  {
    FromTokensUnique(Tokenize(input), c);
  }

  /** A command can be written back as text when each of its fields has a
      whitespace-free spelling. */
  predicate Printable(c: Command) {
    forall i :: 0 <= i < |Fields(c)| ==> IsWord(Spelling(Fields(c)[i]))
  }

  /** The canonical text of a command: its keyword and its fields, separated
      by single spaces. */
  function Format(c: Command): string {
    Join([Keyword(c)] + Spellings(Fields(c)))
  }

  /** The tokens of the canonical text. */
  function CanonicalTokens(c: Command): seq<string> {
    [Keyword(c)] + Spellings(Fields(c))
  }

  /** Matching the canonical tokens of a command gives the command back. */
  lemma CanonicalTokensRoundTrip(c: Command)
    ensures Convertible(CanonicalTokens(c))
    ensures FromTokens(CanonicalTokens(c)) == Ok(c)
  {
    var toks := CanonicalTokens(c);
    CommandConforms(c);
    assert toks[0] == Keyword(c);
    assert toks[1..] == Spellings(Fields(c));
    forall i | 0 <= i < |Fields(c)| ensures Denotes(toks[1..][i], Fields(c)[i]) {
      SpellingDenotes(Fields(c)[i], Fields(c)[i]);
    }
    DenotesFits(toks[1..], Fields(c), Signature(Keyword(c)).value);
    var d := FromTokens(toks).value;
    CommandConforms(d);
    DenotesAllUnique(toks[1..], Fields(c), Fields(d));
    CommandDetermined(c, d);
  }

  /** Parsing the canonical text of a command gives the command back. */
  lemma FormatRoundTrip(c: Command)
    requires Printable(c)
    ensures Tokenize(Format(c)) == CanonicalTokens(c)
    ensures Convertible(Tokenize(Format(c)))
    ensures From(Format(c)) == Ok(c)
  {
    KeywordIsUpperWord(c);
    var toks := CanonicalTokens(c);
    assert forall i :: 0 <= i < |toks| ==> IsWord(toks[i]);
    TokenizeJoin(toks);
    CanonicalTokensRoundTrip(c);
  }

  /** A command matched from whitespace-free tokens is printable. */
  lemma FromTokensPrintable(toks: seq<string>)
    requires Convertible(toks) && FromTokens(toks).Ok?
    requires forall i :: 0 <= i < |toks| ==> IsWord(toks[i])
    ensures Printable(FromTokens(toks).value)
  {
    var c := FromTokens(toks).value;
    var args := toks[1..];
    forall i | 0 <= i < |Fields(c)| ensures IsWord(Spelling(Fields(c)[i])) {
      assert Denotes(args[i], Fields(c)[i]) && IsWord(args[i]);
      match Fields(c)[i]
      case Num(n) => DecimalRoundTrip(n);
      case Chr(_) =>
      case Str(_) =>
    }
  }

  /** Every parsed command is printable, and its canonical text parses to it:
      spelling a command canonically is a normal form for the parser. */
  lemma FromCanonical(input: string)
    requires Convertible(Tokenize(input)) && From(input).Ok?
    ensures Printable(From(input).value)
    ensures Convertible(Tokenize(Format(From(input).value)))
    ensures From(Format(From(input).value)) == From(input)
  {
    var c := From(input).value;
    assert From(input) == Ok(c);
    assert Printable(c) by {
      TokenizeWords(input);
      FromTokensPrintable(Tokenize(input));
    }
    FormatRoundTrip(c);
  }

  // ---------------------------------------------------------------------
  // Layout and case
  // ---------------------------------------------------------------------

  /** Empty or whitespace-only input is an error. */
  lemma FromEmpty(input: string)
    requires AllSpace(input)
    ensures Tokenize(input) == []
    ensures From(input) == Err("")
  {
    TokenizeAllSpace(input);
  }

  /** Whitespace before and after the command does not matter. */
  lemma FromIgnoresSurroundingSpace(w1: string, s: string, w2: string)
    requires AllSpace(w1) && AllSpace(w2) && Convertible(Tokenize(s))
    ensures Tokenize(w1 + s + w2) == Tokenize(s)
    ensures From(w1 + s + w2) == From(s)
  {
    TokenizeIgnoresSurroundingSpace(w1, s, w2);
  }

  /** Any non-empty run of whitespace between tokens can stand for any other. */
  lemma FromIgnoresSpaceRuns(a: string, w1: string, w2: string, b: string)
    requires |w1| > 0 && AllSpace(w1) && |w2| > 0 && AllSpace(w2)
    requires Convertible(Tokenize(a + w1 + b))
    ensures Tokenize(a + w1 + b) == Tokenize(a + w2 + b)
    ensures From(a + w1 + b) == From(a + w2 + b)
  {
    TokenizeIgnoresSpaceRuns(a, w1, w2, b);
  }

  /** The verb may be written in any case. */
  lemma FromIgnoresVerbCase(v1: string, v2: string, rest: string)
    requires IsWord(v1) && IsWord(v2) && UpperCase(v1) == UpperCase(v2)
    requires rest == [] || IsSpace(rest[0])
    requires Convertible(Tokenize(v1 + rest))
    ensures Tokenize(v1 + rest) == Tokenize(v2 + rest)
    ensures From(v1 + rest) == From(v2 + rest)
  {
    TokenizeIgnoresVerbCase(v1, v2, rest);
  }

  /** The file name of `READ` and `SAVE` is the argument token itself. */
  lemma FromTokensFilename(toks: seq<string>)
    requires Convertible(toks) && FromTokens(toks).Ok?
    requires FromTokens(toks).value.Read? || FromTokens(toks).value.Save?
    ensures |toks| == 2 && FromTokens(toks).value.filename == toks[1]
  {
    var c := FromTokens(toks).value;
    assert Fields(c) == [Str(c.filename)];
    assert Denotes(toks[1..][0], Str(c.filename));
  }

  /** Arguments are not upper-cased: a file name keeps its case. */
  lemma FromKeepsArgumentCase(input: string)
    requires Convertible(Tokenize(input)) && From(input).Ok?
    requires From(input).value.Read? || From(input).value.Save?
    ensures |Split(input)| == 2 && From(input).value.filename == Split(input)[1]
  {
    var toks := Tokenize(input);
    assert From(input) == FromTokens(toks);
    FromTokensFilename(toks);
    assert Split(input)[1] == Split(input)[1..][0] == toks[1..][0] == toks[1];
  }

  /** `From` depends on the input only through its tokens. */
  lemma FromByTokens(a: string, b: string)
    requires Tokenize(a) == Tokenize(b) && Convertible(Tokenize(a))
    ensures From(a) == From(b)
  {
  }
}
