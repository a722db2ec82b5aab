/** `Command` and `parse` of src/main.rs: the earlier version of the command
    parser.  It tokenizes the same way as `Command::from` but has flat
    coordinates instead of points and no `INFO` or `SHOW` verb. */
module MainParse {
  import opened Tokens
  import G = Grid
  import C = Commands

  datatype Command =
    | Line(x1: Usize, y1: Usize, x2: Usize, y2: Usize)
    | Rect(x1: Usize, y1: Usize, x2: Usize, y2: Usize)
    | Circ(x: Usize, y: Usize, r: Usize)
    | Canv(width: Usize, height: Usize)
    | Char(ch: char)
    | Read(filename: string)
    | Save(filename: string)
    | Quit

  /** The verb table of `parse`. */
  function Signature(verb: string): Option<seq<Kind>> {
    match verb
    case "LINE" => Some([Numeric, Numeric, Numeric, Numeric])
    case "RECT" => Some([Numeric, Numeric, Numeric, Numeric])
    case "CIRC" => Some([Numeric, Numeric, Numeric])
    case "CANV" => Some([Numeric, Numeric])
    case "CHAR" => Some([Character])
    case "READ" => Some([Text])
    case "SAVE" => Some([Text])
    case "QUIT" => Some([])
    case _ => None
  }

  /** Some arm of the `match` takes the tokens. */
  predicate Accepted(toks: seq<string>) {
    |toks| > 0 && Admits(Signature(toks[0]), toks[1..])
  }

  /** The `parse().unwrap()` calls of the arm taking the tokens succeed. */
  predicate Convertible(toks: seq<string>) {
    Accepted(toks) ==> Conforms(toks[1..], Signature(toks[0]).value)
  }

  function Keyword(c: Command): string {
    match c
    case Line(_, _, _, _) => "LINE"
    case Rect(_, _, _, _) => "RECT"
    case Circ(_, _, _) => "CIRC"
    case Canv(_, _) => "CANV"
    case Char(_) => "CHAR"
    case Read(_) => "READ"
    case Save(_) => "SAVE"
    case Quit => "QUIT"
  }

  function Fields(c: Command): seq<Field> {
    match c
    case Line(x1, y1, x2, y2) => [Num(x1), Num(y1), Num(x2), Num(y2)]
    case Rect(x1, y1, x2, y2) => [Num(x1), Num(y1), Num(x2), Num(y2)]
    case Circ(x, y, r) => [Num(x), Num(y), Num(r)]
    case Canv(width, height) => [Num(width), Num(height)]
    case Char(ch) => [Chr(ch)]
    case Read(filename) => [Str(filename)]
    case Save(filename) => [Str(filename)]
    case Quit => []
  }

  /** The `match` of `parse` on the token list. */
  function ParseTokens(toks: seq<string>): (r: Result<Command>)
    requires Convertible(toks)
    ensures r.Err? ==> r.message == ""
    ensures r.Ok? <==> Accepted(toks)
    ensures r.Ok? ==> Keyword(r.value) == toks[0]
    ensures r.Ok? ==> DenotesAll(toks[1..], Fields(r.value))
  {
    if |toks| == 0 then Err("")
    else
      var n := |toks|;
      match toks[0]
      case "LINE" => if n == 5 then Ok(Line(UsizeValue(toks[1]), UsizeValue(toks[2]), UsizeValue(toks[3]), UsizeValue(toks[4]))) else Err("")
      case "RECT" => if n == 5 then Ok(Rect(UsizeValue(toks[1]), UsizeValue(toks[2]), UsizeValue(toks[3]), UsizeValue(toks[4]))) else Err("")
      case "CIRC" => if n == 4 then Ok(Circ(UsizeValue(toks[1]), UsizeValue(toks[2]), UsizeValue(toks[3]))) else Err("")
      case "CANV" => if n == 3 then Ok(Canv(UsizeValue(toks[1]), UsizeValue(toks[2]))) else Err("")
      case "CHAR" => if n == 2 then Ok(Char(toks[1][0])) else Err("")
      case "READ" => if n == 2 then Ok(Read(toks[1])) else Err("")
      case "SAVE" => if n == 2 then Ok(Save(toks[1])) else Err("")
      case "QUIT" => if n == 1 then Ok(Quit) else Err("")
      case _ => Err("")
  }

  /** `parse`: tokenize, then match. */
  function Parse(input: string): (r: Result<Command>)
    requires Convertible(Tokenize(input))
    ensures r.Err? ==> r.message == ""
    ensures r.Ok? <==> Accepted(Tokenize(input))
    ensures r.Ok? ==> Keyword(r.value) == UpperCase(Split(input)[0])
    ensures r.Ok? ==> DenotesAll(Split(input)[1..], Fields(r.value))
  {
    ParseTokens(Tokenize(input))
  }

  // ---------------------------------------------------------------------
  // Relation to `Command::from`
  // ---------------------------------------------------------------------

  /** A `Command::from` result as `parse` reports it: points are flattened
      into coordinates, and `INFO` and `SHOW`, which `parse` does not know,
      become the error. */
  function Narrow(r: Result<C.Command>): (n: Result<Command>)
    ensures n.Err? <==> r.Err? || r.value.Info? || r.value.Show?
    ensures n.Err? && r.Err? ==> n.message == r.message
    ensures n.Err? && r.Ok? ==> n.message == ""
    ensures n.Ok? ==> Keyword(n.value) == C.Keyword(r.value) && Fields(n.value) == C.Fields(r.value)
  {
    match r
    case Err(m) => Err(m)
    case Ok(c) =>
      match c
      case Line(from, to) => Ok(Line(from.x, from.y, to.x, to.y))
      case Rect(p1, p2) => Ok(Rect(p1.x, p1.y, p2.x, p2.y))
      case Circ(p, r) => Ok(Circ(p.x, p.y, r))
      case Canv(width, height) => Ok(Canv(width, height))
      case Char(ch) => Ok(Char(ch))
      case Read(filename) => Ok(Read(filename))
      case Save(filename) => Ok(Save(filename))
      case Info => Err("")
      case Show => Err("")
      case Quit => Ok(Quit)
  }

  /** The `Command::from` command with the same keyword and fields. */
  function Widen(c: Command): (d: C.Command)
    ensures C.Keyword(d) == Keyword(c) && C.Fields(d) == Fields(c)
    ensures Narrow(Ok(d)) == Ok(c)
  {
    match c
    case Line(x1, y1, x2, y2) => C.Line(G.Point(x1, y1), G.Point(x2, y2))
    case Rect(x1, y1, x2, y2) => C.Rect(G.Point(x1, y1), G.Point(x2, y2))
    case Circ(x, y, r) => C.Circ(G.Point(x, y), r)
    case Canv(width, height) => C.Canv(width, height)
    case Char(ch) => C.Char(ch)
    case Read(filename) => C.Read(filename)
    case Save(filename) => C.Save(filename)
    case Quit => C.Quit
  }

  /** The only `Command::from` result that narrows to a command is its
      widened counterpart. */
  lemma NarrowOk(r: Result<C.Command>, c: Command)
    requires Narrow(r) == Ok(c)
    ensures r == Ok(Widen(c))
  {
    C.CommandDetermined(r.value, Widen(c));
  }

  /** The two verb tables agree except that `parse` lacks `INFO` and `SHOW`. */
  lemma SignatureAgrees(verb: string)
    ensures Signature(verb) == if verb == "INFO" || verb == "SHOW" then None else C.Signature(verb)
  {
  }

  /** The verbs of the table of `parse` are exactly the keywords of its
      commands, and each command's fields have the kinds listed for its verb. */
  lemma SignatureKeywords(verb: string)
    ensures Signature(verb).Some? <==> exists c :: Keyword(c) == verb
    ensures forall c :: Keyword(c) == verb ==> Signature(verb).Some? && KindsMatch(Fields(c), Signature(verb).value)
  {
    SignatureAgrees(verb);
    C.SignatureKeywords(verb);
    if Signature(verb).Some? {
      var w :| C.Keyword(w) == verb;
      var n := Narrow(Ok(w));
      assert n.Ok? && Keyword(n.value) == verb;
    }
    forall c | Keyword(c) == verb
      ensures Signature(verb).Some? && KindsMatch(Fields(c), Signature(verb).value)
    {
      C.CommandConforms(Widen(c));
    }
  }

  /** Both parsers demand the same of their argument tokens. */
  lemma ConvertibleAgrees(toks: seq<string>)
    ensures Convertible(toks) <==> C.Convertible(toks)
  {
    if |toks| > 0 {
      SignatureAgrees(toks[0]);
    }
  }

  /** On the same tokens, `parse` gives what `Command::from` gives, narrowed. */
  lemma ParseTokensAgrees(toks: seq<string>)
    requires Convertible(toks)
    ensures C.Convertible(toks)
    ensures ParseTokens(toks) == Narrow(C.FromTokens(toks))
  {
    ConvertibleAgrees(toks);
  }

  /** `parse` is `Command::from` narrowed to the commands it knows. */
  lemma ParseAgrees(input: string)
    requires Convertible(Tokenize(input))
    ensures C.Convertible(Tokenize(input))
    ensures Parse(input) == Narrow(C.From(input))
  {
    ParseTokensAgrees(Tokenize(input));
  }

  /** A command `parse` reads is what `Command::from` reads, widened. */
  lemma FromOfParse(input: string, c: Command)
    requires Convertible(Tokenize(input)) && Parse(input) == Ok(c)
    ensures C.Convertible(Tokenize(input))
    ensures C.From(input) == Ok(Widen(c))
  {
    ParseAgrees(input);
    NarrowOk(C.From(input), c);
  }

  /** What `Command::from` reads, `parse` reads narrowed. */
  lemma ParseOfFrom(input: string, c: C.Command)
    requires C.Convertible(Tokenize(input)) && C.From(input) == Ok(c)
    ensures Convertible(Tokenize(input))
    ensures Parse(input) == Narrow(Ok(c))
  {
    ConvertibleAgrees(Tokenize(input));
    ParseAgrees(input);
  }

  /** `INFO` and `SHOW` are commands of `Command::from` but errors of `parse`. */
  lemma InfoAndShowTokens(toks: seq<string>)
    requires toks == ["INFO"] || toks == ["SHOW"]
    ensures Convertible(toks) && C.Convertible(toks)
    ensures ParseTokens(toks) == Err("")
    ensures C.FromTokens(toks).Ok? && (C.FromTokens(toks).value.Info? || C.FromTokens(toks).value.Show?)
  {
    assert toks[1..] == [];
  }

  /** The same, for any input that tokenizes to a lone `INFO` or `SHOW`. */
  lemma ParseRejectsInfoAndShow(input: string)
    requires Tokenize(input) == ["INFO"] || Tokenize(input) == ["SHOW"]
    ensures Convertible(Tokenize(input)) && C.Convertible(Tokenize(input))
    ensures Parse(input) == Err("")
    ensures C.From(input).Ok? && (C.From(input).value.Info? || C.From(input).value.Show?)
  {
    InfoAndShowTokens(Tokenize(input));
  }

  // ---------------------------------------------------------------------
  // Consequences
  // ---------------------------------------------------------------------

  /** Parsing the canonical text of a command gives the command back. */
  lemma ParseFormatRoundTrip(c: Command)
    requires C.Printable(Widen(c))
    ensures Convertible(Tokenize(C.Format(Widen(c))))
    ensures Parse(C.Format(Widen(c))) == Ok(c)
  {
    C.FormatRoundTrip(Widen(c));
    ConvertibleAgrees(Tokenize(C.Format(Widen(c))));
    ParseAgrees(C.Format(Widen(c)));
  }

  /** Empty or whitespace-only input is an error. */
  lemma ParseEmpty(input: string)
    requires AllSpace(input)
    ensures Tokenize(input) == []
    ensures Parse(input) == Err("")
  {
    TokenizeAllSpace(input);
  }

  /** Whitespace before and after the command does not matter. */
  lemma ParseIgnoresSurroundingSpace(w1: string, s: string, w2: string)
    requires AllSpace(w1) && AllSpace(w2) && Convertible(Tokenize(s))
    ensures Tokenize(w1 + s + w2) == Tokenize(s)
    ensures Parse(w1 + s + w2) == Parse(s)
  {
    TokenizeIgnoresSurroundingSpace(w1, s, w2);
  }

  /** Any non-empty run of whitespace between tokens can stand for any other. */
  lemma ParseIgnoresSpaceRuns(a: string, w1: string, w2: string, b: string)
    requires |w1| > 0 && AllSpace(w1) && |w2| > 0 && AllSpace(w2)
    requires Convertible(Tokenize(a + w1 + b))
    ensures Tokenize(a + w1 + b) == Tokenize(a + w2 + b)
    ensures Parse(a + w1 + b) == Parse(a + w2 + b)
  {
    TokenizeIgnoresSpaceRuns(a, w1, w2, b);
  }

  /** The verb may be written in any case. */
  lemma ParseIgnoresVerbCase(v1: string, v2: string, rest: string)
    requires IsWord(v1) && IsWord(v2) && UpperCase(v1) == UpperCase(v2)
    requires rest == [] || IsSpace(rest[0])
    requires Convertible(Tokenize(v1 + rest))
    ensures Tokenize(v1 + rest) == Tokenize(v2 + rest)
    ensures Parse(v1 + rest) == Parse(v2 + rest)
  {
    TokenizeIgnoresVerbCase(v1, v2, rest);
  }

  /** The file name of `READ` and `SAVE` is the argument token itself. */
  lemma ParseTokensFilename(toks: seq<string>)
    requires Convertible(toks) && ParseTokens(toks).Ok?
    requires ParseTokens(toks).value.Read? || ParseTokens(toks).value.Save?
    ensures |toks| == 2 && ParseTokens(toks).value.filename == toks[1]
  {
    var c := ParseTokens(toks).value;
    assert Fields(c) == [Str(c.filename)];
    assert Denotes(toks[1..][0], Str(c.filename));
  }

  /** Arguments are not upper-cased: a file name keeps its case. */
  lemma ParseKeepsArgumentCase(input: string)
    requires Convertible(Tokenize(input)) && Parse(input).Ok?
    requires Parse(input).value.Read? || Parse(input).value.Save?
    ensures |Split(input)| == 2 && Parse(input).value.filename == Split(input)[1]
  {
    var toks := Tokenize(input);
    assert Parse(input) == ParseTokens(toks);
    ParseTokensFilename(toks);
    assert Split(input)[1] == Split(input)[1..][0] == toks[1..][0] == toks[1];
  }

  /** `parse` depends on the input only through its tokens. */
  lemma ParseByTokens(a: string, b: string)
    requires Tokenize(a) == Tokenize(b) && Convertible(Tokenize(a))
    ensures Parse(a) == Parse(b)
  {
  }
}
