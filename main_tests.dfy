/** Examples of the `tests` module of src/main.rs, stated about the model of
    `parse`, and one input on which `parse` and `Command::from` differ. */
module MainTests {
  import opened Tokens
  import C = Commands
  import opened MainParse
  import CT = CommandTests

  /** The numerals of `canv_is_parsed`. */
  lemma CanvNumerals()
    ensures IsUsizeLiteral("100") && UsizeValue("100") == 100
    ensures IsUsizeLiteral("200") && UsizeValue("200") == 200
  {
    assert "100"[..2] == "10" && "10"[..1] == "1" && "1"[..0] == "";
    assert "200"[..2] == "20" && "20"[..1] == "2" && "2"[..0] == "";
  }

  /** `CANV 100 200` is its tokens joined by single spaces. */
  lemma CanvJoin()
    ensures Join(["CANV", "100", "200"]) == "CANV 100 200"
  {
    assert Join(["200"]) == "200";
    assert Join(["100", "200"]) == "100 200" by { assert ["100", "200"][1..] == ["200"]; }
    assert ["CANV", "100", "200"][1..] == ["100", "200"];
  }

  /** The tokens of `CANV 100 200` are words. */
  lemma CanvWords()
    ensures forall i :: 0 <= i < 3 ==> IsWord(["CANV", "100", "200"][i])
  {
    assert IsWord("CANV") && IsWord("100") && IsWord("200");
  }

  /** The tokens of `CANV 100 200`. */
  lemma CanvTokens()
    ensures Tokenize("CANV 100 200") == ["CANV", "100", "200"]
  {
    CanvJoin();
    CanvWords();
    UpperCaseOfUpper("CANV");
    assert ["CANV", "100", "200"][1..] == ["100", "200"];
    TokenizeJoin(["CANV", "100", "200"]);
  }

  /** The match on the tokens of `CANV 100 200`. */
  lemma CanvMatch()
    ensures Convertible(["CANV", "100", "200"])
    ensures ParseTokens(["CANV", "100", "200"]) == Ok(Canv(100, 200))
  {
    CanvNumerals();
    assert ["CANV", "100", "200"][1..] == ["100", "200"];
  }

  /** The canonical texts of the example commands. */
  lemma CharFormat()
    ensures C.Printable(Widen(Char('*')))
    ensures C.Format(Widen(Char('*'))) == "CHAR *"
  {
    assert C.CanonicalTokens(Widen(Char('*'))) == ["CHAR", "*"];
    assert ["CHAR", "*"][1..] == ["*"];
  }

  lemma SaveFormat()
    ensures C.Printable(Widen(Save("FileName")))
    ensures C.Format(Widen(Save("FileName"))) == "SAVE FileName"
  {
    assert C.CanonicalTokens(Widen(Save("FileName"))) == ["SAVE", "FileName"];
    assert ["SAVE", "FileName"][1..] == ["FileName"];
  }

  lemma QuitFormat()
    ensures C.Printable(Widen(Quit))
    ensures C.Format(Widen(Quit)) == "QUIT"
  {
    assert C.CanonicalTokens(Widen(Quit)) == ["QUIT"];
  }

  /** How the example inputs are put together from their pieces. */
  lemma MainTexts()
    ensures " CANV 100 200" == " " + "CANV 100 200" + ""
    ensures " CHAR *" == " " + "CHAR *" + ""
    ensures " SAVE FileName" == " " + "SAVE FileName" + ""
    ensures " \tQUIT " == " \t" + "QUIT" + " "
  {
  }

  lemma CanvLayout()
    ensures Tokenize(" CANV 100 200") == Tokenize("CANV 100 200")
  {
    MainTexts();
    TokenizeIgnoresSurroundingSpace(" ", "CANV 100 200", "");
  }

  lemma CharLayout()
    ensures Tokenize(" CHAR *") == Tokenize("CHAR *")
  {
    MainTexts();
    TokenizeIgnoresSurroundingSpace(" ", "CHAR *", "");
  }

  lemma SaveLayout()
    ensures Tokenize(" SAVE FileName") == Tokenize("SAVE FileName")
  {
    MainTexts();
    TokenizeIgnoresSurroundingSpace(" ", "SAVE FileName", "");
  }

  lemma QuitLayout()
    ensures Tokenize(" \tQUIT ") == Tokenize("QUIT")
  {
    MainTexts();
    TokenizeIgnoresSurroundingSpace(" \t", "QUIT", " ");
  }

  /** `canv_is_parsed`. */
  lemma CanvExample()
    ensures Convertible(Tokenize(" CANV 100 200"))
    ensures Parse(" CANV 100 200") == Ok(Canv(100, 200))
  {
    CanvLayout();
    CanvTokens();
    CanvMatch();
  }

  /** `char_is_parsed`. */
  lemma CharExample()
    ensures Convertible(Tokenize(" CHAR *"))
    ensures Parse(" CHAR *") == Ok(Char('*'))
  {
    CharFormat();
    ParseFormatRoundTrip(Char('*'));
    CharLayout();
    ParseByTokens(" CHAR *", "CHAR *");
  }

  /** `save_is_parsed`: the file name keeps its case. */
  lemma SaveExample()
    ensures Convertible(Tokenize(" SAVE FileName"))
    ensures Parse(" SAVE FileName") == Ok(Save("FileName"))
  {
    SaveFormat();
    ParseFormatRoundTrip(Save("FileName"));
    SaveLayout();
    ParseByTokens(" SAVE FileName", "SAVE FileName");
  }

  /** `quit_is_parsed`. */
  lemma QuitExample()
    ensures Convertible(Tokenize(" \tQUIT "))
    ensures Parse(" \tQUIT ") == Ok(Quit)
  {
    QuitFormat();
    ParseFormatRoundTrip(Quit);
    QuitLayout();
    ParseByTokens(" \tQUIT ", "QUIT");
  }

  /** Upper-casing `info`. */
  lemma InfoUpper()
    ensures UpperCase("info") == "INFO"
  {
  }

  /** The token of `info`. */
  lemma InfoTokens()
    ensures Tokenize("info") == ["INFO"]
  {
    assert Join(["info"]) == "info";
    InfoUpper();
    TokenizeJoin(["info"]);
  }

  /** The match on a lone `INFO`. */
  lemma InfoMatch()
    ensures Convertible(["INFO"]) && ParseTokens(["INFO"]) == Err("")
    ensures C.Convertible(["INFO"]) && C.FromTokens(["INFO"]) == Ok(C.Info)
  {
    assert ["INFO"][1..] == [];
  }

  /** `INFO` is a command of `Command::from` (`info_is_parsed` of
      src/command.rs) and an error of `parse`. */
  lemma InfoExample()
    ensures Tokenize("info") == ["INFO"]
    ensures Convertible(Tokenize("info")) && Parse("info") == Err("")
    ensures C.Convertible(Tokenize("info")) && C.From("info") == Ok(C.Info)
  {
    InfoTokens();
    InfoMatch();
  }

  /** Upper-casing `show`. */
  lemma ShowUpper()
    ensures UpperCase("show") == "SHOW"
  {
  }

  /** The token of `show`. */
  lemma ShowTokens()
    ensures Tokenize("show") == ["SHOW"]
  {
    assert Join(["show"]) == "show";
    ShowUpper();
    TokenizeJoin(["show"]);
  }

  /** The match on a lone `SHOW`. */
  lemma ShowMatch()
    ensures Convertible(["SHOW"]) && ParseTokens(["SHOW"]) == Err("")
    ensures C.Convertible(["SHOW"]) && C.FromTokens(["SHOW"]) == Ok(C.Show)
  {
    assert ["SHOW"][1..] == [];
  }

  /** `show_is_parsed` of src/command.rs; `parse` has no `SHOW`. */
  lemma ShowExample()
    ensures Tokenize("show") == ["SHOW"]
    ensures Convertible(Tokenize("show")) && Parse("show") == Err("")
    ensures C.Convertible(Tokenize("show")) && C.From("show") == Ok(C.Show)
  {
    ShowTokens();
    ShowMatch();
  }

  // ---------------------------------------------------------------------
  // The examples of each parser, carried over to the other one
  // ---------------------------------------------------------------------

  /** `line_is_parsed` of src/main.rs. */
  lemma ParseLineExample()
    ensures Convertible(Tokenize("LINE 1 2 3 4"))
    ensures Parse("LINE 1 2 3 4") == Ok(Line(1, 2, 3, 4))
  {
    CT.LineFormat();
    ParseFormatRoundTrip(Line(1, 2, 3, 4));
  }

  /** The match of `parse` on the tokens of `READ FileName`. */
  lemma ReadMatch()
    ensures Convertible(["READ", "FileName"])
    ensures ParseTokens(["READ", "FileName"]) == Ok(Read("FileName"))
  {
    assert ["READ", "FileName"][1..] == ["FileName"];
  }

  /** `read_is_parsed` of src/main.rs: the file name keeps its case. */
  lemma ParseReadExample()
    ensures Convertible(Tokenize(" READ FileName"))
    ensures Parse(" READ FileName") == Ok(Read("FileName"))
  {
    CT.ReadLayout();
    CT.ReadTokens();
    ReadMatch();
  }

  /** The match of `Command::from` on the tokens of `CANV 100 200`. */
  lemma FromCanvMatch()
    ensures C.Convertible(["CANV", "100", "200"])
    ensures C.FromTokens(["CANV", "100", "200"]) == Ok(C.Canv(100, 200))
  {
    CanvNumerals();
    assert ["CANV", "100", "200"][1..] == ["100", "200"];
  }

  /** `canv_is_parsed` of src/command.rs. */
  lemma FromCanvExample()
    ensures C.Convertible(Tokenize(" CANV 100 200"))
    ensures C.From(" CANV 100 200") == Ok(C.Canv(100, 200))
  {
    CanvLayout();
    CanvTokens();
    FromCanvMatch();
  }

  /** The tokens of `CHAR *`. */
  lemma CharTokens()
    ensures Tokenize("CHAR *") == ["CHAR", "*"]
  {
    assert Join(["CHAR", "*"]) == "CHAR *" by { assert ["CHAR", "*"][1..] == ["*"]; }
    assert IsWord("CHAR") && IsWord("*");
    UpperCaseOfUpper("CHAR");
    TokenizeJoin(["CHAR", "*"]);
  }

  /** The match of `Command::from` on the tokens of `CHAR *`. */
  lemma FromCharMatch()
    ensures C.Convertible(["CHAR", "*"])
    ensures C.FromTokens(["CHAR", "*"]) == Ok(C.Char('*'))
  {
    assert ["CHAR", "*"][1..] == ["*"];
  }

  /** `char_is_parsed` of src/command.rs. */
  lemma FromCharExample()
    ensures C.Convertible(Tokenize(" CHAR *"))
    ensures C.From(" CHAR *") == Ok(C.Char('*'))
  {
    CharLayout();
    CharTokens();
    FromCharMatch();
  }

  /** `SAVE FileName` is its tokens joined by a space. */
  lemma SaveJoin()
    ensures Join(["SAVE", "FileName"]) == "SAVE FileName"
  {
    assert ["SAVE", "FileName"][1..] == ["FileName"];
  }

  /** The tokens of `SAVE FileName` are words. */
  lemma SaveWords()
    ensures forall i :: 0 <= i < 2 ==> IsWord(["SAVE", "FileName"][i])
  {
    assert IsWord("SAVE") && IsWord("FileName");
  }

  /** The tokens of `SAVE FileName`. */
  lemma SaveTokens()
    ensures Tokenize("SAVE FileName") == ["SAVE", "FileName"]
  {
    SaveJoin();
    SaveWords();
    UpperCaseOfUpper("SAVE");
    assert ["SAVE", "FileName"][1..] == ["FileName"];
    TokenizeJoin(["SAVE", "FileName"]);
  }

  /** The match of `Command::from` on the tokens of `SAVE FileName`. */
  lemma FromSaveMatch()
    ensures C.Convertible(["SAVE", "FileName"])
    ensures C.FromTokens(["SAVE", "FileName"]) == Ok(C.Save("FileName"))
  {
    assert ["SAVE", "FileName"][1..] == ["FileName"];
  }

  /** `save_is_parsed` of src/command.rs: the file name keeps its case. */
  lemma FromSaveExample()
    ensures C.Convertible(Tokenize(" SAVE FileName"))
    ensures C.From(" SAVE FileName") == Ok(C.Save("FileName"))
  {
    SaveLayout();
    SaveTokens();
    FromSaveMatch();
  }

  /** The token of `QUIT`. */
  lemma QuitTokens()
    ensures Tokenize("QUIT") == ["QUIT"]
  {
    assert Join(["QUIT"]) == "QUIT";
    assert IsWord("QUIT");
    UpperCaseOfUpper("QUIT");
    TokenizeJoin(["QUIT"]);
  }

  /** The match of `Command::from` on a lone `QUIT`. */
  lemma FromQuitMatch()
    ensures C.Convertible(["QUIT"])
    ensures C.FromTokens(["QUIT"]) == Ok(C.Quit)
  {
    assert ["QUIT"][1..] == [];
  }

  /** `quit_is_parsed` of src/command.rs. */
  lemma FromQuitExample()
    ensures C.Convertible(Tokenize(" \tQUIT "))
    ensures C.From(" \tQUIT ") == Ok(C.Quit)
  {
    QuitLayout();
    QuitTokens();
    FromQuitMatch();
  }
}
