/** The examples of the `tests` module of src/command.rs, stated about the
    model: each input text and the command (or error) it parses to. */
module CommandTests {
  import opened Tokens
  import opened Grid
  import opened Commands

  /** The canonical tokens of the `line_is_parsed` command. */
  lemma LineSpellings()
    ensures CanonicalTokens(Line(Point(1, 2), Point(3, 4))) == ["LINE", "1", "2", "3", "4"]
  {
    assert Decimal(1) == "1" && Decimal(2) == "2" && Decimal(3) == "3" && Decimal(4) == "4";
  }

  /** `LINE 1 2 3 4` is its tokens joined by single spaces. */
  lemma LineJoin()
    ensures Join(["LINE", "1", "2", "3", "4"]) == "LINE 1 2 3 4"
  {
    assert Join(["4"]) == "4";
    assert Join(["3", "4"]) == "3 4" by { assert ["3", "4"][1..] == ["4"]; }
    assert Join(["2", "3", "4"]) == "2 3 4" by { assert ["2", "3", "4"][1..] == ["3", "4"]; }
    assert Join(["1", "2", "3", "4"]) == "1 2 3 4" by { assert ["1", "2", "3", "4"][1..] == ["2", "3", "4"]; }
    assert ["LINE", "1", "2", "3", "4"][1..] == ["1", "2", "3", "4"];
  }

  /** The canonical text of `LINE 1 2 3 4`. */
  lemma LineFormat()
    ensures Format(Line(Point(1, 2), Point(3, 4))) == "LINE 1 2 3 4"
  {
    LineSpellings();
    LineJoin();
  }

  /** How `line\t1 2 3 4` and its variants are put together. */
  lemma VerbTexts()
    ensures "line\t1 2 3 4" == "line" + "\t" + "1 2 3 4"
    ensures "line 1 2 3 4" == "line" + " " + "1 2 3 4"
    ensures "line 1 2 3 4" == "line" + " 1 2 3 4"
    ensures "LINE 1 2 3 4" == "LINE" + " 1 2 3 4"
    ensures "Line 1 2 3 4" == "Line" + " 1 2 3 4"
  {
  }

  /** How `Line  1  2  3\t4\n` is widened from `Line 1 2 3 4`. */
  lemma WideTexts()
    ensures "Line 1 2 3 4" == "Line" + " " + "1 2 3 4"
    ensures "Line  1 2 3 4" == "Line" + "  " + "1 2 3 4"
    ensures "Line  1 2 3 4" == "Line  1" + " " + "2 3 4"
    ensures "Line  1  2 3 4" == "Line  1" + "  " + "2 3 4"
    ensures "Line  1  2 3 4" == "Line  1  2" + " " + "3 4"
    ensures "Line  1  2  3 4" == "Line  1  2" + "  " + "3 4"
  {
  }

  /** The tab and the newline at the end of `Line  1  2  3\t4\n`. */
  lemma TrailingTexts()
    ensures "Line  1  2  3 4" == "Line  1  2  3" + " " + "4"
    ensures "Line  1  2  3\t4" == "Line  1  2  3" + "\t" + "4"
    ensures "Line  1  2  3\t4\n" == "" + "Line  1  2  3\t4" + "\n"
  {
  }

  /** Upper-casing the verb of `line 1 2 3 4`. */
  lemma LowerVerbLayout()
    ensures Tokenize("line 1 2 3 4") == Tokenize("LINE 1 2 3 4")
  {
    VerbTexts();
    TokenizeIgnoresVerbCase("LINE", "line", " 1 2 3 4");
  }

  /** Upper-casing the verb of `Line 1 2 3 4`. */
  lemma MixedVerbLayout()
    ensures Tokenize("Line 1 2 3 4") == Tokenize("LINE 1 2 3 4")
  {
    VerbTexts();
    TokenizeIgnoresVerbCase("LINE", "Line", " 1 2 3 4");
  }

  /** A tab separates like a space. */
  lemma TabLayout()
    ensures Tokenize("line\t1 2 3 4") == Tokenize("line 1 2 3 4")
  {
    VerbTexts();
    TokenizeIgnoresSpaceRuns("line", " ", "\t", "1 2 3 4");
  }

  /** Widening the separators of `Line 1 2 3 4` one at a time. */
  lemma WideLayout()
    ensures Tokenize("Line  1  2  3 4") == Tokenize("Line 1 2 3 4")
  {
    WideTexts();
    TokenizeIgnoresSpaceRuns("Line", " ", "  ", "1 2 3 4");
    TokenizeIgnoresSpaceRuns("Line  1", " ", "  ", "2 3 4");
    TokenizeIgnoresSpaceRuns("Line  1  2", " ", "  ", "3 4");
  }

  /** The last separator may be a tab. */
  lemma LastTabLayout()
    ensures Tokenize("Line  1  2  3\t4") == Tokenize("Line  1  2  3 4")
  {
    TrailingTexts();
    TokenizeIgnoresSpaceRuns("Line  1  2  3", " ", "\t", "4");
  }

  /** A trailing newline is ignored. */
  lemma NewlineLayout()
    ensures Tokenize("Line  1  2  3\t4\n") == Tokenize("Line  1  2  3\t4")
  {
    TrailingTexts();
    TokenizeIgnoresSurroundingSpace("", "Line  1  2  3\t4", "\n");
  }

  /** `line_is_parsed`, canonical layout. */
  lemma LineExample()
    ensures Convertible(Tokenize("LINE 1 2 3 4"))
    ensures From("LINE 1 2 3 4") == Ok(Line(Point(1, 2), Point(3, 4)))
  {
    LineFormat();
    FormatRoundTrip(Line(Point(1, 2), Point(3, 4)));
  }

  /** `line_is_parsed`, lower-case verb and a tab. */
  lemma LineTabExample()
    ensures Convertible(Tokenize("line\t1 2 3 4"))
    ensures From("line\t1 2 3 4") == Ok(Line(Point(1, 2), Point(3, 4)))
  {
    LineExample();
    LowerVerbLayout();
    TabLayout();
    FromByTokens("line\t1 2 3 4", "LINE 1 2 3 4");
  }

  /** `line_is_parsed`, mixed-case verb, runs of blanks and a newline. */
  lemma LineSpacedExample()
    ensures Convertible(Tokenize("Line  1  2  3\t4\n"))
    ensures From("Line  1  2  3\t4\n") == Ok(Line(Point(1, 2), Point(3, 4)))
  {
    LineExample();
    MixedVerbLayout();
    WideLayout();
    LastTabLayout();
    NewlineLayout();
    FromByTokens("Line  1  2  3\t4\n", "LINE 1 2 3 4");
  }

  /** `READ FileName` is its tokens joined by a space. */
  lemma ReadJoin()
    ensures Join(["READ", "FileName"]) == "READ FileName"
  {
    assert ["READ", "FileName"][1..] == ["FileName"];
  }

  /** The tokens of `READ FileName` are words. */
  lemma ReadWords()
    ensures forall i :: 0 <= i < 2 ==> IsWord(["READ", "FileName"][i])
  {
    assert IsWord("READ") && IsWord("FileName");
  }

  /** The tokens of `READ FileName`. */
  lemma ReadTokens()
    ensures Tokenize("READ FileName") == ["READ", "FileName"]
  {
    ReadJoin();
    ReadWords();
    UpperCaseOfUpper("READ");
    assert ["READ", "FileName"][1..] == ["FileName"];
    TokenizeJoin(["READ", "FileName"]);
  }

  /** The match on the tokens of `READ FileName`. */
  lemma ReadMatch()
    ensures Convertible(["READ", "FileName"])
    ensures FromTokens(["READ", "FileName"]) == Ok(Read("FileName"))
  {
    assert ["READ", "FileName"][1..] == ["FileName"];
  }

  /** `READ FileName` in its canonical layout. */
  lemma ReadCanonicalExample()
    ensures Convertible(Tokenize("READ FileName")) && From("READ FileName") == Ok(Read("FileName"))
  {
    ReadTokens();
    ReadMatch();
  }

  /** A leading blank before `READ FileName` is ignored. */
  lemma ReadLayout()
    ensures Tokenize(" READ FileName") == Tokenize("READ FileName")
  {
    assert " READ FileName" == " " + "READ FileName" + "";
    TokenizeIgnoresSurroundingSpace(" ", "READ FileName", "");
  }

  /** `read_is_parsed`: the file name keeps its case. */
  lemma ReadExample()
    ensures Convertible(Tokenize(" READ FileName"))
    ensures From(" READ FileName") == Ok(Read("FileName"))
  {
    ReadLayout();
    ReadCanonicalExample();
    FromByTokens(" READ FileName", "READ FileName");
  }

  /** The tokens of `QUIT x`. */
  lemma QuitTokens()
    ensures Tokenize("QUIT x") == ["QUIT", "x"]
  {
    assert ["QUIT", "x"][1..] == ["x"];
    assert Join(["QUIT", "x"]) == "QUIT x";
    UpperCaseOfUpper("QUIT");
    TokenizeJoin(["QUIT", "x"]);
  }

  /** `LINE 1 2 3` is its tokens joined by single spaces. */
  lemma ShortLineJoin()
    ensures Join(["LINE", "1", "2", "3"]) == "LINE 1 2 3"
  {
    assert Join(["3"]) == "3";
    assert Join(["2", "3"]) == "2 3" by { assert ["2", "3"][1..] == ["3"]; }
    assert Join(["1", "2", "3"]) == "1 2 3" by { assert ["1", "2", "3"][1..] == ["2", "3"]; }
    assert ["LINE", "1", "2", "3"][1..] == ["1", "2", "3"];
  }

  /** The tokens of `LINE 1 2 3` are words. */
  lemma ShortLineWords()
    ensures forall i :: 0 <= i < 4 ==> IsWord(["LINE", "1", "2", "3"][i])
  {
    assert IsWord("LINE") && IsWord("1") && IsWord("2") && IsWord("3");
  }

  /** The tokens of `LINE 1 2 3`. */
  lemma ShortLineTokens()
    ensures Tokenize("LINE 1 2 3") == ["LINE", "1", "2", "3"]
  {
    ShortLineJoin();
    ShortLineWords();
    UpperCaseOfUpper("LINE");
    assert [UpperCase("LINE")] + ["LINE", "1", "2", "3"][1..] == ["LINE", "1", "2", "3"];
    TokenizeJoin(["LINE", "1", "2", "3"]);
  }

  /** The two wrong-arity token lists are refused. */
  lemma ArityFromTokens()
    ensures Convertible(["QUIT", "x"]) && FromTokens(["QUIT", "x"]) == Err("")
    ensures Convertible(["LINE", "1", "2", "3"]) && FromTokens(["LINE", "1", "2", "3"]) == Err("")
  {
  }

  /** A known verb with the wrong number of arguments is an error:
      `QUIT` takes none and `LINE` takes four. */
  lemma ArityExamples()
    ensures Convertible(Tokenize("QUIT x")) && From("QUIT x") == Err("")
    ensures Convertible(Tokenize("LINE 1 2 3")) && From("LINE 1 2 3") == Err("")
  {
    QuitTokens();
    ShortLineTokens();
    ArityFromTokens();
  }
}
