/** The tokenizer shared by both command parsers (src/command.rs and
    src/main.rs): `trim`, `split_whitespace`, upper-casing of the first token,
    and the `parse::<usize>()` / `parse::<char>()` conversions that the
    parsers apply to argument tokens.  Only ASCII is modelled: whitespace is
    the six ASCII white-space characters and upper-casing maps `a`..`z`. */
module Tokens {

  /** Rust's `usize` on a 64-bit target. */
  const USIZE_LIMIT: int := 0x1_0000_0000_0000_0000
  type Usize = n: int | 0 <= n < USIZE_LIMIT

  datatype Option<T> = None | Some(value: T)

  /** Rust's `Result<T, String>`. */
  datatype Result<T> = Ok(value: T) | Err(message: string)

  // ---------------------------------------------------------------------
  // Whitespace, words and splitting
  // ---------------------------------------------------------------------

  /** The ASCII characters for which Rust's `char::is_whitespace` holds. */
  predicate IsSpace(c: char) {
    c == ' ' || c == '\t' || c == '\n' || c == '\r' || c == '\U{000B}' || c == '\U{000C}'
  }

  /** The whitespace characters are the space and the code points 9 to 13
      (tab, line feed, vertical tab, form feed, carriage return). */
  lemma SpaceCodes(c: char)
    ensures IsSpace(c) <==> c == ' ' || 9 <= c as int <= 13
    ensures IsSpace(c) ==> !IsLower(c) && !('A' <= c <= 'Z') && !IsDigit(c) && c != '+'
  {
  }

  predicate AllSpace(s: string) {
    forall i :: 0 <= i < |s| ==> IsSpace(s[i])
  }

  /** A token as `split_whitespace` yields it: non-empty, no whitespace. */
  predicate IsWord(s: string) {
    |s| > 0 && forall i :: 0 <= i < |s| ==> !IsSpace(s[i])
  }

  /** Length of the longest whitespace-free prefix of `s`. */
  function WordLength(s: string): (n: nat)
    ensures n <= |s|
    ensures forall i :: 0 <= i < n ==> !IsSpace(s[i])
    ensures n < |s| ==> IsSpace(s[n])
  {
    if s == [] || IsSpace(s[0]) then 0 else 1 + WordLength(s[1..])
  }

  /** `str::split_whitespace`: the maximal whitespace-free runs, in order. */
  function Split(s: string): (words: seq<string>)
    ensures forall i :: 0 <= i < |words| ==> IsWord(words[i])
    decreases |s|
  {
    if s == [] then []
    else if IsSpace(s[0]) then Split(s[1..])
    else
      var n := WordLength(s);
      [s[..n]] + Split(s[n..])
  }

  /** `str::trim_start`. */
  function TrimStart(s: string): (r: string)
    ensures |r| <= |s| && r == s[|s| - |r|..]
    ensures AllSpace(s[..|s| - |r|])
    ensures r == [] || !IsSpace(r[0])
  {
    if s != [] && IsSpace(s[0]) then
      var r := TrimStart(s[1..]);
      var k := |s| - |r|;
      assert s[..k] == [s[0]] + s[1..][..k - 1];
      assert s[k..] == s[1..][k - 1..];
      r
    else s
  }

  /** `str::trim_end`. */
  function TrimEnd(s: string): (r: string)
    ensures |r| <= |s| && r == s[..|r|]
    ensures AllSpace(s[|r|..])
    ensures r == [] || !IsSpace(r[|r| - 1])
  {
    if s != [] && IsSpace(s[|s| - 1]) then TrimEnd(s[..|s| - 1]) else s
  }

  /** `str::trim`: neither end of the result is whitespace, and
      `split_whitespace` finds the same words in it as in `s`. */
  function Trim(s: string): (r: string)
    ensures r == [] || (!IsSpace(r[0]) && !IsSpace(r[|r| - 1]))
    ensures Split(r) == Split(s)
  {
    var t := TrimStart(s);
    SplitTrimStart(s);
    SplitTrimEnd(t);
    assert TrimEnd(t) != [] ==> TrimEnd(t)[0] == t[0];
    TrimEnd(t)
  }

  lemma {:induction false} SplitAllSpace(w: string)
    requires AllSpace(w)
    ensures Split(w) == []
    decreases |w|
  {
    if w != [] {
      SplitAllSpace(w[1..]);
    }
  }

  lemma SplitWord(t: string)
    requires IsWord(t)
    ensures Split(t) == [t]
  {
    assert WordLength(t) == |t|;
    assert t[..|t|] == t;
    assert Split(t[|t|..]) == [];
  }

  /** Leading whitespace does not change the split. */
  lemma {:induction false} SplitLeadingSpace(w: string, s: string)
    requires AllSpace(w)
    ensures Split(w + s) == Split(s)
    decreases |w|
  {
    if w != [] {
      assert (w + s)[0] == w[0];
      assert (w + s)[1..] == w[1..] + s;
      assert Split(w + s) == Split(w[1..] + s);
      SplitLeadingSpace(w[1..], s);
    } else {
      assert w + s == s;
    }
  }

  /** A non-empty whitespace run separates words: the split of `a + w + b` is
      the split of `a` followed by that of `b`, whatever the run is. */
  lemma {:induction false} SplitSeparated(a: string, w: string, b: string)
    requires |w| > 0 && AllSpace(w)
    ensures Split(a + w + b) == Split(a) + Split(b)
    decreases |a|
  {
    var s := a + w + b;
    if a == [] {
      assert s == w + b;
      SplitLeadingSpace(w, b);
    } else if IsSpace(a[0]) {
      assert s[1..] == a[1..] + w + b;
      SplitSeparated(a[1..], w, b);
    } else {
      var n := WordLength(a);
      assert WordLength(s) == n by {
        assert s[..|a|] == a;
        if n < |a| {
          assert WordLength(s) <= n by { assert IsSpace(s[n]); }
        } else {
          assert IsSpace(s[n]) by { assert s[n] == w[0]; }
        }
      }
      assert s[..n] == a[..n];
      assert s[n..] == a[n..] + w + b;
      SplitSeparated(a[n..], w, b);
    }
  }

  /** Trailing whitespace does not change the split. */
  lemma SplitTrailingSpace(s: string, w: string)
    requires AllSpace(w)
    ensures Split(s + w) == Split(s)
  {
    if w != [] {
      assert s + w + [] == s + w;
      SplitSeparated(s, w, []);
      assert Split(s) + Split([]) == Split(s);
    } else {
      assert s + w == s;
    }
  }

  /** Trimming first, as the parsers do, splits the same way as not trimming. */
  lemma SplitTrimStart(s: string)
    ensures Split(TrimStart(s)) == Split(s)
  {
    var t := TrimStart(s);
    var w := s[..|s| - |t|];
    assert s == w + t;
    SplitLeadingSpace(w, t);
  }

  lemma SplitTrimEnd(t: string)
    ensures Split(TrimEnd(t)) == Split(t)
  {
    var u := TrimEnd(t);
    var w := t[|u|..];
    assert t == u + w;
    SplitTrailingSpace(u, w);
  }

  /** Words joined by single spaces (the canonical spelling of a command). */
  function Join(words: seq<string>): string {
    if words == [] then []
    else if |words| == 1 then words[0]
    else words[0] + " " + Join(words[1..])
  }

  /** Splitting undoes joining. */
  lemma {:induction false} SplitJoin(words: seq<string>)
    requires forall i :: 0 <= i < |words| ==> IsWord(words[i])
    ensures Split(Join(words)) == words
  {
    if |words| == 1 {
      SplitWord(words[0]);
    } else if |words| > 1 {
      SplitSeparated(words[0], " ", Join(words[1..]));
      SplitWord(words[0]);
      SplitJoin(words[1..]);
    }
  }

  /** All characters of `s` that are not whitespace, in order. */
  function NonSpace(s: string): string {
    if s == [] then [] else (if IsSpace(s[0]) then [] else [s[0]]) + NonSpace(s[1..])
  }

  function Concat(words: seq<string>): string {
    if words == [] then [] else words[0] + Concat(words[1..])
  }

  lemma {:induction false} NonSpaceAppend(a: string, b: string)
    ensures NonSpace(a + b) == NonSpace(a) + NonSpace(b)
    decreases |a|
  {
    if a != [] {
      assert (a + b)[0] == a[0];
      assert (a + b)[1..] == a[1..] + b;
      NonSpaceAppend(a[1..], b);
      var h := if IsSpace(a[0]) then [] else [a[0]];
      assert NonSpace(a + b) == h + NonSpace(a[1..] + b);
    } else {
      assert a + b == b;
    }
  }

  lemma {:induction false} NonSpaceOfWordPrefix(s: string, n: nat)
    requires n <= |s| && forall i :: 0 <= i < n ==> !IsSpace(s[i])
    ensures NonSpace(s[..n]) == s[..n]
    decreases n
  {
    if n > 0 {
      assert s[..n][1..] == s[1..][..n - 1];
      NonSpaceOfWordPrefix(s[1..], n - 1);
    }
  }

  /** Splitting drops whitespace and nothing else. */
  lemma {:induction false} SplitKeepsNonSpace(s: string)
    ensures Concat(Split(s)) == NonSpace(s)
    decreases |s|
  {
    if s != [] {
      if IsSpace(s[0]) {
        SplitKeepsNonSpace(s[1..]);
      } else {
        var n := WordLength(s);
        SplitKeepsNonSpace(s[n..]);
        assert s == s[..n] + s[n..];
        NonSpaceAppend(s[..n], s[n..]);
        NonSpaceOfWordPrefix(s, n);
        assert ([s[..n]] + Split(s[n..]))[1..] == Split(s[n..]);
      }
    }
  }

  // ---------------------------------------------------------------------
  // Upper-casing
  // ---------------------------------------------------------------------

  predicate IsLower(c: char) {
    'a' <= c <= 'z'
  }

  /** `char::to_uppercase` restricted to ASCII. */
  function ToUpper(c: char): (u: char)
    ensures !IsLower(u)
    ensures IsLower(c) ==> 'A' <= u <= 'Z' && c as int - u as int == 32
    ensures !IsLower(c) ==> u == c
  {
    if IsLower(c) then (c as int - 32) as char else c
  }

  /** `str::to_uppercase` restricted to ASCII. */
  function UpperCase(s: string): (r: string)
    ensures |r| == |s|
    ensures forall i :: 0 <= i < |s| ==> r[i] == ToUpper(s[i])
  {
    if s == [] then [] else [ToUpper(s[0])] + UpperCase(s[1..])
  }

  /** Upper-casing twice is upper-casing once. */
  lemma UpperCaseIdempotent(s: string)
    ensures UpperCase(UpperCase(s)) == UpperCase(s)
  {
    var u := UpperCase(s);
    assert forall i :: 0 <= i < |u| ==> UpperCase(u)[i] == u[i];
  }

  /** Upper-casing keeps a word a word. */
  lemma UpperCaseWord(s: string)
    requires IsWord(s)
    ensures IsWord(UpperCase(s))
  {
    var u := UpperCase(s);
    forall i | 0 <= i < |u| ensures !IsSpace(u[i]) {
      assert !IsSpace(s[i]);
    }
  }

  /** The token list both parsers match on: the input trimmed, split on
      whitespace, with the first token (the verb) upper-cased and the others
      kept verbatim. */
  function Tokenize(input: string): (toks: seq<string>)
    ensures |toks| == |Split(input)|
    ensures |toks| > 0 ==> toks[0] == UpperCase(Split(input)[0])
    ensures |toks| > 0 ==> toks[1..] == Split(input)[1..]
  {
    var words := Split(Trim(input));
    if words == [] then [] else [UpperCase(words[0])] + words[1..]
  }

  /** Every token is a whitespace-free word. */
  lemma TokenizeWords(input: string)
    ensures forall i :: 0 <= i < |Tokenize(input)| ==> IsWord(Tokenize(input)[i])
  {
    var toks := Tokenize(input);
    var words := Split(input);
    if |toks| > 0 {
      UpperCaseWord(words[0]);
      forall i | 1 <= i < |toks| ensures IsWord(toks[i]) {
        assert toks[i] == toks[1..][i - 1] == words[1..][i - 1];
      }
    }
  }

  /** Empty or whitespace-only input has no tokens. */
  lemma TokenizeAllSpace(input: string)
    requires AllSpace(input)
    ensures Tokenize(input) == []
  {
    SplitAllSpace(input);
  }

  /** Whitespace around the input does not change its tokens. */
  lemma TokenizeIgnoresSurroundingSpace(w1: string, s: string, w2: string)
    requires AllSpace(w1) && AllSpace(w2)
    ensures Tokenize(w1 + s + w2) == Tokenize(s)
  {
    assert w1 + s + w2 == w1 + (s + w2);
    SplitLeadingSpace(w1, s + w2);
    SplitTrailingSpace(s, w2);
    TokenizeBySplit(w1 + s + w2, s);
  }

  /** The tokens depend on the input only through its words. */
  lemma TokenizeBySplit(a: string, b: string)
    requires Split(a) == Split(b)
    ensures Tokenize(a) == Tokenize(b)
  {
    var ta, tb := Tokenize(a), Tokenize(b);
    if |ta| > 0 {
      assert ta == [ta[0]] + ta[1..];
      assert tb == [tb[0]] + tb[1..];
    }
  }

  /** Any two non-empty whitespace runs are interchangeable. */
  lemma TokenizeIgnoresSpaceRuns(a: string, w1: string, w2: string, b: string)
    requires |w1| > 0 && AllSpace(w1) && |w2| > 0 && AllSpace(w2)
    ensures Tokenize(a + w1 + b) == Tokenize(a + w2 + b)
  {
    SplitSeparated(a, w1, b);
    SplitSeparated(a, w2, b);
  }

  /** The case of the verb does not matter: two spellings of the first word
      that upper-case alike give the same tokens. */
  lemma TokenizeIgnoresVerbCase(v1: string, v2: string, rest: string)
    requires IsWord(v1) && IsWord(v2) && UpperCase(v1) == UpperCase(v2)
    requires rest == [] || IsSpace(rest[0])
    ensures Tokenize(v1 + rest) == Tokenize(v2 + rest)
  {
    SplitFirstWord(v1, rest);
    SplitFirstWord(v2, rest);
  }

  lemma SplitFirstWord(v: string, rest: string)
    requires IsWord(v) && (rest == [] || IsSpace(rest[0]))
    ensures |Split(v + rest)| > 0 && Split(v + rest)[0] == v
    ensures Split(v + rest)[1..] == Split(rest)
  {
    SplitWord(v);
    if rest == [] {
      assert v + rest == v;
    } else {
      var w, b := rest[..1], rest[1..];
      assert rest == w + b;
      assert v + rest == v + w + b;
      SplitSeparated(v, w, b);
      SplitLeadingSpace(w, b);
      assert Split(v + rest) == [v] + Split(rest);
    }
  }

  /** Text with no lower-case letter is its own upper-case form. */
  lemma UpperCaseOfUpper(s: string)
    requires forall i :: 0 <= i < |s| ==> !IsLower(s[i])
    ensures UpperCase(s) == s
  {
  }

  /** The tokens of words joined by single spaces. */
  lemma TokenizeJoin(words: seq<string>)
    requires |words| > 0 && forall i :: 0 <= i < |words| ==> IsWord(words[i])
    ensures Tokenize(Join(words)) == [UpperCase(words[0])] + words[1..]
  {
    SplitJoin(words);
  }

  // ---------------------------------------------------------------------
  // Numerals: `str::parse::<usize>()`
  // ---------------------------------------------------------------------

  predicate IsDigit(c: char) {
    '0' <= c <= '9'
  }

  predicate AllDigits(s: string) {
    forall i :: 0 <= i < |s| ==> IsDigit(s[i])
  }

  /** The value of a string of decimal digits, read most significant first. */
  function Value(ds: string): nat
    requires AllDigits(ds)
  {
    if ds == [] then 0 else Value(ds[..|ds| - 1]) * 10 + (ds[|ds| - 1] as int - '0' as int)
  }

  /** The digits of a numeral: Rust's unsigned parser accepts one leading `+`. */
  function Unsigned(t: string): string {
    if |t| > 0 && t[0] == '+' then t[1..] else t
  }

  /** The tokens on which `parse::<usize>()` succeeds (it panics through
      `unwrap` on all others). */
  predicate IsUsizeLiteral(t: string) {
    var ds := Unsigned(t);
    |ds| > 0 && AllDigits(ds) && Value(ds) < USIZE_LIMIT
  }

  function UsizeValue(t: string): Usize
    requires IsUsizeLiteral(t)
  {
    Value(Unsigned(t))
  }

  /** Rust's unsigned parser takes an optional single `+` before the digits
      and rejects the empty string, a lone `+`, a second sign and `-`. */
  lemma UsizeLiteralSign(ds: string)
    requires AllDigits(ds)
    ensures IsUsizeLiteral("+" + ds) <==> IsUsizeLiteral(ds)
    ensures IsUsizeLiteral(ds) ==> UsizeValue("+" + ds) == UsizeValue(ds)
    ensures !IsUsizeLiteral("") && !IsUsizeLiteral("+")
    ensures !IsUsizeLiteral("++" + ds) && !IsUsizeLiteral("-" + ds)
  {
    assert ("+" + ds)[1..] == ds;
    assert ("++" + ds)[1..][0] == '+';
    assert ("-" + ds)[0] == '-';
  }

  /** Leading zeros do not change the value of a numeral. */
  lemma {:induction false} ValueLeadingZero(ds: string)
    requires AllDigits(ds)
    ensures AllDigits("0" + ds) && Value("0" + ds) == Value(ds)
  {
    var z := "0" + ds;
    if ds != [] {
      var init := ds[..|ds| - 1];
      assert z[..|z| - 1] == "0" + init;
      assert z[|z| - 1] == ds[|ds| - 1];
      ValueLeadingZero(init);
    }
  }

  /** The canonical decimal spelling of `n`. */
  function Decimal(n: nat): (ds: string)
    ensures |ds| > 0 && AllDigits(ds)
    ensures ds[0] != '+'
    ensures Value(ds) == n
  {
    var d := ['0' + (n % 10) as char];
    if n < 10 then d else Decimal(n / 10) + d
  }

  /** A numeral parses as a `usize` exactly when its value is below 2^64. */
  lemma UsizeLiteralBound(n: nat)
    ensures IsUsizeLiteral(Decimal(n)) <==> n < USIZE_LIMIT
    ensures IsUsizeLiteral("0" + Decimal(n)) <==> n < USIZE_LIMIT
    ensures n < USIZE_LIMIT ==> UsizeValue("0" + Decimal(n)) == n
  {
    ValueLeadingZero(Decimal(n));
  }

  /** A canonical numeral is a word, and it reads back as its value. */
  lemma DecimalRoundTrip(n: Usize)
    ensures IsWord(Decimal(n))
    ensures IsUsizeLiteral(Decimal(n)) && UsizeValue(Decimal(n)) == n
  {
  }

  // ---------------------------------------------------------------------
  // Argument fields
  // ---------------------------------------------------------------------

  /** What the matched arm does with an argument token: `parse::<usize>()`,
      `parse::<char>()`, or `to_string()`. */
  datatype Kind = Numeric | Character | Text

  /** The typed value an argument token becomes. */
  datatype Field = Num(n: Usize) | Chr(c: char) | Str(s: string)

  function KindOf(f: Field): Kind {
    match f
    case Num(_) => Numeric
    case Chr(_) => Character
    case Str(_) => Text
  }

  /** The conversion of kind `k` succeeds on token `t` (rather than panicking). */
  predicate Fits(k: Kind, t: string) {
    match k
    case Numeric => IsUsizeLiteral(t)
    case Character => |t| == 1
    case Text => true
  }

  /** Token `t` converts to field `f`. */
  predicate Denotes(t: string, f: Field) {
    match f
    case Num(n) => IsUsizeLiteral(t) && UsizeValue(t) == n
    case Chr(c) => t == [c]
    case Str(s) => t == s
  }

  /** The argument tokens convert one by one to the fields. */
  predicate DenotesAll(args: seq<string>, fields: seq<Field>) {
    |args| == |fields| && forall i :: 0 <= i < |args| ==> Denotes(args[i], fields[i])
  }

  /** Every argument token fits its kind in a verb's argument list. */
  predicate Conforms(args: seq<string>, kinds: seq<Kind>) {
    |args| == |kinds| && forall i :: 0 <= i < |args| ==> Fits(kinds[i], args[i])
  }

  /** A signature admits the argument tokens when the arity matches. */
  predicate Admits(signature: Option<seq<Kind>>, args: seq<string>) {
    signature.Some? && |signature.value| == |args|
  }

  /** The canonical token of a field. */
  function Spelling(f: Field): string {
    match f
    case Num(n) => Decimal(n)
    case Chr(c) => [c]
    case Str(s) => s
  }

  function Spellings(fields: seq<Field>): (r: seq<string>)
    ensures |r| == |fields|
    ensures forall i :: 0 <= i < |fields| ==> r[i] == Spelling(fields[i])
  {
    if fields == [] then [] else [Spelling(fields[0])] + Spellings(fields[1..])
  }

  /** The field determines its canonical token, and the token converts back
      to exactly that field. */
  lemma SpellingDenotes(f: Field, g: Field)
    ensures Denotes(Spelling(f), f)
    ensures Denotes(Spelling(f), g) && KindOf(f) == KindOf(g) ==> f == g
  {
    match f
    case Num(n) => DecimalRoundTrip(n);
    case Chr(_) =>
    case Str(_) =>
  }

  /** Conversion is a function of the token: two fields a token denotes are equal. */
  lemma DenotesAllUnique(args: seq<string>, fs: seq<Field>, gs: seq<Field>)
    requires DenotesAll(args, fs) && DenotesAll(args, gs)
    requires |fs| == |gs| && forall i :: 0 <= i < |fs| ==> KindOf(fs[i]) == KindOf(gs[i])
    ensures fs == gs
  {
    forall i | 0 <= i < |fs| ensures fs[i] == gs[i] {
      assert Denotes(args[i], fs[i]) && Denotes(args[i], gs[i]);
    }
  }

  /** The fields have the kinds listed, one by one. */
  predicate KindsMatch(fields: seq<Field>, kinds: seq<Kind>) {
    |fields| == |kinds| && forall i :: 0 <= i < |fields| ==> KindOf(fields[i]) == kinds[i]
  }

  /** Tokens that denote fields of the listed kinds fit those kinds. */
  lemma DenotesFits(args: seq<string>, fields: seq<Field>, kinds: seq<Kind>)
    requires DenotesAll(args, fields) && KindsMatch(fields, kinds)
    ensures Conforms(args, kinds)
  {
    forall i | 0 <= i < |args| ensures Fits(kinds[i], args[i]) {
      assert Denotes(args[i], fields[i]);
    }
  }
}
