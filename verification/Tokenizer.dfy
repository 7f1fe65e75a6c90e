// The line tokenizer (tokenize.rs) and its inverse: joining words with single blanks.
module Tokenizer {
  import opened Common
  import opened Decimal

  const MAX_ARGUMENTS := 16

  datatype ParseError =
    | TooShort
    | TooManyArguments
    | DanglingKey
    | TokenOverflow
    | UnknownCommand(command: string)
    | UnknownFeature(feature: string)
    | MissingArgument(argument: string)
    | InvalidValue(name: string, value: string)
    | MalformedMpls(list: string)

  type Pair = (string, string)

  datatype Line = Line(token: i32, name: string, args: seq<Pair>)

  /** A protocol word: not empty, no white space. */
  predicate IsWord(s: string) {
    s != [] && forall i :: 0 <= i < |s| ==> !IsCSpace(s[i])
  }

  predicate AllWords(ws: seq<string>) {
    forall i :: 0 <= i < |ws| ==> IsWord(ws[i])
  }

  // ----- Splitting -----

  /** `split(is_c_space)`: the pieces between blanks, empty ones included. */
  function Split(s: string): (r: seq<string>)
    ensures r != []
  {
    if s == [] then [""]
    else
      var rest := Split(s[1..]);
      if IsCSpace(s[0]) then [""] + rest else [[s[0]] + rest[0]] + rest[1..]
  }

  function NonEmpty(pieces: seq<string>): seq<string> {
    if pieces == [] then []
    else (if pieces[0] == [] then [] else [pieces[0]]) + NonEmpty(pieces[1..])
  }

  function Words(s: string): seq<string> {
    NonEmpty(Split(s))
  }

  /** Every word the splitter yields is a protocol word. */
  lemma {:induction false} WordsAreWords(s: string)
    ensures AllWords(Words(s))
  {
    SplitHasNoBlanks(s);
    NonEmptyAreWords(Split(s));
  }

  lemma {:induction false} SplitHasNoBlanks(s: string)
    ensures forall i, j :: 0 <= i < |Split(s)| && 0 <= j < |Split(s)[i]| ==> !IsCSpace(Split(s)[i][j])
  {
    if s != [] {
      SplitHasNoBlanks(s[1..]);
      var rest := Split(s[1..]);
      forall i, j | 0 <= i < |Split(s)| && 0 <= j < |Split(s)[i]|
        ensures !IsCSpace(Split(s)[i][j])
      {
        if IsCSpace(s[0]) {
          assert i > 0 && Split(s)[i] == rest[i - 1];
        } else if i == 0 {
          assert j > 0 ==> Split(s)[0][j] == rest[0][j - 1];
        } else {
          assert Split(s)[i] == rest[i];
        }
      }
    }
  }

  lemma {:induction false} NonEmptyAreWords(pieces: seq<string>)
    requires forall i, j :: 0 <= i < |pieces| && 0 <= j < |pieces[i]| ==> !IsCSpace(pieces[i][j])
    ensures AllWords(NonEmpty(pieces))
  {
    if pieces != [] {
      forall i, j | 0 <= i < |pieces[1..]| && 0 <= j < |pieces[1..][i]|
        ensures !IsCSpace(pieces[1..][i][j])
      {
        assert pieces[1..][i] == pieces[i + 1];
      }
      NonEmptyAreWords(pieces[1..]);
    }
  }

  // ----- Joining -----

  /** Words separated by one blank each. */
  function Unwords(ws: seq<string>): string {
    if ws == [] then ""
    else if |ws| == 1 then ws[0]
    else ws[0] + " " + Unwords(ws[1..])
  }

  lemma {:induction false} UnwordsAppend(ws: seq<string>, w: string)
    requires ws != []
    ensures Unwords(ws + [w]) == Unwords(ws) + " " + w
  {
    var all := ws + [w];
    if |ws| > 1 {
      UnwordsAppend(ws[1..], w);
      assert all[1..] == ws[1..] + [w];
    } else {
      assert all[1..] == [w];
    }
  }

  lemma {:induction false} SplitWord(w: string, c: char, rest: string)
    requires forall i :: 0 <= i < |w| ==> !IsCSpace(w[i])
    requires IsCSpace(c)
    ensures Split(w + [c] + rest) == [w] + Split(rest)
  {
    var all := w + [c] + rest;
    if w == [] {
      assert all[1..] == rest;
    } else {
      SplitWord(w[1..], c, rest);
      assert all[1..] == w[1..] + [c] + rest;
      assert [w[0]] + w[1..] == w;
    }
  }

  lemma WordsOfWord(w: string, c: char, rest: string)
    requires IsWord(w) && IsCSpace(c)
    ensures Words(w + [c] + rest) == [w] + Words(rest)
  {
    SplitWord(w, c, rest);
    assert ([w] + Split(rest))[1..] == Split(rest);
  }

  /** Splitting undoes joining, for any words at all. */
  lemma {:induction false} WordsOfUnwords(ws: seq<string>)
    requires AllWords(ws)
    ensures Words(Unwords(ws) + "\n") == ws
  {
    if ws == [] {
      assert Unwords(ws) + "\n" == "\n" && "\n"[1..] == "";
      assert Split("\n") == ["", ""];
      assert ["", ""][1..] == [""] && [""][1..] == [];
    } else if |ws| == 1 {
      WordsOfWord(ws[0], '\n', "");
      assert ws[0] + ['\n'] + "" == Unwords(ws) + "\n";
      assert NonEmpty([""][1..]) == [];
      assert Words("") == [];
    } else {
      WordsOfUnwords(ws[1..]);
      assert ws[0] + [' '] + (Unwords(ws[1..]) + "\n") == Unwords(ws) + "\n";
      WordsOfWord(ws[0], ' ', Unwords(ws[1..]) + "\n");
    }
  }

  // ----- Lines -----

  /** `parse_token`: the leading digits of a signed literal; none at all read as 0. */
  function ParseToken(s: string): Result<i32, ParseError> {
    var (negative, rest) := SplitSign(s);
    var digits := rest[..ScanDigits(rest)];
    if digits == [] then Ok(0)
    else
      var value := Signed(negative, DigitsValue(digits));
      if value < I64_MIN || value > I64_MAX then Err(TokenOverflow) else Ok(WrapI32(value))
  }

  function Chunks(ws: seq<string>): (r: seq<Pair>)
    requires |ws| % 2 == 0
    ensures |r| == |ws| / 2
  {
    if ws == [] then [] else [(ws[0], ws[1])] + Chunks(ws[2..])
  }

  function Tokenize(line: string): Result<Line, ParseError> {
    var toks := Words(line);
    if |toks| < 2 then Err(TooShort)
    else if |toks| > MAX_ARGUMENTS * 2 + 2 then Err(TooManyArguments)
    else if (|toks| - 2) % 2 != 0 then Err(DanglingKey)
    else
      var token :- ParseToken(toks[0]);
      Ok(Line(token, toks[1], Chunks(toks[2..])))
  }

  function Flatten(args: seq<Pair>): (r: seq<string>)
    ensures |r| == 2 * |args|
  {
    if args == [] then [] else [args[0].0, args[0].1] + Flatten(args[1..])
  }

  lemma {:induction false} ChunksOfFlatten(args: seq<Pair>)
    ensures Chunks(Flatten(args)) == args
  {
    if args != [] {
      ChunksOfFlatten(args[1..]);
      assert Flatten(args)[2..] == Flatten(args[1..]);
    }
  }

  lemma {:induction false} FlattenAppend(a: seq<Pair>, b: seq<Pair>)
    ensures Flatten(a + b) == Flatten(a) + Flatten(b)
  {
    if a == [] {
      assert a + b == b;
    } else {
      assert (a + b)[1..] == a[1..] + b;
      FlattenAppend(a[1..], b);
    }
  }

  predicate WordArgs(args: seq<Pair>) {
    forall i :: 0 <= i < |args| ==> IsWord(args[i].0) && IsWord(args[i].1)
  }

  lemma {:induction false} FlattenWords(args: seq<Pair>)
    requires WordArgs(args)
    ensures AllWords(Flatten(args))
  {
    if args != [] {
      FlattenWords(args[1..]);
      var f := Flatten(args);
      forall i | 0 <= i < |f| ensures IsWord(f[i]) {
        if i >= 2 {
          assert f[i] == Flatten(args[1..])[i - 2];
        }
      }
    }
  }

  lemma {:induction false} ChunksAreWords(ws: seq<string>)
    requires |ws| % 2 == 0 && AllWords(ws)
    ensures WordArgs(Chunks(ws))
  {
    if ws != [] {
      ChunksAreWords(ws[2..]);
    }
  }

  /** The words of a line. */
  function LineWords(token: int, name: string, args: seq<Pair>): seq<string> {
    [PrintInt(token), name] + Flatten(args)
  }

  function LineText(token: int, name: string, args: seq<Pair>): string {
    Unwords(LineWords(token, name, args)) + "\n"
  }

  lemma PrintedIsWord(n: int)
    ensures IsWord(PrintInt(n))
  {
    PrintNatRoundTrip(Abs(n));
  }

  lemma ParseTokenOfPrinted(n: i32)
    ensures ParseToken(PrintInt(n)) == Ok(n)
  {
    PrintIntIsLiteral(n);
    var (negative, rest) := SplitSign(PrintInt(n));
    var k := ScanDigits(rest);
    if k < |rest| {
      assert false;
    }
    assert rest[..|rest|] == rest;
  }

  /** The tokenizer takes any line of at most 16 word pairs back to what was written. */
  lemma TokenizeLineText(token: i32, name: string, args: seq<Pair>)
    requires IsWord(name) && WordArgs(args) && |args| <= MAX_ARGUMENTS
    ensures Tokenize(LineText(token, name, args)) == Ok(Line(token, name, args))
  {
    PrintedIsWord(token);
    FlattenWords(args);
    var ws := LineWords(token, name, args);
    WordsOfUnwords(ws);
    ParseTokenOfPrinted(token);
    assert ws[2..] == Flatten(args);
    ChunksOfFlatten(args);
  }

  /** What the tokenizer accepts is built of words, at most 16 pairs of them. */
  lemma TokenizeGivesWords(line: string)
    ensures Tokenize(line).Ok? ==>
              var l := Tokenize(line).value;
              IsWord(l.name) && WordArgs(l.args) && |l.args| <= MAX_ARGUMENTS
  {
    WordsAreWords(line);
    var toks := Words(line);
    if Tokenize(line).Ok? {
      assert AllWords(toks[2..]);
      ChunksAreWords(toks[2..]);
    }
  }

  // ----- Exactly which lines, and what they mean -----

  /** The characters that separate words: blank, tab, line feed, vertical tab, form feed, return. */
  predicate IsBlank(s: string) {
    forall i :: 0 <= i < |s| ==> s[i] as int in {32, 9, 10, 11, 12, 13}
  }

  /** Words with any blanks before, between and after them. */
  function Spaced(ws: seq<string>, gaps: seq<string>): string
    requires |gaps| == |ws| + 1
  {
    if ws == [] then gaps[0] else gaps[0] + ws[0] + Spaced(ws[1..], gaps[1..])
  }

  lemma {:induction false} BlanksVanish(gap: string, rest: string)
    requires IsBlank(gap)
    ensures Words(gap + rest) == Words(rest)
  {
    if gap == [] {
      assert gap + rest == rest;
    } else {
      BlanksVanish(gap[1..], rest);
      assert (gap + rest)[1..] == gap[1..] + rest;
      assert ([""] + Split(gap[1..] + rest))[1..] == Split(gap[1..] + rest);
      assert [] + Words(rest) == Words(rest);
    }
  }

  lemma {:induction false} SplitSolid(w: string)
    requires forall i :: 0 <= i < |w| ==> !IsCSpace(w[i])
    ensures Split(w) == [w]
  {
    if w != [] {
      SplitSolid(w[1..]);
      assert [w[0]] + w[1..] == w;
    }
  }

  lemma WordsOfLastWord(w: string)
    requires IsWord(w)
    ensures Words(w) == [w]
  {
    SplitSolid(w);
    assert NonEmpty([w][1..]) == [];
  }

  /** How the words of a line are spaced, and with which blanks, makes no difference. */
  lemma {:induction false} SpacingIsInvisible(ws: seq<string>, gaps: seq<string>)
    requires AllWords(ws) && |gaps| == |ws| + 1
    requires forall i :: 0 <= i < |gaps| ==> IsBlank(gaps[i]) && (0 < i < |ws| ==> gaps[i] != [])
    ensures Words(Spaced(ws, gaps)) == ws
  {
    hide Words;
    if ws == [] {
      BlanksVanish(gaps[0], "");
      assert gaps[0] + "" == gaps[0];
      NoWords();
    } else {
      var rest := Spaced(ws[1..], gaps[1..]);
      BlanksVanish(gaps[0], ws[0] + rest);
      assert gaps[0] + (ws[0] + rest) == gaps[0] + ws[0] + rest;
      SpacingIsInvisible(ws[1..], gaps[1..]);
      if rest == [] {
        assert ws[0] + rest == ws[0];
        NoWords();
        WordsOfLastWord(ws[0]);
        assert ws == [ws[0]] + ws[1..];
      } else {
        FirstIsBlank(ws, gaps);
        assert ws[0] + [rest[0]] + rest[1..] == ws[0] + rest;
        WordsOfWord(ws[0], rest[0], rest[1..]);
        BlanksVanish([rest[0]], rest[1..]);
        assert [rest[0]] + rest[1..] == rest;
      }
    }
  }

  lemma NoWords()
    ensures Words("") == []
  {
    assert [""][1..] == [];
  }

  lemma FirstIsBlank(ws: seq<string>, gaps: seq<string>)
    requires ws != [] && |gaps| == |ws| + 1
    requires forall i :: 0 <= i < |gaps| ==> IsBlank(gaps[i]) && (0 < i < |ws| ==> gaps[i] != [])
    ensures var rest := Spaced(ws[1..], gaps[1..]); rest != [] ==> IsBlank([rest[0]]) && IsCSpace(rest[0])
  {
    var rest := Spaced(ws[1..], gaps[1..]);
    if rest != [] {
      assert rest[0] == gaps[1][0];
    }
  }

  lemma {:induction false} FlattenOfChunks(ws: seq<string>)
    requires |ws| % 2 == 0
    ensures Flatten(Chunks(ws)) == ws
  {
    if ws != [] {
      FlattenOfChunks(ws[2..]);
    }
  }

  /** A line is accepted exactly if it consists of a readable token, a name and at most 16 pairs; and
      then these are what it means. */
  lemma TokenizesIff(line: string, l: Line)
    ensures Tokenize(line) == Ok(l)
            <==> |l.args| <= 16 && exists w :: Words(line) == [w, l.name] + Flatten(l.args) && ParseToken(w) == Ok(l.token)
  {
    hide Words, ParseToken;
    var toks := Words(line);
    if Tokenize(line) == Ok(l) {
      FlattenOfChunks(toks[2..]);
      assert toks == [toks[0], l.name] + Flatten(l.args);
    }
    if w :| |l.args| <= 16 && toks == [w, l.name] + Flatten(l.args) && ParseToken(w) == Ok(l.token) {
      assert toks[2..] == Flatten(l.args);
      ChunksOfFlatten(l.args);
    }
  }

  /** The token is the number its word starts with, kept to 32 bits; a word without one is token 0,
      and a number of more than 64 bits is refused. */
  lemma TokenIsLeadingNumber(sign: string, digits: string, rest: string)
    requires sign in {"", "-", "+"} && AllDigits(digits) && (rest != [] ==> !IsDigit(rest[0]))
    requires sign == "" && digits == "" && rest != [] ==> rest[0] !in {'-', '+'}
    ensures var m: int := DigitsValue(digits);
            var n := if sign == "-" then -m else m;
            ParseToken(sign + digits + rest)
            == if digits == "" then Ok(0)
               else if -0x8000_0000_0000_0000 <= n < 0x8000_0000_0000_0000
               then Ok((n + 0x8000_0000) % 0x1_0000_0000 - 0x8000_0000)
               else Err(TokenOverflow)
  {
    hide SplitSign, ScanDigits, DigitsValue, ParseToken, AllDigits, IsDigit;
    SplitsSign(sign, digits, rest);
    ScansAllDigits(digits, rest);
    ParsesDigits(sign + digits + rest, sign == "-", digits, rest);
  }

  lemma ParsesDigits(s: string, negative: bool, digits: string, rest: string)
    requires SplitSign(s) == (negative, digits + rest) && AllDigits(digits) && ScanDigits(digits + rest) == |digits|
    ensures ParseToken(s)
            == if digits == [] then Ok(0)
               else
                 var value := Signed(negative, DigitsValue(digits));
                 if value < I64_MIN || value > I64_MAX then Err(TokenOverflow) else Ok(WrapI32(value))
  {
    hide SplitSign, ScanDigits, DigitsValue, Signed, WrapI32;
    assert (digits + rest)[..|digits|] == digits;
  }

  lemma SplitsSign(sign: string, digits: string, rest: string)
    requires sign in {"", "-", "+"} && AllDigits(digits)
    requires sign == "" && digits == "" && rest != [] ==> rest[0] !in {'-', '+'}
    ensures SplitSign(sign + digits + rest) == (sign == "-", digits + rest)
  {
    var s := sign + digits + rest;
    if sign == "" {
      assert s == digits + rest;
    } else {
      assert s[1..] == digits + rest;
    }
  }

  lemma {:induction false} ScansAllDigits(digits: string, rest: string)
    requires AllDigits(digits) && (rest != [] ==> !IsDigit(rest[0]))
    ensures ScanDigits(digits + rest) == |digits|
  {
    if digits == [] {
      assert digits + rest == rest;
    } else {
      assert (digits + rest)[1..] == digits[1..] + rest;
      ScansAllDigits(digits[1..], rest);
    }
  }

  // ----- Looking arguments up -----

  /** The arguments whose name is one of `keys`, in order. */
  function Select(args: seq<Pair>, keys: set<string>): seq<Pair> {
    if args == [] then []
    else (if args[0].0 in keys then [args[0]] else []) + Select(args[1..], keys)
  }

  /** `Line::first` and `Line::last`. */
  function First(args: seq<Pair>, key: string): Option<string> {
    var vs := Select(args, {key});
    if vs == [] then None else Some(vs[0].1)
  }

  function LastOf(args: seq<Pair>, keys: set<string>): Option<Pair> {
    var vs := Select(args, keys);
    if vs == [] then None else Some(vs[|vs| - 1])
  }

  function Last(args: seq<Pair>, key: string): Option<string> {
    match LastOf(args, {key})
    case Some(kv) => Some(kv.1)
    case None => None
  }

  lemma SelectHead(args: seq<Pair>, keys: set<string>)
    requires args != []
    ensures Select(args, keys) == (if args[0].0 in keys then [args[0]] else []) + Select(args[1..], keys)
  {
  }

  lemma {:induction false} SelectAppend(a: seq<Pair>, b: seq<Pair>, keys: set<string>)
    ensures Select(a + b, keys) == Select(a, keys) + Select(b, keys)
  {
    if a == [] {
      assert a + b == b;
    } else {
      assert (a + b)[1..] == a[1..] + b;
      SelectHead(a + b, keys);
      SelectHead(a, keys);
      hide Select;
      SelectAppend(a[1..], b, keys);
    }
  }

  lemma SelectPush(args: seq<Pair>, kv: Pair, keys: set<string>)
    ensures Select(args + [kv], keys) == if kv.0 in keys then Select(args, keys) + [kv] else Select(args, keys)
  {
    SelectAppend(args, [kv], keys);
    assert [kv][1..] == [];
  }

  lemma LastOfPush(args: seq<Pair>, kv: Pair, keys: set<string>)
    ensures LastOf(args + [kv], keys) == if kv.0 in keys then Some(kv) else LastOf(args, keys)
  {
    SelectPush(args, kv, keys);
  }

  lemma {:induction false} SelectedAreArgs(args: seq<Pair>, keys: set<string>)
    ensures forall i :: 0 <= i < |Select(args, keys)| ==>
                          Select(args, keys)[i] in args && Select(args, keys)[i].0 in keys
  {
    if args != [] {
      SelectedAreArgs(args[1..], keys);
    }
  }
}
