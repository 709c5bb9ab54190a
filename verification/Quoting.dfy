/**
 Service commands as text: sakectl quotes a list of words with strconv.Quote, and the service splits
 the text back into words.
 */
module Quoting {
  import opened Text

  // ----- Quoting -----

  function HexDigit(n: nat): char
    requires n < 16
  {
    if n < 10 then ('0' as int + n) as char else ('a' as int + n - 10) as char
  }

  /** The low `width` hexadecimal digits of n. */
  function Hex(n: nat, width: nat): (s: string)
    ensures |s| == width
  {
    if width == 0 then "" else Hex(n / 16, width - 1) + [HexDigit(n % 16)]
  }

  /** The runes that are written as themselves, after a backslash where needed. */
  predicate Verbatim(r: char, isPrint: char -> bool) {
    r == '"' || r == '\\' || isPrint(r)
  }

  /** What strconv.Quote writes for a rune after the backslash of its escape sequence. */
  function EscapeBody(r: char): (s: string)
    ensures |s| >= 1
  {
    var n := r as int;
    if r == '"' || r == '\\' then [r]
    else if n == 7 then "a"
    else if n == 8 then "b"
    else if n == 12 then "f"
    else if n == 10 then "n"
    else if n == 13 then "r"
    else if n == 9 then "t"
    else if n == 11 then "v"
    else if n < 0x20 || n == 0x7F then "x" + Hex(n, 2)
    else if n < 0x10000 then "u" + Hex(n, 4)
    else "U" + Hex(n, 8)
  }

  function QuoteRune(r: char, isPrint: char -> bool): string {
    if r != '"' && r != '\\' && isPrint(r) then [r] else "\\" + EscapeBody(r)
  }

  function QuoteBody(word: string, isPrint: char -> bool): string {
    if word == "" then "" else QuoteRune(word[0], isPrint) + QuoteBody(word[1..], isPrint)
  }

  function Quote(word: string, isPrint: char -> bool): string {
    "\"" + QuoteBody(word, isPrint) + "\""
  }

  function Quoted(words: seq<string>, isPrint: char -> bool): string {
    if words == [] then ""
    else if |words| == 1 then Quote(words[0], isPrint)
    else Quoted(words[..|words| - 1], isPrint) + " " + Quote(words[|words| - 1], isPrint)
  }

  method QuoteWords(words: seq<string>, isPrint: char -> bool) returns (s: string)
    ensures s == Quoted(words, isPrint)
  {
    s := "";
    for i := 0 to |words|
      invariant s == Quoted(words[..i], isPrint)
      invariant i > 0 ==> |s| > 0
    {
      assert words[..i + 1][..i] == words[..i];
      if |s| > 0 {
        s := s + " ";
      }
      s := s + Quote(words[i], isPrint);
    }
    assert words[..|words|] == words;
  }

  // ----- Splitting -----

  /** The variables of the splitting loop. */
  datatype Splitter = Splitter(words: seq<string>, last: string, escape: bool, prev: char, delim: char)

  function Step(s: Splitter, r: char): Splitter {
    if s.escape then s.(last := s.last + [r], escape := false, prev := r)
    else if r == '\\' then s.(escape := true, prev := r)
    else if s.delim == ' ' && IsSpace(r) then
      if IsSpace(s.prev) then s.(prev := r) else s.(words := s.words + [s.last], last := "", prev := r)
    else if r == s.delim then s.(delim := ' ', prev := r)
    else if (r == '"' || r == '\'') && s.delim == ' ' then s.(delim := r, prev := r)
    else s.(last := s.last + [r], prev := r)
  }

  function Steps(s: Splitter, text: string): Splitter
    decreases text
  {
    if text == "" then s else Steps(Step(s, text[0]), text[1..])
  }

  function Finish(s: Splitter): Result<seq<string>> {
    if s.delim != ' ' || s.escape then Err
    else Ok(if IsSpace(s.prev) then s.words else s.words + [s.last])
  }

  const START := Splitter([], "", false, ' ', ' ')

  function Split(text: string): Result<seq<string>> {
    Finish(Steps(START, text))
  }

  method SplitWords(text: string) returns (r: Result<seq<string>>)
    ensures r == Split(text)
  {
    var words: seq<string>, lastWord := [], "";
    var escape, prev, wordDelim := false, ' ', ' ';
    assert text[0..] == text;
    for i := 0 to |text|
      invariant Steps(Splitter(words, lastWord, escape, prev, wordDelim), text[i..]) == Steps(START, text)
    {
      var c := text[i];
      assert text[i..][1..] == text[i + 1..];
      if escape {
        lastWord := lastWord + [c];
        escape := false;
      } else if c == '\\' {
        escape := true;
      } else if wordDelim == ' ' && IsSpace(c) {
        if !IsSpace(prev) {
          words, lastWord := words + [lastWord], "";
        }
      } else if c == wordDelim {
        wordDelim := ' ';
      } else if c == '"' || c == '\'' {
        if wordDelim == ' ' {
          wordDelim := c;
        } else {
          lastWord := lastWord + [c];
        }
      } else {
        lastWord := lastWord + [c];
      }
      prev := c;
    }
    if !IsSpace(prev) {
      words := words + [lastWord];
    }
    if wordDelim != ' ' {
      return Err;
    }
    if escape {
      return Err;
    }
    r := Ok(words);
  }

  // ----- Splitting undoes quoting -----

  /** What a quoted rune is read back as. */
  function Reread(r: char, isPrint: char -> bool): string {
    if r != '"' && r != '\\' && isPrint(r) then [r] else EscapeBody(r)
  }

  function RereadWord(word: string, isPrint: char -> bool): string {
    if word == "" then "" else Reread(word[0], isPrint) + RereadWord(word[1..], isPrint)
  }

  lemma {:induction false} StepsConcat(s: Splitter, a: string, b: string)
    ensures Steps(s, a + b) == Steps(Steps(s, a), b)
    decreases a
  {
    if a == "" {
      assert a + b == b;
    } else {
      assert (a + b)[1..] == a[1..] + b;
      StepsConcat(Step(s, a[0]), a[1..], b);
    }
  }

  predicate InQuotes(s: Splitter) {
    s.delim == '"' && !s.escape
  }

  /** Inside double quotes, runes other than the quote and the backslash are taken as they are. */
  lemma {:induction false} StepsPlain(s: Splitter, text: string)
    requires InQuotes(s) && '"' !in text && '\\' !in text
    ensures InQuotes(Steps(s, text))
    ensures Steps(s, text).last == s.last + text && Steps(s, text).words == s.words
    decreases text
  {
    if text != "" {
      StepsPlain(Step(s, text[0]), text[1..]);
      assert s.last + [text[0]] + text[1..] == s.last + text;
    }
  }

  lemma {:induction false} HexPlain(n: nat, width: nat)
    ensures '"' !in Hex(n, width) && '\\' !in Hex(n, width)
  {
    if width > 0 {
      HexPlain(n / 16, width - 1);
    }
  }

  lemma EscapePlain(r: char)
    ensures '"' !in EscapeBody(r)[1..] && '\\' !in EscapeBody(r)[1..]
  {
    HexPlain(r as int, 2);
    HexPlain(r as int, 4);
    HexPlain(r as int, 8);
  }

  lemma StepsEscape(s: Splitter, r: char)
    requires InQuotes(s)
    ensures var s' := Steps(s, "\\" + EscapeBody(r));
            InQuotes(s') && s'.last == s.last + EscapeBody(r) && s'.words == s.words
  {
    var b := EscapeBody(r);
    var t := "\\" + b;
    EscapePlain(r);
    var s1 := Step(s, t[0]);
    assert t[1..] == b;
    var s2 := Step(s1, b[0]);
    StepsPlain(s2, b[1..]);
    assert s.last + [b[0]] + b[1..] == s.last + b;
  }

  lemma StepsRune(s: Splitter, r: char, isPrint: char -> bool)
    requires InQuotes(s)
    ensures var s' := Steps(s, QuoteRune(r, isPrint));
            InQuotes(s') && s'.last == s.last + Reread(r, isPrint) && s'.words == s.words
  {
    if r != '"' && r != '\\' && isPrint(r) {
      StepsPlain(s, [r]);
    } else {
      StepsEscape(s, r);
    }
  }

  lemma {:induction false} StepsBody(s: Splitter, word: string, isPrint: char -> bool)
    requires InQuotes(s)
    ensures var s' := Steps(s, QuoteBody(word, isPrint));
            InQuotes(s') && s'.last == s.last + RereadWord(word, isPrint) && s'.words == s.words
    decreases word
  {
    if word != "" {
      var q, rest := QuoteRune(word[0], isPrint), QuoteBody(word[1..], isPrint);
      var s1 := Steps(s, q);
      StepsRune(s, word[0], isPrint);
      StepsBody(s1, word[1..], isPrint);
      assert Steps(s, q + rest) == Steps(s1, rest) by {
        StepsConcat(s, q, rest);
      }
      Assoc(s.last, Reread(word[0], isPrint), RereadWord(word[1..], isPrint));
    }
  }

  /** Between two words: nothing pending, nothing open. */
  predicate Ready(s: Splitter) {
    s.last == "" && !s.escape && s.delim == ' '
  }

  /** Just after a closing quote. */
  predicate AfterWord(s: Splitter, words: seq<string>, last: string) {
    s == Splitter(words, last, false, '"', ' ')
  }

  lemma StepsWord(s: Splitter, word: string, isPrint: char -> bool)
    requires Ready(s)
    ensures AfterWord(Steps(s, Quote(word, isPrint)), s.words, RereadWord(word, isPrint))
  {
    var body := QuoteBody(word, isPrint);
    StepsConcat(s, "\"", body + "\"");
    assert Quote(word, isPrint) == "\"" + (body + "\"");
    var s1 := Step(s, '"');
    assert Steps(s, "\"") == s1 && InQuotes(s1);
    StepsConcat(s1, body, "\"");
    StepsBody(s1, word, isPrint);
    assert Steps(Steps(s1, body), "\"") == Step(Steps(s1, body), '"');
  }

  function RereadAll(words: seq<string>, isPrint: char -> bool): seq<string> {
    seq(|words|, i requires 0 <= i < |words| => RereadWord(words[i], isPrint))
  }

  /** The next quoted word completes the one before it. */
  lemma StepsNext(s: Splitter, words: seq<string>, last: string, word: string, isPrint: char -> bool)
    requires AfterWord(s, words, last)
    ensures AfterWord(Steps(s, " " + Quote(word, isPrint)), words + [last], RereadWord(word, isPrint))
  {
    var s1 := Step(s, ' ');
    assert s1 == Splitter(words + [last], "", false, ' ', ' ');
    assert Steps(s, " ") == s1 by {
      assert " "[1..] == "";
    }
    StepsConcat(s, " ", Quote(word, isPrint));
    StepsWord(s1, word, isPrint);
  }

  lemma {:induction false} StepsWords(words: seq<string>, isPrint: char -> bool)
    requires words != []
    ensures var n := |words| - 1;
            AfterWord(Steps(START, Quoted(words, isPrint)), RereadAll(words[..n], isPrint),
                      RereadWord(words[n], isPrint))
    decreases |words|
  {
    var n := |words| - 1;
    if n == 0 {
      StepsWord(START, words[0], isPrint);
      assert RereadAll(words[..0], isPrint) == [];
    } else {
      var init, next := words[..n], Quote(words[n], isPrint);
      StepsWords(init, isPrint);
      var s := Steps(START, Quoted(init, isPrint));
      RereadLast(init, isPrint);
      StepsNext(s, RereadAll(init[..n - 1], isPrint), RereadWord(init[n - 1], isPrint), words[n], isPrint);
      StepsConcat(START, Quoted(init, isPrint), " " + next);
      assert Quoted(init, isPrint) + " " + next == Quoted(init, isPrint) + (" " + next);
    }
  }

  lemma RereadLast(words: seq<string>, isPrint: char -> bool)
    requires words != []
    ensures var n := |words| - 1;
            RereadAll(words[..n], isPrint) + [RereadWord(words[n], isPrint)] == RereadAll(words, isPrint)
  {
  }

  /** Splitting quoted words never fails and yields each word with its escapes unresolved. */
  lemma SplitQuoted(words: seq<string>, isPrint: char -> bool)
    ensures Split(Quoted(words, isPrint)) == Ok(RereadAll(words, isPrint))
  {
    if words == [] {
    } else {
      StepsWords(words, isPrint);
      RereadLast(words, isPrint);
    }
  }

  predicate VerbatimWord(word: string, isPrint: char -> bool) {
    forall i | 0 <= i < |word| :: Verbatim(word[i], isPrint)
  }

  lemma {:induction false} RereadLonger(word: string, isPrint: char -> bool)
    ensures |RereadWord(word, isPrint)| >= |word|
  {
    if word != "" {
      RereadLonger(word[1..], isPrint);
    }
  }

  lemma RereadRune(r: char, isPrint: char -> bool)
    ensures Reread(r, isPrint) == [r] <==> Verbatim(r, isPrint)
  {
  }

  /** A word is read back as itself exactly if each of its runes is printable. */
  lemma {:induction false} RereadIff(word: string, isPrint: char -> bool)
    ensures RereadWord(word, isPrint) == word <==> VerbatimWord(word, isPrint)
    decreases word
  {
    if word != "" {
      var h, t := Reread(word[0], isPrint), RereadWord(word[1..], isPrint);
      RereadIff(word[1..], isPrint);
      RereadLonger(word[1..], isPrint);
      RereadRune(word[0], isPrint);
      assert h + t == word ==> |h| == 1 && h == [(h + t)[0]] && t == (h + t)[1..];
      assert [word[0]] + word[1..] == word;
      assert VerbatimWord(word, isPrint) <==> Verbatim(word[0], isPrint) && VerbatimWord(word[1..], isPrint) by {
        assert forall i | 0 <= i < |word[1..]| :: word[1..][i] == word[i + 1];
        assert forall i | 1 <= i < |word| :: word[i] == word[1..][i - 1];
      }
    }
  }

  /** Splitting undoes quoting exactly for words of printable runes, whatever else they contain. */
  lemma RoundTripIff(words: seq<string>, isPrint: char -> bool)
    ensures Split(Quoted(words, isPrint)) == Ok(words) <==>
            forall i | 0 <= i < |words| :: VerbatimWord(words[i], isPrint)
  {
    SplitQuoted(words, isPrint);
    var reread := RereadAll(words, isPrint);
    assert reread == words <==> forall i | 0 <= i < |words| :: reread[i] == words[i];
    forall i | 0 <= i < |words| ensures reread[i] == words[i] <==> VerbatimWord(words[i], isPrint) {
      RereadIff(words[i], isPrint);
    }
  }

  /** A word that is just a line feed comes back as the letter of its escape sequence. */
  lemma LineFeedLost(isPrint: char -> bool)
    requires !isPrint('\n')
    ensures Split(Quoted(["\n"], isPrint)) == Ok(["n"])
  {
    SplitQuoted(["\n"], isPrint);
    var r := RereadAll(["\n"], isPrint);
    assert "\n"[1..] == "" && "\n"[0] == '\n';
    assert Reread('\n', isPrint) == "n";
    assert r[0] == RereadWord("\n", isPrint) == "n" + "" == "n";
    assert r == ["n"];
  }
}
