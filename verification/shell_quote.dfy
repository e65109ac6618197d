/**
  Quoting of words for a POSIX shell (sh_quote in
  rust/codex_remote_runtime/src/ssh.rs), and a reader that decodes quoted
  words by the rules of section 2.2 (Quoting) of the POSIX Shell Command
  Language: a backslash preserves the next character (2.2.1) and single
  quotes preserve every character up to the closing quote (2.2.2).
*/
module ShellQuote {
  import opened Wrappers
  import opened Strings

  predicate IsAsciiAlphanumeric(c: char) {
    ('a' <= c <= 'z') || ('A' <= c <= 'Z') || ('0' <= c <= '9')
  }

  /** Characters sh_quote leaves bare: none of them is special to the shell. */
  predicate IsBareChar(c: char) {
    IsAsciiAlphanumeric(c) || c == '_' || c == '.' || c == '/' || c == ':' || c == '=' || c == '@' || c == '-'
  }

  predicate IsBareWord(s: string) {
    forall i :: 0 <= i < |s| ==> IsBareChar(s[i])
  }

  /**
    Characters that start an operator (section 2.10.1 of the Shell Command
    Language): unquoted, each one ends the word before it.
  */
  predicate IsOperatorChar(c: char) {
    c == '&' || c == '|' || c == ';' || c == '<' || c == '>' || c == '(' || c == ')'
  }

  /** Where an unquoted word ends: the end of the input, a blank, or the start of an operator. */
  predicate IsBoundary(t: string) {
    t == [] || t[0] == ' ' || IsOperatorChar(t[0])
  }

  /** Every single quote replaced by '\'' (close quote, escaped quote, reopen quote). */
  function Escape(s: string): (r: string)
    ensures '\'' !in s ==> r == s
    ensures |r| >= |s|
  {
    if s == [] then [] else (if s[0] == '\'' then "'\\''" else [s[0]]) + Escape(s[1..])
  }

  /** The word wrapped in single quotes, with its own single quotes escaped. */
  function QuoteAlways(s: string): string {
    "'" + Escape(s) + "'"
  }

  /**
    sh_quote: the empty word becomes '', a word of bare characters is kept,
    anything else is single-quoted.
  */
  function ShQuote(s: string): (r: string)
    ensures r != []
    ensures r == s <==> s != [] && IsBareWord(s)
  {
    if s == [] then "''"
    else if IsBareWord(s) then s
    else QuoteAlways(s)
  }

  /** Text decoded so far put in front of a reader result. */
  function Prepend(s: string, r: Option<(string, string)>): Option<(string, string)> {
    match r
    case None => None
    case Some((word, rest)) => Some((s + word, rest))
  }

  /**
    Reads one shell word, starting inside single quotes when inQuotes, up to
    the first unquoted blank or operator character. Gives the decoded word
    and the unread input, which starts at that boundary; None for an
    unterminated quote, a trailing backslash, or an unquoted character that
    the shell would interpret otherwise (anything outside the bare set).
  */
  function ReadWord(w: string, inQuotes: bool): (r: Option<(string, string)>)
    ensures r.Some? ==> |r.value.1| <= |w|
    ensures r.Some? ==> IsBoundary(r.value.1)
    ensures r.Some? && !inQuotes && !IsBoundary(w) ==> |r.value.1| < |w|
    decreases |w|
  {
    if w == [] then
      if inQuotes then None else Some(([], []))
    else if inQuotes then
      if w[0] == '\'' then ReadWord(w[1..], false)
      else Prepend([w[0]], ReadWord(w[1..], true))
    else if w[0] == ' ' || IsOperatorChar(w[0]) then Some(([], w))
    else if w[0] == '\'' then ReadWord(w[1..], true)
    else if w[0] == '\\' then
      if |w| == 1 then None
      else if w[1] == '\n' then ReadWord(w[2..], false)
      else Prepend([w[1]], ReadWord(w[2..], false))
    else if IsBareChar(w[0]) then
      Prepend([w[0]], ReadWord(w[1..], false))
    else None
  }

  /** Decodes a single quoted or bare word; None unless the whole input is one word. */
  function Unquote(w: string): Option<string> {
    match ReadWord(w, false)
    case Some((word, rest)) => if rest == [] then Some(word) else None
    case None => None
  }

  /** A token of a command line: a word with its quoting removed, or an operator. */
  datatype Token = Word(text: string) | Op(op: string)

  /**
    The length of the operator at the start of w, longest match first
    (section 2.3, rules 2 and 3); 0 when w does not start with one.
  */
  function OperatorLength(w: string): (n: nat)
    ensures n <= |w|
    ensures n > 0 <==> w != [] && IsOperatorChar(w[0])
  {
    if |w| >= 3 && w[..3] == "<<-" then 3
    else if |w| >= 2 && w[..2] in {"&&", "||", ";;", "<<", ">>", "<&", ">&", "<>", ">|"} then 2
    else if w != [] && IsOperatorChar(w[0]) then 1
    else 0
  }

  /** A single operator character followed by a blank or the end is an operator on its own. */
  lemma OperatorBeforeBlank(w: string)
    requires w != [] && IsOperatorChar(w[0])
    requires |w| == 1 || w[1] == ' '
    ensures OperatorLength(w) == 1
  {
    if |w| >= 2 {
      assert w[..2][1] == ' ';
      assert |w| >= 3 ==> w[..3][1] == ' ';
    }
  }

  /** A token in front of a tokenizer result. */
  function ConsToken(tok: Token, r: Option<seq<Token>>): Option<seq<Token>> {
    match r
    case None => None
    case Some(toks) => Some([tok] + toks)
  }

  /**
    Splits a command line into tokens (section 2.3): blanks separate,
    an unquoted operator character starts an operator token, and anything
    else starts a word read by ReadWord.
  */
  function Tokens(cmd: string): Option<seq<Token>>
    decreases |cmd|
  {
    if cmd == [] then Some([])
    else if cmd[0] == ' ' then Tokens(cmd[1..])
    else if IsOperatorChar(cmd[0]) then
      var n := OperatorLength(cmd);
      ConsToken(Op(cmd[..n]), Tokens(cmd[n..]))
    else
      match ReadWord(cmd, false)
      case None => None
      case Some((word, rest)) => ConsToken(Word(word), Tokens(rest))
  }

  lemma PrependAppend(a: string, b: string, r: Option<(string, string)>)
    ensures Prepend(a, Prepend(b, r)) == Prepend(a + b, r)
  {
    if r.Some? {
      Regroup(a, b, r.value.0, []);
    }
  }

  lemma PrependEmpty(r: Option<(string, string)>)
    ensures Prepend([], r) == r
  {
    if r.Some? {
      assert [] + r.value.0 == r.value.0;
    }
  }

  /** A single quote inside quotes closes them. */
  lemma ReadCloseQuote(t: string)
    ensures ReadWord("'" + t, true) == ReadWord(t, false)
  {
    assert ("'" + t)[1..] == t;
  }

  /** A single quote outside quotes opens them. */
  lemma ReadOpenQuote(t: string)
    ensures ReadWord("'" + t, false) == ReadWord(t, true)
  {
    assert ("'" + t)[1..] == t;
  }

  /** Any other character inside quotes stands for itself. */
  lemma ReadQuotedChar(c: char, t: string)
    requires c != '\''
    ensures ReadWord([c] + t, true) == Prepend([c], ReadWord(t, true))
  {
    assert ([c] + t)[1..] == t;
  }

  /** A safe character outside quotes stands for itself. */
  lemma ReadBareChar(c: char, t: string)
    requires IsBareChar(c)
    ensures ReadWord([c] + t, false) == Prepend([c], ReadWord(t, false))
  {
    assert ([c] + t)[1..] == t;
  }

  /** A backslash outside quotes preserves the next character. */
  lemma ReadBackslash(c: char, t: string)
    requires c != '\n'
    ensures ReadWord(['\\', c] + t, false) == Prepend([c], ReadWord(t, false))
  {
    assert (['\\', c] + t)[2..] == t;
  }

  /** Inside quotes, '\'' (close, escaped quote, reopen) reads as one single quote. */
  lemma ReadEscapedQuote(t: string)
    ensures ReadWord("'\\''" + t, true) == Prepend("'", ReadWord(t, true))
  {
    assert "'\\''" + t == "'" + (['\\', '\''] + ("'" + t));
    ReadCloseQuote(['\\', '\''] + ("'" + t));
    ReadBackslash('\'', "'" + t);
    ReadOpenQuote(t);
  }

  /** Inside quotes, the escaped text and the closing quote read back as the original text. */
  lemma {:induction false} ReadEscaped(s: string, t: string)
    ensures ReadWord(Escape(s) + "'" + t, true) == Prepend(s, ReadWord(t, false))
    decreases |s|
  {
    if s == [] {
      assert Escape(s) + "'" + t == "'" + t;
      ReadCloseQuote(t);
      PrependEmpty(ReadWord(t, false));
    } else {
      var tail := Escape(s[1..]) + "'" + t;
      ReadEscaped(s[1..], t);
      var piece := if s[0] == '\'' then "'\\''" else [s[0]];
      assert Escape(s) == piece + Escape(s[1..]);
      Regroup(piece, Escape(s[1..]), "'", t);
      Regroup(piece, Escape(s[1..]) + "'", t, []);
      assert Escape(s) + "'" + t == piece + tail;
      if s[0] == '\'' {
        ReadEscapedQuote(tail);
      } else {
        ReadQuotedChar(s[0], tail);
      }
      PrependAppend([s[0]], s[1..], ReadWord(t, false));
      assert [s[0]] + s[1..] == s;
    }
  }

  /** Outside quotes, a bare word reads back as itself. */
  lemma {:induction false} ReadBare(s: string, t: string)
    requires IsBareWord(s)
    ensures ReadWord(s + t, false) == Prepend(s, ReadWord(t, false))
    decreases |s|
  {
    if s == [] {
      assert s + t == t;
      PrependEmpty(ReadWord(t, false));
    } else {
      assert s + t == [s[0]] + (s[1..] + t);
      ReadBareChar(s[0], s[1..] + t);
      ReadBare(s[1..], t);
      PrependAppend([s[0]], s[1..], ReadWord(t, false));
      assert [s[0]] + s[1..] == s;
    }
  }

  /** Where a word ends: at the end of the input, an unquoted blank or an operator. */
  lemma ReadAtBoundary(t: string)
    requires IsBoundary(t)
    ensures ReadWord(t, false) == Some(([], t))
  {
  }

  /**
    The output of sh_quote reads back as exactly its input, as one word,
    whatever follows it at a word boundary.
  */
  lemma {:induction false} ShQuoteReadsBack(s: string, t: string)
    requires IsBoundary(t)
    ensures ReadWord(ShQuote(s) + t, false) == Some((s, t))
  {
    if s == [] {
      EmptyReadsBack(t);
    } else if IsBareWord(s) {
      BareReadsBack(s, t);
    } else {
      QuotedReadsBack(s, t);
    }
  }

  /** The empty string's quoted form '' reads back as the empty word. */
  lemma EmptyReadsBack(t: string)
    requires IsBoundary(t)
    ensures ReadWord(ShQuote([]) + t, false) == Some(([], t))
  {
    assert ShQuote([]) + t == "'" + ("'" + t);
    ReadOpenQuote("'" + t);
    ReadCloseQuote(t);
    ReadAtBoundary(t);
  }

  /** A word of safe characters is left bare and reads back as itself. */
  lemma BareReadsBack(s: string, t: string)
    requires s != [] && IsBareWord(s)
    requires IsBoundary(t)
    ensures ReadWord(ShQuote(s) + t, false) == Some((s, t))
  {
    assert ShQuote(s) == s;
    ReadBare(s, t);
    ReadAtBoundary(t);
    assert s + [] == s;
  }

  /** Any other string is single-quoted and reads back as itself. */
  lemma QuotedReadsBack(s: string, t: string)
    requires s != [] && !IsBareWord(s)
    requires IsBoundary(t)
    ensures ReadWord(ShQuote(s) + t, false) == Some((s, t))
  {
    var inner := Escape(s) + "'" + t;
    assert ShQuote(s) + t == "'" + inner;
    ReadOpenQuote(inner);
    ReadEscaped(s, t);
    ReadAtBoundary(t);
    assert s + [] == s;
  }

  /** Round trip: decoding sh_quote's output under the POSIX quoting rules yields the input. */
  lemma ShQuoteRoundTrip(s: string)
    ensures Unquote(ShQuote(s)) == Some(s)
    ensures ShQuote(s) != []
  {
    ShQuoteReadsBack(s, []);
    assert ShQuote(s) + [] == ShQuote(s);
  }

  /** A blank between tokens only separates them. */
  lemma TokensSkipBlank(t: string)
    ensures Tokens(" " + t) == Tokens(t)
  {
    assert (" " + t)[1..] == t;
  }

  /** Input that does not start at a boundary starts a word token: the word ReadWord decodes. */
  lemma TokensOfWord(e: string, word: string, t: string)
    requires !IsBoundary(e)
    requires ReadWord(e + t, false) == Some((word, t))
    ensures Tokens(e + t) == ConsToken(Word(word), Tokens(t))
  {
    assert (e + t)[0] == e[0];
  }

  /** sh_quote's output starts with a quote or a safe character, never at a boundary. */
  lemma ShQuoteStartsWord(s: string)
    ensures !IsBoundary(ShQuote(s))
  {
    if s != [] && IsBareWord(s) {
      assert ShQuote(s)[0] == s[0];
    }
  }

  /**
    In a command line, sh_quote's output is exactly one word token carrying
    the original text, whatever boundary follows it: quoted operator
    characters stay inside the word.
  */
  lemma ShQuoteTokens(s: string, t: string)
    requires IsBoundary(t)
    ensures Tokens(ShQuote(s) + t) == ConsToken(Word(s), Tokens(t))
  {
    ShQuoteReadsBack(s, t);
    ShQuoteStartsWord(s);
    TokensOfWord(ShQuote(s), s, t);
  }

  /** An unquoted operator character ends the word before it and forms an operator of its own. */
  lemma OperatorEndsWord()
    ensures Tokens("a&b") == Some([Word("a"), Op("&"), Word("b")])
  {
    assert Tokens("&b") == ConsToken(Op("&"), Tokens("b")) by {
      assert "&b"[..2] == "&b" && "&b"[..1] == "&" && "&b"[1..] == "b";
      assert OperatorLength("&b") == 1;
    }
    assert Tokens("b") == Some([Word("b")]) by {
      assert ShQuote("b") == "b" by { assert IsBareWord("b"); }
      ShQuoteTokens("b", []);
      assert "b" + [] == "b";
      assert Tokens([]) == Some([]);
      assert [Word("b")] + [] == [Word("b")];
    }
    assert Tokens("a&b") == ConsToken(Word("a"), Tokens("&b")) by {
      assert ShQuote("a") == "a" by { assert IsBareWord("a"); }
      ShQuoteTokens("a", "&b");
      assert "a" + "&b" == "a&b";
    }
    assert [Word("a")] + ([Op("&")] + [Word("b")]) == [Word("a"), Op("&"), Word("b")];
  }

  /** A quoted operator is a word, not an operator. */
  lemma QuotedOperatorIsWord()
    ensures Tokens("'&&'") == Some([Word("&&")])
  {
    assert ShQuote("&&") == "'&&'" by {
      assert !IsBareChar("&&"[0]);
      assert Escape("&&") == "&&";
    }
    ShQuoteTokens("&&", []);
    assert "'&&'" + [] == "'&&'";
    assert Tokens([]) == Some([]);
    assert [Word("&&")] + [] == [Word("&&")];
  }
}
