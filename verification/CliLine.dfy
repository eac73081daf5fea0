/**
 The line a command-line client sends for its arguments, and the shell tokenizer at the other end. When does the
 server see the arguments the client was given?
 */
module CliLine {
  import opened Wrappers

  predicate IsBlank(c: char) {
    c == ' ' || c == '\t'
  }

  predicate IsQuote(c: char) {
    c == '"' || c == '\''
  }

  // ---------------------------------------------------------------- building the line

  predicate NeedsQuotes(t: string) {
    t == "" || exists i :: 0 <= i < |t| && (IsBlank(t[i]) || t[i] == '"' || t[i] == '\\')
  }

  function Escaped(c: char): string {
    if c == '"' || c == '\\' then ['\\', c] else [c]
  }

  /** A backslash before each double quote and each backslash. */
  function Escape(t: string): string {
    if t == "" then "" else Escaped(t[0]) + Escape(t[1..])
  }

  function Piece(t: string): string {
    if NeedsQuotes(t) then ['"'] + Escape(t) + ['"'] else t
  }

  /** The pieces with one space between each two. */
  function Line(tokens: seq<string>): string
    decreases |tokens|, 1
  {
    if tokens == [] then ""
    else Piece(tokens[0]) + Tail(tokens)
  }

  /** What follows the first piece. */
  function Tail(tokens: seq<string>): string
    requires tokens != []
    decreases |tokens|, 0
  {
    if |tokens| == 1 then "" else [' '] + Line(tokens[1..])
  }

  lemma {:induction false} EscapeSnoc(t: string, c: char)
    ensures Escape(t + [c]) == Escape(t) + Escaped(c)
  {
    hide Escaped;
    if t == "" {
      assert t + [c] == [c] && Escape([c][1..]) == "";
    } else {
      EscapeSnoc(t[1..], c);
      assert (t + [c])[1..] == t[1..] + [c];
    }
  }

  lemma PieceIsNotEmpty(t: string)
    ensures Piece(t) != "" && !IsBlank(Piece(t)[0])
  {
  }

  lemma LineIsNotEmpty(tokens: seq<string>)
    requires tokens != []
    ensures Line(tokens) != ""
  {
    PieceIsNotEmpty(tokens[0]);
  }

  lemma LineOfOne(t: string)
    ensures Line([t]) == Piece(t)
  {
    assert Piece(t) + "" == Piece(t);
  }

  lemma {:induction false} LineSnoc(tokens: seq<string>, t: string)
    requires tokens != []
    ensures Line(tokens + [t]) == Line(tokens) + [' '] + Piece(t)
  {
    var all := tokens + [t];
    if |tokens| == 1 {
      assert all[1..] == [t];
      LineOfOne(t);
      LineOfOne(tokens[0]);
      assert tokens == [tokens[0]];
    } else {
      LineSnoc(tokens[1..], t);
      assert all[1..] == tokens[1..] + [t];
    }
  }

  method DqQuote(t: string) returns (out: string)
    ensures out == ['"'] + Escape(t) + ['"']
  {
    out := ['"'];
    for i := 0 to |t|
      invariant out == ['"'] + Escape(t[..i])
    {
      assert t[..i + 1] == t[..i] + [t[i]];
      EscapeSnoc(t[..i], t[i]);
      if t[i] == '"' || t[i] == '\\' {
        out := out + ['\\'];
      }
      out := out + [t[i]];
    }
    assert t[..|t|] == t;
    out := out + ['"'];
  }

  method BuildLine(tokens: seq<string>) returns (line: string)
    ensures line == Line(tokens)
  {
    line := "";
    for i := 0 to |tokens|
      invariant line == Line(tokens[..i])
    {
      var before := tokens[..i];
      assert tokens[..i + 1] == before + [tokens[i]];
      var piece := tokens[i];
      if NeedsQuotes(tokens[i]) {
        piece := DqQuote(tokens[i]);
      }
      if i > 0 {
        LineSnoc(before, tokens[i]);
        LineIsNotEmpty(before);
      }
      if line != "" {
        line := line + [' '];
      }
      line := line + piece;
    }
    assert tokens[..|tokens|] == tokens;
  }

  // ---------------------------------------------------------------- the tokenizer

  datatype Token = Word(text: string) | Flag(text: string)

  function SkipBlanks(s: string): (r: string)
    ensures |r| <= |s|
    ensures r == "" || !IsBlank(r[0])
  {
    if s != "" && IsBlank(s[0]) then SkipBlanks(s[1..]) else s
  }

  /** The text up to the closing quote, and what follows it; a backslash escapes only between double quotes. */
  function ReadQuoted(s: string, quote: char): (r: (string, string))
    ensures |r.1| <= |s|
  {
    if s == "" then ("", "")
    else if s[0] == quote then ("", s[1..])
    else if quote == '"' && s[0] == '\\' && |s| > 1 then
      var (text, rest) := ReadQuoted(s[2..], quote);
      ([s[1]] + text, rest)
    else
      var (text, rest) := ReadQuoted(s[1..], quote);
      ([s[0]] + text, rest)
  }

  /** The text up to a blank or a quote. */
  function ReadAtom(s: string): (r: (string, string))
    ensures r.0 + r.1 == s
    ensures r.1 == "" || IsBlank(r.1[0]) || IsQuote(r.1[0])
    ensures forall i :: 0 <= i < |r.0| ==> !IsBlank(r.0[i]) && !IsQuote(r.0[i])
  {
    if s == "" || IsBlank(s[0]) || IsQuote(s[0]) then ("", s)
    else
      var (atom, rest) := ReadAtom(s[1..]);
      ([s[0]] + atom, rest)
  }

  predicate HasPrefix(s: string, p: string) {
    |p| <= |s| && s[..|p|] == p
  }

  predicate DigitsAndDot(s: string, dot: bool, digit: bool) {
    if s == "" then digit
    else if '0' <= s[0] <= '9' then DigitsAndDot(s[1..], dot, true)
    else if s[0] == '.' && !dot then DigitsAndDot(s[1..], true, digit)
    else false
  }

  predicate LooksNegativeNumber(s: string) {
    |s| >= 2 && s[0] == '-' && DigitsAndDot(s[1..], false, false)
  }

  predicate LooksGluedValue(s: string) {
    exists i :: 0 <= i < |s| && (s[i] == '/' || s[i] == '.' || s[i] == ':' || s[i] == '=')
  }

  function MakeFlag(k: string): Token {
    Flag(if k != "" && k[0] == '-' then k[1..] else k)
  }

  function Bundle(s: string): (r: seq<Token>)
    ensures |r| == |s| && forall i :: 0 <= i < |r| ==> r[i].Flag?
  {
    if s == "" then [] else [MakeFlag([s[0]])] + Bundle(s[1..])
  }

  function IndexOf(s: string, c: char): (i: nat)
    ensures i <= |s|
    ensures i < |s| ==> s[i] == c
    ensures forall j :: 0 <= j < i ==> s[j] != c
  {
    if s == "" || s[0] == c then 0 else 1 + IndexOf(s[1..], c)
  }

  /** What an atom that starts with a dash turns into; `first` if no token came before it. */
  function DashTokens(pre: string, first: bool): (r: seq<Token>)
    requires pre != "" && pre[0] == '-'
    ensures r != []
  {
    if LooksNegativeNumber(pre) then [Word(pre)]
    else if HasPrefix(pre, "--") then
      if first then [Word(pre)]
      else
        var name := pre[2..];
        var eq := IndexOf(name, '=');
        if eq == |name| then [MakeFlag(name)] else [MakeFlag(name[..eq]), Word(name[eq + 1..])]
    else if |pre| == 2 then
      if first then [Word(pre)] else [MakeFlag(pre[1..])]
    else if |pre| > 2 then
      var tail := pre[2..];
      if LooksGluedValue(tail) then
        [MakeFlag([pre[1]]), Word(if tail[0] == '=' then tail[1..] else tail)]
      else Bundle(tail)
    else [Word(pre)]
  }

  predicate IsSentinel(s: string) {
    HasPrefix(s, "--") && (|s| == 2 || IsBlank(s[2]))
  }

  /** A quoted value right after the atom is taken into it. */
  function Fold(atom: string, rest: string, folds: bool): (r: (string, string))
    ensures |r.1| <= |rest|
  {
    if rest != "" && IsQuote(rest[0]) && folds then
      var (value, after) := ReadQuoted(rest[1..], rest[0]);
      (atom + value, after)
    else (atom, rest)
  }

  /** One pass of the tokenizer's loop: the tokens it pushes, and the input left. */
  function Next(s: string, first: bool): (r: (seq<Token>, string))
    requires s != "" && !IsBlank(s[0])
    ensures |r.1| < |s| && r.0 != []
  {
    if IsSentinel(s) then ([Word("--")], s[2..])
    else if IsQuote(s[0]) then
      var (text, rest) := ReadQuoted(s[1..], s[0]);
      ([Word(text)], rest)
    else if s[0] == '-' then
      var (atom, rest) := ReadAtom(s);
      var folds := atom[|atom| - 1] == '=' || (|atom| == 2 && atom[1] != '-');
      var (pre, after) := Fold(atom, rest, folds);
      (DashTokens(pre, first), after)
    else
      var (atom, rest) := ReadAtom(s);
      var (text, after) := Fold(atom, rest, atom[|atom| - 1] == '=');
      ([Word(text)], after)
  }

  function TokensFrom(s: string, first: bool): seq<Token>
    decreases |s|
  {
    var input := SkipBlanks(s);
    if input == "" then []
    else
      var (tokens, rest) := Next(input, first);
      tokens + TokensFrom(rest, false)
  }

  /** The first alias of the root command that the line starts with is dropped, whatever follows it. */
  function StripAlias(line: string, aliases: seq<string>): string {
    if aliases == [] then line
    else if HasPrefix(line, aliases[0]) then line[|aliases[0]|..]
    else StripAlias(line, aliases[1..])
  }

  function Tokenize(line: string, aliases: seq<string>): seq<Token> {
    TokensFrom(StripAlias(line, aliases), true)
  }

  // ---------------------------------------------------------------- the round trip

  function Words(tokens: seq<string>): (r: seq<Token>)
    ensures |r| == |tokens| && forall i :: 0 <= i < |r| ==> r[i] == Word(tokens[i])
  {
    seq(|tokens|, i requires 0 <= i < |tokens| => Word(tokens[i]))
  }

  /** An argument sent without quotes that the tokenizer reads back as a word, unchanged. */
  predicate Verbatim(t: string, first: bool)
    requires t != ""
  {
    && '\'' !in t
    && (|| t[0] != '-'
        || t == "-" || t == "--"
        || LooksNegativeNumber(t)
        || (first && (|t| == 2 || HasPrefix(t, "--"))))
  }

  predicate Survives(t: string, first: bool) {
    NeedsQuotes(t) || Verbatim(t, first)
  }

  predicate EndsHere(rest: string) {
    rest == "" || rest[0] == ' '
  }

  lemma {:induction false} QuotedRoundTrip(t: string, rest: string)
    ensures ReadQuoted(Escape(t) + ['"'] + rest, '"') == (t, rest)
  {
    var s := Escape(t) + ['"'] + rest;
    if t == "" {
      assert s[1..] == rest;
    } else {
      QuotedRoundTrip(t[1..], rest);
      var inner := Escape(t[1..]) + ['"'] + rest;
      if t[0] == '"' || t[0] == '\\' {
        assert s == ['\\', t[0]] + inner;
        assert s[2..] == inner;
      } else {
        assert s == [t[0]] + inner;
        assert s[1..] == inner;
      }
      assert t == [t[0]] + t[1..];
    }
  }

  /** An atom is read up to the end of an unquoted argument, or up to a single quote inside it. */
  lemma {:induction false} AtomRoundTrip(t: string, rest: string)
    requires EndsHere(rest)
    requires forall i :: 0 <= i < |t| ==> !IsBlank(t[i]) && t[i] != '"'
    ensures '\'' !in t ==> ReadAtom(t + rest) == (t, rest)
    ensures '\'' in t ==> ReadAtom(t + rest).1 != "" && ReadAtom(t + rest).1[0] == '\''
    ensures |ReadAtom(t + rest).0| <= |t|
  {
    if t == "" {
      assert t + rest == rest;
    } else {
      assert (t + rest)[1..] == t[1..] + rest;
      assert t == [t[0]] + t[1..];
      if t[0] != '\'' {
        AtomRoundTrip(t[1..], rest);
      }
    }
  }

  lemma {:induction false} SingleQuotedHasNone(s: string)
    ensures '\'' !in ReadQuoted(s, '\'').0
  {
    if s != "" && s[0] != '\'' {
      SingleQuotedHasNone(s[1..]);
    }
  }

  lemma DashFirst(pre: string, first: bool)
    requires pre != "" && pre[0] == '-'
    ensures var t := DashTokens(pre, first);
      && (t[0] == Word(pre) || t[0].Flag?)
      && (pre != "--" && '\'' !in pre ==> (t == [Word(pre)] <==> Verbatim(pre, first)))
      && (pre != "--" && '\'' !in pre ==> (t[0] == Word(pre) <==> Verbatim(pre, first)))
  {
  }

  lemma UnquotedShape(t: string)
    requires !NeedsQuotes(t)
    ensures t != "" && forall i :: 0 <= i < |t| ==> !IsBlank(t[i]) && t[i] != '"' && t[i] != '\\'
  {
  }

  /** An unquoted argument with a single quote in it comes out wrong: as a word without one, or as a flag. */
  lemma BrokenBySingleQuote(t: string, rest: string, first: bool)
    requires !NeedsQuotes(t) && EndsHere(rest) && '\'' in t && !IsBlank(t[0])
    ensures Next(t + rest, first).0[0] != Word(t)
  {
    hide DashTokens, ReadQuoted, ReadAtom, NeedsQuotes;
    UnquotedShape(t);
    AtomRoundTrip(t, rest);
    var s := t + rest;
    var (atom, after) := ReadAtom(s);
    assert '\'' !in atom;
    SingleQuotedHasNone(after[1..]);
    SingleQuotedHasNone(s[1..]);
    if s[0] == '-' && !IsSentinel(s) {
      var folds := atom[|atom| - 1] == '=' || (|atom| == 2 && atom[1] != '-');
      DashFirst(Fold(atom, after, folds).0, first);
    }
  }

  /** One argument, quoted or not, at the front of the input. */
  lemma NextRoundTrip(t: string, rest: string, first: bool)
    requires EndsHere(rest)
    ensures var s := Piece(t) + rest;
      && s != "" && !IsBlank(s[0])
      && (Survives(t, first) ==> Next(s, first) == ([Word(t)], rest))
      && (!Survives(t, first) ==> Next(s, first).0[0] != Word(t))
  {
    PieceIsNotEmpty(t);
    var s := Piece(t) + rest;
    if NeedsQuotes(t) {
      QuotedRoundTrip(t, rest);
      assert s[1..] == Escape(t) + ['"'] + rest;
    } else if '\'' in t {
      BrokenBySingleQuote(t, rest, first);
    } else {
      UnquotedRoundTrip(t, rest, first);
    }
  }

  lemma UnquotedRoundTrip(t: string, rest: string, first: bool)
    requires !NeedsQuotes(t) && EndsHere(rest) && '\'' !in t && t != "" && !IsBlank(t[0])
    ensures Verbatim(t, first) ==> Next(t + rest, first) == ([Word(t)], rest)
    ensures !Verbatim(t, first) ==> Next(t + rest, first).0[0] != Word(t)
  {
    hide DashTokens, ReadQuoted, ReadAtom, NeedsQuotes, LooksNegativeNumber;
    UnquotedShape(t);
    AtomRoundTrip(t, rest);
    var s := t + rest;
    if t == "--" {
      assert s[..2] == "--" && s[2..] == rest;
    } else if t[0] == '-' {
      assert |s| >= 2 ==> s[1] == if |t| > 1 then t[1] else rest[0];
      assert |t| > 2 ==> s[2] == t[2];
      if |t| == 2 {
        assert s[..2] == t;
      } else if HasPrefix(s, "--") {
        assert s[..2][1] == '-';
      }
      assert !IsSentinel(s);
      DashFirst(t, first);
    }
  }

  /** The arguments from some point on, `first` if that is the start of the line. */
  ghost predicate AllSurvive(tokens: seq<string>, first: bool) {
    forall i :: 0 <= i < |tokens| ==> Survives(tokens[i], first && i == 0)
  }

  /** The tokens of a line, by whether its first argument survives. */
  lemma LineStep(tokens: seq<string>, first: bool)
    requires tokens != []
    ensures var out := TokensFrom(Line(tokens), first);
      if Survives(tokens[0], first) then out == [Word(tokens[0])] + TokensFrom(Line(tokens[1..]), false)
      else out != [] && out[0] != Word(tokens[0])
  {
    NextRoundTrip(tokens[0], Tail(tokens), first);
    TailTokens(tokens);
    hide Next, Survives, Piece;
    assert SkipBlanks(Line(tokens)) == Line(tokens);
  }

  lemma {:induction false} LineRoundTrip(tokens: seq<string>, first: bool)
    ensures TokensFrom(Line(tokens), first) == Words(tokens) <==> AllSurvive(tokens, first)
    decreases |tokens|
  {
    if tokens != [] {
      hide TokensFrom, Line, Survives, AllSurvive, Words;
      var t, more := tokens[0], tokens[1..];
      LineStep(tokens, first);
      LineRoundTrip(more, false);
      SurvivorsSplit(tokens, first);
      WordsStep(tokens);
      SameHead(Word(t), TokensFrom(Line(more), false), Words(more));
    } else {
      NoTokens(first);
    }
  }

  lemma WordsStep(tokens: seq<string>)
    requires tokens != []
    ensures Words(tokens) == [Word(tokens[0])] + Words(tokens[1..])
  {
  }

  lemma SameHead(t: Token, a: seq<Token>, b: seq<Token>)
    ensures [t] + a == [t] + b <==> a == b
  {
    if [t] + a == [t] + b {
      assert a == ([t] + a)[1..] == ([t] + b)[1..] == b;
    }
  }

  lemma NoTokens(first: bool)
    ensures TokensFrom(Line([]), first) == Words([]) && AllSurvive([], first)
  {
  }

  lemma TailTokens(tokens: seq<string>)
    requires tokens != []
    ensures EndsHere(Tail(tokens))
    ensures TokensFrom(Tail(tokens), false) == TokensFrom(Line(tokens[1..]), false)
  {
  }

  lemma SurvivorsSplit(tokens: seq<string>, first: bool)
    requires tokens != []
    ensures AllSurvive(tokens, first) <==> Survives(tokens[0], first) && AllSurvive(tokens[1..], false)
  {
  }

  lemma {:induction false} NothingStripped(line: string, aliases: seq<string>)
    requires forall i :: 0 <= i < |aliases| ==> !HasPrefix(line, aliases[i])
    ensures StripAlias(line, aliases) == line
  {
    if aliases != [] {
      NothingStripped(line, aliases[1..]);
    }
  }

  // ---------------------------------------------------------------- a line that starts with an alias

  /** A name as aliases are: no blank, quote or equals sign in it, and no dash in front. */
  predicate PlainName(a: string) {
    a != "" && a[0] != '-' && forall i :: 0 <= i < |a| ==> !IsBlank(a[i]) && !IsQuote(a[i]) && a[i] != '='
  }

  /** What an unquoted argument may consist of. */
  predicate Bare(y: string) {
    forall i :: 0 <= i < |y| ==> !IsBlank(y[i]) && y[i] != '"' && y[i] != '\\'
  }

  /** A single-quoted text that starts inside an argument ends inside it, or runs on over a blank or to the end. */
  lemma {:induction false} QuoteEnds(y: string, rest: string)
    requires Bare(y) && EndsHere(rest)
    ensures var (text, left) := ReadQuoted(y + rest, '\'');
      || ' ' in text || left == ""
      || exists i :: 0 < i <= |y| && left == y[i..] + rest
  {
    if y == "" {
      assert y + rest == rest;
    } else {
      var z := y[1..];
      assert (y + rest)[1..] == z + rest;
      if y[0] == '\'' {
        assert y[1..] + rest == z + rest;
      } else {
        QuoteEnds(z, rest);
        var (text, left) := ReadQuoted(z + rest, '\'');
        if ' ' !in text && left != "" {
          var i :| 0 < i <= |z| && left == z[i..] + rest;
          assert y[i + 1..] == z[i..];
        }
      }
    }
  }

  /** The first token read from inside an unquoted argument has no single quote in its text. */
  lemma BareHasNoQuote(y: string, rest: string, first: bool)
    requires y != "" && Bare(y) && EndsHere(rest)
    ensures var t := Next(y + rest, first).0[0]; t.Flag? || '\'' !in t.text
  {
    hide DashTokens, ReadQuoted, ReadAtom;
    AtomRoundTrip(y, rest);
    var s := y + rest;
    var (atom, after) := ReadAtom(s);
    assert '\'' !in atom;
    SingleQuotedHasNone(s[1..]);
    if after != "" {
      SingleQuotedHasNone(after[1..]);
    }
    if s[0] == '-' && !IsSentinel(s) {
      var folds := atom[|atom| - 1] == '=' || (|atom| == 2 && atom[1] != '-');
      DashFirst(Fold(atom, after, folds).0, first);
    }
  }

  /** Where a plain name is read from the front of an argument that does not survive, and nothing else of it. */
  lemma PlainNameEnds(t: string, rest: string, first: bool, a: string)
    requires !NeedsQuotes(t) && EndsHere(rest) && '\'' in t && PlainName(a)
    requires Next(t + rest, first).0[0] == Word(a)
    ensures Next(t + rest, first).0 == [Word(a)]
    ensures var left := Next(t + rest, first).1;
      left == "" || exists i :: 0 < i <= |t| && left == t[i..] + rest
  {
    hide DashTokens, ReadAtom, NeedsQuotes;
    UnquotedShape(t);
    AtomRoundTrip(t, rest);
    var s := t + rest;
    if t[0] == '\'' {
      hide ReadQuoted;
      assert s[1..] == t[1..] + rest;
      QuoteEnds(t[1..], rest);
      var left := Next(s, first).1;
      if left != "" {
        var i :| 0 < i <= |t[1..]| && left == t[1..][i..] + rest;
        assert t[i + 1..] == t[1..][i..];
      }
    } else {
      hide ReadQuoted;
      var (atom, after) := ReadAtom(s);
      if s[0] == '-' && !IsSentinel(s) {
        var folds := atom[|atom| - 1] == '=' || (|atom| == 2 && atom[1] != '-');
        DashFirst(Fold(atom, after, folds).0, first);
      } else if s[0] != '-' {
        assert a == Fold(atom, after, atom[|atom| - 1] == '=').0;
        assert a[|atom| - 1] == atom[|atom| - 1];
        assert s[|atom|..] == after && t[|atom|..] + rest == s[|atom|..];
      }
    }
  }

  /** An argument with an unquoted single quote is never the first token of a line. */
  lemma NotFirst(m: string, tokens: seq<string>, first: bool)
    requires !NeedsQuotes(m) && '\'' in m
    ensures var out := TokensFrom(Line(tokens), first); out == [] || out[0] != Word(m)
  {
    if tokens != [] {
      hide Next, Piece;
      var t, rest := tokens[0], Tail(tokens);
      TailTokens(tokens);
      NextRoundTrip(t, rest, first);
      assert SkipBlanks(Line(tokens)) == Line(tokens);
      if !NeedsQuotes(t) {
        UnquotedShape(t);
        PieceOfBare(t);
        BareHasNoQuote(t, rest, first);
      }
    }
  }

  lemma PieceOfBare(t: string)
    requires !NeedsQuotes(t)
    ensures Piece(t) == t
  {
  }

  /** A line never reads as its own arguments with a plain name in front. */
  lemma {:induction false} NoExtraName(a: string, more: seq<string>, first: bool)
    requires PlainName(a)
    ensures TokensFrom(Line(more), first) != Words([a] + more)
    decreases |more|
  {
    if more != [] {
      var m, others, rest := more[0], more[1..], Tail(more);
      var out, all := TokensFrom(Line(more), first), [a] + more;
      assert Words(all)[0] == Word(a) && Words(all)[1] == Word(m);
      assert more == [m] + others;
      NextRoundTrip(m, rest, first);
      TailTokens(more);
      hide Next, Piece, Survives;
      assert SkipBlanks(Line(more)) == Line(more);
      var (tokens, left) := Next(Line(more), first);
      assert out == tokens + TokensFrom(left, false);
      if Survives(m, first) {
        if m == a {
          NoExtraName(a, others, false);
          assert out[1..] == TokensFrom(Line(others), false) && Words(all)[1..] == Words(more);
        }
      } else if tokens[0] == Word(a) {
        BrokenNameStops(a, m, others, rest, first);
        assert out[1..] == TokensFrom(left, false);
      }
    }
  }

  /** ... because what follows the name is not the argument it was cut from. */
  lemma BrokenNameStops(a: string, m: string, others: seq<string>, rest: string, first: bool)
    requires PlainName(a) && EndsHere(rest) && !Survives(m, first)
    requires TokensFrom(rest, false) == TokensFrom(Line(others), false)
    requires var s := Piece(m) + rest; s != "" && !IsBlank(s[0]) && Next(s, first).0[0] == Word(a)
    ensures var (tokens, left) := Next(Piece(m) + rest, first);
      && tokens == [Word(a)]
      && (TokensFrom(left, false) == [] || TokensFrom(left, false)[0] != Word(m))
  {
    PieceOfBare(m);
    UnquotedShape(m);
    if '\'' in m {
      hide Next, Piece, NeedsQuotes;
      PlainNameEnds(m, rest, first, a);
      NotFirst(m, others, false);
      LeftoverIsNot(m, rest, Next(m + rest, first).1);
    } else {
      UnquotedDash(m, rest, first);
    }
  }

  /** The rest of a cut argument, or what follows it, does not start with that argument. */
  lemma LeftoverIsNot(m: string, rest: string, left: string)
    requires Bare(m) && EndsHere(rest) && '\'' in m
    requires left == "" || exists i :: 0 < i <= |m| && left == m[i..] + rest
    requires TokensFrom(rest, false) == [] || TokensFrom(rest, false)[0] != Word(m)
    ensures TokensFrom(left, false) == [] || TokensFrom(left, false)[0] != Word(m)
  {
    if left != "" {
      var i :| 0 < i <= |m| && left == m[i..] + rest;
      if i == |m| {
        assert left == rest;
      } else {
        BareHasNoQuote(m[i..], rest, false);
        hide Next;
        assert SkipBlanks(left) == left;
      }
    }
  }

  lemma UnquotedDash(t: string, rest: string, first: bool)
    requires !NeedsQuotes(t) && EndsHere(rest) && '\'' !in t && t != "" && !IsBlank(t[0]) && !Verbatim(t, first)
    ensures var tok := Next(t + rest, first).0[0]; tok.Flag? || (tok.Word? && tok.text != "" && tok.text[0] == '-')
  {
    hide ReadQuoted, NeedsQuotes, DashTokens;
    UnquotedShape(t);
    AtomRoundTrip(t, rest);
    var (atom, after) := ReadAtom(t + rest);
    assert atom == t && after == rest;
    DashFirst(t, first);
  }

  /** Some alias the line starts with is dropped from it. */
  lemma {:induction false} SomethingStripped(line: string, aliases: seq<string>) returns (a: string)
    requires exists i :: 0 <= i < |aliases| && HasPrefix(line, aliases[i])
    ensures a in aliases && HasPrefix(line, a) && StripAlias(line, aliases) == line[|a|..]
  {
    if HasPrefix(line, aliases[0]) {
      a := aliases[0];
    } else {
      a := SomethingStripped(line, aliases[1..]);
    }
  }

  /** Once an alias has been taken off its front, no line reads as its arguments any more. */
  lemma AliasBreaks(tokens: seq<string>, a: string)
    requires PlainName(a) && HasPrefix(Line(tokens), a)
    ensures TokensFrom(Line(tokens)[|a|..], true) != Words(tokens)
  {
    var x := AliasInFirst(tokens, a);
    hide PlainName, HasPrefix, Line, Tail, TokensFrom, Words, Bare;
    if x == "" {
      assert x + Tail(tokens) == Tail(tokens) && a + x == a;
      WholeNameEaten(a, tokens);
    } else {
      FrontEaten(a, x, tokens, Tail(tokens));
    }
  }

  /** A plain alias lies within the first argument, which is not quoted. */
  lemma AliasInFirst(tokens: seq<string>, a: string) returns (x: string)
    requires PlainName(a) && HasPrefix(Line(tokens), a)
    ensures tokens != [] && tokens[0] == a + x && Bare(x) && EndsHere(Tail(tokens)) && a != ""
    ensures Line(tokens)[|a|..] == x + Tail(tokens)
  {
    var t, rest, line := tokens[0], Tail(tokens), Line(tokens);
    assert line == Piece(t) + rest && line[0] == a[0];
    assert !NeedsQuotes(t);
    PieceOfBare(t);
    UnquotedShape(t);
    hide NeedsQuotes, Piece, Line;
    assert forall i :: 0 <= i < |a| ==> line[i] == a[i];
    assert |t| < |line| ==> line[|t|] == ' ';
    assert |a| <= |t|;
    assert a == t[..|a|];
    x := t[|a|..];
    assert forall i :: 0 <= i < |x| ==> x[i] == t[|a| + i];
  }

  lemma WholeNameEaten(a: string, tokens: seq<string>)
    requires PlainName(a) && tokens != [] && tokens[0] == a
    ensures TokensFrom(Tail(tokens), true) != Words(tokens)
  {
    NoExtraName(a, tokens[1..], true);
    assert tokens == [a] + tokens[1..];
    hide Next, Piece;
    if |tokens| > 1 {
      assert Tail(tokens)[1..] == Line(tokens[1..]);
      assert SkipBlanks(Tail(tokens)) == SkipBlanks(Line(tokens[1..]));
    }
  }

  lemma FrontEaten(a: string, x: string, tokens: seq<string>, rest: string)
    requires a != "" && x != "" && Bare(x) && EndsHere(rest) && tokens != [] && tokens[0] == a + x
    ensures TokensFrom(x + rest, true) != Words(tokens)
  {
    BareHasNoQuote(x, rest, true);
    if '\'' !in x {
      ShorterFirst(x, rest);
    }
    hide Next, Piece;
    assert SkipBlanks(x + rest) == x + rest;
    assert TokensFrom(x + rest, true)[0] == Next(x + rest, true).0[0];
    assert Words(tokens)[0] == Word(a + x);
    assert '\'' in x ==> '\'' in a + x;
  }

  lemma ShorterFirst(x: string, rest: string)
    requires x != "" && Bare(x) && EndsHere(rest) && '\'' !in x
    ensures var t := Next(x + rest, true).0[0]; t.Flag? || t.text == x
  {
    hide ReadQuoted, DashTokens;
    AtomRoundTrip(x, rest);
    var (atom, after) := ReadAtom(x + rest);
    assert atom == x && after == rest;
    assert |x| > 2 ==> (x + rest)[2] == x[2];
    assert |x| == 1 && rest != "" ==> (x + rest)[..2][1] == rest[0];
    assert |x| == 2 ==> (x + rest)[..2] == x;
    if x[0] == '-' {
      DashFirst(x, true);
    }
  }

  /**
   The round trip. With plain aliases, the server reads back exactly the client's arguments as words if and only if
   the line does not start with an alias of the root command and each argument is quoted or verbatim: what breaks is
   an alias in front, an unquoted single quote, and an unquoted argument that starts with a dash and is read as flags.
   */
  lemma TokenizerRoundTrip(tokens: seq<string>, aliases: seq<string>)
    requires forall i :: 0 <= i < |aliases| ==> PlainName(aliases[i])
    ensures Tokenize(Line(tokens), aliases) == Words(tokens) <==>
      (forall i :: 0 <= i < |aliases| ==> !HasPrefix(Line(tokens), aliases[i])) && AllSurvive(tokens, true)
  {
    if forall i :: 0 <= i < |aliases| ==> !HasPrefix(Line(tokens), aliases[i]) {
      NothingStripped(Line(tokens), aliases);
      LineRoundTrip(tokens, true);
    } else {
      var a := SomethingStripped(Line(tokens), aliases);
      AliasBreaks(tokens, a);
    }
  }

  /**
   A bundle of short flags loses its first: "-abc" is read as the flags b and c. For every unquoted argument of that
   form, in front of anything.
   */
  lemma BundleDropsFirstFlag(t: string, rest: string, first: bool)
    requires !NeedsQuotes(t) && EndsHere(rest) && '\'' !in t && |t| > 2 && t[0] == '-' && t[1] != '-'
    requires !LooksNegativeNumber(t) && !LooksGluedValue(t[2..])
    ensures Next(t + rest, first) == (Bundle(t[2..]), rest)
    ensures |Bundle(t[2..])| == |t| - 2
    ensures forall i :: 2 <= i < |t| && t[i] != '-' ==> Bundle(t[2..])[i - 2] == Flag([t[i]])
  {
    hide ReadQuoted;
    AtomRoundTrip(t, rest);
    UnquotedShape(t);
    hide NeedsQuotes, LooksNegativeNumber, LooksGluedValue;
    assert (t + rest)[1] == t[1];
    var (atom, after) := ReadAtom(t + rest);
    assert atom == t && after == rest;
    BundleFlags(t[2..]);
  }

  lemma {:induction false} BundleFlags(s: string)
    ensures forall i :: 0 <= i < |s| && s[i] != '-' ==> Bundle(s)[i] == Flag([s[i]])
  {
    if s != "" {
      BundleFlags(s[1..]);
    }
  }

  /** A plain first argument that merely starts with an alias loses that much of its front. */
  lemma AliasPrefixIsEaten(alias: string, word: string)
    requires !NeedsQuotes(alias + word) && !NeedsQuotes(word) && '\'' !in word && word[0] != '-'
    ensures Tokenize(Line([alias + word]), [alias]) == [Word(word)]
  {
    var line := Line([alias + word]);
    LineOfOne(alias + word);
    LineOfOne(word);
    assert line == alias + word;
    assert StripAlias(line, [alias]) == word;
    assert Line([word]) == word;
    LineRoundTrip([word], true);
    assert Survives([word][0], true && 0 == 0);
    assert AllSurvive([word], true);
    assert Words([word]) == [Word(word)];
  }

  // ---------------------------------------------------------------- the line determines the arguments

  /** A splitter that knows double quotes only, which is all the builder ever writes. */
  function Split(s: string): seq<string>
    decreases |s|
  {
    var input := SkipBlanks(s);
    if input == "" then []
    else if input[0] == '"' then
      var (text, rest) := ReadQuoted(input[1..], '"');
      [text] + Split(rest)
    else
      var (text, rest) := ReadPlain(input);
      [text] + Split(rest)
  }

  function ReadPlain(s: string): (r: (string, string))
    ensures |r.1| <= |s|
    ensures s != "" && !IsBlank(s[0]) ==> |r.1| < |s|
  {
    if s == "" || IsBlank(s[0]) then ("", s)
    else
      var (text, rest) := ReadPlain(s[1..]);
      ([s[0]] + text, rest)
  }

  lemma {:induction false} PlainRoundTrip(t: string, rest: string)
    requires EndsHere(rest) && forall i :: 0 <= i < |t| ==> !IsBlank(t[i])
    ensures ReadPlain(t + rest) == (t, rest)
  {
    if t == "" {
      assert t + rest == rest;
    } else {
      PlainRoundTrip(t[1..], rest);
      assert (t + rest)[1..] == t[1..] + rest;
      assert t == [t[0]] + t[1..];
    }
  }

  lemma SplitOne(t: string, rest: string)
    requires EndsHere(rest)
    ensures Split(Piece(t) + rest) == [t] + Split(rest)
  {
    hide NeedsQuotes, Escape, ReadPlain, ReadQuoted;
    PieceIsNotEmpty(t);
    var s := Piece(t) + rest;
    assert SkipBlanks(s) == s;
    if NeedsQuotes(t) {
      QuotedRoundTrip(t, rest);
      assert s[1..] == Escape(t) + ['"'] + rest;
    } else {
      UnquotedShape(t);
      PlainRoundTrip(t, rest);
    }
  }

  /** Every argument list is recovered from its line: with empty arguments, quotes, backslashes, blanks, newlines. */
  lemma {:induction false} SplitRecovers(tokens: seq<string>)
    ensures Split(Line(tokens)) == tokens
  {
    if tokens != [] {
      SplitRecovers(tokens[1..]);
      TailSplits(tokens);
      SplitOne(tokens[0], Tail(tokens));
      assert tokens == [tokens[0]] + tokens[1..];
    }
  }

  lemma TailSplits(tokens: seq<string>)
    requires tokens != []
    ensures EndsHere(Tail(tokens)) && Split(Tail(tokens)) == Split(Line(tokens[1..]))
  {
  }

  /** So no two argument lists share a line. */
  lemma LineIsInjective(a: seq<string>, b: seq<string>)
    requires Line(a) == Line(b)
    ensures a == b
  {
    SplitRecovers(a);
    SplitRecovers(b);
  }
}
