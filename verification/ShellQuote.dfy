// Quoting command arguments for a POSIX shell, against the shell's own rules: sections
// 2.2.1 (backslash), 2.2.2 (single quotes) and 2.3 (token recognition) of the Shell Command
// Language in POSIX.1-2017.
module ShellQuote {
  import opened Types
  import opened Chars

  // ---- the shell -------------------------------------------------------------------------

  datatype Token = Word(text: string) | Operator(op: char)

  // Between tokens or inside an unquoted one (word: what it holds so far), or inside quotes.
  datatype Mode = Plain(word: Option<string>) | Quoted(inside: string)

  predicate IsOperatorChar(c: char) { c in "&;<>|()\n" }

  // Unquoted characters that start expansions, globs, comments or double quotes. Words that
  // use them are outside this model of the shell.
  predicate IsExpansionChar(c: char) { c in "\"$`*?[]#~!{}%^" }

  function Close(word: Option<string>): seq<Token> {
    if word.Some? then [Word(word.value)] else []
  }

  function Text(word: Option<string>): string {
    if word.Some? then word.value else ""
  }

  function Prepend(tokens: seq<Token>, rest: Option<seq<Token>>): Option<seq<Token>> {
    if rest.Some? then Some(tokens + rest.value) else None
  }

  // The tokens of s; None for an unfinished quote or a construct outside this model.
  function Scan(s: string, mode: Mode): Option<seq<Token>>
    decreases |s|
  {
    match mode
    case Quoted(word) =>
      if s == "" then None
      else if s[0] == '\'' then Scan(s[1..], Plain(Some(word)))
      else Scan(s[1..], Quoted(word + [s[0]]))
    case Plain(word) =>
      if s == "" then Some(Close(word))
      else if s[0] == '\'' then Scan(s[1..], Quoted(Text(word)))
      else if s[0] == '\\' then
        if |s| == 1 then None
        else if s[1] == '\n' then Scan(s[2..], mode)
        else Scan(s[2..], Plain(Some(Text(word) + [s[1]])))
      else if s[0] == ' ' || s[0] == '\t' then Prepend(Close(word), Scan(s[1..], Plain(None)))
      else if IsOperatorChar(s[0]) then
        Prepend(Close(word) + [Operator(s[0])], Scan(s[1..], Plain(None)))
      else if IsExpansionChar(s[0]) then None
      else Scan(s[1..], Plain(Some(Text(word) + [s[0]])))
  }

  function Tokenize(command: string): Option<seq<Token>> { Scan(command, Plain(None)) }

  function Words(args: seq<string>): seq<Token> {
    if args == [] then [] else [Word(args[0])] + Words(args[1..])
  }

  // Section 2.2 lists the characters that must be quoted to stand for themselves; none of
  // them is read as a word of its own.
  lemma SpecialNeedsQuoting(c: char)
    requires c in "|&;<>()$`\\\"' \t\n*?[#~"
    ensures Tokenize([c]) != Some([Word([c])])
  {
    hide IsOperatorChar, IsExpansionChar;
    SpecialIsListed(c);
    SpecialAlone(c);
  }

  lemma SpecialIsListed(c: char)
    requires c in "|&;<>()$`\\\"' \t\n*?[#~"
    ensures c == '\'' || c == '\\' || c == ' ' || c == '\t' || IsOperatorChar(c) || IsExpansionChar(c)
  {
  }

  lemma SpecialAlone(c: char)
    requires c == '\'' || c == '\\' || c == ' ' || c == '\t' || IsOperatorChar(c) || IsExpansionChar(c)
    ensures Tokenize([c]) != Some([Word([c])])
  {
    hide IsOperatorChar, IsExpansionChar;
    var s := [c];
    assert s[0] == c && s[1..] == "";
    assert Scan("", Plain(None)) == Some([]) && Scan("", Quoted("")) == None;
    assert ([] + [Operator(c)] + [])[0].Operator?;
  }

  lemma {:induction false} WordsMean(args: seq<string>)
    ensures |Words(args)| == |args| && forall i :: 0 <= i < |args| ==> Words(args)[i] == Word(args[i])
  {
    if args != [] {
      WordsMean(args[1..]);
    }
  }

  // ---- the quoter ------------------------------------------------------------------------

  predicate IsShellSafe(c: char) {
    IsAlphanumeric(c) || c in "/._-+:=,@<>"
  }

  predicate AllSafe(value: string) {
    forall i :: 0 <= i < |value| ==> IsShellSafe(value[i])
  }

  function Escaped(value: string): string {
    if value == "" then ""
    else (if value[0] == '\'' then "'\\''" else [value[0]]) + Escaped(value[1..])
  }

  function Quote(value: string): string {
    if value == "" then "''" else if AllSafe(value) then value else "'" + Escaped(value) + "'"
  }

  method ShellQuoteValue(value: string) returns (quoted: string)
    ensures quoted == Quote(value)
  {
    if value == "" {
      return "''";
    }
    if AllSafe(value) {
      return value;
    }
    quoted := "'";
    for i := 0 to |value|
      invariant quoted + Escaped(value[i..]) == "'" + Escaped(value)
    {
      var before := quoted;
      var piece := if value[i] == '\'' then "'\\''" else [value[i]];
      assert value[i..][1..] == value[i + 1..];
      assert Escaped(value[i..]) == piece + Escaped(value[i + 1..]);
      assert (quoted + piece) + Escaped(value[i + 1..]) == quoted + Escaped(value[i..]);
      quoted := quoted + piece;
    }
    assert quoted + "" == quoted;
    quoted := quoted + "'";
  }

  function Join(args: seq<string>): string {
    if args == [] then "" else if |args| == 1 then args[0] else args[0] + " " + Join(args[1..])
  }

  function QuoteAll(args: seq<string>): seq<string> {
    if args == [] then [] else [Quote(args[0])] + QuoteAll(args[1..])
  }

  // The placeholders of the printed workflow: left bare although < and > are operators.
  predicate IsBarePlaceholder(value: string) {
    AllSafe(value) && ('<' in value || '>' in value)
  }

  // None of a list of arguments is one.
  predicate NoPlaceholder(args: seq<string>) {
    forall i :: 0 <= i < |args| ==> !IsBarePlaceholder(args[i])
  }

  // ---- quoting is undone by the shell ----------------------------------------------------

  lemma SafeIsLiteral(c: char)
    requires IsShellSafe(c) && c != '<' && c != '>'
    ensures c != '\'' && c != '\\' && c != ' ' && c != '\t' && !IsOperatorChar(c) && !IsExpansionChar(c)
  {
  }

  // One scanning step, by the kind of the first character.
  lemma ScanLiteral(c: char, rest: string, word: Option<string>)
    requires IsShellSafe(c) && c != '<' && c != '>'
    ensures Scan([c] + rest, Plain(word)) == Scan(rest, Plain(Some(Text(word) + [c])))
  {
    hide IsShellSafe, IsOperatorChar, IsExpansionChar;
    SafeIsLiteral(c);
    assert ([c] + rest)[1..] == rest;
  }

  lemma ScanOperator(c: char, rest: string, word: Option<string>)
    requires c == '<' || c == '>'
    ensures Scan([c] + rest, Plain(word)) == Prepend(Close(word) + [Operator(c)], Scan(rest, Plain(None)))
  {
    assert ([c] + rest)[1..] == rest;
  }

  lemma ScanInside(c: char, rest: string, inside: string)
    ensures Scan([c] + rest, Quoted(inside))
         == if c == '\'' then Scan(rest, Plain(Some(inside))) else Scan(rest, Quoted(inside + [c]))
  {
    assert ([c] + rest)[1..] == rest;
  }

  lemma ScanOpen(rest: string, word: Option<string>)
    ensures Scan("'" + rest, Plain(word)) == Scan(rest, Quoted(Text(word)))
  {
    assert ("'" + rest)[1..] == rest;
  }

  lemma {:induction false} ScanSafe(v: string, word: Option<string>, rest: string)
    requires AllSafe(v) && '<' !in v && '>' !in v && (v != "" || word.Some?)
    ensures Scan(v + rest, Plain(word)) == Scan(rest, Plain(Some(Text(word) + v)))
    decreases |v|
  {
    hide Scan, IsShellSafe;
    if v == "" {
      assert v + rest == rest && Text(word) + v == word.value;
    } else {
      var next := Some(Text(word) + [v[0]]);
      assert v[0] in v;
      assert v + rest == [v[0]] + (v[1..] + rest);
      ScanLiteral(v[0], v[1..] + rest, word);
      ScanSafe(v[1..], next, rest);
      assert Text(next) + v[1..] == Text(word) + v;
    }
  }

  lemma {:induction false} ScanEscaped(v: string, word: string, rest: string)
    ensures Scan(Escaped(v) + "'" + rest, Quoted(word)) == Scan(rest, Plain(Some(word + v)))
    decreases |v|
  {
    hide Scan;
    var s := Escaped(v) + "'" + rest;
    if v == "" {
      assert s == ['\''] + rest && word + v == word;
      ScanInside('\'', rest, word);
    } else {
      var tail := Escaped(v[1..]) + "'" + rest;
      assert word + v == (word + [v[0]]) + v[1..];
      ScanEscaped(v[1..], word + [v[0]], rest);
      if v[0] == '\'' {
        assert s == ['\''] + ("\\''" + tail);
        ScanInside('\'', "\\''" + tail, word);
        ScanQuotedQuote(word, tail);
      } else {
        assert s == [v[0]] + tail;
        ScanInside(v[0], tail, word);
      }
    }
  }

  // \'' : an escaped quote, then quoting resumes.
  lemma ScanQuotedQuote(word: string, tail: string)
    ensures Scan("\\''" + tail, Plain(Some(word))) == Scan(tail, Quoted(word + "'"))
  {
    var s := "\\''" + tail;
    assert s[0] == '\\' && s[1] == '\'' && s[2..] == "'" + tail;
    ScanOpen(tail, Some(word + "'"));
  }

  // A quoted value becomes one word, whatever follows it.
  lemma ScanQuote(v: string, rest: string)
    requires !IsBarePlaceholder(v)
    ensures Scan(Quote(v) + rest, Plain(None)) == Scan(rest, Plain(Some(v)))
  {
    hide Scan, AllSafe;
    if v == "" {
      assert "''" + rest == "'" + ("'" + rest);
      ScanOpen("'" + rest, None);
      ScanInside('\'', rest, "");
    } else if AllSafe(v) {
      ScanSafe(v, None, rest);
      assert Text(None) + v == v;
    } else {
      assert Quote(v) + rest == "'" + (Escaped(v) + "'" + rest);
      ScanOpen(Escaped(v) + "'" + rest, None);
      ScanEscaped(v, "", rest);
      assert "" + v == v;
    }
  }

  lemma ScanWordEnd(v: string, rest: string)
    ensures Scan("", Plain(Some(v))) == Some([Word(v)])
    ensures Scan(" " + rest, Plain(Some(v))) == Prepend([Word(v)], Scan(rest, Plain(None)))
  {
    var s := " " + rest;
    assert s[0] == ' ' && s[1..] == rest;
  }

  // Joining quoted arguments with spaces and tokenising gives the arguments back.
  lemma {:induction false} RoundTrip(args: seq<string>)
    requires NoPlaceholder(args)
    ensures Tokenize(Join(QuoteAll(args))) == Some(Words(args))
  {
    hide Scan, Quote, IsBarePlaceholder;
    if args == [] {
      ScanEmpty();
    } else {
      RoundTrip(args[1..]);
      ScanWordEnd(args[0], Join(QuoteAll(args[1..])));
      JoinQuoted(args);
      if |args| == 1 {
        ScanQuote(args[0], "");
        assert Quote(args[0]) + "" == Quote(args[0]);
        assert args[1..] == [] && [Word(args[0])] + [] == [Word(args[0])];
      } else {
        ScanQuote(args[0], " " + Join(QuoteAll(args[1..])));
      }
    }
  }

  lemma ScanEmpty()
    ensures Scan("", Plain(None)) == Some([])
  {
  }

  lemma JoinQuoted(args: seq<string>)
    requires args != []
    ensures |args| == 1 ==> Join(QuoteAll(args)) == Quote(args[0])
    ensures |args| > 1 ==> Join(QuoteAll(args)) == Quote(args[0]) + (" " + Join(QuoteAll(args[1..])))
  {
    hide Quote, Join;
    var rest := QuoteAll(args[1..]);
    QuoteAllSize(args[1..]);
    if |args| > 1 {
      JoinCons(Quote(args[0]), rest);
    } else {
      assert rest == [];
      JoinOne(Quote(args[0]));
      assert [Quote(args[0])] + [] == [Quote(args[0])];
    }
  }

  lemma {:induction false} QuoteAllSize(args: seq<string>)
    ensures |QuoteAll(args)| == |args|
  {
    hide Quote;
    if args != [] {
      QuoteAllSize(args[1..]);
    }
  }

  lemma JoinOne(x: string)
    ensures Join([x]) == x
  {
  }

  lemma JoinCons(x: string, xs: seq<string>)
    requires xs != []
    ensures Join([x] + xs) == x + (" " + Join(xs))
  {
    assert ([x] + xs)[1..] == xs;
    assert x + " " + Join(xs) == x + (" " + Join(xs));
  }

  // ---- and exactly where it is not -------------------------------------------------------

  predicate HasOperator(r: Option<seq<Token>>) {
    r.Some? && exists i :: 0 <= i < |r.value| && r.value[i].Operator?
  }

  // Not a sequence of words.
  predicate NotWords(r: Option<seq<Token>>) { r.None? || HasOperator(r) }

  lemma PrependNotWords(tokens: seq<Token>, rest: Option<seq<Token>>)
    requires NotWords(rest) || (exists i :: 0 <= i < |tokens| && tokens[i].Operator?)
    ensures NotWords(Prepend(tokens, rest))
  {
    if rest.Some? {
      var all := tokens + rest.value;
      if i :| 0 <= i < |tokens| && tokens[i].Operator? {
        assert all[i] == tokens[i];
      } else {
        var j :| 0 <= j < |rest.value| && rest.value[j].Operator?;
        assert all[|tokens| + j] == rest.value[j];
      }
    }
  }

  lemma {:induction false} ScanPlaceholder(v: string, word: Option<string>, rest: string)
    requires IsBarePlaceholder(v)
    ensures NotWords(Scan(v + rest, Plain(word)))
    decreases |v|
  {
    hide Scan, IsShellSafe, NotWords;
    assert IsShellSafe(v[0]);
    assert v + rest == [v[0]] + (v[1..] + rest);
    if v[0] == '<' || v[0] == '>' {
      ScanOperator(v[0], v[1..] + rest, word);
      var tokens := Close(word) + [Operator(v[0])];
      assert tokens[|tokens| - 1].Operator?;
      PrependNotWords(tokens, Scan(v[1..] + rest, Plain(None)));
    } else {
      ScanLiteral(v[0], v[1..] + rest, word);
      assert v == [v[0]] + v[1..];
      ScanPlaceholder(v[1..], Some(Text(word) + [v[0]]), rest);
    }
  }

  lemma {:induction false} WordsAreWords(args: seq<string>)
    ensures !NotWords(Some(Words(args)))
  {
    if args != [] {
      WordsAreWords(args[1..]);
      assert forall i :: 1 <= i < |Words(args)| ==> Words(args)[i] == Words(args[1..])[i - 1];
    }
  }

  lemma {:induction false} PlaceholderBreaks(args: seq<string>, k: nat)
    requires k < |args| && IsBarePlaceholder(args[k])
    ensures NotWords(Tokenize(Join(QuoteAll(args))))
    decreases |args|
  {
    hide Scan, NotWords;
    JoinQuoted(args);
    var rest := if |args| == 1 then "" else " " + Join(QuoteAll(args[1..]));
    assert Join(QuoteAll(args)) == Quote(args[0]) + rest;
    if IsBarePlaceholder(args[0]) {
      assert Quote(args[0]) == args[0];
      ScanPlaceholder(args[0], None, rest);
    } else {
      ScanQuote(args[0], rest);
      ScanWordEnd(args[0], Join(QuoteAll(args[1..])));
      PlaceholderBreaks(args[1..], k - 1);
      PrependNotWords([Word(args[0])], Tokenize(Join(QuoteAll(args[1..]))));
    }
  }

  // The command gives back exactly its argument list if and only if no argument is a bare
  // placeholder.
  lemma RoundTripsIff(args: seq<string>)
    ensures Tokenize(Join(QuoteAll(args))) == Some(Words(args))
       <==> NoPlaceholder(args)
  {
    hide Scan, NotWords, IsBarePlaceholder;
    if NoPlaceholder(args) {
      RoundTrip(args);
    } else {
      var k :| 0 <= k < |args| && IsBarePlaceholder(args[k]);
      PlaceholderBreaks(args, k);
      WordsAreWords(args);
    }
  }
}
