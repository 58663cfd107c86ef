/** Quoting a string for the shell, against the quoting rules of the POSIX Shell Command Language, sections 2.2.1 and
    2.2.2, and its token recognition rules, section 2.3. */
module ShellQuoting {
  import opened Values

  /** Characters that mean something to the shell when they are not quoted, other than blanks, backslash and
      single quote. Input that relies on them is outside this reader. */
  predicate Special(c: char) { c in "|&;<>()$`\"*?[]#~=%!{}\n" }

  predicate Blank(c: char) { c == ' ' || c == '\t' }

  /** The position of the next single quote, or the length of the text. */
  function QuoteAt(s: string): (i: nat)
    ensures i <= |s| && '\'' !in s[..i] && (i < |s| ==> s[i] == '\'')
  {
    if |s| == 0 || s[0] == '\'' then 0 else
    var i := 1 + QuoteAt(s[1..]);
    assert s[..i] == [s[0]] + s[1..][..i - 1];
    i
  }

  /** The words of the input, when `word` has already been read of the first of them. A backslash keeps the character
      after it and joins lines before a newline; single quotes keep everything up to the next one. */
  function Words(input: string, word: Option<string>): Option<seq<string>>
    decreases |input|
  {
    if |input| == 0 then
      Some(if word.Some? then [word.value] else [])
    else if Blank(input[0]) then
      match Words(input[1..], None)
      case None => None
      case Some(rest) => Some((if word.Some? then [word.value] else []) + rest)
    else if input[0] == '\'' then
      var i := QuoteAt(input[1..]);
      if i == |input| - 1 then None
      else Words(input[i + 2..], Some(word.GetOr("") + input[1..i + 1]))
    else if input[0] == '\\' then
      if |input| == 1 then None
      else if input[1] == '\n' then Words(input[2..], word)
      else Words(input[2..], Some(word.GetOr("") + [input[1]]))
    else if Special(input[0]) then None
    else Words(input[1..], Some(word.GetOr("") + [input[0]]))
  }

  /** Every single quote becomes: end quote, escaped quote, begin quote. */
  function ReplaceQuotes(s: string): string
    decreases |s|
  {
    var i := QuoteAt(s);
    if i == |s| then s else s[..i] + ("'" + "\\'" + "'") + ReplaceQuotes(s[i + 1..])
  }

  function ShellEscape(s: string): string { "'" + ReplaceQuotes(s) + "'" }

  lemma {:induction false} QuoteAtIs(a: string, rest: string)
    requires '\'' !in a
    ensures QuoteAt(a + "'" + rest) == |a|
  {
    if |a| > 0 {
      QuoteAtIs(a[1..], rest);
      assert (a + "'" + rest)[1..] == a[1..] + "'" + rest;
    }
  }

  lemma QuoteFound(s: string)
    requires '\'' in s
    ensures QuoteAt(s) < |s|
  {
    assert s[..|s|] == s;
  }

  /** Reading a quoted stretch. */
  lemma ReadQuoted(a: string, rest: string, word: Option<string>)
    requires '\'' !in a
    ensures Words("'" + a + "'" + rest, word) == Words(rest, Some(word.GetOr("") + a))
  {
    var input := "'" + a + "'" + rest;
    assert input[1..] == a + "'" + rest;
    QuoteAtIs(a, rest);
    assert input[1..|a| + 1] == a;
    assert input[|a| + 2..] == rest;
  }

  lemma ReadEscapedQuote(rest: string, word: Option<string>)
    ensures Words("\\'" + rest, word) == Words(rest, Some(word.GetOr("") + "'"))
  {
    var input := "\\'" + rest;
    assert input[0] == '\\' && input[1] == '\'' && input[2..] == rest;
  }

  lemma ReplaceStep(s: string, q: string, e: string)
    requires q == "'" && e == "\\'" && QuoteAt(s) < |s|
    ensures ReplaceQuotes(s) == s[..QuoteAt(s)] + (q + e + q) + ReplaceQuotes(s[QuoteAt(s) + 1..])
  {
  }

  /** An escaped string, taken apart at its first single quote. */
  lemma EscapeSplit(s: string, rest: string, q: string, e: string)
    requires q == "'" && e == "\\'" && QuoteAt(s) < |s|
    ensures ShellEscape(s) + rest == q + s[..QuoteAt(s)] + q + (e + (ShellEscape(s[QuoteAt(s) + 1..]) + rest))
  {
    hide ReplaceQuotes, QuoteAt;
    ReplaceStep(s, q, e);
    Regroup(q, s[..QuoteAt(s)], e, ReplaceQuotes(s[QuoteAt(s) + 1..]), rest);
  }

  lemma Regroup(q: string, a: string, e: string, r: string, rest: string)
    ensures q + (a + (q + e + q) + r) + q + rest == q + a + q + (e + (q + r + q + rest))
  {
  }

  /** Wherever a word may go on, an escaped string adds exactly the string to it. */
  lemma {:induction false} EscapedReadsBack(s: string, rest: string, word: Option<string>)
    ensures Words(ShellEscape(s) + rest, word) == Words(rest, Some(word.GetOr("") + s))
    decreases |s|
  {
    hide Words, ShellEscape;
    var i := QuoteAt(s);
    if i == |s| {
      assert s[..i] == s;
      assert ShellEscape(s) == "'" + s + "'" by { NothingToReplace(s); }
      ReadQuoted(s, rest, word);
    } else {
      var tail := ShellEscape(s[i + 1..]) + rest;
      EscapeSplit(s, rest, "'", "\\'");
      ReadQuoted(s[..i], "\\'" + tail, word);
      ReadEscapedQuote(tail, Some(word.GetOr("") + s[..i]));
      EscapedReadsBack(s[i + 1..], rest, Some(word.GetOr("") + s[..i] + "'"));
      Rejoined(word.GetOr(""), s, i);
    }
  }

  lemma NothingToReplace(s: string)
    requires QuoteAt(s) == |s|
    ensures ShellEscape(s) == "'" + s + "'"
  {
  }

  lemma Rejoined(w: string, s: string, i: nat)
    requires i < |s| && s[i] == '\''
    ensures w + s[..i] + "'" + s[i + 1..] == w + s
  {
    assert s == s[..i] + "'" + s[i + 1..];
  }

  /** A command line of escaped arguments separated by spaces. */
  function CommandLine(args: seq<string>): string {
    if |args| == 0 then ""
    else if |args| == 1 then ShellEscape(args[0])
    else ShellEscape(args[0]) + " " + CommandLine(args[1..])
  }

  /** The shell reads exactly the arguments back, whatever characters they hold; one argument is one word. */
  lemma {:induction false} ArgumentsReadBack(args: seq<string>)
    ensures Words(CommandLine(args), None) == Some(args)
  {
    hide ShellEscape, Words;
    if |args| == 0 {
      assert args == [];
      NoWords(None);
    } else if |args| == 1 {
      EscapedReadsBack(args[0], "", None);
      assert ShellEscape(args[0]) + "" == ShellEscape(args[0]) && "" + args[0] == args[0] && args == [args[0]];
      NoWords(Some(args[0]));
    } else {
      EscapedReadsBack(args[0], " " + CommandLine(args[1..]), None);
      assert ShellEscape(args[0]) + (" " + CommandLine(args[1..])) == CommandLine(args) && "" + args[0] == args[0];
      ArgumentsReadBack(args[1..]);
      NextWord(args[0], CommandLine(args[1..]), args[1..]);
      assert [args[0]] + args[1..] == args;
    }
  }

  lemma NoWords(word: Option<string>)
    ensures Words("", word) == Some(if word.Some? then [word.value] else [])
  {
  }

  lemma NextWord(word: string, line: string, rest: seq<string>)
    requires Words(line, None) == Some(rest)
    ensures Words(" " + line, Some(word)) == Some([word] + rest)
  {
    assert (" " + line)[1..] == line;
  }

  function Size(words: seq<string>): nat {
    if |words| == 0 then 0 else |words[0]| + Size(words[1..])
  }

  /** Every quote costs something: input with one has more characters than the words read from it. */
  lemma {:induction false} QuotesCost(input: string, word: Option<string>)
    requires Words(input, word).Some?
    ensures Size(Words(input, word).value) <= |word.GetOr("")| + |input| - (if '\'' in input then 1 else 0)
    decreases |input|
  {
    if |input| == 0 {
    } else if Blank(input[0]) {
      QuotesCost(input[1..], None);
      assert input == [input[0]] + input[1..];
      var rest := Words(input[1..], None).value;
      if word.Some? { assert ([word.value] + rest)[1..] == rest; } else { assert [] + rest == rest; }
    } else if input[0] == '\'' {
      var i := QuoteAt(input[1..]);
      QuotesCost(input[i + 2..], Some(word.GetOr("") + input[1..i + 1]));
    } else if input[0] == '\\' {
      if input[1] == '\n' {
        QuotesCost(input[2..], word);
      } else {
        QuotesCost(input[2..], Some(word.GetOr("") + [input[1]]));
      }
    } else {
      QuotesCost(input[1..], Some(word.GetOr("") + [input[0]]));
      assert input == [input[0]] + input[1..];
    }
  }

  /** Quotes alone would do exactly for the strings without a single quote: this is what the replacement is for. */
  lemma QuotesAloneExactly(s: string)
    ensures Words("'" + s + "'", None) == Some([s]) <==> '\'' !in s
  {
    if '\'' !in s {
      ReadQuoted(s, "", None);
      assert "'" + s + "'" + "" == "'" + s + "'" && "" + s == s;
    } else {
      var i := QuoteAt(s);
      QuoteFound(s);
      var a, b := s[..i], s[i + 1..];
      assert "'" + s + "'" == "'" + a + "'" + (b + "'");
      ReadQuoted(a, b + "'", None);
      assert "" + a == a;
      QuoteLeft(a, b, |s|);
    }
  }

  /** With a quote still ahead the words come out too short. */
  lemma QuoteLeft(a: string, b: string, n: nat)
    requires n == |a| + 1 + |b|
    ensures forall s: string :: |s| == n ==> Words(b + "'", Some(a)) != Some([s])
  {
    hide Words;
    if Words(b + "'", Some(a)).Some? {
      QuotesCost(b + "'", Some(a));
      assert (b + "'")[|b|] == '\'';
    }
    forall s: string | |s| == n ensures Size([s]) == n {
      assert Size([s]) == |s| + Size([s][1..]);
    }
  }
}
