/**
 * Writing a file's contents through `echo '<body>' > <path>`.
 *
 * `Escape` is the body built by `setup.rb` (Caddyfile) and `apps_create.rb`
 * (vhost file) with `gsub("'", "'\\''").gsub("\n", "'\\n'")`, evaluated
 * as Ruby evaluates it. In the first replacement Ruby reads `\'` as the
 * post-match, so every `'` becomes `'`, the whole text after it, and `'`.
 * The second turns every newline into `'\n'`, which the shell reads as
 * "close quote, the character `n`, reopen quote". `QuoteBody`, which trades
 * each quote for `'\''` and leaves newlines inside the quotes, is the
 * escaping the code evidently intends; `Unquote` is the shell's quote
 * removal that both are judged against.
 */
module Shell {
  import opened Wrappers
  import opened Text

  /** The shell's escape for a quote inside a single-quoted word. */
  const QuoteEscape: string := "'\\''"
  const NewlineEscape: string := "'\\n'"

  /** The first replacement as Ruby runs it: each `'` becomes `'`, the text
      after it, `'`. */
  function QuoteGsub(s: string): string {
    GsubPostMatch(s, '\'', "'", "'")
  }

  /** The escaping as written. No raw newline is left. */
  function Escape(s: string): (r: string)
    ensures '\n' !in r
  {
    var q := QuoteGsub(s);
    GsubCount(q, '\n', NewlineEscape, '\n');
    assert Count(NewlineEscape, '\n') == 0;
    CountZero(Gsub(q, '\n', NewlineEscape), '\n');
    Gsub(q, '\n', NewlineEscape)
  }

  /** A text with neither a quote nor a newline is left as it is. */
  lemma EscapeUnchanged(s: string)
    requires '\'' !in s && '\n' !in s
    ensures Escape(s) == s
  {
    GsubPostMatchAbsent(s, '\'', "'", "'");
    GsubAbsent(s, '\n', NewlineEscape);
  }

  /** The corrected escaping: each quote traded for `'\''`, newlines left
      inside the quotes. A text without quotes is sent as it is. */
  function QuoteBody(s: string): (r: string)
    ensures '\'' !in s ==> r == s
  {
    if '\'' !in s then GsubAbsent(s, '\'', QuoteEscape); s
    else Gsub(s, '\'', QuoteEscape)
  }

  /** The single-quoted shell word that carries `body`. */
  function Quoted(body: string): string {
    "'" + body + "'"
  }

  /** POSIX quote removal for one word: inside single quotes every character
      is literal up to the next `'`; outside them `'` opens a quotation, a
      backslash keeps the next character literally (and with a newline is a
      line continuation), and any other character stands for itself. `None`
      when a quotation is left open. Quote removal never lengthens a word. */
  function Unquote(w: string, quoted: bool): (r: Option<string>)
    ensures r.Some? ==> |r.value| <= |w|
    decreases |w|
  {
    if w == [] then (if quoted then None else Some([]))
    else if quoted then
      if w[0] == '\'' then Unquote(w[1..], false) else Cons(w[0], Unquote(w[1..], true))
    else if w[0] == '\'' then Unquote(w[1..], true)
    else if w[0] == '\\' && |w| >= 2 then
      if w[1] == '\n' then Unquote(w[2..], false) else Cons(w[1], Unquote(w[2..], false))
    else Cons(w[0], Unquote(w[1..], false))
  }

  function Cons(c: char, r: Option<string>): (r': Option<string>)
    ensures r'.Some? <==> r.Some?
    ensures r.Some? ==> r'.value == [c] + r.value
  {
    match r
    case None => None
    case Some(s) => Some([c] + s)
  }

  /** As Ruby builds it, a quote grows by one character plus all of the
      text after it, and then every newline, the copied ones included, grows
      by three. */
  lemma EscapeLength(s: string)
    ensures var q := QuoteGsub(s);
            && |q| == |s| + Count(s, '\'') + After(s, '\'')
            && |Escape(s)| == |q| + 3 * Count(q, '\n')
  {
    var q := QuoteGsub(s);
    GsubPostMatchLength(s, '\'', "'", "'");
    GsubLength(q, '\n', NewlineEscape);
  }

  /** As written, the shell turns each newline of the body into the letter
      `n`: the file written from "a\nb" holds "anb". */
  lemma EscapeLosesNewline()
    ensures Escape("a\nb") == "a'\\n'b"
    ensures Unquote(Quoted(Escape("a\nb")), false) == Some("anb")
  {
    EscapeSample();
    UnquoteSample();
    assert Quoted("a'\\n'b") == "'a'\\n'b'";
  }

  lemma EscapeSample()
    ensures Escape("a\nb") == "a'\\n'b"
  {
    assert QuoteGsub("a\nb") == "a\nb" by {
      GsubPostMatchAbsent("a\nb", '\'', "'", "'");
    }
    var t := "a\nb";
    assert t[1..] == "\nb" && t[1..][1..] == "b";
    assert Gsub("b", '\n', NewlineEscape) == "b";
    assert Gsub("\nb", '\n', NewlineEscape) == NewlineEscape + "b";
  }

  lemma UnquoteSample()
    ensures Unquote("'a'\\n'b'", false) == Some("anb")
  {
    assert Unquote("'", true) == Some([]) by {
      assert "'"[1..] == [];
    }
    assert Unquote("b'", true) == Some("b") by {
      assert "b'"[1..] == "'";
      assert ['b'] + [] == "b";
    }
    assert Unquote("'b'", false) == Some("b") by {
      assert "'b'"[1..] == "b'";
    }
    assert Unquote("\\n'b'", false) == Some("nb") by {
      assert "\\n'b'"[2..] == "'b'";
      assert ['n'] + "b" == "nb";
    }
    assert Unquote("'\\n'b'", true) == Some("nb") by {
      assert "'\\n'b'"[1..] == "\\n'b'";
    }
    assert Unquote("a'\\n'b'", true) == Some("anb") by {
      assert "a'\\n'b'"[1..] == "'\\n'b'";
      assert ['a'] + "nb" == "anb";
    }
    assert "'a'\\n'b'"[1..] == "a'\\n'b'";
  }

  /** As written, a quote in the body is not escaped but followed by a copy
      of the rest of the body: the file written from "a'b" holds "abb". */
  lemma EscapeMangleQuote()
    ensures Escape("a'b") == "a'b'b"
    ensures Unquote(Quoted(Escape("a'b")), false) == Some("abb")
  {
    QuoteSample();
    assert Escape("a'b") == "a'b'b" by {
      GsubAbsent("a'b'b", '\n', NewlineEscape);
    }
    assert Quoted("a'b'b") == "'a'b'b'";
    UnquoteQuoteSample();
  }

  lemma QuoteSample()
    ensures QuoteGsub("a'b") == "a'b'b"
  {
    var s := "a'b";
    assert s[1..] == "'b" && s[1..][1..] == "b";
    assert QuoteGsub("b") == "b";
    assert QuoteGsub("'b") == "'b'" + "b";
  }

  lemma UnquoteQuoteSample()
    ensures Unquote("'a'b'b'", false) == Some("abb")
  {
    assert Unquote("'", true) == Some([]) by {
      assert "'"[1..] == [];
    }
    assert Unquote("b'", true) == Some("b") by {
      assert "b'"[1..] == "'";
      assert ['b'] + [] == "b";
    }
    assert Unquote("'b'", false) == Some("b") by {
      assert "'b'"[1..] == "b'";
    }
    assert Unquote("b'b'", false) == Some("bb") by {
      assert "b'b'"[1..] == "'b'";
      assert ['b'] + "b" == "bb";
    }
    assert Unquote("'b'b'", true) == Some("bb") by {
      assert "'b'b'"[1..] == "b'b'";
    }
    assert Unquote("a'b'b'", true) == Some("abb") by {
      assert "a'b'b'"[1..] == "'b'b'";
      assert ['a'] + "bb" == "abb";
    }
    assert "'a'b'b'"[1..] == "a'b'b'";
  }

  /** As written, a body without quotes reaches its file with every newline
      turned into the letter `n`. */
  lemma EscapeWritesNewlinesAsN(s: string)
    requires '\'' !in s
    ensures Unquote(Quoted(Escape(s)), false) == Some(Tr(s, '\n', 'n'))
  {
    GsubPostMatchAbsent(s, '\'', "'", "'");
    var w := Quoted(Escape(s));
    assert w[1..] == Gsub(s, '\n', NewlineEscape) + "'";
    NewlinesAsN(s);
  }

  /** Inside an open quotation, a quote-free text with its newlines escaped
      as written, then the closing quote, reads back with `n` for each
      newline. */
  lemma {:induction false} NewlinesAsN(s: string)
    requires '\'' !in s
    ensures Unquote(Gsub(s, '\n', NewlineEscape) + "'", true) == Some(Tr(s, '\n', 'n'))
  {
    if s == [] {
      assert Gsub(s, '\n', NewlineEscape) + "'" == "'";
      assert "'"[1..] == [];
      assert Tr(s, '\n', 'n') == [];
    } else {
      var rest := Gsub(s[1..], '\n', NewlineEscape) + "'";
      NewlinesAsN(s[1..]);
      var tr := Tr(s, '\n', 'n');
      assert tr == [tr[0]] + Tr(s[1..], '\n', 'n');
      if s[0] == '\n' {
        var w := NewlineEscape + rest;
        assert Gsub(s, '\n', NewlineEscape) + "'" == w;
        assert w[1..][2..] == "'" + rest;
        assert ("'" + rest)[1..] == rest;
        assert Unquote(w[1..][2..], false) == Unquote(rest, true);
      } else {
        var w := [s[0]] + rest;
        assert Gsub(s, '\n', NewlineEscape) + "'" == w;
        assert w[1..] == rest;
      }
    }
  }

  /** The corrected escaping round-trips every body, newlines included. */
  lemma QuoteBodyRoundTrip(s: string)
    ensures Unquote(Quoted(QuoteBody(s)), false) == Some(s)
  {
    var w := Quoted(QuoteBody(s));
    if '\'' !in s {
      GsubAbsent(s, '\'', QuoteEscape);
    }
    assert w[1..] == Gsub(s, '\'', QuoteEscape) + "'";
    QuotedTail(s);
  }

  /** Inside an open quotation, the escaped body followed by the closing quote
      reads back as the body. */
  lemma {:induction false} QuotedTail(s: string)
    ensures Unquote(Gsub(s, '\'', QuoteEscape) + "'", true) == Some(s)
  {
    if s == [] {
      assert Gsub(s, '\'', QuoteEscape) + "'" == "'";
      assert "'"[1..] == [];
    } else {
      var rest := Gsub(s[1..], '\'', QuoteEscape) + "'";
      QuotedTail(s[1..]);
      assert s == [s[0]] + s[1..];
      if s[0] == '\'' {
        var w := QuoteEscape + rest;
        assert Gsub(s, '\'', QuoteEscape) + "'" == w;
        assert w[1..][2..] == "'" + rest;
        assert ("'" + rest)[1..] == rest;
        assert Unquote(w[1..][2..], false) == Some(s[1..]);
        assert Unquote(w[1..], false) == Some([s[0]] + s[1..]);
      } else {
        var w := [s[0]] + rest;
        assert Gsub(s, '\'', QuoteEscape) + "'" == w;
        assert w[1..] == rest;
      }
    }
  }

  /** Quote removal never makes a newline out of a word that has none. */
  lemma {:induction false} UnquoteAddsNoNewline(w: string, quoted: bool)
    requires '\n' !in w
    ensures Unquote(w, quoted).Some? ==> '\n' !in Unquote(w, quoted).value
    decreases |w|
  {
    if w != [] {
      assert '\n' !in w[1..];
      if !quoted && w[0] == '\\' && |w| >= 2 {
        assert '\n' !in w[2..];
        UnquoteAddsNoNewline(w[2..], false);
      } else if w[0] == '\'' {
        UnquoteAddsNoNewline(w[1..], !quoted);
      } else {
        UnquoteAddsNoNewline(w[1..], quoted);
      }
    }
  }

  /** As written, no body with a newline reaches its file intact: the word
      the shell reads back has lost every newline. */
  lemma EscapeDropsNewlines(s: string)
    requires '\n' in s
    ensures Unquote(Quoted(Escape(s)), false) != Some(s)
  {
    assert '\n' !in Quoted(Escape(s));
    UnquoteAddsNoNewline(Quoted(Escape(s)), false);
  }

  /** `echo '<body>' > <path>` with the body escaped as written. */
  function WriteCommand(body: string, path: string): string {
    "echo " + Quoted(Escape(body)) + " > " + path
  }

  /** `echo '<body>' > <path>` with the corrected escaping. */
  function IntendedWriteCommand(body: string, path: string): string {
    "echo " + Quoted(QuoteBody(body)) + " > " + path
  }

  /** With the corrected escaping, the word `echo` gets reads back as
      exactly the body. */
  lemma IntendedWriteCommandWritesBody(body: string, path: string)
    ensures var w := Quoted(QuoteBody(body));
            IntendedWriteCommand(body, path) == "echo " + w + " > " + path && Unquote(w, false) == Some(body)
  {
    QuoteBodyRoundTrip(body);
  }
}
