/** Remote command construction, and the shell's own reading of a command line:
    backslash and single quotes outside double quotes, and token recognition
    (sections 2.2.1, 2.2.2 and 2.3 of the POSIX.1-2017 Shell Command Language). */
module Rendering {
  import opened Options

  function Replace(s: string, c: char, sub: string): (r: string)
  {
    if s == "" then ""
    else (if s[0] == c then sub else [s[0]]) + Replace(s[1..], c, sub)
  }

  /** `sq`. */
  function Quote(s: string): (r: string) { "'" + Replace(s, '\'', "'\\''") + "'" }

  function Render(words: seq<string>): (r: string)
  {
    if words == [] then ""
    else if |words| == 1 then Quote(words[0])
    else Quote(words[0]) + " " + Render(words[1..])
  }

  function RemoteCommand(script: string, args: seq<string>): (r: string)
  {
    Render(["sh", "-c", script, "testudo"] + args)
  }

  // ----- the shell -----

  predicate Blank(c: char) { c == ' ' || c == '\t' }

  /** Unquoted characters with a meaning beyond plain words. */
  predicate Special(c: char)
  {
    c in {'|', '&', ';', '<', '>', '(', ')', '$', '`', '"', '\n', '*', '?', '[', '#', '~', '=', '%', '{', '}', '!'}
  }

  /** The words of one simple command. `word` is the token being read, if one has begun.
      There is no result for an open quote, a trailing backslash, or an unquoted special
      character, whose reading needs further rules. */
  function Lex(s: string, word: Option<string>, quoted: bool): (r: Option<seq<string>>)
    decreases |s|
  {
    var sofar := if word.Some? then word.value else "";
    if quoted then
      if s == "" then None
      else if s[0] == '\'' then Lex(s[1..], Some(sofar), false)
      else Lex(s[1..], Some(sofar + [s[0]]), true)
    else if s == "" then Some(if word.Some? then [word.value] else [])
    else if Blank(s[0]) then
      var rest := Lex(s[1..], None, false);
      if word.Some? && rest.Some? then Some([word.value] + rest.value) else rest
    else if s[0] == '\'' then Lex(s[1..], Some(sofar), true)
    else if s[0] == '\\' then
      if |s| == 1 then None
      else if s[1] == '\n' then Lex(s[2..], word, false)
      else Lex(s[2..], Some(sofar + [s[1]]), false)
    else if Special(s[0]) then None
    else Lex(s[1..], Some(sofar + [s[0]]), false)
  }

  /** A command line cannot hold a NUL. */
  function Tokenise(s: string): (r: Option<seq<string>>)
  {
    if '\0' in s then None else Lex(s, None, false)
  }

  // ----- quoting undoes reading -----

  /** Inside the quotes every character of the word is read back. */
  lemma {:induction false} LexReplaced(w: string, sofar: string, rest: string)
    ensures Lex(Replace(w, '\'', "'\\''") + "'" + rest, Some(sofar), true) == Lex(rest, Some(sofar + w), false)
    decreases |w|
  {
    var tail := Replace(w, '\'', "'\\''") + "'" + rest;
    if w == "" {
      assert tail == "'" + rest && tail[1..] == rest && sofar + w == sofar;
    } else {
      var next := Replace(w[1..], '\'', "'\\''") + "'" + rest;
      LexReplaced(w[1..], sofar + [w[0]], rest);
      assert sofar + [w[0]] + w[1..] == sofar + w;
      if w[0] == '\'' {
        assert tail == "'\\''" + next;
        LexEscape(next, sofar);
      } else {
        assert tail == [w[0]] + next && tail[1..] == next;
      }
    }
  }

  /** Leave the quotes, read an escaped quote, and enter them again. */
  lemma {:induction false} LexEscape(next: string, sofar: string)
    ensures Lex("'\\''" + next, Some(sofar), true) == Lex(next, Some(sofar + "'"), true)
  {
    var s := "'\\''" + next;
    var t := s[1..];
    assert t == "\\''" + next;
    assert Lex(s, Some(sofar), true) == Lex(t, Some(sofar), false);
    var u := t[2..];
    assert t[1] == '\'' && u == "'" + next;
    assert Lex(t, Some(sofar), false) == Lex(u, Some(sofar + [t[1]]), false);
    assert u[1..] == next;
  }

  lemma {:induction false} LexQuote(w: string, rest: string)
    ensures Lex(Quote(w) + rest, None, false) == Lex(rest, Some(w), false)
  {
    var body := Replace(w, '\'', "'\\''") + "'" + rest;
    assert Quote(w) + rest == "'" + body && ("'" + body)[1..] == body;
    LexReplaced(w, "", rest);
    assert "" + w == w;
  }

  lemma {:induction false} LexRender(words: seq<string>)
    ensures Lex(Render(words), None, false) == Some(words)
  {
    if |words| == 1 {
      LexQuote(words[0], "");
      assert Quote(words[0]) + "" == Quote(words[0]);
      assert words == [words[0]];
    } else if words != [] {
      var rest := Render(words[1..]);
      LexQuote(words[0], " " + rest);
      LexBlank(words[0], rest);
      assert Render(words) == Quote(words[0]) + (" " + rest);
      LexRender(words[1..]);
      assert words == [words[0]] + words[1..];
    }
  }

  /** A blank ends the word being read. */
  lemma LexBlank(w: string, rest: string)
    ensures var r := Lex(rest, None, false);
            Lex(" " + rest, Some(w), false) == if r.Some? then Some([w] + r.value) else None
  {
    assert (" " + rest)[1..] == rest;
  }

  lemma {:induction false} ReplaceKeepsNul(w: string)
    ensures '\0' in Replace(w, '\'', "'\\''") <==> '\0' in w
  {
    if w != "" {
      ReplaceKeepsNul(w[1..]);
      assert w == [w[0]] + w[1..];
    }
  }

  predicate NulFree(words: seq<string>) { forall i | 0 <= i < |words| :: '\0' !in words[i] }

  lemma {:induction false} RenderKeepsNul(words: seq<string>)
    ensures '\0' !in Render(words) <==> NulFree(words)
  {
    if words != [] {
      ReplaceKeepsNul(words[0]);
      RenderKeepsNul(words[1..]);
      assert NulFree(words) <==> '\0' !in words[0] && NulFree(words[1..]) by {
        assert words == [words[0]] + words[1..];
      }
    }
  }

  /** The shell reads a rendered command as exactly the given words, for every list of
      words that a command line can hold and for no other. */
  lemma {:induction false} ShellReadsWords(words: seq<string>)
    ensures Tokenise(Render(words)) == Some(words) <==> NulFree(words)
    ensures Tokenise(Render(words)).None? <==> !NulFree(words)
  {
    RenderKeepsNul(words);
    LexRender(words);
  }

  /** The remote shell always runs the script with exactly these arguments. */
  lemma RemoteCommandRunsScript(script: string, args: seq<string>)
    requires '\0' !in script && NulFree(args)
    ensures Tokenise(RemoteCommand(script, args)) == Some(["sh", "-c", script, "testudo"] + args)
  {
    ShellReadsWords(["sh", "-c", script, "testudo"] + args);
  }

  /** Two different commands never render alike. */
  lemma {:induction false} RenderIsInjective(a: seq<string>, b: seq<string>)
    requires Render(a) == Render(b)
    ensures a == b
  {
    LexRender(a);
    LexRender(b);
  }
}
