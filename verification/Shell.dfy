/** Quoting a command for a POSIX shell, and how the shell reads it back: token recognition and quote removal
    after sections 2.2, 2.3 and 2.6.7 of the Shell Command Language (POSIX.1-2017, XCU). */
module Shell {
  import opened Text
  import opened Splitting
  import opened Lists

  // The printer

  predicate IsLetter(c: char) {
    'a' <= c <= 'z' || 'A' <= c <= 'Z'
  }

  /** Characters that need no quoting. */
  predicate IsSafe(c: char) {
    c in "-_/.:=" || IsLetter(c) || IsDigit(c)
  }

  predicate AllSafe(value: string) {
    forall i :: 0 <= i < |value| ==> IsSafe(value[i])
  }

  /** Each ' becomes '"'"': the quote is closed, a quoted quote is added, and the quote is opened again. */
  function Escape(value: string): string {
    if value == "" then ""
    else (if value[0] == '\'' then "'\"'\"'" else [value[0]]) + Escape(value[1..])
  }

  function ShellQuote(value: string): string {
    if value == "" then "''"
    else if AllSafe(value) then value
    else "'" + Escape(value) + "'"
  }

  function Quoted(words: seq<string>): seq<string> {
    seq(|words|, i requires 0 <= i < |words| => ShellQuote(words[i]))
  }

  function ShellCommand(binary: string, args: seq<string>): string {
    Join(Quoted([binary] + args), " ")
  }

  // The reader

  datatype Quoting = Bare | Single | Double

  /** Characters that, unquoted, do more than stand for themselves: control operators and redirections, the
      expansions, pattern matching, tilde expansion and the end of the line. */
  predicate IsActive(c: char) {
    c in "|&;<>()$`*?[~\n"
  }

  /** Reads the rest of a line from inside a quoting state. word is the token being built, None between
      tokens. The result is None when the line is not one plain list of words: an active character is not
      quoted, a comment begins, or a quote or an escape is not finished. */
  function Scan(s: string, q: Quoting, word: Option<string>, done: seq<string>): Option<seq<string>>
    decreases |s|
  {
    if s == "" then
      if q != Bare then None
      else if word == None then Some(done)
      else Some(done + [word.value])
    else
      var c, rest := s[0], s[1..];
      var built := if word == None then "" else word.value;
      match q
      case Bare =>
        if c == '\'' then Scan(rest, Single, Some(built), done)
        else if c == '"' then Scan(rest, Double, Some(built), done)
        else if c == '\\' then
          if rest == "" then None
          else if rest[0] == '\n' then Scan(rest[1..], Bare, word, done)
          else Scan(rest[1..], Bare, Some(built + [rest[0]]), done)
        else if c == ' ' || c == '\t' then
          Scan(rest, Bare, None, if word == None then done else done + [word.value])
        else if IsActive(c) || (c == '#' && word == None) then None
        else Scan(rest, Bare, Some(built + [c]), done)
      case Single =>
        if c == '\'' then Scan(rest, Bare, Some(built), done)
        else Scan(rest, Single, Some(built + [c]), done)
      case Double =>
        if c == '"' then Scan(rest, Bare, Some(built), done)
        else if c == '$' || c == '`' then None
        else if c == '\\' && rest != "" && rest[0] in "$`\"\\" then Scan(rest[1..], Double, Some(built + [rest[0]]), done)
        else if c == '\\' && rest != "" && rest[0] == '\n' then Scan(rest[1..], Double, Some(built), done)
        else Scan(rest, Double, Some(built + [c]), done)
  }

  /** The words the shell makes of a line. */
  function Words(line: string): Option<seq<string>> {
    Scan(line, Bare, None, [])
  }

  // The round trip

  lemma {:induction false} ScanSafe(value: string, rest: string, word: Option<string>, done: seq<string>)
    requires AllSafe(value) && (word == None ==> value != "")
    ensures Scan(value + rest, Bare, word, done)
         == Scan(rest, Bare, Some((if word == None then "" else word.value) + value), done)
  {
    var built := if word == None then "" else word.value;
    if value == "" {
      assert value + rest == rest && built + value == built;
    } else {
      var next := Some(built + [value[0]]);
      assert (value + rest)[0] == value[0] && (value + rest)[1..] == value[1..] + rest;
      ScanSafe(value[1..], rest, next, done);
      assert next.value + value[1..] == built + value;
    }
  }

  lemma {:induction false} ScanEscaped(value: string, rest: string, built: string, done: seq<string>)
    ensures Scan(Escape(value) + "'" + rest, Single, Some(built), done) == Scan(rest, Bare, Some(built + value), done)
  {
    var tail := "'" + rest;
    assert Escape(value) + "'" + rest == Escape(value) + tail;
    if value == "" {
      assert Escape(value) + tail == tail && tail[0] == '\'' && tail[1..] == rest && built + value == built;
    } else {
      var more := Escape(value[1..]) + tail;
      ScanEscaped(value[1..], rest, built + [value[0]], done);
      assert Escape(value[1..]) + "'" + rest == more;
      assert built + [value[0]] + value[1..] == built + value;
      if value[0] == '\'' {
        QuotedQuote(more, built, done);
        assert Escape(value) + tail == "'\"'\"'" + more;
      } else {
        assert Escape(value) + tail == [value[0]] + more;
      }
    }
  }

  lemma QuotedQuote(more: string, built: string, done: seq<string>)
    ensures Scan("'\"'\"'" + more, Single, Some(built), done) == Scan(more, Single, Some(built + "'"), done)
  {
    var s := "'\"'\"'" + more;
    assert s[1..] == "\"'\"'" + more;
    assert s[1..][1..] == "'\"'" + more;
    assert s[1..][1..][1..] == "\"'" + more;
    assert s[1..][1..][1..][1..] == "'" + more;
    assert s[1..][1..][1..][1..][1..] == more;
    assert Scan(s, Single, Some(built), done) == Scan(s[1..], Bare, Some(built), done);
    assert Scan(s[1..], Bare, Some(built), done) == Scan(s[1..][1..], Double, Some(built), done);
    assert Scan(s[1..][1..], Double, Some(built), done) == Scan(s[1..][1..][1..], Double, Some(built + "'"), done);
    assert Scan(s[1..][1..][1..], Double, Some(built + "'"), done) == Scan(s[1..][1..][1..][1..], Bare, Some(built + "'"), done);
  }

  lemma ScanEmptyQuotes(rest: string, done: seq<string>)
    ensures Scan("''" + rest, Bare, None, done) == Scan(rest, Bare, Some(""), done)
  {
    var s := "''" + rest;
    assert s[1..] == "'" + rest;
    assert s[1..][1..] == rest;
    assert Scan(s, Bare, None, done) == Scan(s[1..], Single, Some(""), done);
  }

  lemma ScanQuotedValue(value: string, rest: string, done: seq<string>)
    ensures Scan("'" + Escape(value) + "'" + rest, Bare, None, done) == Scan(rest, Bare, Some(value), done)
  {
    var s := "'" + Escape(value) + "'" + rest;
    assert s[0] == '\'' && s[1..] == Escape(value) + "'" + rest;
    assert Scan(s, Bare, None, done) == Scan(s[1..], Single, Some(""), done);
    ScanEscaped(value, rest, "", done);
    assert "" + value == value;
  }

  /** Whatever the value, its quotation is read as that value: one token, whole, and nothing else. */
  lemma ScanQuote(value: string, rest: string, done: seq<string>)
    ensures Scan(ShellQuote(value) + rest, Bare, None, done) == Scan(rest, Bare, Some(value), done)
  {
    if value == "" {
      ScanEmptyQuotes(rest, done);
    } else if AllSafe(value) {
      ScanSafe(value, rest, None, done);
      assert "" + value == value;
    } else {
      ScanQuotedValue(value, rest, done);
    }
  }

  lemma ScanSpace(word: string, rest: string, done: seq<string>)
    ensures Scan(" " + rest, Bare, Some(word), done) == Scan(rest, Bare, None, done + [word])
  {
    assert (" " + rest)[1..] == rest;
  }

  lemma JoinLast(words: seq<string>)
    requires |words| > 1
    ensures Join(Quoted(words), " ") == Join(Quoted(words[..|words| - 1]), " ") + " " + ShellQuote(words[|words| - 1])
  {
    var init, last := words[..|words| - 1], words[|words| - 1];
    JoinSnoc(Quoted(init), ShellQuote(last), " ");
    assert Quoted(words) == Quoted(init) + [ShellQuote(last)];
  }

  lemma ScanThrough(text: string, second: string, last: string, rest: string, first: seq<string>)
    requires Scan(text, Bare, None, []) == Scan(" " + (ShellQuote(last) + rest), Bare, Some(second), first)
    ensures Scan(text, Bare, None, []) == Scan(rest, Bare, Some(last), first + [second])
  {
    ScanSpace(second, ShellQuote(last) + rest, first);
    ScanQuote(last, rest, first + [second]);
  }

  lemma Regroup(a: string, b: string, rest: string)
    ensures (a + " " + b) + rest == a + (" " + (b + rest))
  {
  }

  /** Reading the joined words leaves the last one as the current token and the others done. */
  lemma {:induction false} ScanJoined(words: seq<string>, rest: string)
    requires words != []
    ensures Scan(Join(Quoted(words), " ") + rest, Bare, None, []) == Scan(rest, Bare, Some(words[|words| - 1]), words[..|words| - 1])
  {
    var init, last := words[..|words| - 1], words[|words| - 1];
    if init == [] {
      assert Join(Quoted(words), " ") == ShellQuote(last);
      ScanQuote(last, rest, []);
    } else {
      var first, second := init[..|init| - 1], init[|init| - 1];
      ScanJoined(init, " " + (ShellQuote(last) + rest));
      JoinLast(words);
      Regroup(Join(Quoted(init), " "), ShellQuote(last), rest);
      ScanThrough(Join(Quoted(words), " ") + rest, second, last, rest, first);
      assert first + [second] == init;
    }
  }

  /** For every binary and argument list, whatever characters they hold, the shell reads the command back as
      exactly the binary followed by the arguments. */
  lemma RoundTrip(binary: string, args: seq<string>)
    ensures Words(ShellCommand(binary, args)) == Some([binary] + args)
  {
    var words := [binary] + args;
    var init, last := words[..|words| - 1], words[|words| - 1];
    ScanJoined(words, "");
    assert init + [last] == words;
    assert Join(Quoted(words), " ") + "" == Join(Quoted(words), " ");
  }

  /** A command is printed as its words with one space between them. */
  lemma CommandIsJoined(binary: string, args: seq<string>, last: string)
    ensures ShellCommand(binary, []) == ShellQuote(binary)
    ensures ShellCommand(binary, args + [last]) == ShellCommand(binary, args) + " " + ShellQuote(last)
  {
    assert [binary] + [] == [binary];
    assert [binary] + (args + [last]) == ([binary] + args) + [last];
    assert Quoted(([binary] + args) + [last]) == Quoted([binary] + args) + [ShellQuote(last)];
    JoinSnoc(Quoted([binary] + args), ShellQuote(last), " ");
  }

  /** No two commands are printed alike. */
  lemma PrintingIsInjective(binary: string, args: seq<string>, binary': string, args': seq<string>)
    requires ShellCommand(binary, args) == ShellCommand(binary', args')
    ensures binary == binary' && args == args'
  {
    RoundTrip(binary, args);
    RoundTrip(binary', args');
    assert ([binary] + args)[0] == ([binary'] + args')[0];
    assert ([binary] + args)[1..] == ([binary'] + args')[1..];
    assert ([binary] + args)[1..] == args && ([binary'] + args')[1..] == args';
  }

  // The first word

  predicate IsName(s: string) {
    && s != "" && (IsLetter(s[0]) || s[0] == '_')
    && forall i :: 0 <= i < |s| ==> IsLetter(s[i]) || IsDigit(s[i]) || s[i] == '_'
  }

  /** A first word that the shell takes as a variable assignment (section 2.9.1, token ASSIGNMENT_WORD of 2.10.2). */
  predicate IsAssignment(token: string) {
    exists i :: 0 <= i < |token| && token[i] == '=' && IsName(token[..i])
  }

  /** A word is printed as it is exactly when it is not empty and made of letters, digits and six other characters;
      otherwise in single quotes. */
  lemma BareExactlyWhenSafe(value: string)
    ensures ShellQuote(value) == value <==>
            value != "" && forall i :: 0 <= i < |value| ==>
              'a' <= value[i] <= 'z' || 'A' <= value[i] <= 'Z' || '0' <= value[i] <= '9' || value[i] in {'-', '_', '/', '.', ':', '='}
    ensures ShellQuote(value) != value ==>
              |ShellQuote(value)| >= 2 && ShellQuote(value)[0] == '\'' == ShellQuote(value)[|ShellQuote(value)| - 1]
  {
    if value != "" && !AllSafe(value) {
      var printed := ShellQuote(value);
      assert printed[0] == '\'' && !IsSafe('\'');
      if printed == value {
        QuotingLengthens(value);
      }
    }
  }

  lemma {:induction false} QuotingLengthens(value: string)
    ensures |Escape(value)| >= |value|
  {
    if value != "" {
      QuotingLengthens(value[1..]);
    }
  }

  /** The reserved words of section 2.4. */
  predicate IsReserved(token: string) {
    token in {"!", "{", "}", "case", "do", "done", "elif", "else", "esac", "fi", "for", "if", "in", "then", "until", "while"}
  }

  /** Where the round trip on words stops being one on commands: an assignment or a reserved word is recognised
      by its unquoted spelling, and the printer leaves it unquoted. The binary is taken for one of these exactly
      when it is spelled like one in characters the printer does not quote. */
  lemma BinaryIsMisreadExactlyWhen(binary: string)
    ensures IsAssignment(ShellQuote(binary)) || IsReserved(ShellQuote(binary))
       <==> AllSafe(binary) && (IsAssignment(binary) || IsReserved(binary))
  {
    var token := ShellQuote(binary);
    if token != binary {
      assert token[0] == '\'';
      forall i | 0 <= i < |token| && token[i] == '='
        ensures !IsName(token[..i])
      {
        assert i > 0 && token[..i][0] == '\'';
      }
      if binary == "" {
        assert !IsAssignment(binary) && !IsReserved(binary);
      }
    }
  }

  /** Two binaries that are not run: the one is taken for an assignment, the other for a reserved word, although
      each is read back as the word it is. */
  lemma MisreadBinaries()
    ensures Words(ShellCommand("A=b", [])) == Some(["A=b"]) && IsAssignment(ShellQuote("A=b"))
    ensures Words(ShellCommand("if", [])) == Some(["if"]) && IsReserved(ShellQuote("if"))
  {
    RoundTrip("A=b", []);
    RoundTrip("if", []);
    assert ["A=b"] + [] == ["A=b"] && ["if"] + [] == ["if"];
    assert AllSafe("A=b") && ShellQuote("A=b") == "A=b";
    assert AllSafe("if") && ShellQuote("if") == "if";
    assert "A=b"[1] == '=' && "A=b"[..1] == "A" && IsName("A");
  }
}
