/**
 What a POSIX shell makes of the hook command: splitting it into words and removing quotes, as in
 section 2.2 of the Shell Command Language.
 */
module ShellCommands {
  import opened Basics
  import opened JsonTree
  import opened HooksModel

  datatype Quote = Unquoted | Single | Double

  /** Characters that stand for themselves outside quotes; the others are not read here. */
  predicate IsPlain(c: char) {
    'a' <= c <= 'z' || 'A' <= c <= 'Z' || '0' <= c <= '9' || c == '-' || c == '_' || c == '.'
  }

  function Text(word: Option<string>): string {
    if word.Some? then word.value else []
  }

  function Begun(word: Option<string>): seq<string> {
    if word.Some? then [word.value] else []
  }

  /** The words of the rest of a command, given what has been read of the current word, if one has begun. */
  function Words(s: string, quote: Quote, word: Option<string>): Option<seq<string>> {
    if s == [] then if quote.Unquoted? then Some(Begun(word)) else None
    else
      var c, rest := s[0], s[1..];
      match quote
      case Unquoted =>
        if c == ' ' then
          var more := Words(rest, Unquoted, None);
          if more.Some? then Some(Begun(word) + more.value) else None
        else if c == '\'' then Words(rest, Single, Some(Text(word)))
        else if c == '"' then Words(rest, Double, Some(Text(word)))
        else if IsPlain(c) then Words(rest, Unquoted, Some(Text(word) + [c]))
        else None
      case Single =>
        if c == '\'' then Words(rest, Unquoted, word) else Words(rest, Single, Some(Text(word) + [c]))
      case Double =>
        if c == '"' then Words(rest, Unquoted, word)
        else if c == '$' || c == '`' || c == '\\' then None
        else Words(rest, Double, Some(Text(word) + [c]))
  }

  /** The command is read as these words. */
  predicate IsReadAs(command: string, words: seq<string>) {
    Words(command, Unquoted, None) == Some(words)
  }

  lemma Next(c: char, rest: string)
    ensures ([c] + rest)[0] == c && ([c] + rest)[1..] == rest && [c] + rest != []
  {
  }

  /** A quote inside the quotes: they are closed, the quote is written in others, and they are opened again. */
  lemma QuotedQuote(rest: string, text: string)
    ensures Words("'\"'\"'" + rest, Single, Some(text)) == Words(rest, Single, Some(text + ['\'']))
  {
    var four, three, two, one := "\"'\"'" + rest, "'\"'" + rest, "\"'" + rest, "'" + rest;
    assert "'\"'\"'" + rest == ['\''] + four;
    assert four == ['"'] + three;
    assert three == ['\''] + two;
    assert two == ['"'] + one;
    Next('\'', four);
    Next('"', three);
    Next('\'', two);
    Next('"', one);
    Next('\'', rest);
    assert Words(['\''] + four, Single, Some(text)) == Words(four, Unquoted, Some(text));
    assert Words(four, Unquoted, Some(text)) == Words(three, Double, Some(text));
    assert Words(three, Double, Some(text)) == Words(two, Double, Some(text + ['\'']));
    assert Words(two, Double, Some(text + ['\''])) == Words(one, Unquoted, Some(text + ['\'']));
  }

  lemma {:induction false} QuotedIsRead(binary: string, rest: string, text: string)
    ensures Words(Replace(binary, '\'', "'\"'\"'") + rest, Single, Some(text))
            == Words(rest, Single, Some(text + binary))
    decreases |binary|
  {
    if binary == [] {
      assert [] + rest == rest && text + [] == text;
    } else {
      var c, more := binary[0], Replace(binary[1..], '\'', "'\"'\"'");
      QuotedIsRead(binary[1..], rest, text + [c]);
      assert text + [c] + binary[1..] == text + binary;
      if c == '\'' {
        assert Replace(binary, '\'', "'\"'\"'") + rest == "'\"'\"'" + (more + rest);
        QuotedQuote(more + rest, text);
      } else {
        assert Replace(binary, '\'', "'\"'\"'") + rest == [c] + (more + rest);
        Next(c, more + rest);
      }
    }
  }

  lemma {:induction false} PlainIsRead(word: string, rest: string, text: string)
    requires forall c :: c in word ==> IsPlain(c)
    ensures Words(word + rest, Unquoted, Some(text)) == Words(rest, Unquoted, Some(text + word))
    decreases |word|
  {
    if word == [] {
      assert [] + rest == rest && text + [] == text;
    } else {
      assert word[0] in word && forall c :: c in word[1..] ==> c in word;
      PlainIsRead(word[1..], rest, text + [word[0]]);
      assert text + [word[0]] + word[1..] == text + word;
      assert word + rest == [word[0]] + (word[1..] + rest);
      Next(word[0], word[1..] + rest);
    }
  }

  /** A plain word behind a space. */
  lemma WordIsRead(before: Option<string>, word: string, rest: string, words: seq<string>)
    requires word != [] && (forall c :: c in word ==> IsPlain(c)) && Words(rest, Unquoted, Some(word)) == Some(words)
    ensures Words(" " + word + rest, Unquoted, before) == Some(Begun(before) + words)
  {
    assert " " + word + rest == [' '] + (word + rest);
    Next(' ', word + rest);
    assert word + rest == [word[0]] + (word[1..] + rest);
    Next(word[0], word[1..] + rest);
    PlainIsRead(word[1..], rest, [word[0]]);
    assert [word[0]] + word[1..] == word;
    assert word[0] in word && Text(None) + [word[0]] == [word[0]];
    assert Words(word + rest, Unquoted, None) == Words(word[1..] + rest, Unquoted, Some([word[0]]));
  }

  lemma LastIsRead(before: string)
    ensures Words(" --json-stdin" + "", Unquoted, Some(before)) == Some([before, "--json-stdin"])
  {
    assert " " + "--json-stdin" + "" == " --json-stdin" + "";
    WordIsRead(Some(before), "--json-stdin", "", ["--json-stdin"]);
    assert [before] + ["--json-stdin"] == [before, "--json-stdin"];
  }

  lemma MarkerIsRead(before: string, rest: string, word: string)
    requires Words(rest, Unquoted, Some("lili-session-v1")) == Some(["lili-session-v1", word])
    ensures Words(" lili-session-v1" + rest, Unquoted, Some(before)) == Some([before, "lili-session-v1", word])
  {
    assert " " + "lili-session-v1" + rest == " lili-session-v1" + rest;
    WordIsRead(Some(before), "lili-session-v1", rest, ["lili-session-v1", word]);
    assert [before] + ["lili-session-v1", word] == [before, "lili-session-v1", word];
  }

  lemma OptionIsRead(before: string, rest: string, words: seq<string>)
    requires Words(rest, Unquoted, Some("--integration-id")) == Some(words)
    ensures Words(" --integration-id" + rest, Unquoted, Some(before)) == Some([before] + words)
  {
    assert " " + "--integration-id" + rest == " --integration-id" + rest;
    WordIsRead(Some(before), "--integration-id", rest, words);
  }

  lemma ArgumentsAreRead(binary: string)
    ensures Words(" --integration-id" + (" lili-session-v1" + (" --json-stdin" + "")), Unquoted, Some(binary))
            == Some([binary, "--integration-id", "lili-session-v1", "--json-stdin"])
  {
    LastIsRead("lili-session-v1");
    var last := " --json-stdin" + "";
    MarkerIsRead("--integration-id", last, "--json-stdin");
    var words := ["--integration-id", "lili-session-v1", "--json-stdin"];
    OptionIsRead(binary, " lili-session-v1" + last, words);
    assert [binary] + words == [binary, "--integration-id", "lili-session-v1", "--json-stdin"];
  }

  lemma QuotedCommandIsRead(binary: string, arguments: string)
    ensures Words("'" + (Replace(binary, '\'', "'\"'\"'") + ("'" + arguments)), Unquoted, None)
            == Words(arguments, Unquoted, Some(binary))
  {
    var quoted, closed := Replace(binary, '\'', "'\"'\"'"), "'" + arguments;
    assert "'" + (quoted + closed) == ['\''] + (quoted + closed);
    Next('\'', quoted + closed);
    QuotedIsRead(binary, closed, "");
    assert "" + binary == binary;
    assert closed == ['\''] + arguments;
    Next('\'', arguments);
  }

  lemma CommandParts(binary: string)
    ensures PosixCommand(binary)
            == "'" + (Replace(binary, '\'', "'\"'\"'")
                      + ("'" + (" --integration-id" + (" lili-session-v1" + (" --json-stdin" + "")))))
  {
    Regrouped("'", Replace(binary, '\'', "'\"'\"'"), "' --integration-id ", MARKER, " --json-stdin");
    EndIs();
  }

  lemma Regrouped(a: string, b: string, c: string, d: string, e: string)
    ensures a + b + c + d + e == a + (b + (c + d + e))
  {
  }

  lemma EndIs()
    ensures "' --integration-id " + MARKER + " --json-stdin"
            == "'" + (" --integration-id" + (" lili-session-v1" + (" --json-stdin" + "")))
  {
  }

  /** The handler planned for a hook is a command with two seconds to answer, which the shell reads so. */
  lemma HandlerIsRead(binary: string)
    ensures var handler := PlannedHandler(binary);
            && StringAt(handler, "type") == Some("command")
            && handler.fields["timeout"] == Num(2)
            && StringAt(handler, "command").Some?
            && IsReadAs(StringAt(handler, "command").value,
                        [binary, "--integration-id", "lili-session-v1", "--json-stdin"])
  {
    CommandIsRead(binary);
    assert StringAt(PlannedHandler(binary), "command") == Some(PosixCommand(binary));
  }

  /** Whatever the path of the hook binary, the shell runs it with the three arguments that mark our hook. */
  lemma CommandIsRead(binary: string)
    ensures IsReadAs(PosixCommand(binary), [binary, "--integration-id", "lili-session-v1", "--json-stdin"])
  {
    CommandParts(binary);
    QuotedCommandIsRead(binary, " --integration-id" + (" lili-session-v1" + (" --json-stdin" + "")));
    ArgumentsAreRead(binary);
  }
}
