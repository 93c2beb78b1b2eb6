/**
 * The input-line handling that both interactive loops share: the line is
 * stripped, a blank line is skipped, and otherwise it is split once on
 * whitespace into a lower-cased command word and the untouched rest.
 */
module CommandLine {
  import opened Wrappers
  import opened Text

  /** A non-blank input line: its command word (lower-cased) and its arguments. */
  datatype Command = Command(name: string, args: string)

  /**
   * `user_input = input().strip()`; nothing when it is empty; otherwise
   * `parts = user_input.split(maxsplit=1)`, the command is `parts[0].lower()`
   * and the arguments are `parts[1]`, or `""` when there is no second part.
   */
  function Tokenize(line: string): Option<Command> {
    var input := Strip(line);
    if input == [] then None
    else
      var parts := SplitOnce(input);
      Some(Command(Lower(parts[0]), if |parts| > 1 then parts[1] else ""))
  }

  /** Blank input is skipped, and only blank input. */
  lemma TokenizeSkipsBlank(line: string)
    ensures Tokenize(line).None? <==> AllSpace(line)
  {
    var input := Strip(line);
    if input != [] {
      assert !IsSpace(input[0]);
    }
  }

  /**
   * The command is the first whitespace-separated word, lower-cased, and the
   * arguments hold exactly the remaining words; they are empty exactly when
   * the line has a single word.
   */
  lemma TokenizeWords(line: string)
    requires !AllSpace(line)
    ensures Tokenize(line).Some? && Words(line) != []
    ensures Tokenize(line).value.name == Lower(Words(line)[0])
    ensures Words(Tokenize(line).value.args) == Words(line)[1..]
    ensures Tokenize(line).value.args == "" <==> |Words(line)| == 1
  {
    TokenizeSkipsBlank(line);
    WordsEmpty(line);
    var input := Strip(line);
    WordsStrip(line);
    var parts := SplitOnce(input);
    SplitOnceWords(input);
    SplitOnceSuffix(input);
    if |parts| == 2 {
      WordsEmpty(parts[1]);
      assert !AllSpace(parts[1]) by { assert !IsSpace(parts[1][0]); }
    } else {
      assert Words("") == [] by { WordsEmpty(""); }
    }
  }

  /**
   * The arguments are passed on verbatim: they are the tail of the stripped
   * line, with no whitespace at either end.
   */
  lemma TokenizeArgsVerbatim(line: string)
    requires !AllSpace(line)
    ensures Tokenize(line).Some?
    ensures var input, args := Strip(line), Tokenize(line).value.args;
      && |args| <= |input| && args == input[|input| - |args|..]
      && (args == "" || (!IsSpace(args[0]) && !IsSpace(args[|args| - 1])))
  {
    TokenizeSkipsBlank(line);
    ArgsEnds(Strip(line), Tokenize(line).value.args);
  }

  /**
   * The second part of `split(maxsplit=1)` of a string without trailing
   * whitespace is a tail of it with no whitespace at either end.
   */
  lemma ArgsEnds(input: string, args: string)
    requires input != [] && !IsSpace(input[|input| - 1])
    requires args == (var parts := SplitOnce(input); if |parts| > 1 then parts[1] else "")
    ensures |args| <= |input| && args == input[|input| - |args|..]
    ensures args == "" || (!IsSpace(args[0]) && !IsSpace(args[|args| - 1]))
  {
    SplitOnceSuffix(input);
    if args != "" {
      assert args[|args| - 1] == input[|input| - 1];
    }
  }
}
