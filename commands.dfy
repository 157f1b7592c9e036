/**
 * How the chat loop of `main` reads one input line: it is stripped, blank lines are skipped,
 * `exit`/`quit` in any letter case end the session, `clear` empties the history and anything
 * else is a message for `chat`.
 */
module Commands {
  import opened Text

  /** What the loop does with one stripped input line. */
  datatype Command = Skip | Quit | Clear | Send(message: string)

  /** Classify one raw input line: strip it, then recognise what is left. */
  function Dispatch(line: string): Command
  {
    Recognise(Strip(line))
  }

  /** What a stripped input line asks for. */
  function Recognise(input: string): Command
  {
    if input == [] then Skip
    else if LowerIs(input, "exit") || LowerIs(input, "quit") then Quit
    else if LowerIs(input, "clear") then Clear
    else Send(input)
  }

  /** A line is skipped exactly when it is blank. */
  lemma SkipIffBlank(line: string)
    ensures Dispatch(line) == Skip <==> AllSpace(line)
  {
  }

  /** Exactly the words `exit` and `quit`, in any letter case and with any padding, end the session. */
  lemma QuitIffQuitWord(line: string)
    ensures Dispatch(line) == Quit <==> Lower(Strip(line)) in ["exit", "quit"]
  {
    var input := Strip(line);
    LowerIsLower(input, "exit");
    LowerIsLower(input, "quit");
  }

  /** Exactly the word `clear`, in any letter case and with any padding, clears the history. */
  lemma ClearIffClearWord(line: string)
    ensures Dispatch(line) == Clear <==> Lower(Strip(line)) == "clear"
  {
    var input := Strip(line);
    LowerIsLower(input, "exit");
    LowerIsLower(input, "quit");
    LowerIsLower(input, "clear");
  }

  /**
   * Every other line is sent: a line is a message exactly when it is neither blank nor a
   * command word, and the message is the stripped line.
   */
  lemma OtherLinesAreSent(line: string)
    ensures Dispatch(line).Send? <==> !AllSpace(line) && Lower(Strip(line)) !in ["exit", "quit", "clear"]
    ensures Dispatch(line).Send? ==> Dispatch(line) == Send(Strip(line))
  {
    var input := Strip(line);
    LowerIsLower(input, "exit");
    LowerIsLower(input, "quit");
    LowerIsLower(input, "clear");
  }

  /** A message sent is never blank and never padded. */
  lemma SentMessageIsTrimmed(line: string)
    requires Dispatch(line).Send?
    ensures var m := Dispatch(line).message;
            m != [] && !IsSpace(m[0]) && !IsSpace(m[|m| - 1])
  {
  }

  /** A message sent is never one of the command words, in any letter case. */
  lemma SentMessageIsNoCommand(line: string)
    requires Dispatch(line).Send?
    ensures Lower(Dispatch(line).message) !in ["exit", "quit", "clear"]
  {
    var m := Dispatch(line).message;
    LowerIsLower(m, "exit");
    LowerIsLower(m, "quit");
    LowerIsLower(m, "clear");
  }

  /** Whitespace around a line never changes what it means. */
  lemma DispatchIgnoresPadding(p1: string, line: string, p2: string)
    requires AllSpace(p1) && AllSpace(p2)
    ensures Dispatch(p1 + line + p2) == Dispatch(line)
  {
    StripIgnoresPadding(p1, line, p2);
  }

  /** A sent message is the line itself with its surrounding whitespace removed. */
  lemma {:induction false} SendIsTrimmedLine(line: string) returns (p1: string, p2: string)
    requires Dispatch(line).Send?
    ensures AllSpace(p1) && AllSpace(p2)
    ensures line == p1 + Dispatch(line).message + p2
  {
    assert Dispatch(line).message == Strip(line);
    p1, p2 := StripDecomposes(line);
  }

  /** The three command words are recognised in any letter case and with any padding. */
  lemma {:induction false} CommandWordsAnyCase(p1: string, word: string, p2: string)
    requires AllSpace(p1) && AllSpace(p2)
    requires Lower(word) in ["exit", "quit", "clear"]
    ensures Dispatch(p1 + word + p2) == (if Lower(word) == "clear" then Clear else Quit)
  {
    assert LowerChar(word[0]) == Lower(word)[0];
    assert LowerChar(word[|word| - 1]) == Lower(word)[|word| - 1];
    StripUnique(p1, word, p2);
    LowerIsLower(word, "exit");
    LowerIsLower(word, "quit");
    LowerIsLower(word, "clear");
  }

  /** The commands of the lines typed, line by line. */
  function DispatchAll(lines: seq<string>): (cmds: seq<Command>)
    ensures |cmds| == |lines|
  {
    seq(|lines|, i requires 0 <= i < |lines| => Dispatch(lines[i]))
  }
}
