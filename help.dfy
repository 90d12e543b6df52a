/**
 * The formatting of the CLI's help text: command groups, one command per
 * indented line, and titled sections whose title is bold on a colour
 * terminal.
 */
module Help {
  import opened GoStrings

  /** ANSI escape sequences of the help text. */
  const ColorReset := "\U{1b}[0m"
  const ColorCyan := "\U{1b}[36m"
  const ColorYellow := "\U{1b}[33m"
  const ColorGreen := "\U{1b}[32m"
  const ColorGray := "\U{1b}[90m"
  const ColorBold := "\U{1b}[1m"

  /**
   * isColorEnabled: colour only when NO_COLOR is unset, TERM is not `dumb`
   * and standard output is a character device; the environment and that
   * last fact are parameters.
   */
  function IsColorEnabled(env: string -> string, stdoutIsTerminal: bool): (r: bool)
    ensures r <==> env("NO_COLOR") == "" && env("TERM") != "dumb" && stdoutIsTerminal
  {
    if env("NO_COLOR") != "" then false
    else if env("TERM") == "dumb" then false
    else stdoutIsTerminal
  }

  /** The command lines of a group: each command indented by two spaces, on a line of its own. */
  function CommandLines(commands: seq<string>): string
  {
    if |commands| == 0 then ""
    else "  " + commands[0] + "\n" + CommandLines(commands[1..])
  }

  /** Writing one more command line extends the lines by it. */
  lemma {:induction false} CommandLinesAppend(commands: seq<string>, cmd: string)
    ensures CommandLines(commands + [cmd]) == CommandLines(commands) + "  " + cmd + "\n"
    decreases |commands|
  {
    if |commands| == 0 {
      assert ([cmd])[1..] == [];
    } else {
      assert (commands + [cmd])[1..] == commands[1..] + [cmd];
      CommandLinesAppend(commands[1..], cmd);
    }
  }

  /** FormatCommandGroup: the title and a colon on the first line, then the command lines. */
  method FormatCommandGroup(title: string, commands: seq<string>) returns (r: string)
    ensures r == title + ":\n" + CommandLines(commands)
    ensures commands == [] ==> r == title + ":\n"
  {
    var sb := title;
    sb := sb + ":\n";
    for i := 0 to |commands|
      invariant sb == title + ":\n" + CommandLines(commands[..i])
    {
      assert commands[..i + 1] == commands[..i] + [commands[i]];
      CommandLinesAppend(commands[..i], commands[i]);
      sb := sb + "  ";
      sb := sb + commands[i];
      sb := sb + "\n";
    }
    assert commands[..|commands|] == commands;
    r := sb;
  }

  /** One `  cmd` line per command, in order. */
  function IndentedLines(commands: seq<string>): (r: seq<string>)
    ensures |r| == |commands|
    ensures forall i :: 0 <= i < |commands| ==> r[i] == "  " + commands[i]
  {
    seq(|commands|, i requires 0 <= i < |commands| => "  " + commands[i])
  }

  /** Without newlines in the commands, the command lines split into the indented commands. */
  lemma {:induction false} CommandLinesSplit(commands: seq<string>)
    requires forall i :: 0 <= i < |commands| ==> '\n' !in commands[i]
    ensures Split(CommandLines(commands), '\n') == IndentedLines(commands) + [""]
    decreases |commands|
  {
    if |commands| > 0 {
      var line, rest := "  " + commands[0], CommandLines(commands[1..]);
      CommandLinesSplit(commands[1..]);
      assert '\n' !in line;
      assert CommandLines(commands) == line + ['\n'] + rest;
      SplitPrefix(line, rest, '\n');
      assert IndentedLines(commands) == [line] + IndentedLines(commands[1..]);
    }
  }

  /**
   * When no title or command holds a newline, the group is exactly the line
   * `title:`, then one line `  cmd` per command in order, then nothing.
   */
  lemma CommandGroupLines(title: string, commands: seq<string>)
    requires '\n' !in title
    requires forall i :: 0 <= i < |commands| ==> '\n' !in commands[i]
    ensures Split(title + ":\n" + CommandLines(commands), '\n') == [title + ":"] + IndentedLines(commands) + [""]
  {
    var head := title + ":";
    assert '\n' !in head;
    assert title + ":\n" + CommandLines(commands) == head + ['\n'] + CommandLines(commands);
    SplitPrefix(head, CommandLines(commands), '\n');
    CommandLinesSplit(commands);
  }

  /** FormatHelpSection: the title (bold when colour is on), a newline, the content and a newline. */
  function FormatHelpSection(title: string, content: string, colorEnabled: bool): (r: string)
    ensures HasSuffix(r, "\n" + content + "\n")
    ensures !colorEnabled ==> HasPrefix(r, title) && |r| == |title| + |content| + 2
    ensures colorEnabled ==> HasPrefix(r, ColorBold + title + ColorReset)
  {
    var heading := if colorEnabled then ColorBold + title + ColorReset else title;
    var r := heading + "\n" + content + "\n";
    assert r == heading + ("\n" + content + "\n");
    assert r[..|heading|] == heading;
    r
  }

  /** Colour only wraps the title in bold: the rest of the section is the same as without it. */
  lemma ColorOnlyWrapsTheTitle(title: string, content: string)
    ensures FormatHelpSection(title, content, true)
            == ColorBold + title + ColorReset + FormatHelpSection(title, content, false)[|title|..]
  {
    var plain := FormatHelpSection(title, content, false);
    assert plain == title + ("\n" + content + "\n");
    assert plain[|title|..] == "\n" + content + "\n";
  }
}
