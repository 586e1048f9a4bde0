/** Turning the `-cmd` string into the argument vector of the new container. */
module Command {
  import opened Tokens

  /** The command used when the `-cmd` string is empty. */
  const DefaultCommand: seq<string> := ["/bin/sh", "-c", "sleep infinity"]

  /**
   * `parseCommand`: the empty string gives the fixed default command; any
   * other string is cut into its white-space-free tokens.
   */
  function ParseCommand(cmdStr: string): (argv: seq<string>)
    ensures cmdStr == "" ==> argv == DefaultCommand
    ensures cmdStr != "" ==> AllFields(argv)
    ensures cmdStr != "" ==> Concat(argv) == RemoveSpaces(cmdStr)
  {
    if cmdStr == "" then DefaultCommand
    else
      FieldsAreFields(cmdStr);
      FieldsConcat(cmdStr);
      Fields(cmdStr)
  }

  /** The default command comes out for the empty string and for nothing else. */
  lemma ParseCommandDefaultIff(cmdStr: string)
    ensures ParseCommand(cmdStr) == DefaultCommand <==> cmdStr == ""
  {
    assert !AllFields(DefaultCommand) by {
      assert IsSpace(DefaultCommand[2][5]);
    }
  }

  /** A non-empty string that is all white space gives no arguments, not the default. */
  lemma ParseCommandBlank(cmdStr: string)
    requires cmdStr != ""
    ensures ParseCommand(cmdStr) == [] <==> AllSpace(cmdStr)
  {
    FieldsEmptyIff(cmdStr);
  }

  /**
   * Exactly the layouts of the tokens between white-space gaps parse to those
   * tokens: every non-empty string has such a layout, and every such layout
   * parses back to its tokens.
   */
  lemma ParseCommandLayout(cmdStr: string)
    requires cmdStr != ""
    ensures Separators(Gaps(cmdStr), ParseCommand(cmdStr))
    ensures Assemble(Gaps(cmdStr), ParseCommand(cmdStr)) == cmdStr
  {
    GapsShape(cmdStr);
  }

  lemma ParseCommandOfLayout(gaps: seq<string>, words: seq<string>)
    requires Separators(gaps, words) && AllFields(words)
    requires Assemble(gaps, words) != ""
    ensures ParseCommand(Assemble(gaps, words)) == words
  {
    FieldsOfAssemble(gaps, words);
  }

  /** Round trip: an argument vector without white space survives being joined with blanks. */
  lemma ParseCommandRoundTrip(argv: seq<string>)
    requires argv != [] && AllFields(argv)
    ensures ParseCommand(JoinBlank(argv)) == argv
  {
    FieldsOfJoinBlank(argv);
    assert IsField(argv[0]);
    assert |JoinBlank(argv)| >= |argv[0]| > 0 by {
      if |argv| > 1 { assert JoinBlank(argv) == argv[0] + (" " + JoinBlank(argv[1..])); }
    }
  }

  /** The `-cmd` flag's own default gives two arguments, not the shell default. */
  lemma ParseCommandFlagDefault()
    ensures ParseCommand("sleep infinity") == ["sleep", "infinity"]
  {
    var argv := ["sleep", "infinity"];
    assert IsField(argv[0]) && IsField(argv[1]);
    ParseCommandRoundTrip(argv);
    assert JoinBlank(argv[1..]) == "infinity";
    assert JoinBlank(argv) == "sleep infinity";
  }

  lemma ParseCommandEcho()
    ensures ParseCommand("echo hi") == ["echo", "hi"]
  {
    var argv := ["echo", "hi"];
    assert IsField(argv[0]) && IsField(argv[1]);
    ParseCommandRoundTrip(argv);
    assert JoinBlank(argv[1..]) == "hi";
    assert JoinBlank(argv) == "echo hi";
  }
}
