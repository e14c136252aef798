/** The page's one request: when the button has been pressed and the command
    line is not empty, upper-case the command, parse it, resolve it against
    `FUNCTION_KB` and show the plan and its figure (app.py:426-512). */
module App {
  import opened Wrappers
  import opened Text
  import opened Parser
  import opened KnowledgeBase
  import opened Resolver

  /** What one run of the script leaves on the page below the command line:
      nothing, the traceback of the uncaught `IndexError`, or an output panel. */
  datatype Screen =
    | Idle
    | Crashed
    | Shown(plan: Plan, figure: Option<Figure>)

  /** `if execute and command: context, function = parse_command(command.upper())`
      and the panel that follows, against a given table. Nothing happens unless
      the button was pressed with a non-empty command; the run crashes exactly
      when nothing but whitespace is left once the sentinels are removed;
      otherwise the function code shown is one upper-case token and the figure
      is the plan's. */
  function Run(kb: map<string, Descriptor>, clicked: bool, command: string): (s: Screen)
    ensures s.Idle? <==> !clicked || command == []
    ensures s.Crashed? <==> (clicked && command != [] &&
                             forall i :: 0 <= i < |RemoveGo(Upper(command))| ==> IsSpace(RemoveGo(Upper(command))[i]))
    ensures s.Shown? ==> IsToken(s.plan.code) && NoLower(s.plan.code)
    ensures s.Shown? ==> s.figure == Drawn(s.plan)
  {
    if clicked && command != [] then
      match Parse(Upper(command))
      case Failure(_) => Crashed
      case Success(c) =>
        ParseNoLower(Upper(command));
        ParseLeavesText(Upper(command));
        var p := Resolve(kb, c);
        Shown(p, Drawn(p))
    else
      Idle
  }

  /** The page itself: the request run against `FUNCTION_KB`. */
  function Execute(clicked: bool, command: string): Screen {
    Run(Kb(), clicked, command)
  }

  /** Two non-empty commands that parse alike once upper-cased give the same
      screen. */
  lemma RunSameParse(kb: map<string, Descriptor>, clicked: bool, a: string, b: string)
    requires a != [] && b != []
    requires Parse(Upper(a)) == Parse(Upper(b))
    ensures Run(kb, clicked, a) == Run(kb, clicked, b)
  {
  }

  /** The command language is case-insensitive: commands that upper-case alike
      give the same screen. */
  lemma RunCaseInsensitive(kb: map<string, Descriptor>, clicked: bool, a: string, b: string)
    requires Upper(a) == Upper(b)
    ensures Run(kb, clicked, a) == Run(kb, clicked, b)
  {
  }

  /** Upper-casing comes first, so a trailing `<go>` in any letter case, with or
      without a space before it, is removed and changes nothing. */
  lemma RunTrailingGo(kb: map<string, Descriptor>, clicked: bool, command: string, go: string)
    requires command != []
    requires Upper(go) == Sentinel
    ensures Run(kb, clicked, command + go) == Run(kb, clicked, command)
    ensures Run(kb, clicked, command + " " + go) == Run(kb, clicked, command)
  {
    var u := Upper(command);
    UpperTrailingGo(command, go);
    ParseTrailingSentinel(u);
    RunSameParse(kb, clicked, command + go, command);
    RunSameParse(kb, clicked, command + " " + go, command);
  }

  lemma UpperTrailingGo(command: string, go: string)
    requires Upper(go) == Sentinel
    ensures Upper(command + go) == Upper(command) + Sentinel
    ensures Upper(command + " " + go) == Upper(command) + " " + Sentinel
  {
    UpperAppend(command, go);
    UpperAppend(command, " ");
    UpperAppend(command + " ", go);
    assert Upper(" ") == " ";
  }

  lemma CodeHasNoBracket(k: string)
    requires IsCode(k)
    ensures IsToken(k) && NoLower(k) && forall i :: 0 <= i < |k| ==> k[i] != '<'
  {
  }

  /** Codes joined by one space: upper-case text without a sentinel. */
  lemma CodesJoined(a: string, b: string)
    requires NoLower(a) && forall i :: 0 <= i < |a| ==> a[i] != '<'
    requires IsCode(b)
    ensures NoLower(a + " " + b) && forall i :: 0 <= i < |a + " " + b| ==> (a + " " + b)[i] != '<'
  {
    CodeHasNoBracket(b);
  }

  /** Upper-case text, typed and followed by ` <GO>`, runs the command it
      parses to. */
  lemma RunTyped(kb: map<string, Descriptor>, s: string, c: Command)
    requires NoLower(s)
    requires Parse(s) == Success(c)
    ensures Run(kb, true, s + " <GO>") == Shown(Resolve(kb, c), Drawn(Resolve(kb, c)))
  {
    UpperTyped(s);
    ParseSpacedSentinel(s);
    RunParsed(kb, s + " <GO>", c);
  }

  /** A command that parses, once upper-cased, shows the plan it resolves to. */
  lemma RunParsed(kb: map<string, Descriptor>, command: string, c: Command)
    requires command != []
    requires Parse(Upper(command)) == Success(c)
    ensures Run(kb, true, command) == Shown(Resolve(kb, c), Drawn(Resolve(kb, c)))
  {
  }

  lemma UpperTyped(s: string)
    requires NoLower(s)
    ensures Upper(s + " <GO>") == s + " " + Sentinel
  {
    assert s + " <GO>" == s + " " + Sentinel;
    UpperAppend(s, " <GO>");
    UpperOfNoLower(s);
    assert Upper(" <GO>") == " <GO>";
  }

  /** A code typed alone runs as a global function whatever the table holds:
      the table is not consulted and nothing is drawn. */
  lemma RunGlobal(kb: map<string, Descriptor>, f: string)
    requires IsCode(f)
    ensures Run(kb, true, f + " <GO>") == Shown(Global(f), None)
  {
    CodeHasNoBracket(f);
    NoSentinelWithoutBracket(f);
    ParseOneToken(f);
    RunTyped(kb, f, Command(None, f));
  }

  /** A code under a context that the table holds shows its descriptor and the
      figure of its chart tag. */
  lemma RunDocumented(kb: map<string, Descriptor>, ctx: string, f: string)
    requires IsCode(ctx) && IsCode(f) && f in kb
    ensures Run(kb, true, ctx + " " + f + " <GO>")
         == Shown(Documented(ctx, f, kb[f], kb[f].chart), FigureFor(kb[f].chart))
  {
    RunUnderContext(kb, ctx, f);
  }

  /** A code under a context that the table does not hold is recognized but not
      documented, and nothing is drawn. */
  lemma RunUndocumented(kb: map<string, Descriptor>, ctx: string, f: string)
    requires IsCode(ctx) && IsCode(f) && f !in kb
    ensures Run(kb, true, ctx + " " + f + " <GO>") == Shown(Undocumented(ctx, f), None)
  {
    RunUnderContext(kb, ctx, f);
  }

  lemma RunUnderContext(kb: map<string, Descriptor>, ctx: string, f: string)
    requires IsCode(ctx) && IsCode(f)
    ensures Run(kb, true, ctx + " " + f + " <GO>")
         == Shown(Resolve(kb, Command(Some(ctx), f)), Drawn(Resolve(kb, Command(Some(ctx), f))))
  {
    var s := ctx + " " + f;
    CodeHasNoBracket(ctx);
    CodesJoined(ctx, f);
    NoSentinelWithoutBracket(s);
    ParseTwoTokens(ctx, f);
    RunTyped(kb, s, Command(Some(ctx), f));
  }

  /** The same with a context of two tokens, which the parser rejoins with one
      space. */
  lemma RunUnderLongContext(kb: map<string, Descriptor>, a: string, b: string, f: string)
    requires IsCode(a) && IsCode(b) && IsCode(f)
    ensures Run(kb, true, a + " " + b + " " + f + " <GO>")
         == Shown(Resolve(kb, Command(Some(a + " " + b), f)),
                  Drawn(Resolve(kb, Command(Some(a + " " + b), f))))
  {
    var s := a + " " + b + " " + f;
    CodeHasNoBracket(a);
    CodesJoined(a, b);
    CodesJoined(a + " " + b, f);
    NoSentinelWithoutBracket(s);
    CodeHasNoBracket(b);
    CodeHasNoBracket(f);
    ParseThreeTokens(a, b, f);
    RunTyped(kb, s, Command(Some(a + " " + b), f));
  }

  /** A command with no tokens left crashes the run at `parts[-1]`. */
  lemma RunBlank(kb: map<string, Descriptor>, command: string)
    requires command != []
    requires forall i :: 0 <= i < |command| ==> IsSpace(command[i])
    ensures Run(kb, true, command) == Crashed
  {
    BlankIsUpper(command);
    ParseBlank(command);
    RunFailed(kb, command);
  }

  lemma BlankIsUpper(s: string)
    requires forall i :: 0 <= i < |s| ==> IsSpace(s[i])
    ensures Upper(s) == s
  {
    assert NoLower(s);
    UpperOfNoLower(s);
  }

  /** A command that does not parse, once upper-cased, crashes the run. */
  lemma RunFailed(kb: map<string, Descriptor>, command: string)
    requires command != []
    requires Parse(Upper(command)).Failure?
    ensures Run(kb, true, command) == Crashed
  {
  }

  /** A command that upper-cases to sentinels alone crashes the run. */
  lemma RunSentinelsOnly(kb: map<string, Descriptor>, command: string, n: nat)
    requires command != []
    requires Upper(command) == Sentinels(n)
    ensures Run(kb, true, command) == Crashed
  {
    ParseSentinelsOnly(n);
    RunFailed(kb, command);
  }

  /** With `FUNCTION_KB`: every documented code is reachable. */
  lemma ExecuteDocumented(ctx: string, f: string)
    requires IsCode(ctx) && f in Kb()
    ensures Execute(true, ctx + " " + f + " <GO>")
         == Shown(Documented(ctx, f, Kb()[f], Kb()[f].chart), FigureFor(Kb()[f].chart))
  {
    KbWellFormed();
    RunDocumented(Kb(), ctx, f);
  }

  // ---------------------------------------------------------------------------
  // Worked commands
  // ---------------------------------------------------------------------------

  /** The command the input box suggests: a two-token context, a documented
      function with the credit-curve chart and its fixed sample curve. */
  lemma ExampleIbmUsNia()
    ensures "NIA" in Kb()
    ensures Execute(true, "IBM US NIA <GO>")
         == Shown(Documented("IBM US", "NIA", Kb()["NIA"], CreditCurve),
                  Some(CurvePlot([1, 3, 5, 7, 10], [120, 140, 160, 180, 200])))
  {
    IbmUsNiaText();
    RunUnderLongContext(Kb(), "IBM", "US", "NIA");
    IbmUsNiaResolved();
  }

  lemma IbmUsNiaText()
    ensures IsCode("IBM") && IsCode("US") && IsCode("NIA")
    ensures "IBM US NIA <GO>" == "IBM" + " " + "US" + " " + "NIA" + " <GO>"
    ensures "IBM US" == "IBM" + " " + "US"
  {
  }

  lemma IbmUsNiaResolved()
    ensures "NIA" in Kb()
    ensures Resolve(Kb(), Command(Some("IBM US"), "NIA"))
         == Documented("IBM US", "NIA", Kb()["NIA"], CreditCurve)
    ensures Drawn(Documented("IBM US", "NIA", Kb()["NIA"], CreditCurve))
         == Some(CurvePlot([1, 3, 5, 7, 10], [120, 140, 160, 180, 200]))
  {
    KbNia();
  }

  /** A code the table does not hold, under a context. */
  lemma ExampleUndocumented()
    ensures Execute(true, "IBM ZZZZ <GO>") == Shown(Undocumented("IBM", "ZZZZ"), None)
  {
    IbmZzzzText();
    KbLacksUnwritten();
    RunUndocumented(Kb(), "IBM", "ZZZZ");
  }

  lemma IbmZzzzText()
    ensures IsCode("IBM") && IsCode("ZZZZ")
    ensures "IBM ZZZZ <GO>" == "IBM" + " " + "ZZZZ" + " <GO>"
  {
  }

  /** TOP is documented, yet typed alone it is a global function. */
  lemma ExampleGlobalTop()
    ensures "TOP" in Kb()
    ensures Execute(true, "TOP <GO>") == Shown(Global("TOP"), None)
  {
    KbTop();
    TopText();
    RunGlobal(Kb(), "TOP");
  }

  lemma TopText()
    ensures IsCode("TOP")
    ensures "TOP <GO>" == "TOP" + " <GO>"
  {
  }

  /** In lower case, RRG resolves to its second entry and draws the quadrant. */
  lemma ExampleRrg()
    ensures Execute(true, "spx rrg <go>")
         == Shown(Documented("SPX", "RRG", Entries[22].1, RrgQuadrant),
                  Some(RotationPlot("Relative Rotation Graph (Pedagogical)")))
  {
    RrgText();
    RunCaseInsensitive(Kb(), true, "spx rrg <go>", "SPX RRG <GO>");
    RrgSecondWins();
    RunDocumented(Kb(), "SPX", "RRG");
  }

  lemma RrgText()
    ensures Upper("spx rrg <go>") == Upper("SPX RRG <GO>")
    ensures IsCode("SPX") && IsCode("RRG")
    ensures "SPX RRG <GO>" == "SPX" + " " + "RRG" + " <GO>"
    ensures FigureFor(RrgQuadrant) == Some(RotationPlot("Relative Rotation Graph (Pedagogical)"))
  {
  }

  /** Without a click, or with an empty box, nothing is shown. */
  lemma ExampleIdle()
    ensures Execute(false, "IBM US NIA <GO>") == Idle
    ensures Execute(true, "") == Idle
  {
  }

  /** Blank input reaches `parts[-1]` with no tokens and crashes. */
  lemma ExampleBlank()
    ensures Execute(true, " \t ") == Crashed
  {
    BlankText();
    RunBlank(Kb(), " \t ");
  }

  lemma BlankText()
    ensures forall i :: 0 <= i < |" \t "| ==> IsSpace(" \t "[i])
  {
  }

  /** So does input made only of sentinels, in any letter case. */
  lemma ExampleSentinelsOnly()
    ensures Execute(true, "<go>") == Crashed
    ensures Execute(true, "<GO><gO>") == Crashed
  {
    SentinelsText();
    RunSentinelsOnly(Kb(), "<go>", 1);
    RunSentinelsOnly(Kb(), "<GO><gO>", 2);
  }

  lemma SentinelsText()
    ensures Upper("<go>") == Sentinels(1)
    ensures Upper("<GO><gO>") == Sentinels(2)
  {
  }
}
