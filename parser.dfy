/** The command parser `parse_command` (app.py:417-421): a command line such as
    `IBM US NIA <GO>` becomes an optional context (`IBM US`) and a function code
    (`NIA`). */
module Parser {
  import opened Wrappers
  import opened Text

  /** A parsed command. A missing context is a global function. */
  datatype Command = Command(context: Option<string>, code: string)

  /** The parser has no branch for a command without tokens: `parts[-1]` on the
      empty list raises `IndexError`. */
  datatype ParseError = NoTokens

  /** The token list `parse_command` works on:
      `cmd.replace("<GO>", "").strip().split()`. */
  function Tokens(cmd: string): seq<string> {
    Split(Strip(RemoveGo(cmd)))
  }

  /** The canonical text of a command: the context, one space and the function
      code, or the function code alone for a global function. */
  function Render(c: Command): string {
    match c.context
    case None => c.code
    case Some(ctx) => ctx + " " + c.code
  }

  /** `parse_command(cmd)`. It fails exactly when nothing but whitespace is left
      once the sentinels are removed. On success the function code is one token,
      the context has no leading, trailing or doubled whitespace, and the
      canonical text splits into exactly the tokens of the input. */
  function Parse(cmd: string): (r: Result<Command, ParseError>)
    ensures r.Failure? <==> forall i :: 0 <= i < |RemoveGo(cmd)| ==> IsSpace(RemoveGo(cmd)[i])
    ensures r.Success? ==> IsToken(r.value.code)
    ensures r.Success? && r.value.context.Some? ==> Canonical(r.value.context.value)
    ensures r.Success? ==> Split(Render(r.value)) == Tokens(cmd)
  {
    var parts := Tokens(cmd);
    TokensEmpty(cmd);
    if |parts| == 0 then
      Failure(NoTokens)
    else if |parts| == 1 then
      SplitToken(parts[0]);
      Success(Command(None, parts[0]))
    else
      SplitJoin(parts);
      Success(Command(Some(Join(parts[..|parts| - 1])), parts[|parts| - 1]))
  }

  lemma TokensEmpty(cmd: string)
    ensures Tokens(cmd) == [] <==> forall i :: 0 <= i < |RemoveGo(cmd)| ==> IsSpace(RemoveGo(cmd)[i])
  {
    var x := RemoveGo(cmd);
    SplitStrip(x);
    SplitEmpty(x);
    assert Tokens(cmd) == Split(x);
    if Tokens(cmd) == [] {
      assert forall i :: 0 <= i < |x| ==> IsSpace(x[i]);
    } else {
      var i :| 0 <= i < |x| && !IsSpace(x[i]);
      assert !IsSpace(RemoveGo(cmd)[i]);
    }
  }

  /** A successful parse leaves some non-whitespace character behind. */
  lemma ParseLeavesText(cmd: string)
    requires Parse(cmd).Success?
    ensures exists i :: 0 <= i < |RemoveGo(cmd)| && !IsSpace(RemoveGo(cmd)[i])
  {
  }

  /** One token is a global function; with more, the function code is the last
      token and the context splits back into all the tokens before it, in their
      original order. */
  lemma ParseFields(cmd: string)
    requires Parse(cmd).Success?
    ensures var parts, c := Tokens(cmd), Parse(cmd).value;
            && parts != []
            && c.code == parts[|parts| - 1]
            && (c.context.None? <==> |parts| == 1)
            && (c.context.Some? ==> Split(c.context.value) == parts[..|parts| - 1])
  {
    var parts := Tokens(cmd);
    if |parts| > 1 {
      var init := parts[..|parts| - 1];
      assert Parse(cmd).value.context == Some(Join(init));
      SplitJoin(init);
    }
  }

  /** A command made only of whitespace has no tokens, so parsing it fails. */
  lemma ParseBlank(cmd: string)
    requires forall i :: 0 <= i < |cmd| ==> IsSpace(cmd[i])
    ensures Parse(cmd) == Failure(NoTokens)
  {
    forall i | 0 <= i <= |cmd| - 4 ensures !SentinelAt(cmd, i) {
      assert cmd[i..i + 4][0] == cmd[i];
    }
    RemoveGoUnchanged(cmd);
  }

  /** `n` sentinels in a row: nothing is left, so parsing fails. */
  function Sentinels(n: nat): string {
    if n == 0 then [] else Sentinel + Sentinels(n - 1)
  }

  lemma {:induction false} RemoveGoSentinels(n: nat)
    ensures RemoveGo(Sentinels(n)) == []
  {
    if n > 0 {
      var s := Sentinels(n);
      assert s[..4] == Sentinel;
      assert s[4..] == Sentinels(n - 1);
      RemoveGoSentinels(n - 1);
    }
  }

  lemma ParseSentinelsOnly(n: nat)
    ensures Parse(Sentinels(n)) == Failure(NoTokens)
  {
    RemoveGoSentinels(n);
  }

  /** A sentinel at the end, with or without a space before it, changes nothing. */
  lemma ParseTrailingSentinel(cmd: string)
    ensures Parse(cmd + Sentinel) == Parse(cmd)
    ensures Parse(cmd + " " + Sentinel) == Parse(cmd)
  {
    RemoveGoTrailingSentinel(cmd);
    ParseSameTokens(cmd + Sentinel, cmd);
    ParseSpacedSentinel(cmd);
  }

  lemma ParseSpacedSentinel(cmd: string)
    ensures Parse(cmd + " " + Sentinel) == Parse(cmd)
  {
    RemoveGoTrailingSentinel(cmd);
    var x := RemoveGo(cmd);
    SplitStrip(x + [' '] + []);
    SplitAtSpace(x, ' ', []);
    SplitStrip(x);
    assert Tokens(cmd + " " + Sentinel) == Tokens(cmd);
    ParseSameTokens(cmd + " " + Sentinel, cmd);
  }

  /** The parse depends on the tokens alone. */
  lemma ParseSameTokens(a: string, b: string)
    requires Tokens(a) == Tokens(b)
    ensures Parse(a) == Parse(b)
  {
  }

  lemma RemoveGoTrailingSentinel(cmd: string)
    ensures RemoveGo(cmd + Sentinel) == RemoveGo(cmd)
    ensures RemoveGo(cmd + " " + Sentinel) == RemoveGo(cmd) + [' '] + []
  {
    RemoveGoAppend(cmd, Sentinel);
    assert RemoveGo(Sentinel) == [];
    var spaced := " " + Sentinel;
    assert cmd + " " + Sentinel == cmd + spaced;
    RemoveGoAppend(cmd, spaced);
    assert spaced[1..] == Sentinel;
    assert RemoveGo(spaced) == " ";
  }

  /** Single-pass removal: the sentinel that appears once an inner one is
      removed is kept and becomes the function code. */
  lemma ParseNestedSentinel()
    ensures Parse("<<GO>GO>") == Success(Command(None, Sentinel))
  {
    NestedRemoval();
    ParseLeavingSentinel("<<GO>GO>");
  }

  lemma NestedRemoval()
    ensures RemoveGo("<<GO>GO>") == Sentinel
  {
    var s := "<<GO>GO>";
    assert s[..4][1] != Sentinel[1];
    assert s[1..][..4] == Sentinel;
    assert s[1..][4..] == "GO>";
    assert RemoveGo("GO>") == "GO>" by {
      RemoveGoUnchanged("GO>");
    }
  }

  lemma ParseLeavingSentinel(cmd: string)
    requires RemoveGo(cmd) == Sentinel
    ensures Parse(cmd) == Success(Command(None, Sentinel))
  {
    assert DropSpace(Sentinel) == Sentinel;
    assert TrimRight(Sentinel) == Sentinel;
    SplitToken(Sentinel);
  }

  /** The sentinel alone parses to nothing. */
  lemma ParseSentinelFails()
    ensures Parse(Sentinel) == Failure(NoTokens)
  {
    assert Sentinels(1) == Sentinel;
    ParseSentinelsOnly(1);
  }

  /** Parsing the canonical text of a parsed command gives the command back,
      provided that text holds no sentinel (which a second pass would remove). */
  lemma ReparseCanonical(cmd: string)
    requires Parse(cmd).Success?
    requires !ContainsSentinel(Render(Parse(cmd).value))
    ensures Parse(Render(Parse(cmd).value)) == Parse(cmd)
  {
    var s := Render(Parse(cmd).value);
    RemoveGoUnchanged(s);
    SplitStrip(s);
    assert Tokens(s) == Tokens(cmd);
  }

  /** Without that proviso the round trip fails: `<<GO>GO>` parses to the
      function code `<GO>`, whose own text parses to nothing. */
  lemma ReparseNestedSentinel()
    ensures Parse("<<GO>GO>").Success?
    ensures Parse(Render(Parse("<<GO>GO>").value)).Failure?
  {
    ParseNestedSentinel();
    ParseSentinelFails();
  }

  lemma {:induction false} JoinNoLower(toks: seq<string>)
    requires forall k :: 0 <= k < |toks| ==> NoLower(toks[k])
    ensures NoLower(Join(toks))
  {
    if |toks| > 1 {
      JoinNoLower(toks[..|toks| - 1]);
    }
  }

  /** Parsing upper-case text gives an upper-case context and function code. */
  lemma ParseNoLower(cmd: string)
    requires NoLower(cmd)
    requires Parse(cmd).Success?
    ensures NoLower(Parse(cmd).value.code)
    ensures Parse(cmd).value.context.Some? ==> NoLower(Parse(cmd).value.context.value)
  {
    RemoveGoNoLower(cmd);
    StripNoLower(RemoveGo(cmd));
    SplitNoLower(Strip(RemoveGo(cmd)));
    var parts := Tokens(cmd);
    if |parts| > 1 {
      JoinNoLower(parts[..|parts| - 1]);
    }
  }

  /** A single token without a sentinel is a global function. */
  lemma ParseOneToken(f: string)
    requires IsToken(f) && !ContainsSentinel(f)
    ensures Parse(f) == Success(Command(None, f))
  {
    RemoveGoUnchanged(f);
    SplitStrip(f);
    SplitToken(f);
  }

  /** Two tokens without a sentinel are a context and a function code. */
  lemma ParseTwoTokens(ctx: string, f: string)
    requires IsToken(ctx) && IsToken(f) && !ContainsSentinel(ctx + " " + f)
    ensures Parse(ctx + " " + f) == Success(Command(Some(ctx), f))
  {
    var s := ctx + " " + f;
    RemoveGoUnchanged(s);
    SplitStrip(s);
    SplitAtSpace(ctx, ' ', f);
    SplitToken(ctx);
    SplitToken(f);
    assert Tokens(s) == [ctx, f];
    assert Join([ctx]) == ctx;
  }

  /** Three tokens without a sentinel: the first two, rejoined by one space,
      are the context and the last is the function code. */
  lemma ParseThreeTokens(a: string, b: string, f: string)
    requires IsToken(a) && IsToken(b) && IsToken(f)
    requires !ContainsSentinel(a + " " + b + " " + f)
    ensures Parse(a + " " + b + " " + f) == Success(Command(Some(a + " " + b), f))
  {
    var s := a + " " + b + " " + f;
    TokensWithoutSentinel(s);
    SplitThree(a, b, f);
    var parts := [a, b, f];
    assert parts[..2] == [a, b];
    JoinTwo(a, b);
  }

  lemma TokensWithoutSentinel(s: string)
    requires !ContainsSentinel(s)
    ensures Tokens(s) == Split(s)
  {
    RemoveGoUnchanged(s);
    SplitStrip(s);
  }

  lemma SplitThree(a: string, b: string, f: string)
    requires IsToken(a) && IsToken(b) && IsToken(f)
    ensures Split(a + " " + b + " " + f) == [a, b, f]
  {
    assert a + " " + b + " " + f == a + [' '] + (b + [' '] + f);
    SplitAtSpace(a, ' ', b + [' '] + f);
    SplitAtSpace(b, ' ', f);
    SplitToken(a);
    SplitToken(b);
    SplitToken(f);
  }

  lemma JoinTwo(a: string, b: string)
    ensures Join([a, b]) == a + " " + b
  {
    assert [a, b][..1] == [a];
  }
}
