# Bloomberg command-line simulator: parser, function table and resolution

This project is a Dafny model of the logic behind the "Bloomberg Terminal
Simulator", a single Streamlit page (`app.py`). A user types a command such as
`IBM US NIA <GO>` and presses EXECUTE. The page then does four things:

- it upper-cases the command and removes the `<GO>` sentinels;
- it splits the rest into an optional context (`IBM US`) and a function code
  (`NIA`);
- it looks the code up in the fixed table `FUNCTION_KB`;
- it shows one of three panels: a global function, a documented function with
  its descriptor and at most one illustrative chart, or a function that is
  "recognized but not documented".

The model is pure, like the source: datatypes, functions and lemmas.

| file | module | models |
|---|---|---|
| `wrappers.dfy` | `Wrappers` | `Option` and `Result` |
| `text.dfy` | `Text` | `str.upper()`, `str.replace("<GO>", "")`, `strip()`, `split()` and `" ".join()` on ASCII text |
| `parser.dfy` | `Parser` | `parse_command` |
| `knowledge_base.dfy` | `KnowledgeBase` | the `FUNCTION_KB` dict literal, built as a last-wins fold over its entries in source order |
| `resolver.dfy` | `Resolver` | the context / table branches of the main block, and the chart dispatch |
| `app.dfy` | `App` | the whole request `if execute and command: ...`, and worked commands |

Semantics chosen where Python's behaviour is wider than the model:

- **Whitespace** is what `str.isspace` accepts among ASCII characters: the
  space, U+0009 to U+000D and U+001C to U+001F.
- **Upper-casing** maps `a`-`z` to `A`-`Z` and leaves every other character
  alone.
- **Sentinel removal** is a single left-to-right pass that does not overlap,
  as Python's `replace` is. A sentinel that only appears once an inner one is
  removed is kept: `<<GO>GO>` becomes `<GO>`.
- **No tokens.** When nothing but whitespace is left, `parts[-1]` raises
  `IndexError`. `Parse` returns `Failure(NoTokens)` for this case, and the
  page's screen is `Crashed`.
- **Button or empty box.** Without a click, or with an empty command box, the
  page shows nothing (`Idle`), because of the guard `if execute and command`.
- **Upper-casing comes first.** One description of the system lists the steps
  as: remove `<GO>`, strip, then upper-case. The code upper-cases the whole
  command first (app.py:428) and only then removes sentinels. The model
  follows the code, so `<go>` in any letter case is removed as well.
- **Round trip.** The design claims that parsing the canonical text
  `context + " " + function` of a parse gives the same function code back.
  That holds only when the canonical text contains no `<GO>` itself
  (`Parser.ReparseCanonical`). `Parser.ReparseNestedSentinel` proves the
  exception: `<<GO>GO>` parses to the function code `<GO>`, and `<GO>` parses
  to nothing.

## Model

| member | source | states |
|---|---|---|
| Text.Upper | app.py:428 | `command.upper()` keeps the length, leaves no lower-case letter, maps each lower-case letter to its capital and leaves every other character unchanged |
| Text.UpperAppend | app.py:428 | upper-casing works character by character, so upper-casing a concatenation is the concatenation of the upper-cased parts |
| Text.UpperOfNoLower | app.py:428 | text without lower-case letters is left unchanged by upper-casing |
| Text.RemoveGo | app.py:418 | `replace("<GO>", "")` never makes text longer and introduces no character that was not already there |
| Text.RemoveGoUnchanged | app.py:418 | removal leaves text unchanged if and only if it contains no `<GO>` |
| Text.RemoveGoShrinks | app.py:418 | text that contains a `<GO>` gets strictly shorter |
| Text.RemoveGoAppend | app.py:418 | removal works piecewise across a join when the second piece does not start with `G`, `O` or `>`, because no occurrence can straddle the join |
| Text.NoSentinelWithoutBracket | app.py:418 | text without a `<` contains no sentinel |
| Text.DropSpaceSpec | app.py:418 | the left half of `strip()` keeps the suffix from the first non-whitespace character and drops only whitespace |
| Text.TrimRightSpec | app.py:418 | the right half of `strip()` keeps the prefix up to the last non-whitespace character and drops only whitespace |
| Text.StripSpec | app.py:418 | `strip()` keeps the stretch between the leading and the trailing whitespace; the result neither starts nor ends with whitespace |
| Text.WordSpec | app.py:418 | a token read by `split()` is a prefix that stops at whitespace or at the end |
| Text.Split | app.py:418 | every token `split()` returns is non-empty and free of whitespace |
| Text.SplitEmpty | app.py:418 | `split()` returns no tokens if and only if the text is all whitespace |
| Text.SplitAtSpace | app.py:418 | a whitespace character separates tokens: the two sides split independently and their tokens are concatenated |
| Text.SplitAfterBlank | app.py:418 | leading text without tokens does not change the tokens |
| Text.SplitToken | app.py:418 | a single token splits into exactly itself |
| Text.SplitTrimRight | app.py:418 | trailing whitespace makes no token |
| Text.SplitStrip | app.py:418 | `strip()` before `split()` changes no token |
| Text.Join | app.py:421 | `" ".join` of one or more tokens has no leading, trailing or doubled whitespace, and every gap is one space |
| Text.SplitJoin | app.py:418-421 | splitting undoes `" ".join`: the tokens come back unchanged and in order |
| Text.RemoveGoNoLower | app.py:418 | removing sentinels from upper-case text leaves upper-case text |
| Text.StripNoLower | app.py:418 | stripping upper-case text leaves upper-case text |
| Text.SplitNoLower | app.py:418 | every token of upper-case text is upper-case |
| Parser.Parse | app.py:417-421 | `parse_command` fails exactly when nothing but whitespace remains after sentinel removal; on success the code is one token, the context has no leading, trailing or doubled whitespace, and context and code split back into exactly the input's tokens |
| Parser.TokensEmpty | app.py:418 | the token list is empty if and only if nothing but whitespace remains after sentinel removal |
| Parser.ParseLeavesText | app.py:418-421 | a successful parse leaves some non-whitespace character after sentinel removal |
| Parser.ParseFields | app.py:419-421 | the code is the last token; the context is absent exactly when there is one token; otherwise the context splits into all the earlier tokens, in their original order |
| Parser.ParseSameTokens | app.py:418-421 | the result depends on the token list alone, so any input spacing gives the same parse |
| Parser.ParseOneToken | app.py:419-420 | a single token without a sentinel parses to no context and that token |
| Parser.ParseTwoTokens | app.py:421 | two tokens parse to the first as context and the second as code |
| Parser.ParseThreeTokens | app.py:421 | three tokens parse to the first two joined by one space as context, and the last as code |
| Parser.ParseBlank | app.py:418-421 | whitespace-only input has no tokens, so parsing fails |
| Parser.ParseSentinelsOnly | app.py:418-421 | input made only of sentinels has no tokens, so parsing fails |
| Parser.ParseSentinelFails | app.py:418-421 | the sentinel alone parses to nothing |
| Parser.ParseTrailingSentinel | app.py:418 | appending a sentinel, with or without a space before it, does not change the parse |
| Parser.ParseSpacedSentinel | app.py:418 | appending a space and a sentinel does not change the parse |
| Parser.NestedRemoval | app.py:418 | single-pass removal turns `<<GO>GO>` into `<GO>` |
| Parser.ParseNestedSentinel | app.py:418-420 | `<<GO>GO>` parses to no context and the function code `<GO>` |
| Parser.ReparseCanonical | app.py:418-421 | parsing the canonical text of a parse gives the same parse, provided that text holds no sentinel |
| Parser.ReparseNestedSentinel | app.py:418-421 | without that proviso the round trip fails: `<<GO>GO>` parses, its canonical text `<GO>` does not |
| Parser.JoinNoLower | app.py:421 | joining upper-case tokens gives upper-case text |
| Parser.ParseNoLower | app.py:418-421 | parsing upper-case text gives an upper-case context and function code |
| KnowledgeBase.Placeholder | app.py:15-26 | each stand-in descriptor has every text present, the number of misuse cases of its entry, and its chart tag |
| KnowledgeBase.BuildSpec | app.py:13-366 | the dict literal's keys are exactly the keys written, and each value is one written with its key |
| KnowledgeBase.BuildLastWins | app.py:13-366 | the last entry written for a key is the one the dict holds |
| KnowledgeBase.BuildOmits | app.py:13-366 | a key that no entry writes is not in the dict |
| KnowledgeBase.EntriesWellFormed | app.py:13-366 | every entry is keyed by an upper-case code and has all its texts and a non-empty misuse list |
| KnowledgeBase.KbWellFormed | app.py:13-366 | every key of `FUNCTION_KB` is an upper-case code, and every descriptor has all its texts and a non-empty list of misuse cases |
| KnowledgeBase.KbNia | app.py:28-39 | NIA is in the table with the `credit_curve` chart |
| KnowledgeBase.KbTop | app.py:326-337 | TOP is in the table with no chart |
| KnowledgeBase.KbCaseSensitive | app.py:443 | lookup is exact: lower-case `nia` is not a key |
| KnowledgeBase.KbLacksUnwritten | app.py:443 | a code no entry writes, such as ZZZZ, is not a key |
| KnowledgeBase.OnlyRrgRepeated | app.py:13-366 | the two RRG entries are the only pair of entries that share a key |
| KnowledgeBase.RrgWrittenLast | app.py:300-366 | no entry after the second RRG entry writes RRG |
| KnowledgeBase.RrgSecondWins | app.py:209-311 | RRG resolves to its second entry, with the `rrg_quadrant` chart, and the first entry is unreachable |
| Resolver.Resolve | app.py:434-512 | the code is echoed; no context gives a global plan; otherwise the context is echoed and the plan is documented if and only if the code is a key, with the table's descriptor and chart tag taken verbatim |
| Resolver.GlobalIgnoresKb | app.py:434-437 | a global function never consults the table: any two tables give the same plan |
| Resolver.FigureFor | app.py:468-508 | tag None draws nothing; each of the six other tags draws exactly one figure of that tag, with increasing x-values and one y-value per x-value |
| Resolver.FigureForInjective | app.py:468-508 | distinct tags draw distinct figures, so each branch is reached by one tag only |
| Resolver.Drawn | app.py:443-508 | a figure is drawn if and only if the plan is documented and its tag is not None, and the figure is of that tag |
| App.Run | app.py:426-512 | the page shows nothing unless the button was pressed with a non-empty command; it crashes exactly when only whitespace is left once the upper-cased command loses its sentinels; otherwise the code shown is one upper-case token and the figure is the one the plan's tag selects |
| App.RunSameParse | app.py:426-428 | two non-empty commands that parse alike once upper-cased give the same screen |
| App.RunCaseInsensitive | app.py:428 | commands that upper-case alike give the same screen |
| App.RunTrailingGo | app.py:418-428 | a trailing `<go>` in any letter case, with or without a space before it, changes nothing |
| App.RunParsed | app.py:426-443 | a command that parses once upper-cased shows the plan it resolves to, with that plan's figure |
| App.RunFailed | app.py:421-428 | a command that does not parse once upper-cased crashes the run |
| App.RunTyped | app.py:418-443 | upper-case text followed by ` <GO>` runs the command the text parses to |
| App.RunGlobal | app.py:434-437 | a code typed alone is a global function whatever the table holds, and nothing is drawn |
| App.RunDocumented | app.py:443-508 | a code that the table holds, under a context, shows its descriptor and the figure of its chart tag |
| App.RunUndocumented | app.py:511-512 | a code that the table does not hold, under a context, is recognized but not documented, and nothing is drawn |
| App.RunUnderContext | app.py:439-443 | `CTX CODE <GO>` resolves the code under the context |
| App.RunUnderLongContext | app.py:421-443 | `A B CODE <GO>` resolves the code under the context `A B` |
| App.RunBlank | app.py:421-428 | a non-empty whitespace-only command crashes the run |
| App.RunSentinelsOnly | app.py:418-428 | a command that upper-cases to sentinels alone crashes the run |
| App.ExecuteDocumented | app.py:443-508 | with `FUNCTION_KB`, every documented code is reachable under a context and shows its own descriptor and chart |
| App.ExampleIbmUsNia | app.py:407-473 | the suggested command `IBM US NIA <GO>` shows NIA under the context `IBM US`, with the credit-curve figure |
| App.ExampleUndocumented | app.py:511-512 | `IBM ZZZZ <GO>` is recognized but not documented |
| App.ExampleGlobalTop | app.py:434-437 | `TOP <GO>` is a global function although TOP is documented |
| App.ExampleRrg | app.py:495-501 | lower-case `spx rrg <go>` shows the second RRG entry and the rotation graph |
| App.ExampleIdle | app.py:426 | without a click, or with an empty box, nothing is shown |
| App.ExampleBlank | app.py:421 | blank input crashes at `parts[-1]` |
| App.ExampleSentinelsOnly | app.py:418-421 | `<go>` and `<GO><gO>` crash at `parts[-1]` |

## Left out

- Page configuration, CSS, header, text input, button, sidebar and footer
  markup (app.py:371-412, 514-535) are not modelled. They only render. The
  text box and the button become the `command` and `clicked` arguments of
  `App.Run`.
- The `st.markdown` calls that print the plan (app.py:430-465) are not
  modelled. They are display only; the `Plan` value carries everything they
  print. The loop at app.py:464 prints one line per misuse case and updates
  nothing.
- Matplotlib and `st.pyplot` are not modelled. A `Figure` records only what
  a branch would plot.
- `Resolver.FigureFor` does not model the random series at app.py:478 and
  app.py:504, the floating-point PD values at app.py:483, or the scatter
  points at app.py:499. Only the fixed integer data and the titles are kept.
- `KnowledgeBase.Placeholder` stands in for the Spanish descriptor texts. It
  keeps each entry's key, its number of misuse cases and its chart tag, but
  not the prose.
- `Text.Upper` and `Text.Split` do not model Unicode. Upper-casing covers
  ASCII letters only, and whitespace is the ASCII set above.
- `Parser.ReparseCanonical` is weaker than the round trip the design states:
  it requires the canonical text to contain no `<GO>`, because a nested
  sentinel breaks the round trip (`Parser.ReparseNestedSentinel`).
- The `Documented` plan carries the chart tag beside the descriptor, although
  the descriptor also holds it. This follows the shape of the plan the page
  renders. `Resolver.Resolve` proves that the two agree.
