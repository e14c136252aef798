/** The string operations the command parser is built from: Python's `str.upper`,
    `str.replace("<GO>", "")`, `str.strip()`, `str.split()` and `" ".join`, restricted
    to the ASCII range (letters are mapped only in `a`..`z`, whitespace is the ASCII
    part of `str.isspace`). */
module Text {

  /** Python's `str.isspace` on ASCII: tab, line feed, vertical tab, form feed,
      carriage return, the four information separators and space. */
  predicate IsSpace(c: char) {
    c == ' ' || ('\U{9}' <= c <= '\U{D}') || ('\U{1C}' <= c <= '\U{1F}')
  }

  predicate IsLower(c: char) {
    'a' <= c <= 'z'
  }

  /** No lower-case ASCII letter anywhere in `s`. */
  predicate NoLower(s: string) {
    forall i :: 0 <= i < |s| ==> !IsLower(s[i])
  }

  /** A token of `str.split()`: non-empty and free of whitespace. */
  predicate IsToken(w: string) {
    w != [] && forall i :: 0 <= i < |w| ==> !IsSpace(w[i])
  }

  /** The shape of `" ".join(tokens)` for at least one token: no leading, trailing
      or doubled whitespace, and every separator a single space. */
  predicate Canonical(s: string) {
    && s != []
    && !IsSpace(s[0])
    && !IsSpace(s[|s| - 1])
    && forall i :: 0 <= i < |s| - 1 && IsSpace(s[i]) ==> s[i] == ' ' && !IsSpace(s[i + 1])
  }

  // ---------------------------------------------------------------------------
  // Upper-casing
  // ---------------------------------------------------------------------------

  function UpperChar(c: char): char {
    if IsLower(c) then (c as int - 32) as char else c
  }

  /** `s.upper()`: every ASCII lower-case letter becomes its capital, everything
      else is kept, and the length does not change. */
  function Upper(s: string): (r: string)
    ensures |r| == |s|
    ensures NoLower(r)
    ensures forall i :: 0 <= i < |s| && !IsLower(s[i]) ==> r[i] == s[i]
    ensures forall i :: 0 <= i < |s| && IsLower(s[i]) ==> r[i] as int == s[i] as int - 32
  {
    seq(|s|, i requires 0 <= i < |s| => UpperChar(s[i]))
  }

  /** Upper-casing is the identity on text that has no lower-case letter; in
      particular it is idempotent. */
  lemma UpperOfNoLower(s: string)
    requires NoLower(s)
    ensures Upper(s) == s
  {
  }

  lemma UpperAppend(a: string, b: string)
    ensures Upper(a + b) == Upper(a) + Upper(b)
  {
    assert forall i :: 0 <= i < |a + b| ==> Upper(a + b)[i] == (Upper(a) + Upper(b))[i];
  }

  // ---------------------------------------------------------------------------
  // Removing the <GO> sentinel
  // ---------------------------------------------------------------------------

  const Sentinel: string := "<GO>"

  predicate SentinelAt(s: string, i: int) {
    0 <= i && i + 4 <= |s| && s[i..i + 4] == Sentinel
  }

  predicate ContainsSentinel(s: string) {
    exists i :: 0 <= i <= |s| - 4 && SentinelAt(s, i)
  }

  /** `s.replace("<GO>", "")`: scanning from the left, each occurrence of the
      sentinel is dropped and the scan resumes after it, so occurrences never
      overlap and text that only becomes a sentinel after a removal stays. The
      result is never longer than `s` and holds only characters of `s`. */
  function RemoveGo(s: string): (r: string)
    ensures |r| <= |s|
    ensures forall c :: c in r ==> c in s
  {
    if |s| >= 4 && s[..4] == Sentinel then
      RemoveGo(s[4..])
    else if s == [] then
      []
    else
      [s[0]] + RemoveGo(s[1..])
  }

  /** Removal changes nothing exactly when there is no sentinel to remove. */
  lemma {:induction false} RemoveGoUnchanged(s: string)
    ensures RemoveGo(s) == s <==> !ContainsSentinel(s)
  {
    if ContainsSentinel(s) {
      var i :| SentinelAt(s, i);
      RemoveGoShrinks(s, i);
    } else {
      RemoveGoNoSentinel(s);
    }
  }

  lemma {:induction false} RemoveGoNoSentinel(s: string)
    requires !ContainsSentinel(s)
    ensures RemoveGo(s) == s
  {
    if s != [] {
      assert !SentinelAt(s, 0);
      forall i | SentinelAt(s[1..], i) ensures SentinelAt(s, i + 1) {
        assert s[1..][i..i + 4] == s[i + 1..i + 5];
      }
      RemoveGoNoSentinel(s[1..]);
    }
  }

  lemma {:induction false} RemoveGoShrinks(s: string, i: int)
    requires SentinelAt(s, i)
    ensures |RemoveGo(s)| < |s|
    decreases i
  {
    if |s| >= 4 && s[..4] == Sentinel {
    } else {
      assert i != 0;
      assert s[1..][i - 1..i + 3] == s[i..i + 4];
      RemoveGoShrinks(s[1..], i - 1);
    }
  }

  /** Text without `<` holds no sentinel. */
  lemma NoSentinelWithoutBracket(s: string)
    requires forall i :: 0 <= i < |s| ==> s[i] != '<'
    ensures !ContainsSentinel(s)
  {
    forall i | 0 <= i <= |s| - 4 ensures !SentinelAt(s, i) {
      assert s[i..i + 4][0] == s[i];
    }
  }

  /** The first character of a sentinel cannot be its second, third or fourth, so
      no occurrence can start inside a text and end in a following text that does
      not begin with one of those. Removal then works piecewise. */
  lemma {:induction false} RemoveGoAppend(a: string, b: string)
    requires b == [] || (b[0] != 'G' && b[0] != 'O' && b[0] != '>')
    ensures RemoveGo(a + b) == RemoveGo(a) + RemoveGo(b)
  {
    if a == [] {
      assert a + b == b;
    } else if |a| >= 4 && a[..4] == Sentinel {
      assert (a + b)[..4] == a[..4];
      assert (a + b)[4..] == a[4..] + b;
      RemoveGoAppend(a[4..], b);
    } else {
      if |a + b| >= 4 && |a| < 4 {
        assert (a + b)[|a|] == b[0];
        assert (a + b)[..4][|a|] == b[0];
      } else if |a + b| >= 4 {
        assert (a + b)[..4] == a[..4];
      }
      assert (a + b)[1..] == a[1..] + b;
      RemoveGoAppend(a[1..], b);
    }
  }

  // ---------------------------------------------------------------------------
  // Stripping and splitting on whitespace
  // ---------------------------------------------------------------------------

  /** Drops the leading whitespace (the left half of `strip()`). */
  function DropSpace(s: string): (r: string)
    ensures |r| <= |s|
    ensures r == [] || !IsSpace(r[0])
  {
    if s != [] && IsSpace(s[0]) then DropSpace(s[1..]) else s
  }

  /** What `DropSpace` keeps is the suffix of `s` that starts at its first
      non-whitespace character. */
  lemma {:induction false} DropSpaceSpec(s: string)
    ensures DropSpace(s) == s[|s| - |DropSpace(s)|..]
    ensures forall i :: 0 <= i < |s| - |DropSpace(s)| ==> IsSpace(s[i])
  {
    if s != [] && IsSpace(s[0]) {
      DropSpaceSpec(s[1..]);
    }
  }

  /** Drops the trailing whitespace (the right half of `strip()`). */
  function TrimRight(s: string): (r: string)
    ensures |r| <= |s|
    ensures r == [] || !IsSpace(r[|r| - 1])
  {
    if s != [] && IsSpace(s[|s| - 1]) then TrimRight(s[..|s| - 1]) else s
  }

  /** What `TrimRight` keeps is the prefix of `s` that ends at its last
      non-whitespace character. */
  lemma {:induction false} TrimRightSpec(s: string)
    ensures TrimRight(s) == s[..|TrimRight(s)|]
    ensures forall i :: |TrimRight(s)| <= i < |s| ==> IsSpace(s[i])
  {
    if s != [] && IsSpace(s[|s| - 1]) {
      TrimRightSpec(s[..|s| - 1]);
    }
  }

  /** `s.strip()`. */
  function Strip(s: string): string {
    TrimRight(DropSpace(s))
  }

  /** `strip()` keeps the stretch of `s` between its leading and its trailing
      whitespace, and that stretch neither starts nor ends with whitespace. */
  lemma StripSpec(s: string)
    ensures var r := Strip(s);
            && (r == [] || (!IsSpace(r[0]) && !IsSpace(r[|r| - 1])))
            && exists k :: 0 <= k <= |s| - |r| && r == s[k..][..|r|]
                           && (forall i :: 0 <= i < k ==> IsSpace(s[i]))
                           && (forall i :: k + |r| <= i < |s| ==> IsSpace(s[i]))
  {
    var t := DropSpace(s);
    var r := TrimRight(t);
    DropSpaceSpec(s);
    TrimRightSpec(t);
    if r != [] {
      assert r[0] == t[0];
    }
    var k := |s| - |t|;
    assert r == s[k..][..|r|];
    forall i | k + |r| <= i < |s| ensures IsSpace(s[i]) {
      assert s[i] == t[i - k];
    }
  }

  /** The longest prefix of `s` without whitespace. */
  function Word(s: string): (w: string)
    ensures |w| <= |s|
    ensures forall i :: 0 <= i < |w| ==> !IsSpace(w[i])
    ensures s != [] && !IsSpace(s[0]) ==> w != []
  {
    if s != [] && !IsSpace(s[0]) then [s[0]] + Word(s[1..]) else []
  }

  /** `Word` is a prefix of `s` and stops only at whitespace or at the end. */
  lemma {:induction false} WordSpec(s: string)
    ensures Word(s) == s[..|Word(s)|]
    ensures |Word(s)| == |s| || IsSpace(s[|Word(s)|])
  {
    if s != [] && !IsSpace(s[0]) {
      WordSpec(s[1..]);
    }
  }

  /** `s.split()`: the maximal runs of non-whitespace characters of `s`, in order.
      Every token is non-empty and whitespace-free. */
  function Split(s: string): (toks: seq<string>)
    ensures forall k :: 0 <= k < |toks| ==> IsToken(toks[k])
    decreases |s|
  {
    var t := DropSpace(s);
    if t == [] then
      []
    else
      var w := Word(t);
      [w] + Split(t[|w|..])
  }

  /** `" ".join(toks)`, written from its last element so that dropping the final
      token undoes the last join step. */
  function Join(toks: seq<string>): (r: string)
    ensures (forall k :: 0 <= k < |toks| ==> IsToken(toks[k])) && toks != [] ==> Canonical(r)
  {
    if |toks| == 0 then
      []
    else if |toks| == 1 then
      toks[0]
    else
      var init := Join(toks[..|toks| - 1]);
      var last := toks[|toks| - 1];
      assert forall k :: 0 <= k < |toks| - 1 ==> toks[..|toks| - 1][k] == toks[k];
      init + [' '] + last
  }

  /** Splitting only looks past the leading whitespace. */
  lemma SplitDropSpace(s: string)
    ensures Split(DropSpace(s)) == Split(s)
  {
    assert DropSpace(DropSpace(s)) == DropSpace(s);
  }

  /** A text has no tokens exactly when it is all whitespace. */
  lemma SplitEmpty(s: string)
    ensures Split(s) == [] <==> forall i :: 0 <= i < |s| ==> IsSpace(s[i])
  {
    var t := DropSpace(s);
    DropSpaceSpec(s);
    if t != [] {
      assert t[0] == s[|s| - |t|];
      assert Split(s) != [];
    } else {
      assert Split(s) == [];
    }
  }

  lemma {:induction false} DropSpaceAppend(x: string, y: string)
    ensures DropSpace(x + y) == if DropSpace(x) == [] then DropSpace(y) else DropSpace(x) + y
  {
    if x == [] {
      assert x + y == y;
    } else if IsSpace(x[0]) {
      assert (x + y)[1..] == x[1..] + y;
      DropSpaceAppend(x[1..], y);
    }
  }

  lemma {:induction false} WordBeforeSpace(x: string, c: char, y: string)
    requires IsSpace(c)
    ensures Word(x + [c] + y) == Word(x)
  {
    if x == [] {
      assert x + [c] + y == [c] + y;
    } else if !IsSpace(x[0]) {
      assert (x + [c] + y)[1..] == x[1..] + [c] + y;
      WordBeforeSpace(x[1..], c, y);
    }
  }

  /** Leading text without tokens makes no difference to splitting. */
  lemma SplitAfterBlank(a: string, y: string)
    requires DropSpace(a) == []
    ensures Split(a + y) == Split(y)
  {
    DropSpaceAppend(a, y);
    SplitDropSpace(a + y);
    SplitDropSpace(y);
  }

  /** One step of `Split`: the first word, then the rest. */
  lemma SplitStep(s: string)
    requires DropSpace(s) != []
    ensures Split(s) == [Word(DropSpace(s))] + Split(DropSpace(s)[|Word(DropSpace(s))|..])
  {
  }

  /** A whitespace character separates tokens: splitting around it splits the two
      sides independently. With `SplitToken` and `SplitEmpty` this determines
      `Split` completely. */
  lemma {:induction false} SplitAtSpace(a: string, c: char, b: string)
    requires IsSpace(c)
    ensures Split(a + [c] + b) == Split(a) + Split(b)
    decreases |a|
  {
    var s := a + [c] + b;
    assert s == a + ([c] + b);
    var a' := DropSpace(a);
    if a' == [] {
      SplitAfterBlank(a, [c] + b);
      assert DropSpace([c]) == [];
      SplitAfterBlank([c], b);
      assert Split(a) == [];
    } else {
      DropSpaceAppend(a, [c] + b);
      assert DropSpace(s) == a' + [c] + b;
      WordBeforeSpace(a', c, b);
      var w := Word(a');
      var r := a'[|w|..];
      assert (a' + [c] + b)[|w|..] == r + [c] + b;
      SplitStep(s);
      SplitStep(a);
      SplitAtSpace(r, c, b);
    }
  }

  /** A single token splits into itself. */
  lemma SplitToken(w: string)
    requires IsToken(w)
    ensures Split(w) == [w]
  {
    assert DropSpace(w) == w;
    WordSpec(w);
    var v := Word(w);
    assert |v| == |w|;
    assert v == w;
    assert w[|v|..] == [];
    assert Split([]) == [];
  }

  /** Splitting undoes joining: the tokens come back in order and unchanged. */
  lemma {:induction false} SplitJoin(toks: seq<string>)
    requires forall k :: 0 <= k < |toks| ==> IsToken(toks[k])
    ensures Split(Join(toks)) == toks
  {
    if |toks| == 1 {
      SplitToken(toks[0]);
    } else if |toks| > 1 {
      var init := toks[..|toks| - 1];
      var last := toks[|toks| - 1];
      assert Join(toks) == Join(init) + [' '] + last;
      SplitAtSpace(Join(init), ' ', last);
      SplitJoin(init);
      SplitToken(last);
      assert init + [last] == toks;
    }
  }

  /** Trailing whitespace makes no token. */
  lemma {:induction false} SplitTrimRight(s: string)
    ensures Split(TrimRight(s)) == Split(s)
    decreases |s|
  {
    if s != [] && IsSpace(s[|s| - 1]) {
      var p := s[..|s| - 1];
      assert s == p + [s[|s| - 1]] + [];
      SplitAtSpace(p, s[|s| - 1], []);
      SplitTrimRight(p);
    }
  }

  /** `strip()` before `split()` changes no token. */
  lemma SplitStrip(s: string)
    ensures Split(Strip(s)) == Split(s)
  {
    SplitTrimRight(DropSpace(s));
    SplitDropSpace(s);
  }

  // ---------------------------------------------------------------------------
  // Upper-case text stays upper-case
  // ---------------------------------------------------------------------------

  lemma RemoveGoNoLower(s: string)
    requires NoLower(s)
    ensures NoLower(RemoveGo(s))
  {
    var r := RemoveGo(s);
    forall i | 0 <= i < |r| ensures !IsLower(r[i]) {
      assert r[i] in r;
    }
  }

  lemma StripNoLower(s: string)
    requires NoLower(s)
    ensures NoLower(Strip(s))
  {
    DropSpaceSpec(s);
    TrimRightSpec(DropSpace(s));
  }

  lemma NoLowerSlice(s: string, lo: int, hi: int)
    requires NoLower(s) && 0 <= lo <= hi <= |s|
    ensures NoLower(s[lo..hi])
  {
    forall i | 0 <= i < hi - lo ensures !IsLower(s[lo..hi][i]) {
      assert s[lo..hi][i] == s[lo + i];
    }
  }

  lemma DropSpaceSuffix(s: string)
    ensures 0 <= |s| - |DropSpace(s)| && DropSpace(s) == s[|s| - |DropSpace(s)|..|s|]
  {
    DropSpaceSpec(s);
  }

  lemma WordPrefix(s: string)
    ensures Word(s) == s[0..|Word(s)|]
  {
    WordSpec(s);
  }

  lemma {:induction false} SplitNoLower(s: string)
    requires NoLower(s)
    ensures forall k :: 0 <= k < |Split(s)| ==> NoLower(Split(s)[k])
    decreases |s|
  {
    var t := DropSpace(s);
    DropSpaceSuffix(s);
    NoLowerSlice(s, |s| - |t|, |s|);
    if t != [] {
      var w := Word(t);
      WordPrefix(t);
      var rest := t[|w|..|t|];
      NoLowerSlice(t, 0, |w|);
      NoLowerSlice(t, |w|, |t|);
      SplitNoLower(rest);
      var toks := Split(s);
      assert t[|w|..] == rest;
      assert toks == [w] + Split(rest);
      forall k | 0 <= k < |toks| ensures NoLower(toks[k]) {
        if k > 0 {
          assert toks[k] == Split(rest)[k - 1];
        }
      }
    }
  }
}
