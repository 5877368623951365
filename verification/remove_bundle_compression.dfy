/** The config plugin plugins/removeBundleCompression.js: in the app's
    build.gradle text it removes the first match of
    `\s*enableBundleCompression\s*=\s*.*\r?\n`, with JavaScript's regex
    semantics spelled out: leftmost start, greedy quantifiers, backtracking.
    The matcher is stated for any literal name that does not start with
    white space; the plugin uses `enableBundleCompression`. */
module RemoveBundleCompression {
  import opened Wrappers

  const Setting: string := "enableBundleCompression"

  /** JavaScript's `\s`: the white-space and line-terminator characters. */
  predicate IsSpace(c: char) {
    c == '\t' || c == '\n' || c == '\U{000B}' || c == '\U{000C}' || c == '\r' || c == ' '
    || c == '\U{00A0}' || c == '\U{1680}' || ('\U{2000}' <= c <= '\U{200A}') || c == '\U{2028}'
    || c == '\U{2029}' || c == '\U{202F}' || c == '\U{205F}' || c == '\U{3000}' || c == '\U{FEFF}'
  }

  /** The characters `.` does not match. */
  predicate IsLineTerminator(c: char) {
    c == '\n' || c == '\r' || c == '\U{2028}' || c == '\U{2029}'
  }

  /** `\s*NAME\s*=\s*.*\r?\n`; with `sameLine` the leading `\s*` is restricted
      to white space that is not a line terminator. */
  datatype Pattern = Pattern(name: string, sameLine: bool)

  /** The name is non-empty and does not start with white space, so the
      leading `\s*` can never give characters back to it. */
  predicate ValidName(name: string) {
    |name| > 0 && !IsSpace(name[0])
  }

  /** The three character classes the pattern repeats: the leading `\s*`,
      `\s` and `.`. */
  datatype Class = Lead(sameLine: bool) | Space | Dot

  predicate In(c: char, k: Class) {
    match k
    case Lead(sameLine) => IsSpace(c) && !(sameLine && IsLineTerminator(c))
    case Space => IsSpace(c)
    case Dot => !IsLineTerminator(c)
  }

  /** Every character of `s[i..j]` is in class `k`. */
  predicate AllIn(s: string, i: nat, j: nat, k: Class)
    requires i <= j <= |s|
  {
    forall x {:trigger In(s[x], k)} :: i <= x < j ==> In(s[x], k)
  }

  /** How far a greedy `k*` reaches from `i`: the longest run in class `k`. */
  function Run(s: string, i: nat, k: Class): (n: nat)
    requires i <= |s|
    ensures i + n <= |s|
    decreases |s| - i
  {
    if i == |s| || !In(s[i], k) then 0 else 1 + Run(s, i + 1, k)
  }

  /** The greedy run is a run in class `k`, stopped by the end of the text or
      by a character outside the class. */
  lemma {:induction false} RunFacts(s: string, i: nat, k: Class)
    requires i <= |s|
    ensures AllIn(s, i, i + Run(s, i, k), k)
    ensures i + Run(s, i, k) == |s| || !In(s[i + Run(s, i, k)], k)
    decreases |s| - i
  {
    if i < |s| && In(s[i], k) {
      RunFacts(s, i + 1, k);
    }
  }

  /** A run in class `k` stopped by a character outside it is exactly the
      greedy run; any run in class `k` is at most the greedy one. */
  lemma RunBounds(s: string, i: nat, j: nat, k: Class)
    requires i <= j <= |s|
    requires AllIn(s, i, j, k)
    ensures j <= i + Run(s, i, k)
    ensures j < |s| && !In(s[j], k) ==> Run(s, i, k) == j - i
  {
    RunFacts(s, i, k);
  }

  /** `name` occurs in `s` at `i`. */
  predicate NameAt(s: string, i: nat, name: string) {
    i + |name| <= |s| && s[i..i + |name|] == name
  }

  lemma NameStartsWithNonSpace(s: string, i: nat, name: string)
    requires ValidName(name) && NameAt(s, i, name)
    ensures i < |s| && s[i] == name[0]
    ensures !In(s[i], Lead(false)) && !In(s[i], Lead(true)) && !In(s[i], Space)
  {
    assert s[i] == s[i..i + |name|][0];
  }

  // ---- The pattern as a language ----

  /** `s[e..f]` is `\n` or `\r\n`. */
  predicate BreakAt(s: string, e: nat, f: nat) {
    || (f == e + 1 && f <= |s| && s[e] == '\n')
    || (f == e + 2 && f <= |s| && s[e] == '\r' && s[e + 1] == '\n')
  }

  /** Cut points of a candidate span: the leading white space ends at `lead`
      where the name begins, `=` sits at `eq`, `.*` covers `rest..lineEnd`,
      and `\r?\n` covers `lineEnd..end`. */
  datatype Cut = Cut(lead: nat, eq: nat, rest: nat, lineEnd: nat, end: nat)

  /** From the name on, `s[c.lead..c.end]` is cut as `c` says. */
  predicate ShapedFrom(s: string, c: Cut, name: string) {
    && c.lead + |name| <= c.eq < c.rest <= c.lineEnd < c.end <= |s|
    && NameAt(s, c.lead, name)
    && AllIn(s, c.lead + |name|, c.eq, Space)
    && s[c.eq] == '='
    && AllIn(s, c.eq + 1, c.rest, Space)
    && AllIn(s, c.rest, c.lineEnd, Dot)
    && BreakAt(s, c.lineEnd, c.end)
  }

  /** `s[p..c.end]` is a word of the pattern, cut as `c` says. */
  predicate ShapedAt(s: string, p: nat, c: Cut, pat: Pattern) {
    p <= c.lead <= |s| && AllIn(s, p, c.lead, Lead(pat.sameLine)) && ShapedFrom(s, c, pat.name)
  }

  // ---- The matcher ----

  /** `\r?\n` at `e`: where it ends, if it matches. */
  function LineBreak(s: string, e: nat): (r: Option<nat>)
    requires e <= |s|
    ensures r.Some? ==> BreakAt(s, e, r.value)
    ensures r.None? ==> forall f :: !BreakAt(s, e, f)
  {
    if e + 1 < |s| && s[e] == '\r' && s[e + 1] == '\n' then Some(e + 2)
    else if e < |s| && s[e] == '\n' then Some(e + 1)
    else None
  }

  /** Where `.*\r?\n` succeeds when `.*` starts at `a`. `.*` takes the longest
      run: a shorter one would be followed by a character `.` matches, which
      `\r?\n` cannot. */
  function DotLine(s: string, a: nat): Option<nat>
    requires a <= |s|
  {
    LineBreak(s, a + Run(s, a, Dot))
  }

  /** The backtracking of the `\s*` after `=`: it first takes `k` characters
      from `q`, then gives them back one at a time until `.*\r?\n` succeeds.
      The result is where `.*` starts. */
  function TailStart(s: string, q: nat, k: nat): (r: Option<nat>)
    requires q + k <= |s|
    ensures r.Some? ==> q <= r.value <= q + k && DotLine(s, r.value).Some?
    decreases k
  {
    if DotLine(s, q + k).Some? then Some(q + k)
    else if k == 0 then None
    else TailStart(s, q, k - 1)
  }

  /** Backtracking stops at the longest `\s*` for which `.*\r?\n` succeeds:
      if it succeeds from `a`, the result is `a` or later. */
  lemma {:induction false} TailStartReaches(s: string, q: nat, k: nat, a: nat)
    requires q <= a <= q + k <= |s|
    requires DotLine(s, a).Some?
    ensures TailStart(s, q, k).Some? && a <= TailStart(s, q, k).value
    decreases k
  {
    if DotLine(s, q + k).None? {
      assert a < q + k;
      TailStartReaches(s, q, k - 1, a);
    }
  }

  /** The rest of the match once the name is found at `w`. */
  function MatchName(s: string, w: nat, name: string): Option<Cut>
    requires w + |name| <= |s|
  {
    var e := w + |name| + Run(s, w + |name|, Space);
    if e < |s| && s[e] == '=' then MatchTail(s, w, e) else None
  }

  /** The rest of the match once `=` is found at `e`: `\s*` backtracks until
      `.*\r?\n` succeeds. */
  function MatchTail(s: string, w: nat, e: nat): Option<Cut>
    requires e < |s|
  {
    match TailStart(s, e + 1, Run(s, e + 1, Space))
    case None => None
    case Some(a) => Some(Cut(w, e, a, a + Run(s, a, Dot), DotLine(s, a).value))
  }

  /** The match of the pattern starting at `p`, if any: the leading `\s*` is
      the greedy run, since the name does not start with white space. */
  function MatchAt(s: string, p: nat, pat: Pattern): Option<Cut>
    requires p <= |s|
  {
    var w := p + Run(s, p, Lead(pat.sameLine));
    if NameAt(s, w, pat.name) then MatchName(s, w, pat.name) else None
  }

  /** What `MatchName` finds is cut as the pattern says, and its `\s*` after
      `=` is within the greedy run. */
  lemma MatchNameSound(s: string, w: nat, name: string)
    requires NameAt(s, w, name)
    ensures var r := MatchName(s, w, name);
      r.Some? ==> && r.value.lead == w && ShapedFrom(s, r.value, name)
                  && r.value.rest <= r.value.eq + 1 + Run(s, r.value.eq + 1, Space)
  {
    MatchNameBounds(s, w, name);
    MatchNameSpaces(s, w, name);
    MatchNameDots(s, w, name);
  }

  lemma MatchNameBounds(s: string, w: nat, name: string)
    requires w + |name| <= |s|
    ensures var r := MatchName(s, w, name);
      r.Some? ==> && r.value.lead == w
                  && r.value.lead + |name| <= r.value.eq < r.value.rest <= r.value.lineEnd < r.value.end <= |s|
                  && s[r.value.eq] == '=' && BreakAt(s, r.value.lineEnd, r.value.end)
                  && r.value.rest <= r.value.eq + 1 + Run(s, r.value.eq + 1, Space)
  {
  }

  lemma MatchNameSpaces(s: string, w: nat, name: string)
    requires w + |name| <= |s|
    ensures var r := MatchName(s, w, name);
      r.Some? ==> && w + |name| <= r.value.eq < r.value.rest <= |s|
                  && AllIn(s, w + |name|, r.value.eq, Space)
                  && AllIn(s, r.value.eq + 1, r.value.rest, Space)
  {
    var v := w + |name|;
    var e := v + Run(s, v, Space);
    RunFacts(s, v, Space);
    if e < |s| {
      RunFacts(s, e + 1, Space);
    }
  }

  lemma MatchNameDots(s: string, w: nat, name: string)
    requires w + |name| <= |s|
    ensures var r := MatchName(s, w, name);
      r.Some? ==> r.value.rest <= r.value.lineEnd <= |s| && AllIn(s, r.value.rest, r.value.lineEnd, Dot)
  {
    var e := w + |name| + Run(s, w + |name|, Space);
    if e < |s| && s[e] == '=' {
      var t := TailStart(s, e + 1, Run(s, e + 1, Space));
      if t.Some? {
        RunFacts(s, t.value, Dot);
        assert MatchName(s, w, name) == MatchTail(s, w, e);
      }
    }
  }

  /** Soundness: what `MatchAt` finds is a span of the pattern. */
  lemma MatchAtSound(s: string, p: nat, pat: Pattern)
    requires p <= |s|
    ensures MatchAt(s, p, pat).Some? ==> ShapedAt(s, p, MatchAt(s, p, pat).value, pat)
  {
    RunFacts(s, p, Lead(pat.sameLine));
    var w := p + Run(s, p, Lead(pat.sameLine));
    if NameAt(s, w, pat.name) {
      MatchNameSound(s, w, pat.name);
    }
  }

  /** Completeness: whenever the pattern can match at `p`, the matcher finds a
      match there, the one whose `\s*` after `=` is longest, and that one is
      unique. */
  lemma MatchAtComplete(s: string, p: nat, c: Cut, pat: Pattern)
    requires ValidName(pat.name)
    requires ShapedAt(s, p, c, pat)
    ensures MatchAt(s, p, pat).Some?
    ensures c.rest <= MatchAt(s, p, pat).value.rest
    ensures c.rest == MatchAt(s, p, pat).value.rest ==> c == MatchAt(s, p, pat).value
  {
    LeadEndsAtName(s, p, c, pat);
    MatchNameComplete(s, c, pat.name);
  }

  lemma MatchNameComplete(s: string, c: Cut, name: string)
    requires ShapedFrom(s, c, name)
    ensures MatchName(s, c.lead, name).Some?
    ensures c.rest <= MatchName(s, c.lead, name).value.rest
    ensures c.rest == MatchName(s, c.lead, name).value.rest ==> c == MatchName(s, c.lead, name).value
  {
    SpaceEndsAtEquals(s, c, name);
    RunBounds(s, c.eq + 1, c.rest, Space);
    DotLineAtCut(s, c, name);
    MatchNameReaches(s, c, name);
  }

  /** `MatchName` reaches the cut `c` once the greedy runs are known to end
      where `c` says. */
  lemma MatchNameReaches(s: string, c: Cut, name: string)
    requires c.lead + |name| <= |s|
    requires c.lead + |name| + Run(s, c.lead + |name|, Space) == c.eq
    requires c.eq < |s| && s[c.eq] == '='
    requires c.eq + 1 <= c.rest <= c.eq + 1 + Run(s, c.eq + 1, Space) <= |s|
    requires c.rest + Run(s, c.rest, Dot) == c.lineEnd
    requires DotLine(s, c.rest) == Some(c.end)
    ensures MatchName(s, c.lead, name).Some?
    ensures c.rest <= MatchName(s, c.lead, name).value.rest
    ensures c.rest == MatchName(s, c.lead, name).value.rest ==> c == MatchName(s, c.lead, name).value
  {
    var k := Run(s, c.eq + 1, Space);
    TailStartReaches(s, c.eq + 1, k, c.rest);
    var a := TailStart(s, c.eq + 1, k).value;
    MatchNameResult(s, c.lead, c.eq, a, name);
  }

  /** `MatchName` once the `=` is found at `e` and backtracking stopped at `a`. */
  lemma MatchNameResult(s: string, w: nat, e: nat, a: nat, name: string)
    requires w + |name| <= |s|
    requires w + |name| + Run(s, w + |name|, Space) == e
    requires e < |s| && s[e] == '='
    requires TailStart(s, e + 1, Run(s, e + 1, Space)) == Some(a)
    ensures a <= |s| && DotLine(s, a).Some?
    ensures MatchName(s, w, name) == Some(Cut(w, e, a, a + Run(s, a, Dot), DotLine(s, a).value))
  {
    assert MatchName(s, w, name) == MatchTail(s, w, e);
  }

  /** The greedy leading run stops where the name begins. */
  lemma LeadEndsAtName(s: string, p: nat, c: Cut, pat: Pattern)
    requires ValidName(pat.name)
    requires ShapedAt(s, p, c, pat)
    ensures p + Run(s, p, Lead(pat.sameLine)) == c.lead
  {
    NameStartsWithNonSpace(s, c.lead, pat.name);
    RunBounds(s, p, c.lead, Lead(pat.sameLine));
  }

  /** The greedy run after the name stops at the `=`. */
  lemma SpaceEndsAtEquals(s: string, c: Cut, name: string)
    requires ShapedFrom(s, c, name)
    ensures c.lead + |name| + Run(s, c.lead + |name|, Space) == c.eq
  {
    RunBounds(s, c.lead + |name|, c.eq, Space);
  }

  /** The `.*` of a span is the greedy run, and the line break follows it. */
  lemma DotLineAtCut(s: string, c: Cut, name: string)
    requires ShapedFrom(s, c, name)
    ensures c.rest + Run(s, c.rest, Dot) == c.lineEnd
    ensures DotLine(s, c.rest) == Some(c.end)
  {
    RunBounds(s, c.rest, c.lineEnd, Dot);
  }

  /** The leftmost match at or after `from`. */
  function FindMatch(s: string, from: nat, pat: Pattern): (r: Option<(nat, Cut)>)
    requires from <= |s|
    ensures r.Some? ==> from <= r.value.0 <= |s| && MatchAt(s, r.value.0, pat) == Some(r.value.1)
    ensures forall p :: from <= p <= |s| && (r.None? || p < r.value.0) ==> MatchAt(s, p, pat).None?
    decreases |s| - from
  {
    match MatchAt(s, from, pat)
    case Some(c) => Some((from, c))
    case None => if from == |s| then None else FindMatch(s, from + 1, pat)
  }

  /** `contents.replace(pattern, "")`: the leftmost match, if any, is cut out. */
  function Replace(s: string, pat: Pattern): (r: string)
    ensures |r| <= |s|
  {
    match FindMatch(s, 0, pat)
    case None => s
    case Some((p, c)) =>
      MatchAtSound(s, p, pat);
      s[..p] + s[c.end..]
  }

  /** The match the replacement uses: none exactly when the pattern matches
      nowhere, otherwise a span of the pattern with no match starting before it. */
  lemma FindMatchLeftmost(s: string, pat: Pattern)
    requires ValidName(pat.name)
    ensures FindMatch(s, 0, pat).None? <==> forall p: nat, c :: p <= |s| ==> !ShapedAt(s, p, c, pat)
    ensures var m := FindMatch(s, 0, pat);
      m.Some? ==>
        && ShapedAt(s, m.value.0, m.value.1, pat)
        && Replace(s, pat) == s[..m.value.0] + s[m.value.1.end..]
        && forall p: nat, c :: p < m.value.0 ==> !ShapedAt(s, p, c, pat)
  {
    var m := FindMatch(s, 0, pat);
    if m.Some? {
      MatchAtSound(s, m.value.0, pat);
    }
    forall p: nat, c | p <= |s| && (m.None? || p < m.value.0) ensures !ShapedAt(s, p, c, pat) {
      if ShapedAt(s, p, c, pat) {
        MatchAtComplete(s, p, c, pat);
      }
    }
  }

  /** Every match ends with a line break, so text without one is unchanged. */
  lemma NoLineBreakUnchanged(s: string, pat: Pattern)
    ensures '\n' !in s ==> Replace(s, pat) == s
  {
    if Replace(s, pat) != s {
      var m := FindMatch(s, 0, pat);
      assert m.Some?;
      MatchAtSound(s, m.value.0, pat);
      var c := m.value.1;
      assert BreakAt(s, c.lineEnd, c.end);
      assert s[c.end - 1] == '\n';
    }
  }

  // ---- As written and as intended ----

  /** The pattern as written: the leading `\s*` may take line breaks. */
  const AsWritten: Pattern := Pattern(Setting, false)

  /** The pattern confined to the setting's own line. */
  const OwnLine: Pattern := Pattern(Setting, true)

  /** The example text: a line `x`, the setting `NAME=1`, a line `y`. */
  function Example(name: string): string {
    "x\n" + name + "=1\ny"
  }

  /** Where the example's match starts: at the line break as written, after
      it when confined to the line. */
  function ExampleStart(sameLine: bool): nat {
    if sameLine then 2 else 1
  }

  function ExampleCut(name: string): Cut {
    var v := 2 + |name|;
    Cut(2, v, v + 1, v + 2, v + 3)
  }

  /** The characters of the example around the name. */
  lemma ExampleChars(name: string)
    ensures var s := Example(name);
      var v := 2 + |name|;
      && |s| == v + 4 && s[0] == 'x' && s[1] == '\n' && s[2..v] == name
      && s[v] == '=' && s[v + 1] == '1' && s[v + 2] == '\n' && s[v + 3] == 'y'
  {
  }

  lemma ExampleShaped(name: string, sameLine: bool)
    requires ValidName(name)
    ensures ShapedAt(Example(name), ExampleStart(sameLine), ExampleCut(name), Pattern(name, sameLine))
  {
    ExampleChars(name);
  }

  /** After the example's `=` no white space follows. */
  lemma ExampleNoSpaceAfterEquals(name: string)
    ensures Run(Example(name), 3 + |name|, Space) == 0
  {
    ExampleChars(name);
    RunFacts(Example(name), 3 + |name|, Space);
  }

  /** At its start the example matches with exactly the expected cut. */
  lemma ExampleMatch(name: string, sameLine: bool)
    requires ValidName(name)
    ensures MatchAt(Example(name), ExampleStart(sameLine), Pattern(name, sameLine)) == Some(ExampleCut(name))
  {
    var s, p, c, pat := Example(name), ExampleStart(sameLine), ExampleCut(name), Pattern(name, sameLine);
    ExampleShaped(name, sameLine);
    MatchAtComplete(s, p, c, pat);
    MatchAtSound(s, p, pat);
    var found := MatchAt(s, p, pat).value;
    LeadEndsAtName(s, p, c, pat);
    LeadEndsAtName(s, p, found, pat);
    SpaceEndsAtEquals(s, c, name);
    SpaceEndsAtEquals(s, found, name);
    ExampleNoSpaceAfterEquals(name);
    RunBounds(s, c.eq + 1, found.rest, Space);
  }

  /** No match starts before the expected start. */
  lemma ExampleNoEarlierMatch(name: string, sameLine: bool, p: nat)
    requires ValidName(name) && name[0] != 'x'
    requires p < ExampleStart(sameLine)
    ensures MatchAt(Example(name), p, Pattern(name, sameLine)) == None
  {
    var s := Example(name);
    ExampleChars(name);
    assert s[p] != name[0];
    assert Run(s, p, Lead(sameLine)) == 0;
    assert !NameAt(s, p, name) by {
      if NameAt(s, p, name) {
        NameStartsWithNonSpace(s, p, name);
      }
    }
  }

  /** With the leading `\s*` as written, a name right after a line break is
      matched from that break, so the lines around the setting are joined;
      confined to the line, the break is kept. */
  lemma LeadingBreakTaken(name: string, sameLine: bool)
    requires ValidName(name) && name[0] != 'x'
    ensures Replace(Example(name), Pattern(name, sameLine)) == if sameLine then "x\ny" else "xy"
  {
    var s, c := Example(name), ExampleCut(name);
    ExampleFound(name, sameLine);
    ExampleChars(name);
    assert s[c.end..] == "y";
  }

  /** The leftmost match in the example is the expected one. */
  lemma ExampleFound(name: string, sameLine: bool)
    requires ValidName(name) && name[0] != 'x'
    ensures FindMatch(Example(name), 0, Pattern(name, sameLine)) == Some((ExampleStart(sameLine), ExampleCut(name)))
  {
    ExampleMatch(name, sameLine);
    ExampleNoEarlierMatch(name, sameLine, 0);
    if sameLine {
      ExampleNoEarlierMatch(name, sameLine, 1);
    }
  }

  /** As written, the line before the setting loses its line break. */
  lemma AsWrittenJoinsLines()
    ensures Replace(Example(Setting), AsWritten) == "xy"
  {
    LeadingBreakTaken(Setting, false);
  }

  /** Confined to its own line, the same removal keeps the break. */
  lemma OwnLineKeepsBreak()
    ensures Replace(Example(Setting), OwnLine) == "x\ny"
  {
    LeadingBreakTaken(Setting, true);
  }

  /** Confined to its own line, the removal keeps every line break before the
      setting's name. */
  lemma OwnLineKeepsEarlierBreaks(s: string)
    ensures var m := FindMatch(s, 0, OwnLine);
      && (m.None? ==> Replace(s, OwnLine) == s)
      && (m.Some? ==>
            && ShapedAt(s, m.value.0, m.value.1, OwnLine)
            && Replace(s, OwnLine) == s[..m.value.0] + s[m.value.1.end..]
            && forall t :: m.value.0 <= t < m.value.1.lead ==> !IsLineTerminator(s[t]))
  {
    var m := FindMatch(s, 0, OwnLine);
    if m.Some? {
      MatchAtSound(s, m.value.0, OwnLine);
      forall t | m.value.0 <= t < m.value.1.lead ensures !IsLineTerminator(s[t]) {
        assert In(s[t], Lead(true));
      }
    }
  }

  // ---- The plugin ----

  datatype ModResults = ModResults(path: string, contents: string)

  datatype Config = Config(name: string, modResults: Option<ModResults>)

  /** `withRemoveBundleCompression`'s callback with the replacement pattern
      left open: a missing `modResults` or empty contents leave the config
      alone; otherwise only the contents change, losing at most one span. */
  function ApplyPattern(config: Config, pat: Pattern): (r: Config)
    ensures config.modResults == None || config.modResults.value.contents == "" ==> r == config
    ensures r.name == config.name && r.modResults.Some? == config.modResults.Some?
    ensures r.modResults.Some? ==> r.modResults.value.path == config.modResults.value.path
    ensures r.modResults.Some? ==> |r.modResults.value.contents| <= |config.modResults.value.contents|
  {
    match config.modResults
    case None => config
    case Some(mod) =>
      if mod.contents == "" then config
      else config.(modResults := Some(mod.(contents := Replace(mod.contents, pat))))
  }

  /** The plugin as written, with the pattern whose leading `\s*` may take
      line breaks. */
  function Apply(config: Config): (r: Config)
    ensures config.modResults == None || config.modResults.value.contents == "" ==> r == config
    ensures r.name == config.name && r.modResults.Some? == config.modResults.Some?
    ensures r.modResults.Some? ==> r.modResults.value.path == config.modResults.value.path
    ensures r.modResults.Some? ==> |r.modResults.value.contents| <= |config.modResults.value.contents|
  {
    ApplyPattern(config, AsWritten)
  }

  /** The plugin with the pattern confined to the setting's own line. */
  function ApplyOwnLine(config: Config): (r: Config)
    ensures config.modResults == None || config.modResults.value.contents == "" ==> r == config
    ensures r.name == config.name && r.modResults.Some? == config.modResults.Some?
    ensures r.modResults.Some? ==> r.modResults.value.path == config.modResults.value.path
    ensures r.modResults.Some? ==> |r.modResults.value.contents| <= |config.modResults.value.contents|
  {
    ApplyPattern(config, OwnLine)
  }

  lemma {:induction false} ApplyPatternChangesExactly(config: Config, pat: Pattern)
    requires config.modResults.Some? && ValidName(pat.name)
    ensures var s := config.modResults.value.contents;
      var r := ApplyPattern(config, pat).modResults.value.contents;
      && (r != s <==> exists p: nat, c :: p <= |s| && ShapedAt(s, p, c, pat))
      && (r != s ==> exists p: nat, c :: p <= |s| && ShapedAt(s, p, c, pat) && r == s[..p] + s[c.end..])
  {
    var s := config.modResults.value.contents;
    FindMatchLeftmost(s, pat);
    var m := FindMatch(s, 0, pat);
    if m.Some? {
      var p := m.value.0;
      var c := m.value.1;
      assert s != "";
      assert |s[..p] + s[c.end..]| < |s|;
    }
  }

  lemma SettingIsValidName()
    ensures ValidName(Setting)
  {
    assert Setting[0] == 'e';
  }

  /** The plugin as written changes the contents exactly when they hold the
      setting in the pattern's shape, and then cuts out the leftmost such
      span, leading line breaks included. */
  lemma {:induction false} ApplyChangesExactlyWithSetting(config: Config)
    requires config.modResults.Some?
    ensures var s := config.modResults.value.contents;
      var r := Apply(config).modResults.value.contents;
      && (r != s <==> exists p: nat, c :: p <= |s| && ShapedAt(s, p, c, AsWritten))
      && (r != s ==> exists p: nat, c :: p <= |s| && ShapedAt(s, p, c, AsWritten) && r == s[..p] + s[c.end..])
  {
    SettingIsValidName();
    ApplyPatternChangesExactly(config, AsWritten);
  }

  /** The plugin as written, on a build file whose setting follows the line
      `x`: the two neighbouring lines are joined. */
  lemma ApplyJoinsLines(name: string, path: string)
    ensures Apply(Config(name, Some(ModResults(path, Example(Setting))))).modResults
      == Some(ModResults(path, "xy"))
  {
    AsWrittenJoinsLines();
  }

  /** With the pattern confined to its own line, the same build file keeps the
      line break, and in general every line break before the setting's name
      survives. */
  lemma {:induction false} ApplyOwnLineKeepsLines(config: Config)
    requires config.modResults.Some?
    ensures var s := config.modResults.value.contents;
      var r := ApplyOwnLine(config).modResults.value.contents;
      && (r != s <==> exists p: nat, c :: p <= |s| && ShapedAt(s, p, c, OwnLine))
      && (r != s ==> exists p: nat, c :: && p <= |s| && ShapedAt(s, p, c, OwnLine) && r == s[..p] + s[c.end..]
                                         && forall t :: p <= t < c.lead ==> !IsLineTerminator(s[t]))
    ensures config.modResults.value.contents == Example(Setting) ==>
      ApplyOwnLine(config).modResults.value.contents == "x\ny"
  {
    var s := config.modResults.value.contents;
    SettingIsValidName();
    ApplyPatternChangesExactly(config, OwnLine);
    OwnLineKeepsEarlierBreaks(s);
    if s == Example(Setting) {
      OwnLineKeepsBreak();
    }
    var m := FindMatch(s, 0, OwnLine);
    if m.Some? {
      var p := m.value.0;
      var c := m.value.1;
      assert s != "";
      assert |s[..p] + s[c.end..]| < |s|;
    }
  }
}
