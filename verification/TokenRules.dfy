/**
 The command-token classifier. Text is a byte string, one character per byte; the
 hand-written scanner is shown to accept exactly the language of its regex.
 */
module TokenRules {
  import opened Basics

  const LEAD_DELIMITERS := " \t\n\r\U{0b}\U{0c}/|;&('\"`"
  const TAIL_DELIMITERS := " \t\n\r\U{0b}\U{0c}/|;&):'\"`"

  datatype Kind = Antigravity | Claude | Codex | Opencode | Grok

  datatype Rule = Rule(kind: Kind, stems: seq<string>, literalSuffixes: seq<string>, alnumSuffix: bool)
  {
    /** The words the rule names: the regex between the two boundaries. */
    ghost predicate Token(w: string) {
      exists i :: 0 <= i < |stems| && stems[i] != "" && stems[i] <= w && Continues(w[|stems[i]|..])
    }

    /** What may follow a stem. */
    ghost predicate Continues(rest: string) {
      rest == "" || rest in literalSuffixes || (alnumSuffix && AlnumTail(rest))
    }

    /** The whole regex: some word of the text, bounded on both sides. */
    ghost predicate Names(text: string) {
      exists s, e :: 0 <= s <= e <= |text| && Bounded(text, s, e) && Token(text[s..e])
    }
  }

  predicate IsAlnum(c: char) {
    'a' <= c <= 'z' || '0' <= c <= '9'
  }

  /** `[-_][a-z0-9]+`. */
  predicate AlnumTail(rest: string) {
    |rest| > 1 && (rest[0] == '-' || rest[0] == '_') && forall k :: 1 <= k < |rest| ==> IsAlnum(rest[k])
  }

  predicate LeadBoundary(text: string, start: nat)
    requires start <= |text|
  {
    start == 0 || text[start - 1] in LEAD_DELIMITERS
  }

  predicate TailBoundary(text: string, end: nat)
    requires end <= |text|
  {
    end == |text| || text[end] in TAIL_DELIMITERS
  }

  predicate Bounded(text: string, s: nat, e: nat)
    requires s <= e <= |text|
  {
    LeadBoundary(text, s) && TailBoundary(text, e)
  }

  predicate OccursAt(text: string, w: string, i: nat) {
    i + |w| <= |text| && text[i..i + |w|] == w
  }

  // ---- The scanner -------------------------------------------------------------------

  /** `find_from`: the first occurrence at or after `from`; none of an empty needle. */
  method FindFrom(text: string, needle: string, from: nat) returns (r: Option<nat>)
    ensures r.Some? ==> from <= r.value && needle != "" && OccursAt(text, needle, r.value)
    ensures r.Some? ==> forall k :: from <= k < r.value ==> !OccursAt(text, needle, k)
    ensures r.None? && needle != "" ==> forall k :: from <= k ==> !OccursAt(text, needle, k)
  {
    if needle == "" || from >= |text| { return None; }
    var i := from;
    while i + |needle| <= |text|
      invariant from <= i && forall k :: from <= k < i ==> !OccursAt(text, needle, k)
    {
      if text[i..i + |needle|] == needle { return Some(i); }
      i := i + 1;
    }
    return None;
  }

  /** `alnum_suffix_end`: the end of the longest run. */
  method AlnumSuffixEnd(text: string, start: nat) returns (r: Option<nat>)
    requires start <= |text|
    ensures r.Some? ==> start <= r.value <= |text| && AlnumTail(text[start..r.value])
    ensures r.Some? ==> r.value == |text| || !IsAlnum(text[r.value])
    ensures r.None? ==> forall e :: start <= e <= |text| ==> !AlnumTail(text[start..e])
  {
    if start == |text| || !(text[start] == '-' || text[start] == '_') { return None; }
    var end := start + 1;
    while end < |text| && IsAlnum(text[end])
      invariant start < end <= |text| && forall k :: start < k < end ==> IsAlnum(text[k])
    {
      end := end + 1;
    }
    if end > start + 1 { return Some(end); }
    forall e | start <= e <= |text| ensures !AlnumTail(text[start..e]) {
      if e > start + 1 {
        assert text[start..e][1] == text[start + 1];
      }
    }
    return None;
  }

  /** Trying only the longest run loses nothing: a shorter one ends before a non-delimiter. */
  lemma LongestRunSuffices(text: string, start: nat, end: nat, e: nat)
    requires start <= end <= |text| && start <= e <= |text|
    requires AlnumTail(text[start..end]) && (end == |text| || !IsAlnum(text[end]))
    requires AlnumTail(text[start..e]) && TailBoundary(text, e)
    ensures e == end
  {
    forall k | start < k < end ensures IsAlnum(text[k]) {
      assert text[start..end][k - start] == text[k];
    }
    forall k | start < k < e ensures IsAlnum(text[k]) {
      assert text[start..e][k - start] == text[k];
    }
  }

  /** After this occurrence of a stem, a bounded token ends. */
  ghost predicate EndsWell(rule: Rule, text: string, stemEnd: nat)
    requires stemEnd <= |text|
  {
    exists e :: stemEnd <= e <= |text| && TailBoundary(text, e) && rule.Continues(text[stemEnd..e])
  }

  /** The literal continuations. */
  method LiteralSuffix(rule: Rule, text: string, stemEnd: nat) returns (found: bool)
    requires stemEnd <= |text|
    ensures found <==>
            exists e :: stemEnd <= e <= |text| && TailBoundary(text, e) && text[stemEnd..e] in rule.literalSuffixes
  {
    for i := 0 to |rule.literalSuffixes|
      invariant forall e :: stemEnd <= e <= |text| && TailBoundary(text, e) ==>
                  text[stemEnd..e] !in rule.literalSuffixes[..i]
    {
      var suffix := rule.literalSuffixes[i];
      var end := stemEnd + |suffix|;
      if |text| >= end && text[stemEnd..end] == suffix && TailBoundary(text, end) { return true; }
      assert rule.literalSuffixes[..i + 1] == rule.literalSuffixes[..i] + [suffix];
    }
    assert rule.literalSuffixes[..|rule.literalSuffixes|] == rule.literalSuffixes;
    return false;
  }

  method TokenEnds(rule: Rule, text: string, stemEnd: nat) returns (found: bool)
    requires stemEnd <= |text|
    ensures found <==> EndsWell(rule, text, stemEnd)
  {
    if TailBoundary(text, stemEnd) {
      assert text[stemEnd..stemEnd] == "";
      return true;
    }
    found := LiteralSuffix(rule, text, stemEnd);
    if found { return; }
    if rule.alnumSuffix {
      var end := AlnumSuffixEnd(text, stemEnd);
      if end.Some? {
        forall e | stemEnd <= e <= |text| && TailBoundary(text, e) && AlnumTail(text[stemEnd..e])
          ensures e == end.value
        {
          LongestRunSuffices(text, stemEnd, end.value, e);
        }
        return TailBoundary(text, end.value);
      }
    }
    return false;
  }

  /** A bounded token that begins with this occurrence of the stem. */
  ghost predicate Hit(rule: Rule, text: string, stem: string, start: nat) {
    stem != "" && OccursAt(text, stem, start) && LeadBoundary(text, start) && EndsWell(rule, text, start + |stem|)
  }

  /** The cursor loop: stepping by one past each occurrence loses no match. */
  method StemMatches(rule: Rule, text: string, stem: string) returns (found: bool)
    ensures found <==> exists start: nat :: Hit(rule, text, stem, start)
  {
    var cursor := 0;
    while true
      invariant forall k: nat :: k < cursor ==> !Hit(rule, text, stem, k)
      invariant cursor <= |text| + 1
      decreases |text| + 1 - cursor
    {
      var next := FindFrom(text, stem, cursor);
      if next.None? { return false; }
      var start := next.value;
      cursor := start + 1;
      if LeadBoundary(text, start) {
        var ends := TokenEnds(rule, text, start + |stem|);
        if ends {
          assert Hit(rule, text, stem, start);
          return true;
        }
      }
    }
  }

  lemma HitNames(rule: Rule, text: string, i: nat, start: nat)
    requires i < |rule.stems| && Hit(rule, text, rule.stems[i], start)
    ensures rule.Names(text)
  {
    var stem := rule.stems[i];
    var stemEnd := start + |stem|;
    var e :| stemEnd <= e <= |text| && TailBoundary(text, e) && rule.Continues(text[stemEnd..e]);
    var w := text[start..e];
    assert w[..|stem|] == stem && w[|stem|..] == text[stemEnd..e];
  }

  lemma NamesHit(rule: Rule, text: string)
    requires rule.Names(text)
    ensures exists i, start: nat :: 0 <= i < |rule.stems| && Hit(rule, text, rule.stems[i], start)
  {
    var s, e :| 0 <= s <= e <= |text| && Bounded(text, s, e) && rule.Token(text[s..e]);
    var w := text[s..e];
    var i :| 0 <= i < |rule.stems| && rule.stems[i] != "" && rule.stems[i] <= w && rule.Continues(w[|rule.stems[i]|..]);
    WordHit(rule, text, rule.stems[i], s, e);
  }

  lemma WordHit(rule: Rule, text: string, stem: string, s: nat, e: nat)
    requires stem != "" && s <= e <= |text| && Bounded(text, s, e)
    requires stem <= text[s..e] && rule.Continues(text[s..e][|stem|..])
    ensures Hit(rule, text, stem, s)
  {
    var stemEnd := s + |stem|;
    assert text[s..stemEnd] == text[s..e][..|stem|];
    assert text[stemEnd..e] == text[s..e][|stem|..];
  }

  /** `TokenRule::matches`: exactly the regex. */
  method Matches(rule: Rule, text: string) returns (found: bool)
    ensures found <==> rule.Names(text)
  {
    for i := 0 to |rule.stems|
      invariant forall j, start: nat :: 0 <= j < i ==> !Hit(rule, text, rule.stems[j], start)
    {
      var hit := StemMatches(rule, text, rule.stems[i]);
      if hit {
        ghost var start: nat :| Hit(rule, text, rule.stems[i], start);
        HitNames(rule, text, i, start);
        return true;
      }
    }
    if rule.Names(text) {
      NamesHit(rule, text);
    }
    return false;
  }

  /** `whole_word_match`. */
  method WholeWordMatch(text: string, token: string) returns (found: bool)
    ensures found <==> token != "" && exists s :: 0 <= s && OccursAt(text, token, s) && Bounded(text, s, s + |token|)
  {
    var cursor := 0;
    while true
      invariant forall s :: 0 <= s < cursor && OccursAt(text, token, s) ==> !Bounded(text, s, s + |token|)
      invariant cursor <= |text| + 1
      decreases |text| + 1 - cursor
    {
      var next := FindFrom(text, token, cursor);
      if next.None? { return false; }
      var start := next.value;
      cursor := start + 1;
      if LeadBoundary(text, start) && TailBoundary(text, start + |token|) { return true; }
    }
  }

  // ---- The canonical rules -------------------------------------------------------------

  const TOKEN_RULES: seq<Rule> := [
    Rule(Antigravity, ["agy", "antigravity"], [], false),
    Rule(Claude, ["claude"], ["code", "-code"], false),
    Rule(Codex, ["codex"], [], false),
    Rule(Opencode, ["opencode", "open-code", "open_code"], [], true),
    Rule(Grok, ["grok"], [], false)
  ]

  /** The words that stand for an agent. */
  ghost predicate WordOf(kind: Kind, w: string) {
    match kind
    case Antigravity => w == "agy" || w == "antigravity"
    case Claude => w == "claude" || w == "claudecode" || w == "claude-code"
    case Codex => w == "codex"
    case Opencode => OpencodeWord(w, 8) || OpencodeWord(w, 9)
    case Grok => w == "grok"
  }

  /** A spelling of `n` letters, alone or with a suffix such as `-2`. */
  ghost predicate OpencodeWord(w: string, n: nat) {
    && n <= |w| && (w[..n] == "opencode" || w[..n] == "open-code" || w[..n] == "open_code")
    && (|w| == n || AlnumTail(w[n..]))
  }

  /** The order in which the agents are looked for. */
  function Rank(kind: Kind): nat {
    match kind
    case Antigravity => 0
    case Claude => 1
    case Codex => 2
    case Opencode => 3
    case Grok => 4
  }

  /** The text has a word of this agent, bounded on both sides. */
  ghost predicate NamesKind(text: string, kind: Kind) {
    exists s, e :: 0 <= s <= e <= |text| && Bounded(text, s, e) && WordOf(kind, text[s..e])
  }

  lemma RuleOf(kind: Kind)
    ensures Rank(kind) < |TOKEN_RULES| && TOKEN_RULES[Rank(kind)].kind == kind
  {
  }

  lemma SimpleWords(i: nat, w: string)
    requires i < |TOKEN_RULES| && i != 3
    ensures TOKEN_RULES[i].Token(w) <==> WordOf(TOKEN_RULES[i].kind, w)
  {
    if TOKEN_RULES[i].Token(w) { TokenIsWord(i, w); }
    if WordOf(TOKEN_RULES[i].kind, w) { WordIsToken(i, w); }
  }

  lemma TokenIsWord(i: nat, w: string)
    requires i < |TOKEN_RULES| && i != 3 && TOKEN_RULES[i].Token(w)
    ensures WordOf(TOKEN_RULES[i].kind, w)
  {
    var rule := TOKEN_RULES[i];
    var k :| 0 <= k < |rule.stems| && rule.stems[k] != "" && rule.stems[k] <= w && rule.Continues(w[|rule.stems[k]|..]);
    assert w == rule.stems[k] + w[|rule.stems[k]|..];
  }

  lemma WordIsToken(i: nat, w: string)
    requires i < |TOKEN_RULES| && i != 3 && WordOf(TOKEN_RULES[i].kind, w)
    ensures TOKEN_RULES[i].Token(w)
  {
    var rule, k := TOKEN_RULES[i], if w == "antigravity" then 1 else 0;
    assert rule.stems[k] <= w && rule.Continues(w[|rule.stems[k]|..]);
  }

  lemma OpencodeWords(w: string)
    ensures TOKEN_RULES[3].Token(w) <==> WordOf(Opencode, w)
  {
    var rule := TOKEN_RULES[3];
    if rule.Token(w) {
      var k :| 0 <= k < |rule.stems| && rule.stems[k] != "" && rule.stems[k] <= w
               && rule.Continues(w[|rule.stems[k]|..]);
      assert w[..|rule.stems[k]|] == rule.stems[k];
      assert OpencodeWord(w, |rule.stems[k]|);
    }
    forall n | (n == 8 || n == 9) && OpencodeWord(w, n) ensures rule.Token(w) {
      var k := if w[..n] == "opencode" then 0 else if w[..n] == "open-code" then 1 else 2;
      assert rule.stems[k] == w[..n] && rule.stems[k] <= w && rule.Continues(w[|rule.stems[k]|..]);
    }
  }

  /** Each rule names exactly its agent's words. */
  lemma RuleNames(i: nat, text: string)
    requires i < |TOKEN_RULES|
    ensures TOKEN_RULES[i].Names(text) <==> NamesKind(text, TOKEN_RULES[i].kind)
  {
    forall w ensures TOKEN_RULES[i].Token(w) <==> WordOf(TOKEN_RULES[i].kind, w) {
      if i == 3 { OpencodeWords(w); } else { SimpleWords(i, w); }
    }
  }

  /** `canonical_kind`, on lowercased text: the first agent, in order, of which it has a bounded word. */
  method CanonicalKind(text: string) returns (r: Option<Kind>)
    ensures r.Some? ==> NamesKind(text, r.value)
    ensures r.Some? ==> forall kind :: NamesKind(text, kind) ==> Rank(r.value) <= Rank(kind)
    ensures r.None? ==> forall kind :: !NamesKind(text, kind)
  {
    r := FirstRule(text);
    forall kind ensures NamesKind(text, kind) <==> TOKEN_RULES[Rank(kind)].Names(text) {
      RuleOf(kind);
      RuleNames(Rank(kind), text);
    }
  }

  /** The first rule that names the text. */
  method FirstRule(text: string) returns (r: Option<Kind>)
    ensures r.None? ==> forall i :: 0 <= i < |TOKEN_RULES| ==> !TOKEN_RULES[i].Names(text)
    ensures r.Some? ==> Rank(r.value) < |TOKEN_RULES| && FirstToName(Rank(r.value), text)
  {
    for i := 0 to |TOKEN_RULES|
      invariant forall j :: 0 <= j < i ==> !TOKEN_RULES[j].Names(text)
    {
      var hit := Matches(TOKEN_RULES[i], text);
      if hit {
        assert Rank(TOKEN_RULES[i].kind) == i;
        return Some(TOKEN_RULES[i].kind);
      }
    }
    return None;
  }

  ghost predicate FirstToName(i: nat, text: string)
    requires i < |TOKEN_RULES|
  {
    TOKEN_RULES[i].Names(text) && forall j :: 0 <= j < i ==> !TOKEN_RULES[j].Names(text)
  }

  // ---- When two rules name one text ------------------------------------------------------

  predicate IsTokenChar(c: char) {
    IsAlnum(c) || c == '-' || c == '_'
  }

  predicate AllTokenChars(w: string) {
    forall k :: 0 <= k < |w| ==> IsTokenChar(w[k])
  }

  /** The first two letters tell the agents apart. */
  predicate Initials(i: nat, a: char, b: char) {
    match i
    case 0 => a == 'a'
    case 1 => a == 'c' && b == 'l'
    case 2 => a == 'c' && b == 'o'
    case 3 => a == 'o'
    case _ => a == 'g'
  }

  lemma StemsAreWords(i: nat, k: nat)
    requires i < |TOKEN_RULES| && k < |TOKEN_RULES[i].stems|
    ensures var stem := TOKEN_RULES[i].stems[k];
            |stem| > 1 && AllTokenChars(stem) && Initials(i, stem[0], stem[1])
  {
  }

  lemma SuffixesAreWords(i: nat, k: nat)
    requires i < |TOKEN_RULES| && k < |TOKEN_RULES[i].literalSuffixes|
    ensures AllTokenChars(TOKEN_RULES[i].literalSuffixes[k])
  {
  }

  lemma TokensAreWords(i: nat, w: string)
    requires i < |TOKEN_RULES| && TOKEN_RULES[i].Token(w)
    ensures |w| > 1 && AllTokenChars(w) && Initials(i, w[0], w[1])
  {
    var rule := TOKEN_RULES[i];
    var k :| 0 <= k < |rule.stems| && rule.stems[k] != "" && rule.stems[k] <= w && rule.Continues(w[|rule.stems[k]|..]);
    var stem, rest := rule.stems[k], w[|rule.stems[k]|..];
    StemsAreWords(i, k);
    ContinuationsAreWords(i, rest);
    WordsConcat(stem, rest);
    assert w == stem + rest;
  }

  lemma ContinuationsAreWords(i: nat, rest: string)
    requires i < |TOKEN_RULES| && TOKEN_RULES[i].Continues(rest)
    ensures AllTokenChars(rest)
  {
    var rule := TOKEN_RULES[i];
    if rest in rule.literalSuffixes {
      var j :| 0 <= j < |rule.literalSuffixes| && rule.literalSuffixes[j] == rest;
      SuffixesAreWords(i, j);
    }
  }

  lemma WordsConcat(x: string, y: string)
    requires AllTokenChars(x) && AllTokenChars(y)
    ensures AllTokenChars(x + y)
  {
  }

  /** Two bounded words that touch are one word. */
  lemma BoundedWordsCoincide(text: string, s: nat, e: nat, s': nat, e': nat)
    requires s < e <= |text| && s' < e' <= |text| && Bounded(text, s, e) && Bounded(text, s', e')
    requires AllTokenChars(text[s..e]) && AllTokenChars(text[s'..e'])
    requires s <= s' < e
    ensures s == s' && e == e'
  {
    forall k | s <= k < e ensures text[k] !in LEAD_DELIMITERS && text[k] !in TAIL_DELIMITERS {
      assert text[s..e][k - s] == text[k];
      TokenCharsDoNotDelimit(text[k]);
    }
    forall k | s' <= k < e' ensures text[k] !in LEAD_DELIMITERS && text[k] !in TAIL_DELIMITERS {
      assert text[s'..e'][k - s'] == text[k];
      TokenCharsDoNotDelimit(text[k]);
    }
  }

  lemma TokenCharsDoNotDelimit(c: char)
    requires IsTokenChar(c)
    ensures c !in LEAD_DELIMITERS && c !in TAIL_DELIMITERS
  {
  }

  /** Where rule `i` finds its token. */
  ghost predicate NamesWord(i: nat, text: string, s: nat, e: nat)
    requires i < |TOKEN_RULES|
  {
    s <= e <= |text| && Bounded(text, s, e) && TOKEN_RULES[i].Token(text[s..e])
  }

  /** Tokens of different rules never overlap in a text. */
  lemma RulesShareNoWord(i: nat, j: nat, text: string, s: nat, e: nat, s': nat, e': nat)
    requires i < |TOKEN_RULES| && j < |TOKEN_RULES| && i != j
    requires NamesWord(i, text, s, e) && NamesWord(j, text, s', e')
    ensures e <= s' || e' <= s
  {
    TokensAreWords(i, text[s..e]);
    TokensAreWords(j, text[s'..e']);
    if s <= s' < e {
      BoundedWordsCoincide(text, s, e, s', e');
    } else if s' <= s < e' {
      BoundedWordsCoincide(text, s', e', s, e);
    }
  }

  /** A text without delimiters names at most one agent. */
  lemma OneWordOneAgent(text: string, i: nat, j: nat)
    requires forall k :: 0 <= k < |text| ==> text[k] !in LEAD_DELIMITERS
    requires i < |TOKEN_RULES| && j < |TOKEN_RULES| && TOKEN_RULES[i].Names(text) && TOKEN_RULES[j].Names(text)
    ensures i == j
  {
    var s, e :| 0 <= s <= e <= |text| && Bounded(text, s, e) && TOKEN_RULES[i].Token(text[s..e]);
    var s', e' :| 0 <= s' <= e' <= |text| && Bounded(text, s', e') && TOKEN_RULES[j].Token(text[s'..e']);
    TokensAreWords(i, text[s..e]);
    TokensAreWords(j, text[s'..e']);
    if i != j {
      RulesShareNoWord(i, j, text, s, e, s', e');
    }
  }

  /**
   A text is named by two different rules if and only if it has a word of each, with
   something between them.
   */
  lemma TwoRulesExactly(text: string, i: nat, j: nat)
    requires i < |TOKEN_RULES| && j < |TOKEN_RULES| && i != j
    ensures TOKEN_RULES[i].Names(text) && TOKEN_RULES[j].Names(text)
            <==> exists s: nat, e: nat, s': nat, e': nat ::
                   NamesWord(i, text, s, e) && NamesWord(j, text, s', e') && (e < s' || e' < s)
  {
    if TOKEN_RULES[i].Names(text) && TOKEN_RULES[j].Names(text) {
      var s, e :| 0 <= s <= e <= |text| && Bounded(text, s, e) && TOKEN_RULES[i].Token(text[s..e]);
      var s', e' :| 0 <= s' <= e' <= |text| && Bounded(text, s', e') && TOKEN_RULES[j].Token(text[s'..e']);
      assert NamesWord(i, text, s, e) && NamesWord(j, text, s', e');
      RulesShareNoWord(i, j, text, s, e, s', e');
      WordsDoNotTouch(i, j, text, s, e, s', e');
      WordsDoNotTouch(j, i, text, s', e', s, e);
    }
  }

  lemma WordsDoNotTouch(i: nat, j: nat, text: string, s: nat, e: nat, s': nat, e': nat)
    requires i < |TOKEN_RULES| && j < |TOKEN_RULES| && NamesWord(i, text, s, e) && NamesWord(j, text, s', e')
    ensures e != s'
  {
    TokensAreWords(j, text[s'..e']);
    assert text[s'..e'][0] == text[s'];
    TokenCharsDoNotDelimit(text[s']);
  }

  /** A text of two words can name two agents, so the order of the rules decides. */
  lemma TwoAgentsInOneText()
    ensures TOKEN_RULES[1].Names("claude codex") && TOKEN_RULES[2].Names("claude codex")
  {
    var text := "claude codex";
    assert text[0..6] == "claude" && text[7..12] == "codex";
    assert TOKEN_RULES[1].stems[0] == "claude" && "claude"[6..] == "";
    assert TOKEN_RULES[2].stems[0] == "codex" && "codex"[5..] == "";
    assert Bounded(text, 0, 6) && TOKEN_RULES[1].Token(text[0..6]);
    assert Bounded(text, 7, 12) && TOKEN_RULES[2].Token(text[7..12]);
  }
}
