/**
 * Extraction of text and labels from a language-model reply
 * (`GenerationService._parse_generated_content` and `_default_parse` in
 * server/generation_service.py).
 *
 * The four fixed patterns of the default parser are modelled exactly as Python's
 * backtracking `re` engine runs them: `MatchAt` is the engine's choice at one
 * position, `Search` is `re.search` (the leftmost position that matches) and
 * `SubFrom` is `re.sub(pattern, '', s)`. Each pattern also has a declarative
 * reading (`Spec`), and the engine's choice is proved to be a match of that
 * reading, to exist whenever one exists, and to be the one greedy priority picks.
 * A caller-supplied pattern is not interpreted: its outcome is an input.
 */
module ContentParse {
  import opened Wrappers
  import opened Strs

  /** `\[([^\]]+)\]`, or a keyword of two characters followed by `[：:]\s*([^\n]+)`. */
  datatype Pattern = Bracket | Keyword(first: char, second: char)

  /** The default parser's patterns, in the order it tries them: brackets, 标签, 分类, 类别. */
  const DefaultPatterns: seq<Pattern> := [Bracket, Keyword('标', '签'), Keyword('分', '类'), Keyword('类', '别')]

  /** One match: the whole match is `s[start..end]`, group 1 is `s[groupStart..groupEnd]`. */
  datatype Match = Match(start: nat, groupStart: nat, groupEnd: nat, end: nat)

  /** The declarative reading of a pattern: `s[p..e]` matches with group 1 at `s[gs..ge]`. */
  predicate Spec(pat: Pattern, s: string, p: nat, gs: nat, ge: nat, e: nat)
  {
    match pat
    case Bracket =>
      gs == p + 1 && ge + 1 == e && p + 1 < ge && e <= |s|
      && s[p] == '[' && s[ge] == ']' && NoCharIn(s, ']', gs, ge)
    case Keyword(a, b) =>
      p + 3 <= gs < ge && ge == e && e <= |s|
      && s[p] == a && s[p + 1] == b && (s[p + 2] == ':' || s[p + 2] == '：')
      && AllSpaceIn(s, p + 3, gs) && NoCharIn(s, '\n', gs, ge)
  }

  predicate NoCharIn(s: string, c: char, lo: nat, hi: nat)
    requires lo <= hi <= |s|
  {
    forall t :: lo <= t < hi ==> s[t] != c
  }

  predicate AllSpaceIn(s: string, lo: nat, hi: nat)
    requires lo <= hi <= |s|
  {
    forall t :: lo <= t < hi ==> PySpace(s[t])
  }

  /** The first index at or after `i` holding `c`, or `|s|`. */
  function FirstFrom(s: string, c: char, i: nat): (r: nat)
    requires i <= |s|
    ensures i <= r <= |s|
    ensures r < |s| ==> s[r] == c
    ensures NoCharIn(s, c, i, r)
    decreases |s| - i
  {
    if i == |s| || s[i] == c then i else FirstFrom(s, c, i + 1)
  }

  /** The end of the run of whitespace starting at `i`: what a greedy `\s*` consumes. */
  function SkipSpace(s: string, i: nat): (r: nat)
    requires i <= |s|
    ensures i <= r <= |s|
    ensures r < |s| ==> !PySpace(s[r])
    ensures AllSpaceIn(s, i, r)
    decreases |s| - i
  {
    if i == |s| || !PySpace(s[i]) then i else SkipSpace(s, i + 1)
  }

  /** The largest index in `[lo, hi)` that is not a newline, if any. */
  function LastNonNewline(s: string, lo: nat, hi: nat): (r: Option<nat>)
    requires lo <= hi <= |s|
    ensures r.Some? ==> lo <= r.value < hi && s[r.value] != '\n' && forall t :: r.value < t < hi ==> s[t] == '\n'
    ensures r.None? ==> forall t :: lo <= t < hi ==> s[t] == '\n'
    decreases hi - lo
  {
    if hi == lo then None
    else if s[hi - 1] != '\n' then Some(hi - 1)
    else LastNonNewline(s, lo, hi - 1)
  }

  /** What the backtracking engine finds when it tries `pat` at position `p`. */
  function MatchAt(pat: Pattern, s: string, p: nat): (r: Option<Match>)
    requires p <= |s|
    ensures r.Some? ==> r.value.start == p && Spec(pat, s, p, r.value.groupStart, r.value.groupEnd, r.value.end)
  {
    match pat
    case Bracket =>
      if p < |s| && s[p] == '[' then
        var j := FirstFrom(s, ']', p + 1);
        if j < |s| && j > p + 1 then Some(Match(p, p + 1, j, j + 1)) else None
      else None
    case Keyword(a, b) =>
      if p + 3 <= |s| && s[p] == a && s[p + 1] == b && (s[p + 2] == ':' || s[p + 2] == '：') then
        // the greedy `\s*` first takes the whole run of whitespace
        var q := SkipSpace(s, p + 3);
        if q < |s| then
          var m := FirstFrom(s, '\n', q);
          Some(Match(p, q, m, m))
        else
          // the run reaches the end: `\s*` gives back characters until `[^\n]+` can take one
          match LastNonNewline(s, p + 3, q)
          case None => None
          case Some(k) => Some(Match(p, k, k + 1, k + 1))
      else None
  }

  /** Whenever the declarative reading has a match at `p`, the engine finds one there. */
  lemma MatchAtComplete(pat: Pattern, s: string, p: nat, gs: nat, ge: nat, e: nat)
    requires p <= |s| && Spec(pat, s, p, gs, ge, e)
    ensures MatchAt(pat, s, p).Some?
  {
    match pat
    case Bracket =>
      var j := FirstFrom(s, ']', p + 1);
      assert j == ge;
    case Keyword(a, b) =>
      var q := SkipSpace(s, p + 3);
      if q == |s| {
        assert s[gs] != '\n';
      }
  }

  /**
   * Greedy priority: among all declarative matches at `p`, the engine takes the
   * one whose `\s*` is longest and, for that, whose group is longest.
   */
  lemma MatchAtGreedy(pat: Pattern, s: string, p: nat, gs: nat, ge: nat, e: nat)
    requires p <= |s| && Spec(pat, s, p, gs, ge, e)
    requires MatchAt(pat, s, p).Some?
    ensures gs < MatchAt(pat, s, p).value.groupStart
      || (gs == MatchAt(pat, s, p).value.groupStart && ge <= MatchAt(pat, s, p).value.groupEnd)
  {
    match pat
    case Bracket =>
      var j := FirstFrom(s, ']', p + 1);
      assert j == ge;
    case Keyword(a, b) =>
      var q := SkipSpace(s, p + 3);
      if q < |s| {
        assert !PySpace(s[q]);
        var m := FirstFrom(s, '\n', q);
      } else {
        var k := LastNonNewline(s, p + 3, q).value;
        assert s[gs] != '\n';
        assert k + 1 < |s| ==> s[k + 1] == '\n';
      }
  }

  /** `re.search` from position `i`: the leftmost position at or after `i` where the engine matches. */
  function Search(pat: Pattern, s: string, i: nat): (r: Option<Match>)
    requires i <= |s|
    ensures r.Some? ==> i <= r.value.start <= |s| && MatchAt(pat, s, r.value.start) == r
    ensures r.Some? ==> forall j :: i <= j < r.value.start ==> MatchAt(pat, s, j).None?
    ensures r.None? ==> forall j :: i <= j <= |s| ==> MatchAt(pat, s, j).None?
    decreases |s| - i
  {
    var here := MatchAt(pat, s, i);
    if here.Some? then here
    else if i == |s| then None
    else Search(pat, s, i + 1)
  }

  /** A match never is empty and never reaches past the string. */
  lemma MatchBounds(pat: Pattern, s: string, p: nat)
    requires p <= |s| && MatchAt(pat, s, p).Some?
    ensures p < MatchAt(pat, s, p).value.end <= |s|
    ensures p < MatchAt(pat, s, p).value.groupStart < MatchAt(pat, s, p).value.groupEnd <= MatchAt(pat, s, p).value.end
  {
  }

  /** `re.sub(pat, '', s[i..])`: every non-overlapping match, leftmost first, is deleted. */
  function SubFrom(pat: Pattern, s: string, i: nat): string
    requires i <= |s|
    decreases |s| - i
  {
    match Search(pat, s, i)
    case None => s[i..]
    case Some(mt) =>
      MatchBounds(pat, s, mt.start);
      s[i..mt.start] + SubFrom(pat, s, mt.end)
  }

  /** Substitution shortens the text by at least one character per match, and changes nothing without one. */
  lemma {:induction false} SubFromShrinks(pat: Pattern, s: string, i: nat)
    requires i <= |s|
    ensures |SubFrom(pat, s, i)| <= |s| - i
    ensures Search(pat, s, i).None? <==> SubFrom(pat, s, i) == s[i..]
    ensures Search(pat, s, i).Some? ==> |SubFrom(pat, s, i)| < |s| - i
    decreases |s| - i
  {
    match Search(pat, s, i)
    case None =>
    case Some(mt) =>
      MatchBounds(pat, s, mt.start);
      SubFromShrinks(pat, s, mt.end);
  }

  /** The text and labels extracted from one reply. */
  datatype Parsed = Parsed(text: string, labels: Option<string>)

  /** `_default_parse` on the already stripped text, trying `pats` in order. */
  function ParseWith(pats: seq<Pattern>, text: string): (r: Parsed)
    requires Stripped(text, PySpace)
    ensures Stripped(r.text, PySpace)
    ensures r.labels.Some? ==> Stripped(r.labels.value, PySpace)
  {
    if pats == [] then Parsed(text, None)
    else
      match Search(pats[0], text, 0)
      case None => ParseWith(pats[1..], text)
      case Some(mt) =>
        MatchBounds(pats[0], text, mt.start);
        Parsed(PyStrip(SubFrom(pats[0], text, 0)), Some(PyStrip(text[mt.groupStart..mt.groupEnd])))
  }

  /** `_default_parse`: the stripped reply, searched with the four fixed patterns in order. */
  function DefaultParse(content: string): (r: Parsed)
    ensures Stripped(r.text, PySpace)
  {
    ParseWith(DefaultPatterns, PyStrip(content))
  }

  /** When no pattern matches anywhere, the reply is only stripped and carries no labels. */
  lemma DefaultParseNoMatch(content: string)
    ensures DefaultParse(content).labels.None? <==>
      forall j :: 0 <= j < |DefaultPatterns| ==> Search(DefaultPatterns[j], PyStrip(content), 0).None?
    ensures DefaultParse(content).labels.None? ==> DefaultParse(content).text == PyStrip(content)
  {
    ParseWithNone(DefaultPatterns, PyStrip(content));
  }

  lemma {:induction false} ParseWithNone(pats: seq<Pattern>, text: string)
    requires Stripped(text, PySpace)
    ensures ParseWith(pats, text).labels.None? <==> forall j :: 0 <= j < |pats| ==> Search(pats[j], text, 0).None?
    ensures ParseWith(pats, text).labels.None? ==> ParseWith(pats, text).text == text
  {
    if pats != [] {
      ParseWithNone(pats[1..], text);
      assert forall j :: 1 <= j < |pats| ==> pats[j] == pats[1..][j - 1];
    }
  }

  /**
   * When pattern `j` is the first of the four with a match, the labels are its
   * first match's group stripped and the text is the reply with every match of
   * that pattern removed, then stripped.
   */
  lemma DefaultParseFirstMatch(content: string, j: nat)
    requires j < |DefaultPatterns|
    requires forall k :: 0 <= k < j ==> Search(DefaultPatterns[k], PyStrip(content), 0).None?
    requires Search(DefaultPatterns[j], PyStrip(content), 0).Some?
    ensures var text := PyStrip(content);
      var mt := Search(DefaultPatterns[j], text, 0).value;
      mt.groupStart <= mt.groupEnd <= |text|
      && DefaultParse(content) == Parsed(PyStrip(SubFrom(DefaultPatterns[j], text, 0)), Some(PyStrip(text[mt.groupStart..mt.groupEnd])))
  {
    ParseWithFirst(DefaultPatterns, PyStrip(content), j);
  }

  lemma {:induction false} ParseWithFirst(pats: seq<Pattern>, text: string, j: nat)
    requires Stripped(text, PySpace)
    requires j < |pats|
    requires forall k :: 0 <= k < j ==> Search(pats[k], text, 0).None?
    requires Search(pats[j], text, 0).Some?
    ensures var mt := Search(pats[j], text, 0).value;
      mt.groupStart <= mt.groupEnd <= |text|
      && ParseWith(pats, text) == Parsed(PyStrip(SubFrom(pats[j], text, 0)), Some(PyStrip(text[mt.groupStart..mt.groupEnd])))
  {
    var mt := Search(pats[j], text, 0).value;
    MatchBounds(pats[j], text, mt.start);
    if j > 0 {
      assert Search(pats[0], text, 0).None?;
      forall k | 0 <= k < j - 1 ensures Search(pats[1..][k], text, 0).None? {
        assert pats[1..][k] == pats[k + 1];
      }
      ParseWithFirst(pats[1..], text, j - 1);
    }
  }

  /** What the caller-supplied pattern (compiled with DOTALL and MULTILINE) did on the reply. */
  datatype RegexOutcome = InvalidPattern | NoMatch | Matched(groups: seq<Option<string>>)

  /** `_parse_generated_content`: `Err` is the `AttributeError` raised when a needed group did not take part. */
  function ParseGeneratedContent(content: string, regexPattern: Option<string>, outcome: RegexOutcome): (r: Result<Parsed, string>)
    ensures r.Ok? && r.value.labels.Some? ==> Stripped(r.value.labels.value, PySpace)
    ensures r.Ok? ==> Stripped(r.value.text, PySpace)
  {
    if regexPattern == None || regexPattern.value == [] then Ok(DefaultParse(content))
    else
      match outcome
      case InvalidPattern => Ok(DefaultParse(content))
      case NoMatch => Ok(DefaultParse(content))
      case Matched(groups) =>
        if |groups| == 0 then Ok(DefaultParse(content))
        else if groups[0].None? || (|groups| >= 2 && groups[1].None?) then
          Err("'NoneType' object has no attribute 'strip'")
        else
          Ok(Parsed(PyStrip(groups[0].value), if |groups| >= 2 then Some(PyStrip(groups[1].value)) else None))
  }

  /** The four cases that fall back to the default parser, and only those. */
  lemma ParseGeneratedContentFallback(content: string, regexPattern: Option<string>, outcome: RegexOutcome)
    ensures (regexPattern == None || regexPattern == Some([]) || outcome == InvalidPattern || outcome == NoMatch
             || outcome == Matched([]))
      ==> ParseGeneratedContent(content, regexPattern, outcome) == Ok(DefaultParse(content))
    ensures regexPattern.Some? && regexPattern.value != [] && outcome.Matched? && |outcome.groups| >= 1
      ==> (ParseGeneratedContent(content, regexPattern, outcome).Ok?
           <==> outcome.groups[0].Some? && (|outcome.groups| == 1 || outcome.groups[1].Some?))
  {
  }

  /** A custom pattern with groups: group 1 becomes the text and group 2, when the pattern has one, the labels. */
  lemma ParseGeneratedContentGroups(content: string, regex: string, groups: seq<Option<string>>)
    requires regex != [] && |groups| >= 1 && groups[0].Some?
    requires |groups| >= 2 ==> groups[1].Some?
    ensures ParseGeneratedContent(content, Some(regex), Matched(groups)).Ok?
    ensures ParseGeneratedContent(content, Some(regex), Matched(groups)).value.text == PyStrip(groups[0].value)
    ensures ParseGeneratedContent(content, Some(regex), Matched(groups)).value.labels.None? <==> |groups| == 1
  {
  }

  /** A reply ending in a bracketed list: the list becomes the labels and leaves the text. */
  lemma BracketExample(reply: string)
    requires reply == " 好 [正面] "
    ensures DefaultParse(reply) == Parsed("好", Some("正面"))
  {
    BracketExampleStrips(reply);
    BracketExampleParse(PyStrip(reply));
  }

  lemma BracketExampleParse(t: string)
    requires t == "好 [正面]" && Stripped(t, PySpace)
    ensures ParseWith(DefaultPatterns, t) == Parsed("好", Some("正面"))
  {
    BracketExampleSearch(t);
    assert DefaultPatterns[0] == Bracket;
    BracketExampleText();
    StripStripped("正面", PySpace);
  }

  lemma BracketExampleStrips(reply: string)
    requires reply == " 好 [正面] "
    ensures PyStrip(reply) == "好 [正面]"
  {
    assert PySpace(reply[0]) && PySpace(reply[7]) && !PySpace(reply[1]) && !PySpace(reply[6]);
    StripOneSpaceEach(reply);
    assert reply[1..7] == "好 [正面]";
  }

  /** A string with one whitespace character at each end and none inside them strips to its middle. */
  lemma StripOneSpaceEach(s: string)
    requires |s| >= 3 && PySpace(s[0]) && PySpace(s[|s| - 1]) && !PySpace(s[1]) && !PySpace(s[|s| - 2])
    ensures PyStrip(s) == s[1..|s| - 1]
  {
    var n := |s|;
    var a, x, b := s[..1], s[1..n - 1], s[n - 1..];
    assert s == a + x + b;
    assert AllSpace(a, PySpace) && AllSpace(b, PySpace);
    assert x[0] == s[1] && x[|x| - 1] == s[n - 2];
    StripPadded(a, x, b, PySpace);
  }

  lemma BracketExampleText()
    ensures PyStrip("好 ") == "好"
  {
    StripPadded([], "好", " ", PySpace);
    assert "好 " == [] + "好" + " ";
  }

  lemma BracketExampleSearch(t: string)
    requires t == "好 [正面]"
    ensures Search(Bracket, t, 0) == Some(Match(2, 3, 5, 6))
    ensures SubFrom(Bracket, t, 0) == "好 "
    ensures t[3..5] == "正面"
  {
    assert MatchAt(Bracket, t, 0).None?;
    assert MatchAt(Bracket, t, 1).None?;
    assert FirstFrom(t, ']', 4) == 5;
    assert FirstFrom(t, ']', 3) == 5;
    assert Search(Bracket, t, 2) == Some(Match(2, 3, 5, 6));
    assert SubFrom(Bracket, t, 6) == [];
    assert t[3..5] == "正面";
  }

  /** A reply with a "标签：" line and no brackets: the rest of that line becomes the labels. */
  lemma KeywordExample(reply: string)
    requires reply == "今天很好\n标签： 正面"
    ensures DefaultParse(reply) == Parsed("今天很好", Some("正面"))
  {
    StripStripped(reply, PySpace);
    KeywordExampleParse(PyStrip(reply));
  }

  lemma KeywordExampleParse(t: string)
    requires t == "今天很好\n标签： 正面" && Stripped(t, PySpace)
    ensures ParseWith(DefaultPatterns, t) == Parsed("今天很好", Some("正面"))
  {
    assert DefaultPatterns[0] == Bracket && DefaultPatterns[1] == Keyword('标', '签');
    KeywordExampleNoBracket(t);
    KeywordExampleSearch(t);
    assert DefaultPatterns[1..][0] == Keyword('标', '签');
    KeywordExampleText();
    StripStripped("正面", PySpace);
  }

  lemma KeywordExampleText()
    ensures PyStrip("今天很好\n") == "今天很好"
  {
    StripPadded([], "今天很好", "\n", PySpace);
    assert "今天很好\n" == [] + "今天很好" + "\n";
  }

  lemma KeywordExampleNoBracket(text: string)
    requires text == "今天很好\n标签： 正面"
    ensures Search(Bracket, text, 0).None?
  {
    assert forall j :: 0 <= j <= |text| ==> MatchAt(Bracket, text, j).None? by {
      assert '[' !in text;
    }
  }

  lemma KeywordExampleSearch(text: string)
    requires text == "今天很好\n标签： 正面"
    ensures Search(Keyword('标', '签'), text, 0) == Some(Match(5, 9, 11, 11))
    ensures SubFrom(Keyword('标', '签'), text, 0) == "今天很好\n"
    ensures text[9..11] == "正面"
  {
    var pat := Keyword('标', '签');
    assert forall j :: 0 <= j < 5 ==> MatchAt(pat, text, j).None?;
    assert SkipSpace(text, 8) == 9;
    assert FirstFrom(text, '\n', 9) == 11;
    assert MatchAt(pat, text, 5) == Some(Match(5, 9, 11, 11));
    assert Search(pat, text, 0) == Some(Match(5, 9, 11, 11));
    assert SubFrom(pat, text, 11) == [];
    assert text[..5] == "今天很好\n";
    assert text[9..11] == "正面";
  }
}
