/**
 * The content-type detector of the content viewer: a first-match cascade
 * (image, url, json, TypeScript, markdown, a language table, a generic code
 * score, text) and the label shown for its answer. The image and url tests
 * are written out; every other regular expression, and `JSON.parse`, is an
 * oracle the caller supplies.
 */
module ContentDetect {
  import opened Common
  import opened Strings
  import opened ContentUtils

  // ---------------------------------------------------------------------------
  // The answer.

  datatype Kind = Code | Markdown | Url | Image | Json | PlainText

  /** `{ type, language? }`. */
  datatype Detection = Detection(kind: Kind, language: Option<string>)

  const TypeScriptLang: string := "typescript"
  const HtmlLang: string := "html"
  const CssLang: string := "css"
  const JavaScriptLang: string := "javascript"
  const JsonLang: string := "json"

  // ---------------------------------------------------------------------------
  // The regular expressions left abstract, one constructor per expression.

  datatype Pattern =
    // the TypeScript screen
    | TsxComponent | ReactName | EsModuleLine | TsTypeDeclaration | TypeAnnotation | TypeAssertion
    // markdown
    | MdHeader | MdBullet | MdNumbered | MdBold | MdItalic | MdInlineCode | MdCodeBlock | MdQuote | MdLink
    // the language table (the JSX tag and the type assertion reuse the screen's expressions)
    | TsDeclarationLine | TsAnnotationOrReact | TsReactOrFc | TsImportLine
    | HtmlDoctype | HtmlOpeningTag | HtmlClosingTag
    | CssRuleStart | CssAtRule | CssProperty | CssBlock
    | JsDeclarationLine | JsConsole | JsBrowserGlobal | JsPromiseChain | JsArrowOrTemplate
    // the generic structure score
    | GenBrackets | GenComment | GenOperator | GenCall | GenLiteral | GenControl | GenArray | GenProperty

  /** What the detector asks the outside world: a pattern's `test` and whether `JSON.parse` succeeds. */
  datatype Oracle = Oracle(test: (Pattern, string) -> bool, parses: string -> bool)

  const TsxPatterns: seq<Pattern> :=
    [TsxComponent, ReactName, EsModuleLine, TsTypeDeclaration, TypeAnnotation, TypeAssertion]

  const MarkdownPatterns: seq<Pattern> :=
    [MdHeader, MdBullet, MdNumbered, MdBold, MdItalic, MdInlineCode, MdCodeBlock, MdQuote, MdLink]

  /** The language table, in the order it is searched. */
  const CodePatterns: seq<(Pattern, string)> :=
    [(TsDeclarationLine, TypeScriptLang), (TsAnnotationOrReact, TypeScriptLang), (TsxComponent, TypeScriptLang),
     (TsReactOrFc, TypeScriptLang), (TypeAssertion, TypeScriptLang), (TsImportLine, TypeScriptLang),
     (HtmlDoctype, HtmlLang), (HtmlOpeningTag, HtmlLang), (HtmlClosingTag, HtmlLang),
     (CssRuleStart, CssLang), (CssAtRule, CssLang), (CssProperty, CssLang), (CssBlock, CssLang),
     (JsDeclarationLine, JavaScriptLang), (JsConsole, JavaScriptLang), (JsBrowserGlobal, JavaScriptLang),
     (JsPromiseChain, JavaScriptLang), (JsArrowOrTemplate, JavaScriptLang)]

  /** Every row of the language table names one of the four languages. */
  lemma CodeLanguagesKnown()
    ensures forall i | 0 <= i < |CodePatterns| :: CodePatterns[i].1 in {TypeScriptLang, HtmlLang, CssLang, JavaScriptLang}
  {
  }

  const GenericCodePatterns: seq<Pattern> :=
    [GenBrackets, GenComment, GenOperator, GenCall, GenLiteral, GenControl, GenArray, GenProperty]

  /** `patterns.some(p => p.test(s))`. */
  predicate SomeMatch(ps: seq<Pattern>, test: (Pattern, string) -> bool, s: string)
  {
    ps != [] && (test(ps[0], s) || SomeMatch(ps[1..], test, s))
  }

  lemma {:induction false} SomeMatchIff(ps: seq<Pattern>, test: (Pattern, string) -> bool, s: string)
    ensures SomeMatch(ps, test, s) <==> exists i | 0 <= i < |ps| :: test(ps[i], s)
  {
    if ps != [] {
      SomeMatchIff(ps[1..], test, s);
      if exists i | 0 <= i < |ps| :: test(ps[i], s) {
        var i :| 0 <= i < |ps| && test(ps[i], s);
        if i > 0 { assert test(ps[1..][i - 1], s); }
      }
      if exists i | 0 <= i < |ps[1..]| :: test(ps[1..][i], s) {
        var i :| 0 <= i < |ps[1..]| && test(ps[1..][i], s);
        assert test(ps[i + 1], s);
      }
    }
  }

  /** The `for … of` over the language table: the language of the first row whose pattern matches. */
  function FirstMatch(table: seq<(Pattern, string)>, test: (Pattern, string) -> bool, s: string): (r: Option<string>)
    ensures r.None? <==> forall i | 0 <= i < |table| :: !test(table[i].0, s)
    ensures r.Some? ==>
      exists i | 0 <= i < |table| :: test(table[i].0, s) && r.value == table[i].1
        && forall j | 0 <= j < i :: !test(table[j].0, s)
  {
    if table == [] then None
    else if test(table[0].0, s) then Some(table[0].1)
    else
      var r := FirstMatch(table[1..], test, s);
      assert forall i | 0 <= i < |table| - 1 :: table[1..][i] == table[i + 1];
      assert r.Some? ==> (
        var i :| 0 <= i < |table[1..]| && test(table[1..][i].0, s) && r.value == table[1..][i].1
                 && forall j | 0 <= j < i :: !test(table[1..][j].0, s);
        test(table[i + 1].0, s) && forall j | 0 <= j < i + 1 :: !test(table[j].0, s));
      r
  }

  /** `patterns.reduce((score, p) => score + (p.test(s) ? 1 : 0), 0)`, folded from the left. */
  function CodeScore(ps: seq<Pattern>, test: (Pattern, string) -> bool, s: string): (n: nat)
    ensures n <= |ps|
  {
    if ps == [] then 0
    else CodeScore(ps[..|ps| - 1], test, s) + (if test(ps[|ps| - 1], s) then 1 else 0)
  }

  /** The indices of the patterns that match. */
  function MatchedIndices(ps: seq<Pattern>, test: (Pattern, string) -> bool, s: string): set<nat>
  {
    set i: nat | i < |ps| && test(ps[i], s)
  }

  /** The score counts the patterns that match. */
  lemma {:induction false} CodeScoreCounts(ps: seq<Pattern>, test: (Pattern, string) -> bool, s: string)
    ensures CodeScore(ps, test, s) == |MatchedIndices(ps, test, s)|
  {
    if ps != [] {
      var n := |ps| - 1;
      var init := ps[..n];
      CodeScoreCounts(init, test, s);
      var before := MatchedIndices(init, test, s);
      var all := MatchedIndices(ps, test, s);
      assert n !in before;
      if test(ps[n], s) {
        assert all == before + {n};
      } else {
        assert all == before;
      }
    }
  }

  // ---------------------------------------------------------------------------
  // The tests written out.

  function LowerChar(c: char): char
  {
    if 'A' <= c <= 'Z' then (c as int + 32) as char else c
  }

  /** ASCII case folding, which is all a non-unicode `/i` expression does to ASCII letters. */
  function Lower(s: string): (r: string)
    ensures |r| == |s| && forall i | 0 <= i < |s| :: r[i] == LowerChar(s[i])
  {
    seq(|s|, i requires 0 <= i < |s| => LowerChar(s[i]))
  }

  const ImageExtensions: seq<string> := ["jpg", "jpeg", "png", "gif", "bmp", "webp", "svg"]

  /** `/\.(jpg|jpeg|png|gif|bmp|webp|svg)$/i`. */
  predicate EndsWithImageExtension(t: string)
  {
    exists e | e in ImageExtensions :: EndsWith(Lower(t), "." + e)
  }

  /** The length of a leading `https?://`, in any letter case; 0 when there is none. */
  function SchemeLength(t: string): (n: nat)
    ensures n == 0 || n == 7 || n == 8
  {
    if StartsWith(Lower(t), "https://") then 8
    else if StartsWith(Lower(t), "http://") then 7
    else 0
  }

  /**
   * `t[scheme..q]` is one or more characters, a dot and an image extension,
   * and `q` is the end of `t` or a `?`.
   */
  predicate ImageUrlEnd(t: string, scheme: nat, q: int)
  {
    scheme < q <= |t| && (q == |t| || t[q] == '?')
    && exists e | e in ImageExtensions :: |e| + 1 < q - scheme && EndsWith(Lower(t[..q]), "." + e)
  }

  /** `/^https?:\/\/[^\s]+\.(jpg|jpeg|png|gif|bmp|webp|svg)(\?[^\s]*)?$/i`. */
  predicate MatchesImageUrl(t: string)
  {
    SchemeLength(t) > 0 && NoWhitespace(t) && exists q | 0 <= q <= |t| :: ImageUrlEnd(t, SchemeLength(t), q)
  }

  predicate IsImage(t: string)
  {
    EndsWithImageExtension(t) || MatchesImageUrl(t)
  }

  /** A match of the image URL expression ends at the end of the text or at a `?`. */
  lemma ImageUrlEndCases(t: string, scheme: nat, q: int)
    requires ImageUrlEnd(t, scheme, q)
    ensures EndsWithImageExtension(t) || (q < |t| && t[q] == '?')
  {
    if q == |t| {
      var e :| e in ImageExtensions && EndsWith(Lower(t[..q]), "." + e);
      assert t[..q] == t;
    }
  }

  /** The image URL expression only adds addresses with a query part to the extension test. */
  lemma ImageUrlBeyondExtension(t: string)
    requires MatchesImageUrl(t) && !EndsWithImageExtension(t)
    ensures '?' in t
  {
    var q :| 0 <= q <= |t| && ImageUrlEnd(t, SchemeLength(t), q);
    ImageUrlEndCases(t, SchemeLength(t), q);
    assert t[q] == '?';
  }

  /** The `{…}` or `[…]` delimiters the json answer also requires. */
  predicate JsonDelimited(t: string)
  {
    (StartsWith(t, "{") && EndsWith(t, "}")) || (StartsWith(t, "[") && EndsWith(t, "]"))
  }

  const CodeKeywords: seq<string> := ["import", "export", "function", "const", "let", "var"]

  /** `kw` occurs at `i` and a whitespace character follows it. */
  predicate KeywordAt(s: string, kw: string, i: int)
  {
    OccursAt(s, kw, i) && i + |kw| < |s| && IsWhitespace(s[i + |kw|])
  }

  /** `/[{}();]|import\s|export\s|function\s|const\s|let\s|var\s/`. */
  predicate HasCodeCharacteristics(s: string)
  {
    (exists i | 0 <= i < |s| :: s[i] in "{}();")
    || exists kw, i | kw in CodeKeywords && 0 <= i < |s| :: KeywordAt(s, kw, i)
  }

  // ---------------------------------------------------------------------------
  // The 50-line sample.

  const SampleLines: nat := 50

  /** The first 50 lines when there are more, else the text itself. */
  function Sample(t: string): string
  {
    var lines := Split(t, '\n');
    if |lines| > SampleLines then Join(lines[..SampleLines], '\n') else t
  }

  /** The sample is a prefix of the text, and the whole text when it has at most 50 lines. */
  lemma SampleIsPrefix(t: string)
    ensures StartsWith(t, Sample(t))
    ensures |Split(t, '\n')| <= SampleLines ==> Sample(t) == t
    ensures |Split(t, '\n')| > SampleLines ==> Sample(t) == Join(Split(t, '\n')[..SampleLines], '\n')
  {
    var lines := Split(t, '\n');
    JoinSplit(t, '\n');
    if |lines| > SampleLines {
      JoinSplitAt(lines, '\n', SampleLines);
      var p := Join(lines[..SampleLines], '\n');
      assert t == p + (['\n'] + Join(lines[SampleLines..], '\n'));
      assert t[..|p|] == p;
    } else {
      assert t[..|t|] == t;
    }
  }

  // ---------------------------------------------------------------------------
  // The cascade.

  /** The tests after json, all on the trimmed sample `s`. */
  function ClassifySample(s: string, o: Oracle): (d: Detection)
    ensures d.kind in {Code, Markdown, PlainText}
    ensures d.kind == Code <==> d.language.Some?
    ensures d.kind == Code ==> d.language.value in {TypeScriptLang, HtmlLang, CssLang, JavaScriptLang}
  {
    if SomeMatch(TsxPatterns, o.test, s) then Detection(Code, Some(TypeScriptLang))
    else if !HasCodeCharacteristics(s) && SomeMatch(MarkdownPatterns, o.test, s) then Detection(Markdown, None)
    else
      var lang := FirstMatch(CodePatterns, o.test, s);
      if lang.Some? then
        CodeLanguagesKnown();
        Detection(Code, lang)
      else if CodeScore(GenericCodePatterns, o.test, s) >= 3 then Detection(Code, Some(JavaScriptLang))
      else Detection(PlainText, None)
  }

  /** `detectContentType(content)`. */
  function DetectContentType(content: string, o: Oracle): (d: Detection)
    ensures d.kind == Code || d.kind == Json <==> d.language.Some?
    ensures d.kind == Json ==> d.language == Some(JsonLang)
    ensures d.kind == Code ==> d.language.value in {TypeScriptLang, HtmlLang, CssLang, JavaScriptLang}
  {
    var t := Trim(content);
    if IsImage(t) then Detection(Image, None)
    else if MatchesUrlPattern(t) then Detection(Url, None)
    else if o.parses(t) && JsonDelimited(t) then Detection(Json, Some(JsonLang))
    else ClassifySample(Trim(Sample(t)), o)
  }

  /** The first three answers, which look at the whole trimmed content, each exactly when its test decides. */
  lemma DetectWholeContent(content: string, o: Oracle)
    ensures var t, d := Trim(content), DetectContentType(content, o);
      && (d.kind == Image <==> IsImage(t))
      && (d.kind == Url <==> !IsImage(t) && IsUrl(content))
      && (d.kind == Json <==> !IsImage(t) && !IsUrl(content) && o.parses(t) && JsonDelimited(t))
  {
  }

  /** An image extension wins even over text that is not a URL at all. */
  lemma ImageExtensionWins(content: string, o: Oracle)
    requires EndsWithImageExtension(Trim(content))
    ensures DetectContentType(content, o) == Detection(Image, None)
  {
  }

  /** Text that parses but is not delimited by braces or brackets falls through to the later tests. */
  lemma UndelimitedJsonFallsThrough(content: string, o: Oracle)
    requires var t := Trim(content); !IsImage(t) && !IsUrl(content) && !JsonDelimited(t)
    ensures DetectContentType(content, o) == ClassifySample(Trim(Sample(Trim(content))), o)
    ensures DetectContentType(content, o).kind != Json
  {
  }

  /** Past json, only the trimmed sample matters. */
  lemma LaterTestsSeeOnlySample(c1: string, c2: string, o: Oracle)
    requires DetectContentType(c1, o).kind !in {Image, Url, Json}
    requires DetectContentType(c2, o).kind !in {Image, Url, Json}
    requires Trim(Sample(Trim(c1))) == Trim(Sample(Trim(c2)))
    ensures DetectContentType(c1, o) == DetectContentType(c2, o)
  {
  }

  /** The TypeScript screen runs before markdown, whatever markdown would say. */
  lemma TypeScriptBeforeMarkdown(s: string, o: Oracle, i: nat)
    requires i < |TsxPatterns| && o.test(TsxPatterns[i], s)
    ensures ClassifySample(s, o) == Detection(Code, Some(TypeScriptLang))
  {
    SomeMatchIff(TsxPatterns, o.test, s);
  }

  /** Markdown is never the answer for a sample with code characters or keywords. */
  lemma NoMarkdownWithCodeCharacteristics(s: string, o: Oracle)
    requires HasCodeCharacteristics(s)
    ensures ClassifySample(s, o).kind != Markdown
  {
  }

  /**
   * Markdown is the answer exactly when no TypeScript pattern matches, the
   * sample has no code characteristics and some markdown pattern matches.
   */
  lemma MarkdownIff(s: string, o: Oracle)
    ensures ClassifySample(s, o).kind == Markdown <==>
      (forall i | 0 <= i < |TsxPatterns| :: !o.test(TsxPatterns[i], s))
      && !HasCodeCharacteristics(s)
      && exists i | 0 <= i < |MarkdownPatterns| :: o.test(MarkdownPatterns[i], s)
  {
    SomeMatchIff(TsxPatterns, o.test, s);
    SomeMatchIff(MarkdownPatterns, o.test, s);
  }

  /**
   * Past TypeScript and markdown, the first matching row of the language
   * table decides; with none, the answer is javascript code exactly when at
   * least three of the eight structural patterns match, and text otherwise.
   */
  lemma LanguageTableThenScore(s: string, o: Oracle)
    requires !SomeMatch(TsxPatterns, o.test, s)
    requires HasCodeCharacteristics(s) || !SomeMatch(MarkdownPatterns, o.test, s)
    ensures var d := ClassifySample(s, o);
      && (forall i | 0 <= i < |CodePatterns| && o.test(CodePatterns[i].0, s)
            && (forall j | 0 <= j < i :: !o.test(CodePatterns[j].0, s)) ::
            d == Detection(Code, Some(CodePatterns[i].1)))
      && ((forall i | 0 <= i < |CodePatterns| :: !o.test(CodePatterns[i].0, s)) ==>
            (d == if |MatchedIndices(GenericCodePatterns, o.test, s)| >= 3
                  then Detection(Code, Some(JavaScriptLang)) else Detection(PlainText, None)))
  {
    CodeScoreCounts(GenericCodePatterns, o.test, s);
    var r := FirstMatch(CodePatterns, o.test, s);
    forall i | 0 <= i < |CodePatterns| && o.test(CodePatterns[i].0, s)
        && (forall j | 0 <= j < i :: !o.test(CodePatterns[j].0, s))
      ensures r == Some(CodePatterns[i].1)
    {
      var k :| 0 <= k < |CodePatterns| && o.test(CodePatterns[k].0, s) && r.value == CodePatterns[k].1
        && forall j | 0 <= j < k :: !o.test(CodePatterns[j].0, s);
      assert k == i;
    }
  }

  // ---------------------------------------------------------------------------
  // The label.

  /** `getTypeLabel()`: a falsy (absent or empty) language adds nothing after "Código ". */
  function TypeLabel(d: Detection): (text: string)
    ensures text != []
  {
    match d.kind
    case Code => "Código " + (if d.language.Some? && d.language.value != "" then "(" + d.language.value + ")" else "")
    case Json => "JSON"
    case Markdown => "Markdown"
    case Url => "Enlace"
    case Image => "Imagen"
    case PlainText => "Texto"
  }

  /** Different kinds get different labels, and a code label names its language. */
  lemma TypeLabelsDistinct(d1: Detection, d2: Detection)
    ensures d1.kind != d2.kind ==> TypeLabel(d1) != TypeLabel(d2)
    ensures d1.kind == Code && d1.language.Some? && d1.language.value != "" ==>
      TypeLabel(d1) == "Código (" + d1.language.value + ")"
  {
    assert TypeLabel(d1)[0] != TypeLabel(d2)[0] || d1.kind == d2.kind;
  }
}
