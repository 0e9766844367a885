/**
 * Rule documents are cut into chunks for the vector store: the Markdown is
 * split at its `##`/`###` headers, a section whose estimated token count
 * exceeds the chunk size is cut further at blank lines with a trailing
 * overlap, and every piece gets metadata and an id derived from its file,
 * its section title and its position in the section.
 *
 * The regular-expression searches (header lines, the severity and "Applies
 * to" markers), keyword extraction, `Path(...).stem` of a headerless text
 * and the MD5 digest are parameters collected in `Scanners`.
 */
module Chunker {
  import opened Wrappers
  import opened Text
  import opened Models

  /** The chunker's settings: `chunk_size` and `chunk_overlap`, in tokens. */
  datatype Config = Config(chunkSize: int, chunkOverlap: int)

  /** The settings' defaults. */
  const DefaultChunkSize: int := 800
  const DefaultChunkOverlap: int := 100

  /** The constructor: each argument `or` the settings' value, so a zero overlap falls back too. */
  function MakeConfig(chunkSize: Option<int>, chunkOverlap: Option<int>,
                      settingsSize: int, settingsOverlap: int): (c: Config)
    ensures chunkSize.Some? && chunkSize.value != 0 ==> c.chunkSize == chunkSize.value
    ensures chunkSize.None? || chunkSize == Some(0) ==> c.chunkSize == settingsSize
    ensures chunkOverlap.Some? && chunkOverlap.value != 0 ==> c.chunkOverlap == chunkOverlap.value
    ensures chunkOverlap.None? || chunkOverlap == Some(0) ==> c.chunkOverlap == settingsOverlap
  {
    Config(OrDefault(chunkSize, settingsSize), OrDefault(chunkOverlap, settingsOverlap))
  }

  /** `_estimate_tokens`: about four characters per token, rounded down. */
  function Tokens(text: string): (n: nat)
    ensures 4 * n <= |text| < 4 * n + 4
  {
    |text| / 4
  }

  /** `sum(_estimate_tokens(p) for p in ps)` */
  function TokenSum(ps: seq<string>): nat
    decreases |ps|
  {
    if |ps| == 0 then 0 else TokenSum(ps[..|ps| - 1]) + Tokens(ps[|ps| - 1])
  }

  const ParagraphBreak := "\n\n"

  // ---------------------------------------------------------------------------
  // Overlap

  /**
   * `_get_overlap_paragraphs`: trailing paragraphs are taken, last first, while
   * their tokens fit in `budget`; the first one that does not fit stops it.
   */
  function Overlap(ps: seq<string>, budget: int): seq<string>
    decreases |ps|
  {
    if |ps| == 0 || Tokens(ps[|ps| - 1]) > budget then []
    else Overlap(ps[..|ps| - 1], budget - Tokens(ps[|ps| - 1])) + [ps[|ps| - 1]]
  }

  /**
   * `r` is a suffix of `ps` whose tokens fit in `budget`, and the paragraph
   * before it (if any) would not have fitted.
   */
  ghost predicate OverlapFits(ps: seq<string>, budget: int, r: seq<string>) {
    IsSuffix(r, ps)
    && (|r| > 0 ==> TokenSum(r) <= budget)
    && (|r| < |ps| ==> TokenSum(r) + Tokens(ps[|ps| - |r| - 1]) > budget)
  }

  /** The overlap is the longest suffix of the paragraphs within the budget. */
  lemma {:induction false} OverlapCorrect(ps: seq<string>, budget: int)
    ensures OverlapFits(ps, budget, Overlap(ps, budget))
    decreases |ps|
  {
    if |ps| > 0 && Tokens(ps[|ps| - 1]) <= budget {
      var init, last := ps[..|ps| - 1], ps[|ps| - 1];
      var o := Overlap(init, budget - Tokens(last));
      assert Overlap(ps, budget) == o + [last];
      OverlapCorrect(init, budget - Tokens(last));
      OverlapExtend(ps, budget, o);
    } else {
      assert Overlap(ps, budget) == [];
      assert ps[|ps|..] == [];
    }
  }

  /** The overlap is a suffix of the chunk it is taken from. */
  lemma OverlapSuffix(ps: seq<string>, budget: int)
    ensures IsSuffix(Overlap(ps, budget), ps)
  {
    OverlapCorrect(ps, budget);
  }

  /** Taking the last paragraph in front of the overlap of the others keeps the properties. */
  lemma OverlapExtend(ps: seq<string>, budget: int, o: seq<string>)
    requires |ps| > 0 && Tokens(ps[|ps| - 1]) <= budget
    requires OverlapFits(ps[..|ps| - 1], budget - Tokens(ps[|ps| - 1]), o)
    ensures OverlapFits(ps, budget, o + [ps[|ps| - 1]])
  {
    var init, last := ps[..|ps| - 1], ps[|ps| - 1];
    TokenSumSnoc(o, last);
    assert ps == init + [last];
    SuffixStep(init, o, o, last);
  }

  /** Appending a paragraph adds its tokens. */
  lemma TokenSumSnoc(ps: seq<string>, p: string)
    ensures TokenSum(ps + [p]) == TokenSum(ps) + Tokens(p)
  {
    assert (ps + [p])[..|ps|] == ps;
  }

  /** The loop of `_get_overlap_paragraphs`, walking the paragraphs backwards. */
  method GetOverlapParagraphs(paragraphs: seq<string>, chunkOverlap: int) returns (overlapParas: seq<string>)
    ensures overlapParas == Overlap(paragraphs, chunkOverlap)
  {
    overlapParas := [];
    var overlapSize := 0;
    var i := |paragraphs|;
    assert paragraphs[..i] == paragraphs;
    while i > 0
      invariant 0 <= i <= |paragraphs|
      invariant overlapSize == TokenSum(overlapParas)
      invariant Overlap(paragraphs, chunkOverlap)
                == Overlap(paragraphs[..i], chunkOverlap - overlapSize) + overlapParas
      decreases i
    {
      var para := paragraphs[i - 1];
      var paraSize := Tokens(para);
      if overlapSize + paraSize > chunkOverlap {
        break;
      }
      assert paragraphs[..i][..i - 1] == paragraphs[..i - 1];
      TokenSumCons(para, overlapParas);
      overlapParas := [para] + overlapParas;
      overlapSize := overlapSize + paraSize;
      i := i - 1;
    }
  }

  /** Putting a paragraph in front adds its tokens. */
  lemma {:induction false} TokenSumCons(p: string, ps: seq<string>)
    ensures TokenSum([p] + ps) == Tokens(p) + TokenSum(ps)
    decreases |ps|
  {
    if |ps| > 0 {
      TokenSumCons(p, ps[..|ps| - 1]);
      assert ([p] + ps)[..|ps|] == [p] + ps[..|ps| - 1];
    }
  }

  // ---------------------------------------------------------------------------
  // Splitting a large section

  /** The loop state of `_split_large_section`. */
  datatype Pending = Pending(chunks: seq<string>, current: seq<string>, size: int)

  /**
   * One paragraph: if it would push a non-empty chunk past the chunk size, the
   * chunk is emitted and a new one starts with the overlap and the paragraph;
   * otherwise the paragraph joins the current chunk.
   */
  function Step(p: Pending, para: string, c: Config): Pending {
    if p.size + Tokens(para) > c.chunkSize && |p.current| > 0 then
      var next := Overlap(p.current, c.chunkOverlap) + [para];
      Pending(p.chunks + [Join(p.current, ParagraphBreak)], next, TokenSum(next))
    else
      Pending(p.chunks, p.current + [para], p.size + Tokens(para))
  }

  function Run(paras: seq<string>, c: Config): Pending
    decreases |paras|
  {
    if |paras| == 0 then Pending([], [], 0)
    else Step(Run(paras[..|paras| - 1], c), paras[|paras| - 1], c)
  }

  function Finish(p: Pending): seq<string> {
    if |p.current| > 0 then p.chunks + [Join(p.current, ParagraphBreak)] else p.chunks
  }

  /** The paragraphs of a section: the pieces between blank lines. */
  function Paragraphs(content: string): (ps: seq<string>)
    ensures |ps| >= 1
  {
    SplitOn(content, ParagraphBreak)
  }

  /** What `_split_large_section` returns. */
  function LargeSectionChunks(content: string, c: Config): seq<string> {
    Finish(Run(Paragraphs(content), c))
  }

  /** `text` is a run of consecutive paragraphs of `paras`, joined by blank lines. */
  ghost predicate MadeOf(text: string, paras: seq<string>) {
    exists i, j :: 0 <= i < j <= |paras| && text == Join(paras[i..j], ParagraphBreak)
  }

  /**
   * The loop keeps the running size equal to the current chunk's tokens and
   * never leaves the current chunk empty after a paragraph.
   */
  lemma {:induction false} RunSize(paras: seq<string>, c: Config)
    ensures Run(paras, c).size == TokenSum(Run(paras, c).current)
    ensures |paras| > 0 ==> |Run(paras, c).current| > 0
    decreases |paras|
  {
    if |paras| > 0 {
      RunSize(paras[..|paras| - 1], c);
      StepSize(Run(paras[..|paras| - 1], c), paras[|paras| - 1], c);
    }
  }

  /** One step keeps the running size equal to the current chunk's tokens, and the chunk non-empty. */
  lemma StepSize(p: Pending, para: string, c: Config)
    requires p.size == TokenSum(p.current)
    ensures Step(p, para, c).size == TokenSum(Step(p, para, c).current)
    ensures |Step(p, para, c).current| > 0
  {
    if !(p.size + Tokens(para) > c.chunkSize && |p.current| > 0) {
      TokenSumSnoc(p.current, para);
    }
  }

  /**
   * The current chunk is always the last paragraphs read, in order: the
   * overlap is a suffix of the chunk it was taken from.
   */
  lemma {:induction false} RunCurrent(paras: seq<string>, c: Config)
    ensures IsSuffix(Run(paras, c).current, paras)
    decreases |paras|
  {
    if |paras| > 0 {
      var init, para := paras[..|paras| - 1], paras[|paras| - 1];
      RunCurrent(init, c);
      StepCurrent(Run(init, c), para, c, init);
      SnocInit(paras);
    }
  }

  /** One step keeps the current chunk a suffix of the paragraphs read. */
  lemma StepCurrent(p: Pending, para: string, c: Config, init: seq<string>)
    requires IsSuffix(p.current, init)
    ensures IsSuffix(Step(p, para, c).current, init + [para])
  {
    var cur := p.current;
    var next := Step(p, para, c).current;
    if p.size + Tokens(para) > c.chunkSize && |cur| > 0 {
      var ov := Overlap(cur, c.chunkOverlap);
      OverlapSuffix(cur, c.chunkOverlap);
      SuffixStep(init, cur, ov, para);
      assert next == ov + [para];
    } else {
      SuffixStep(init, cur, cur, para);
      assert next == cur + [para];
    }
  }

  /** A sequence is its front followed by its last element. */
  lemma SnocInit<T>(xs: seq<T>)
    requires |xs| > 0
    ensures xs == xs[..|xs| - 1] + [xs[|xs| - 1]]
  {
  }

  /** `xs` is a suffix of `ys`. */
  ghost predicate IsSuffix<T>(xs: seq<T>, ys: seq<T>) {
    |xs| <= |ys| && xs == ys[|ys| - |xs|..]
  }

  /** A suffix of a suffix of `xs`, followed by `x`, is a suffix of `xs + [x]`. */
  lemma SuffixStep<T>(xs: seq<T>, ys: seq<T>, zs: seq<T>, x: T)
    requires IsSuffix(ys, xs) && IsSuffix(zs, ys)
    ensures IsSuffix(zs + [x], xs + [x])
  {
    assert zs == xs[|xs| - |zs|..];
  }

  /** A run of consecutive paragraphs stays one when more paragraphs follow. */
  lemma MadeOfPrefix(text: string, paras: seq<string>, n: nat)
    requires n <= |paras| && MadeOf(text, paras[..n])
    ensures MadeOf(text, paras)
  {
    var i, j :| 0 <= i < j <= n && text == Join(paras[..n][i..j], ParagraphBreak);
    assert paras[..n][i..j] == paras[i..j];
  }

  /** The last `n` paragraphs, joined by blank lines, are a run of consecutive paragraphs. */
  lemma MadeOfSuffix(text: string, paras: seq<string>, cur: seq<string>)
    requires IsSuffix(cur, paras) && |cur| > 0 && text == Join(cur, ParagraphBreak)
    ensures MadeOf(text, paras)
  {
    assert cur == paras[|paras| - |cur|..|paras|];
  }

  /** Every chunk the loop emits is a run of consecutive input paragraphs joined by blank lines. */
  lemma {:induction false} RunChunks(paras: seq<string>, c: Config)
    ensures forall k :: 0 <= k < |Run(paras, c).chunks| ==> MadeOf(Run(paras, c).chunks[k], paras)
    decreases |paras|
  {
    if |paras| > 0 {
      var init, para := paras[..|paras| - 1], paras[|paras| - 1];
      RunChunks(init, c);
      RunCurrent(init, c);
      StepChunks(Run(init, c), para, c, init);
      SnocInit(paras);
    }
  }

  /** One step emits, if anything, the current chunk, a run of the paragraphs read. */
  lemma StepChunks(p: Pending, para: string, c: Config, init: seq<string>)
    requires forall k :: 0 <= k < |p.chunks| ==> MadeOf(p.chunks[k], init)
    requires IsSuffix(p.current, init)
    ensures forall k :: 0 <= k < |Step(p, para, c).chunks| ==> MadeOf(Step(p, para, c).chunks[k], init + [para])
  {
    var ps := init + [para];
    var r := Step(p, para, c);
    assert ps[..|init|] == init;
    forall k | 0 <= k < |r.chunks|
      ensures MadeOf(r.chunks[k], ps)
    {
      if k < |p.chunks| {
        assert r.chunks[k] == p.chunks[k];
      } else {
        assert r.chunks[k] == Join(p.current, ParagraphBreak) && |p.current| > 0;
        MadeOfSuffix(r.chunks[k], init, p.current);
      }
      MadeOfPrefix(r.chunks[k], ps, |init|);
    }
  }

  /**
   * A large section yields at least one chunk, each a run of consecutive
   * paragraphs of the section joined by blank lines.
   */
  lemma LargeSectionChunksMadeOfParagraphs(content: string, c: Config)
    ensures |LargeSectionChunks(content, c)| >= 1
    ensures forall k :: 0 <= k < |LargeSectionChunks(content, c)| ==>
              MadeOf(LargeSectionChunks(content, c)[k], Paragraphs(content))
  {
    var paras := Paragraphs(content);
    RunSize(paras, c);
    RunCurrent(paras, c);
    RunChunks(paras, c);
    var p := Run(paras, c);
    var r := LargeSectionChunks(content, c);
    assert r == p.chunks + [Join(p.current, ParagraphBreak)];
    forall k | 0 <= k < |r|
      ensures MadeOf(r[k], paras)
    {
      if k == |p.chunks| {
        assert r[k] == Join(p.current, ParagraphBreak);
        MadeOfSuffix(r[k], paras, p.current);
      } else {
        assert r[k] == p.chunks[k];
      }
    }
  }

  /** While everything fits, the loop only gathers paragraphs into one chunk. */
  lemma {:induction false} RunFits(paras: seq<string>, c: Config)
    requires TokenSum(paras) <= c.chunkSize
    ensures Run(paras, c) == Pending([], paras, TokenSum(paras))
    decreases |paras|
  {
    if |paras| > 0 {
      var init := paras[..|paras| - 1];
      RunFits(init, c);
      assert init + [paras[|paras| - 1]] == paras;
    }
  }

  /** A section whose paragraphs fit in one chunk comes back whole. */
  lemma LargeSectionFits(content: string, c: Config)
    requires TokenSum(Paragraphs(content)) <= c.chunkSize
    ensures LargeSectionChunks(content, c) == [content]
  {
    RunFits(Paragraphs(content), c);
    JoinSplitOn(content, ParagraphBreak);
  }

  /** `_split_large_section`: the paragraph loop. */
  method SplitLargeSection(content: string, c: Config) returns (chunks: seq<string>)
    ensures chunks == LargeSectionChunks(content, c)
  {
    var paragraphs := Paragraphs(content);
    chunks := [];
    var currentChunk: seq<string> := [];
    var currentSize := 0;
    for i := 0 to |paragraphs|
      invariant Pending(chunks, currentChunk, currentSize) == Run(paragraphs[..i], c)
    {
      assert paragraphs[..i + 1][..i] == paragraphs[..i];
      var para := paragraphs[i];
      var paraSize := Tokens(para);
      if currentSize + paraSize > c.chunkSize && |currentChunk| > 0 {
        chunks := chunks + [Join(currentChunk, ParagraphBreak)];
        var overlapParas := GetOverlapParagraphs(currentChunk, c.chunkOverlap);
        currentChunk := overlapParas + [para];
        currentSize := TokenSum(currentChunk);
      } else {
        currentChunk := currentChunk + [para];
        currentSize := currentSize + paraSize;
      }
    }
    assert paragraphs[..|paragraphs|] == paragraphs;
    if |currentChunk| > 0 {
      chunks := chunks + [Join(currentChunk, ParagraphBreak)];
    }
  }

  // ---------------------------------------------------------------------------
  // Sections

  /**
   * One match of the header pattern `^(#{2,3})\s+(.+)$`: where it starts and
   * ends in the text, the number of `#` and the title group as matched.
   */
  datatype HeaderMatch = HeaderMatch(start: nat, end: nat, hashes: nat, title: string)

  /** What `finditer` guarantees: matches in order, non-overlapping, inside the text, two or three `#`. */
  predicate ValidMatches(content: string, ms: seq<HeaderMatch>) {
    (forall k :: 0 <= k < |ms| ==> ms[k].start <= ms[k].end <= |content| && 2 <= ms[k].hashes <= 3)
    && (forall k :: 0 <= k < |ms| - 1 ==> ms[k].end <= ms[k + 1].start)
  }

  datatype Section = Section(title: string, content: string, level: nat)

  /** The text of the `k`-th section runs from the end of its header to the start of the next one. */
  function SectionEnd(content: string, ms: seq<HeaderMatch>, k: nat): (e: nat)
    requires ValidMatches(content, ms) && k < |ms|
    ensures ms[k].end <= e <= |content|
  {
    if k + 1 < |ms| then ms[k + 1].start else |content|
  }

  function SectionAt(content: string, ms: seq<HeaderMatch>, k: nat): Section
    requires ValidMatches(content, ms) && k < |ms|
  {
    Section(Strip(ms[k].title), Strip(content[ms[k].end..SectionEnd(content, ms, k)]), ms[k].hashes)
  }

  /** The one section of a text without headers: titled by `stem` of its first 50 characters, or `root`. */
  function WholeSection(content: string, stem: string -> string): Section {
    Section(if |content| > 0 then stem(content[..if |content| < 50 then |content| else 50]) else "root",
            content, 1)
  }

  /** `_split_by_headers` */
  method SplitByHeaders(content: string, ms: seq<HeaderMatch>, stem: string -> string)
    returns (sections: seq<Section>)
    requires ValidMatches(content, ms)
    ensures |ms| == 0 ==> sections == [WholeSection(content, stem)]
    ensures |ms| > 0 ==> |sections| == |ms|
                         && forall k :: 0 <= k < |ms| ==> sections[k] == SectionAt(content, ms, k)
  {
    if |ms| == 0 {
      return [WholeSection(content, stem)];
    }
    sections := HeaderSections(content, ms);
  }

  /** The loop of `_split_by_headers` over the header matches. */
  method HeaderSections(content: string, ms: seq<HeaderMatch>) returns (sections: seq<Section>)
    requires ValidMatches(content, ms)
    ensures |sections| == |ms| && forall k :: 0 <= k < |ms| ==> sections[k] == SectionAt(content, ms, k)
  {
    sections := [];
    for i := 0 to |ms|
      invariant |sections| == i
      invariant forall k :: 0 <= k < i ==> sections[k] == SectionAt(content, ms, k)
    {
      var section := ReadSection(content, ms, i);
      sections := sections + [section];
    }
  }

  /** One iteration: the title, the level, and the stripped text up to the next header. */
  method ReadSection(content: string, ms: seq<HeaderMatch>, i: nat) returns (section: Section)
    requires ValidMatches(content, ms) && i < |ms|
    ensures section == SectionAt(content, ms, i)
  {
    var title := Strip(ms[i].title);
    var level := ms[i].hashes;
    var start := ms[i].end;
    var end := if i + 1 < |ms| then ms[i + 1].start else |content|;
    assert end == SectionEnd(content, ms, i);
    section := Section(title, Strip(content[start..end]), level);
  }

  /**
   * Each section under a header is a stripped piece of the text between its
   * header and the next, at level 2 or 3; the text before the first header
   * belongs to no section.
   */
  lemma SectionAtShape(content: string, ms: seq<HeaderMatch>, k: nat)
    requires ValidMatches(content, ms) && k < |ms|
    ensures var s := SectionAt(content, ms, k);
            (s.level == 2 || s.level == 3)
            && (exists i :: OccursAt(content[ms[k].end..SectionEnd(content, ms, k)], s.content, i))
            && (|s.content| > 0 ==> !IsSpace(s.content[0]) && !IsSpace(s.content[|s.content| - 1]))
            && (|s.title| > 0 ==> !IsSpace(s.title[0]) && !IsSpace(s.title[|s.title| - 1]))
  {
    var body := content[ms[k].end..SectionEnd(content, ms, k)];
    var s := SectionAt(content, ms, k);
    assert s.content == Strip(body) && s.title == Strip(ms[k].title) && s.level == ms[k].hashes;
    StripTrims(body);
    StripTrims(ms[k].title);
  }

  // ---------------------------------------------------------------------------
  // Metadata and ids

  /** `file_stem.replace('-rules', '').replace('_', '-')` of the source file's stem. */
  function Category(sourceFile: string): string {
    Replace(Replace(Stem(FileName(sourceFile)), "-rules", ""), "_", "-")
  }

  /** A category never holds `_`, and a stem without `_` or `-rules` is the category itself. */
  lemma CategoryShape(sourceFile: string)
    ensures '_' !in Category(sourceFile)
    ensures var stem := Stem(FileName(sourceFile));
            !Contains(stem, "-rules") && '_' !in stem ==> Category(sourceFile) == stem
  {
    var stem := Stem(FileName(sourceFile));
    UnderscoresReplaced(Replace(stem, "-rules", ""));
    if !Contains(stem, "-rules") && '_' !in stem {
      ReplaceAbsent(stem, "-rules", "");
    }
  }

  /** Replacing `_` by `-` leaves no `_`, and leaves a string without `_` as it is. */
  lemma UnderscoresReplaced(s: string)
    ensures '_' !in Replace(s, "_", "-")
    ensures '_' !in s ==> Replace(s, "_", "-") == s
  {
    var r := Replace(s, "_", "-");
    ReplaceCharAt(s, '_', '-');
    forall i | 0 <= i < |r|
      ensures r[i] != '_'
    {
      assert r[i] == if s[i] == '_' then '-' else s[i];
    }
    if '_' !in s {
      forall i | 0 <= i < |s|
        ensures r[i] == s[i]
      {
        assert s[i] in s;
      }
    }
  }

  /** `pat` nowhere in `s` leaves `s` as it is. */
  lemma {:induction false} ReplaceAbsent(s: string, pat: string, rep: string)
    requires |pat| > 0 && !Contains(s, pat)
    ensures Replace(s, pat, rep) == s
    decreases |s|
  {
    if |s| > 0 {
      ReplaceAbsent(s[1..], pat, rep);
    }
  }

  /**
   * What the pattern searches of `_extract_metadata` found in a section: the
   * severity word, the "Applies to" list as written, and the keywords.
   */
  datatype Scanners = Scanners(
    headers: string -> seq<HeaderMatch>,
    severity: string -> Option<string>,
    appliesTo: string -> Option<string>,
    keywords: string -> seq<string>,
    stem: string -> string,
    digest: string -> string)

  /** `', '.join(tag.strip() for tag in text.split(','))` */
  function AppliesTo(text: string): (r: string) {
    Join(StrippedAll(Split(text, ',')), ", ")
  }

  function StrippedAll(parts: seq<string>): (r: seq<string>)
    ensures |r| == |parts| && forall k :: 0 <= k < |parts| ==> r[k] == Strip(parts[k])
  {
    seq(|parts|, k requires 0 <= k < |parts| => Strip(parts[k]))
  }

  /** The metadata keys differ from one another. */
  lemma MetadataKeysDistinct()
    ensures "title" != "level" && "title" != "source_file" && "level" != "source_file"
    ensures "severity" != "category" && "severity" != "keywords" && "category" != "keywords"
    ensures "applies_to" != "category" && "applies_to" != "keywords"
    ensures "severity" != "title" && "severity" != "level" && "severity" != "source_file"
    ensures "applies_to" != "title" && "applies_to" != "level" && "applies_to" != "source_file"
    ensures "category" != "title" && "category" != "level" && "category" != "source_file"
    ensures "keywords" != "title" && "keywords" != "level" && "keywords" != "source_file"
  {
    assert "title"[0] != "level"[0];
    assert "severity"[0] != "category"[0] && "severity"[0] != "keywords"[0] && "category"[0] != "keywords"[0];
    assert |"title"| == 5 && |"level"| == 5 && |"source_file"| == 11 && |"applies_to"| == 10;
    assert |"severity"| == 8 && |"category"| == 8 && |"keywords"| == 8;
  }

  /**
   * The metadata dictionary of a section from its already computed values:
   * the optional entries are present exactly when they were found.
   */
  function MetadataOf(title: string, level: int, sourceFile: string, severity: Option<string>,
                      appliesTo: Option<string>, category: string, keywords: string): (m: Metadata)
    ensures "title" in m && "level" in m && "source_file" in m && "category" in m && "keywords" in m
    ensures m["title"] == MStr(title) && m["level"] == MInt(level)
    ensures m["source_file"] == MStr(sourceFile) && m["category"] == MStr(category)
    ensures m["keywords"] == MStr(keywords)
    ensures "severity" in m <==> severity.Some?
    ensures severity.Some? ==> m["severity"] == MStr(severity.value)
    ensures "applies_to" in m <==> appliesTo.Some?
    ensures appliesTo.Some? ==> m["applies_to"] == MStr(appliesTo.value)
  {
    MetadataKeysDistinct();
    var base := map["title" := MStr(title), "level" := MInt(level), "source_file" := MStr(sourceFile)];
    var withSeverity := match severity
      case Some(v) => base["severity" := MStr(v)]
      case None => base;
    var withAppliesTo := match appliesTo
      case Some(v) => withSeverity["applies_to" := MStr(v)]
      case None => withSeverity;
    withAppliesTo["category" := MStr(category)]["keywords" := MStr(keywords)]
  }

  /** `_extract_metadata` */
  function ExtractMetadata(s: Section, sourceFile: string, sc: Scanners): (m: Metadata)
    ensures "title" in m && "level" in m && "source_file" in m && "category" in m && "keywords" in m
    ensures m["title"] == MStr(s.title) && m["level"] == MInt(s.level)
    ensures m["source_file"] == MStr(sourceFile) && m["category"] == MStr(Category(sourceFile))
    ensures m["keywords"] == MStr(Join(sc.keywords(s.title + " " + s.content), ", "))
    ensures "severity" in m <==> sc.severity(s.content).Some?
    ensures sc.severity(s.content).Some? ==> m["severity"] == MStr(Capitalize(sc.severity(s.content).value))
    ensures "applies_to" in m <==> sc.appliesTo(s.content).Some?
    ensures sc.appliesTo(s.content).Some? ==> m["applies_to"] == MStr(AppliesTo(sc.appliesTo(s.content).value))
  {
    var severity := match sc.severity(s.content)
      case Some(g) => Some(Capitalize(g))
      case None => None;
    var appliesTo := match sc.appliesTo(s.content)
      case Some(g) => Some(AppliesTo(g))
      case None => None;
    MetadataOf(s.title, s.level, sourceFile, severity, appliesTo,
               Category(sourceFile), Join(sc.keywords(s.title + " " + s.content), ", "))
  }

  /** The severity pattern matches High, Medium or Low in any case; the stored value is a valid severity. */
  lemma SeverityCapitalized(g: string)
    requires LowerAscii(g) == "high" || LowerAscii(g) == "medium" || LowerAscii(g) == "low"
    ensures ValidSeverity(Capitalize(g))
  {
    CapitalizeIgnoresCase(g);
    CapitalizedSeverity(LowerAscii(g));
  }

  lemma CapitalizedSeverity(l: string)
    requires l == "high" || l == "medium" || l == "low"
    ensures ValidSeverity(Capitalize(l))
  {
    if l == "high" {
      assert Capitalize(l) == "High";
    } else if l == "medium" {
      assert Capitalize(l) == "Medium";
    } else {
      assert Capitalize(l) == "Low";
    }
  }

  /** The text hashed into a chunk id: file, title and, for a piece of a split section, its index. */
  function ChunkIdKey(sourceFile: string, title: string, subIndex: Option<nat>): (key: string)
    ensures StartsWith(key, sourceFile + ":" + title)
    ensures subIndex.None? ==> key == sourceFile + ":" + title
  {
    sourceFile + ":" + title + match subIndex
      case Some(i) => ":" + NatToString(i)
      case None => ""
  }

  /** The pieces of one split section get different keys. */
  lemma ChunkIdKeysDiffer(sourceFile: string, title: string, i: nat, j: nat)
    requires i != j
    ensures ChunkIdKey(sourceFile, title, Some(i)) != ChunkIdKey(sourceFile, title, Some(j))
  {
    var prefix := sourceFile + ":" + title + ":";
    if ChunkIdKey(sourceFile, title, Some(i)) == ChunkIdKey(sourceFile, title, Some(j)) {
      assert ChunkIdKey(sourceFile, title, Some(i)) == prefix + NatToString(i);
      assert ChunkIdKey(sourceFile, title, Some(j)) == prefix + NatToString(j);
      assert (prefix + NatToString(i))[|prefix|..] == NatToString(i);
      assert (prefix + NatToString(j))[|prefix|..] == NatToString(j);
      NatToStringInjective(i, j);
    }
  }

  /** `_create_chunk`: the id is the first twelve hex digits of the key's MD5 digest. */
  function CreateChunk(content: string, metadata: Metadata, sourceFile: string, title: string,
                       subIndex: Option<nat>, digest: string -> string): (ch: Chunk)
    ensures ch.content == content && ch.metadata == metadata && ch.sourceFile == sourceFile
    ensures ch.chunkId == Take12(digest(ChunkIdKey(sourceFile, title, subIndex)))
  {
    Chunk(content, metadata, Take12(digest(ChunkIdKey(sourceFile, title, subIndex))), sourceFile)
  }

  /** `hexdigest()[:12]` */
  function Take12(s: string): (r: string)
    ensures |r| == if |s| < 12 then |s| else 12
  {
    s[..if |s| < 12 then |s| else 12]
  }

  // ---------------------------------------------------------------------------
  // Chunking a document

  /** The `i`-th piece of a split section is keyed by its index. */
  function Pieces(subs: seq<string>, metadata: Metadata, sourceFile: string, title: string,
                  digest: string -> string): (r: seq<Chunk>)
    ensures |r| == |subs|
    ensures forall i :: 0 <= i < |subs| ==> r[i] == CreateChunk(subs[i], metadata, sourceFile, title, Some(i), digest)
  {
    seq(|subs|, i requires 0 <= i < |subs| => CreateChunk(subs[i], metadata, sourceFile, title, Some(i), digest))
  }

  /**
   * The chunks one section becomes: its pieces when it is over the chunk
   * size, else one chunk holding its whole text keyed by its title alone.
   */
  function SectionChunks(s: Section, sourceFile: string, c: Config, sc: Scanners): (r: seq<Chunk>)
    ensures |r| >= 1
    ensures Tokens(s.content) <= c.chunkSize ==>
              |r| == 1 && r[0].content == s.content && r[0].chunkId == Take12(sc.digest(sourceFile + ":" + s.title))
    ensures Tokens(s.content) > c.chunkSize ==> |r| == |LargeSectionChunks(s.content, c)|
  {
    var metadata := ExtractMetadata(s, sourceFile, sc);
    if Tokens(s.content) > c.chunkSize then
      LargeSectionChunksMadeOfParagraphs(s.content, c);
      Pieces(LargeSectionChunks(s.content, c), metadata, sourceFile, s.title, sc.digest)
    else
      [CreateChunk(s.content, metadata, sourceFile, s.title, None, sc.digest)]
  }

  /** The inner loop of `chunk_markdown`: one chunk per piece, numbered from zero. */
  method AppendPieces(chunks: seq<Chunk>, subChunks: seq<string>, metadata: Metadata, sourceFile: string,
                      title: string, digest: string -> string) returns (chunks': seq<Chunk>)
    ensures chunks' == chunks + Pieces(subChunks, metadata, sourceFile, title, digest)
  {
    chunks' := chunks;
    for i := 0 to |subChunks|
      invariant chunks' == chunks + Pieces(subChunks[..i], metadata, sourceFile, title, digest)
    {
      assert Pieces(subChunks[..i + 1], metadata, sourceFile, title, digest)
             == Pieces(subChunks[..i], metadata, sourceFile, title, digest)
                + [CreateChunk(subChunks[i], metadata, sourceFile, title, Some(i), digest)];
      chunks' := chunks' + [CreateChunk(subChunks[i], metadata, sourceFile, title, Some(i), digest)];
    }
    assert subChunks[..|subChunks|] == subChunks;
  }

  function AllChunks(sections: seq<Section>, sourceFile: string, c: Config, sc: Scanners): seq<Chunk>
    decreases |sections|
  {
    if |sections| == 0 then []
    else AllChunks(sections[..|sections| - 1], sourceFile, c, sc)
         + SectionChunks(sections[|sections| - 1], sourceFile, c, sc)
  }

  /** Every section yields at least one chunk, and every chunk names the document it came from. */
  lemma {:induction false} AllChunksCover(sections: seq<Section>, sourceFile: string, c: Config, sc: Scanners)
    ensures |AllChunks(sections, sourceFile, c, sc)| >= |sections|
    ensures forall ch :: ch in AllChunks(sections, sourceFile, c, sc) ==> ch.sourceFile == sourceFile
    decreases |sections|
  {
    if |sections| > 0 {
      AllChunksCover(sections[..|sections| - 1], sourceFile, c, sc);
    }
  }

  /** The body of `chunk_markdown`'s loop: one section's chunks. */
  method ChunkSection(section: Section, sourceFile: string, c: Config, sc: Scanners) returns (chunks: seq<Chunk>)
    ensures chunks == SectionChunks(section, sourceFile, c, sc)
  {
    var metadata := ExtractMetadata(section, sourceFile, sc);
    if Tokens(section.content) > c.chunkSize {
      var subChunks := SplitLargeSection(section.content, c);
      chunks := AppendPieces([], subChunks, metadata, sourceFile, section.title, sc.digest);
    } else {
      chunks := [CreateChunk(section.content, metadata, sourceFile, section.title, None, sc.digest)];
    }
  }

  /** `chunk_markdown` */
  method ChunkMarkdown(content: string, sourceFile: string, c: Config, sc: Scanners)
    returns (chunks: seq<Chunk>)
    requires ValidMatches(content, sc.headers(content))
    ensures chunks == AllChunks(Sections(content, sc), sourceFile, c, sc)
  {
    var sections := SplitByHeaders(content, sc.headers(content), sc.stem);
    assert sections == Sections(content, sc);
    chunks := ChunkSections(sections, sourceFile, c, sc);
  }

  /** The loop of `chunk_markdown` over the sections, in order. */
  method ChunkSections(sections: seq<Section>, sourceFile: string, c: Config, sc: Scanners)
    returns (chunks: seq<Chunk>)
    ensures chunks == AllChunks(sections, sourceFile, c, sc)
  {
    chunks := [];
    for j := 0 to |sections|
      invariant chunks == AllChunks(sections[..j], sourceFile, c, sc)
    {
      AllChunksSnoc(sections, j, sourceFile, c, sc);
      var sectionChunks := ChunkSection(sections[j], sourceFile, c, sc);
      chunks := chunks + sectionChunks;
    }
    assert sections[..|sections|] == sections;
  }

  lemma AllChunksSnoc(sections: seq<Section>, j: nat, sourceFile: string, c: Config, sc: Scanners)
    requires j < |sections|
    ensures AllChunks(sections[..j + 1], sourceFile, c, sc)
            == AllChunks(sections[..j], sourceFile, c, sc) + SectionChunks(sections[j], sourceFile, c, sc)
  {
    assert sections[..j + 1][..j] == sections[..j];
  }

  /** The sections `_split_by_headers` produces, as a function of the text. */
  function Sections(content: string, sc: Scanners): (r: seq<Section>)
    requires ValidMatches(content, sc.headers(content))
  {
    var ms := sc.headers(content);
    if |ms| == 0 then [WholeSection(content, sc.stem)]
    else seq(|ms|, k requires 0 <= k < |ms| => SectionAt(content, ms, k))
  }

  /** A chunked document has at least one chunk per header, and one for a text without headers. */
  lemma ChunkCount(content: string, sourceFile: string, c: Config, sc: Scanners)
    requires ValidMatches(content, sc.headers(content))
    ensures var n := |sc.headers(content)|;
            |AllChunks(Sections(content, sc), sourceFile, c, sc)| >= if n == 0 then 1 else n
  {
    AllChunksCover(Sections(content, sc), sourceFile, c, sc);
  }
}
