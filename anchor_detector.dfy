/**
 * Anchor detection: the tags that say what kind of code a file diff holds
 * (its language, its framework annotations, SQL statements, general code
 * shapes), gathered from five detectors and merged so that each tag appears
 * once, the first detector to report it winning.
 *
 * Regular-expression searches are a parameter `search(pattern, content)`,
 * standing for a case-insensitive `re.search`. The built-in patterns all
 * compile; a pattern from the custom registry may not, and
 * `patternError(pattern)` is the error `re` raises for it (`None` when it
 * compiles).
 */
module AnchorDetector {
  import opened Wrappers
  import opened Text
  import opened Models
  import opened Dedup

  /** A mapping from a key (suffix, annotation or pattern) to tags, in declaration order. */
  type Table = seq<(string, seq<string>)>

  const ExtensionMap: Table := [
    (".java", ["java", "backend"]),
    (".sql", ["sql", "database", "migration"]),
    (".js", ["javascript", "frontend"]),
    (".ts", ["typescript", "frontend"]),
    (".jsx", ["react", "javascript", "frontend"]),
    (".tsx", ["react", "typescript", "frontend"]),
    (".py", ["python", "backend"]),
    (".go", ["golang", "backend"]),
    (".xml", ["xml", "config"]),
    (".yml", ["yaml", "config"]),
    (".yaml", ["yaml", "config"]),
    (".json", ["json", "config"]),
    (".properties", ["properties", "config"])
  ]

  const JavaAnnotations: Table := [
    ("@Entity", ["jpa", "entity", "database", "orm"]),
    ("@Table", ["jpa", "entity", "database"]),
    ("@RestController", ["web-layer", "api", "controller", "rest"]),
    ("@Controller", ["web-layer", "controller", "mvc"]),
    ("@Service", ["service-layer", "business-logic"]),
    ("@Repository", ["repository", "data-access", "database"]),
    ("@Component", ["spring", "component"]),
    ("@Configuration", ["spring", "config"]),
    ("@RequestMapping", ["web-layer", "api", "routing"]),
    ("@GetMapping", ["web-layer", "api", "rest"]),
    ("@PostMapping", ["web-layer", "api", "rest"]),
    ("@PutMapping", ["web-layer", "api", "rest"]),
    ("@DeleteMapping", ["web-layer", "api", "rest"])
  ]

  const SqlPatterns: Table := [
    (@"\bCREATE\s+TABLE\b", ["ddl", "schema", "table-creation"]),
    (@"\bALTER\s+TABLE\b", ["ddl", "schema", "migration"]),
    (@"\bDROP\s+TABLE\b", ["ddl", "schema"]),
    (@"\bCREATE\s+INDEX\b", ["ddl", "index", "performance"]),
    (@"\bINSERT\s+INTO\b", ["dml", "data-manipulation"]),
    (@"\bUPDATE\b", ["dml", "data-manipulation"]),
    (@"\bDELETE\s+FROM\b", ["dml", "data-manipulation"]),
    (@"\bSELECT\b", ["query", "data-retrieval"])
  ]

  const CodePatterns: Table := [
    (@"class\s+\w+\s+extends\s+", ["inheritance", "oop"]),
    (@"class\s+\w+\s+implements\s+", ["interface", "oop"]),
    (@"interface\s+\w+", ["interface", "contract"]),
    (@"enum\s+\w+", ["enum", "constants"]),
    ("@Test", ["testing", "unit-test"]),
    ("@Override", ["override", "inheritance"]),
    ("serialVersionUID", ["serialization", "entity"])
  ]

  /** Confidences in hundredths, fixed per detector. */
  const ExtensionConfidence: nat := 100
  const AnnotationConfidence: nat := 100
  const SqlConfidence: nat := 90
  const CodeConfidence: nat := 80
  const CustomConfidence: nat := 70

  /** The tags of the first entry with key `key`. */
  function Lookup(t: Table, key: string): (r: Option<seq<string>>)
    ensures r.Some? <==> exists i :: 0 <= i < |t| && t[i].0 == key
    ensures r.Some? ==> exists i :: 0 <= i < |t| && t[i] == (key, r.value)
  {
    if |t| == 0 then None
    else if t[0].0 == key then Some(t[0].1)
    else
      var r := Lookup(t[1..], key);
      assert forall i :: 0 <= i < |t[1..]| ==> t[1..][i] == t[i + 1];
      assert forall i :: 1 <= i < |t| ==> t[i] == t[1..][i - 1];
      r
  }

  /** The path's suffix, lower-cased, is the key into the extension map. */
  function ExtensionKey(path: string): string {
    LowerAscii(Suffix(FileName(path)))
  }

  // ---------------------------------------------------------------------------
  // The detectors

  /** One anchor per tag, with the detector's confidence and source. */
  function ToAnchors(tags: seq<string>, confidence: nat, source: AnchorSource): (r: seq<Anchor>)
    ensures |r| == |tags|
    ensures forall i :: 0 <= i < |r| ==> r[i] == Anchor(tags[i], confidence, source)
  {
    seq(|tags|, i requires 0 <= i < |tags| => Anchor(tags[i], confidence, source))
  }

  /** `_detect_by_extension`: the extension map's tags for the path's suffix, or none. */
  function ExtensionAnchors(path: string): (r: seq<Anchor>)
    ensures forall a :: a in r ==> a.source == Extension && a.confidence == ExtensionConfidence
    ensures Lookup(ExtensionMap, ExtensionKey(path)).None? ==> r == []
    ensures Lookup(ExtensionMap, ExtensionKey(path)).Some? ==>
              |r| == |Lookup(ExtensionMap, ExtensionKey(path)).value|
              && forall i :: 0 <= i < |r| ==> r[i].tag == Lookup(ExtensionMap, ExtensionKey(path)).value[i]
  {
    match Lookup(ExtensionMap, ExtensionKey(path))
    case None => []
    case Some(tags) => ToAnchors(tags, ExtensionConfidence, Extension)
  }

  /**
   * How a detector decides that a key is present in the content: as a
   * substring, or by a (case-insensitive) regular-expression search.
   */
  datatype Matcher = Substring | Search(search: (string, string) -> bool)

  predicate Present(m: Matcher, key: string, content: string) {
    match m
    case Substring => Contains(content, key)
    case Search(search) => search(key, content)
  }

  /** The anchors of every table entry whose key is present, entry by entry, tag by tag. */
  function TableAnchors(t: Table, m: Matcher, content: string, confidence: nat, source: AnchorSource): seq<Anchor>
    decreases |t|
  {
    if |t| == 0 then []
    else
      TableAnchors(t[..|t| - 1], m, content, confidence, source)
      + (if Present(m, t[|t| - 1].0, content) then ToAnchors(t[|t| - 1].1, confidence, source) else [])
  }

  /** An anchor comes from some present entry, with the detector's confidence and source. */
  lemma {:induction false} TableAnchorsFrom(t: Table, m: Matcher, content: string,
                                            confidence: nat, source: AnchorSource, a: Anchor)
    requires a in TableAnchors(t, m, content, confidence, source)
    ensures a.confidence == confidence && a.source == source
    ensures exists i :: 0 <= i < |t| && Present(m, t[i].0, content) && a.tag in t[i].1
    decreases |t|
  {
    var init := t[..|t| - 1];
    if a in TableAnchors(init, m, content, confidence, source) {
      TableAnchorsFrom(init, m, content, confidence, source, a);
      var i :| 0 <= i < |init| && Present(m, init[i].0, content) && a.tag in init[i].1;
      assert t[i] == init[i];
    } else {
      var r := ToAnchors(t[|t| - 1].1, confidence, source);
      var k :| 0 <= k < |r| && r[k] == a;
      assert a.tag == t[|t| - 1].1[k];
    }
  }

  /** Every tag of every present entry is reported. */
  lemma {:induction false} TableAnchorsComplete(t: Table, m: Matcher, content: string,
                                                confidence: nat, source: AnchorSource, i: nat, tag: string)
    requires i < |t| && Present(m, t[i].0, content) && tag in t[i].1
    ensures Anchor(tag, confidence, source) in TableAnchors(t, m, content, confidence, source)
    decreases |t|
  {
    if i < |t| - 1 {
      TableAnchorsComplete(t[..|t| - 1], m, content, confidence, source, i, tag);
    } else {
      var tags := t[|t| - 1].1;
      var k :| 0 <= k < |tags| && tags[k] == tag;
      assert ToAnchors(tags, confidence, source)[k] == Anchor(tag, confidence, source);
    }
  }

  /** The detectors' common loop: for each present key, one anchor per tag. */
  method DetectFromTable(t: Table, m: Matcher, content: string, confidence: nat, source: AnchorSource)
    returns (anchors: seq<Anchor>)
    ensures anchors == TableAnchors(t, m, content, confidence, source)
  {
    anchors := [];
    for i := 0 to |t|
      invariant anchors == TableAnchors(t[..i], m, content, confidence, source)
    {
      TableAnchorsSnoc(t, i, m, content, confidence, source);
      var (key, tags) := t[i];
      if Present(m, key, content) {
        anchors := AppendTags(anchors, tags, confidence, source);
      }
    }
    assert t[..|t|] == t;
  }

  /** The inner loop: one anchor per tag, in order. */
  method AppendTags(anchors: seq<Anchor>, tags: seq<string>, confidence: nat, source: AnchorSource)
    returns (r: seq<Anchor>)
    ensures r == anchors + ToAnchors(tags, confidence, source)
  {
    r := anchors;
    for j := 0 to |tags|
      invariant r == anchors + ToAnchors(tags[..j], confidence, source)
    {
      r := r + [Anchor(tags[j], confidence, source)];
    }
    assert tags[..|tags|] == tags;
  }

  /** Reading one more table entry adds its anchors exactly when its key is present. */
  lemma TableAnchorsSnoc(t: Table, i: nat, m: Matcher, content: string, confidence: nat, source: AnchorSource)
    requires i < |t|
    ensures TableAnchors(t[..i + 1], m, content, confidence, source)
            == TableAnchors(t[..i], m, content, confidence, source)
               + (if Present(m, t[i].0, content) then ToAnchors(t[i].1, confidence, source) else [])
  {
    assert t[..i + 1][..i] == t[..i];
  }

  /** `_detect_java_annotations`: an annotation is present when its text occurs in the content. */
  method DetectJavaAnnotations(content: string) returns (anchors: seq<Anchor>)
    ensures anchors == TableAnchors(JavaAnnotations, Substring, content, AnnotationConfidence, Annotation)
  {
    anchors := DetectFromTable(JavaAnnotations, Substring, content, AnnotationConfidence, Annotation);
  }

  /** `_detect_sql_patterns` */
  method DetectSqlPatterns(content: string, search: (string, string) -> bool) returns (anchors: seq<Anchor>)
    ensures anchors == TableAnchors(SqlPatterns, Search(search), content, SqlConfidence, Pattern)
  {
    anchors := DetectFromTable(SqlPatterns, Search(search), content, SqlConfidence, Pattern);
  }

  /** `_detect_code_patterns` */
  method DetectCodePatterns(content: string, search: (string, string) -> bool) returns (anchors: seq<Anchor>)
    ensures anchors == TableAnchors(CodePatterns, Search(search), content, CodeConfidence, Pattern)
  {
    anchors := DetectFromTable(CodePatterns, Search(search), content, CodeConfidence, Pattern);
  }

  /** The error raised for the first entry whose pattern does not compile, or `None`. */
  function FirstPatternError(t: Table, patternError: string -> Option<string>): Option<string>
    decreases |t|
  {
    if |t| == 0 then None
    else
      var e := FirstPatternError(t[..|t| - 1], patternError);
      if e.Some? then e else patternError(t[|t| - 1].0)
  }

  /** Entry `i` is the first whose pattern does not compile, and `e` is its error. */
  predicate FirstInvalidAt(t: Table, patternError: string -> Option<string>, i: int, e: string) {
    0 <= i < |t| && patternError(t[i].0) == Some(e)
    && forall j :: 0 <= j < i ==> patternError(t[j].0).None?
  }

  /**
   * No error exactly when every pattern compiles; otherwise the error is that
   * of the first pattern that does not.
   */
  lemma {:induction false} FirstPatternErrorCorrect(t: Table, patternError: string -> Option<string>)
    ensures FirstPatternError(t, patternError).None? <==> forall i :: 0 <= i < |t| ==> patternError(t[i].0).None?
    ensures FirstPatternError(t, patternError).Some? ==>
              exists i :: FirstInvalidAt(t, patternError, i, FirstPatternError(t, patternError).value)
    decreases |t|
  {
    if |t| > 0 {
      var init := t[..|t| - 1];
      FirstPatternErrorCorrect(init, patternError);
      assert forall i :: 0 <= i < |init| ==> init[i] == t[i];
      if FirstPatternError(init, patternError).Some? {
        var i :| FirstInvalidAt(init, patternError, i, FirstPatternError(init, patternError).value);
        assert FirstInvalidAt(t, patternError, i, FirstPatternError(t, patternError).value);
      } else if patternError(t[|t| - 1].0).Some? {
        assert FirstInvalidAt(t, patternError, |t| - 1, FirstPatternError(t, patternError).value);
      }
    }
  }

  lemma FirstPatternErrorSnoc(t: Table, i: nat, patternError: string -> Option<string>)
    requires i < |t|
    ensures FirstPatternError(t[..i + 1], patternError)
            == if FirstPatternError(t[..i], patternError).Some? then FirstPatternError(t[..i], patternError)
               else patternError(t[i].0)
  {
    assert t[..i + 1][..i] == t[..i];
  }

  /** Once a prefix has raised, the whole table raises the same error. */
  lemma {:induction false} FirstPatternErrorSticks(t: Table, n: nat, patternError: string -> Option<string>)
    requires n <= |t| && FirstPatternError(t[..n], patternError).Some?
    ensures FirstPatternError(t, patternError) == FirstPatternError(t[..n], patternError)
    decreases |t|
  {
    if n == |t| {
      assert t[..n] == t;
    } else {
      var init := t[..|t| - 1];
      assert init[..n] == t[..n];
      FirstPatternErrorSticks(init, n, patternError);
    }
  }

  /**
   * What `_detect_custom_patterns` gives: the error of the first pattern that
   * does not compile, or the anchors of every entry whose pattern is found.
   */
  function CustomDetection(content: string, custom: Table, search: (string, string) -> bool,
                           patternError: string -> Option<string>): Result<seq<Anchor>, string>
  {
    match FirstPatternError(custom, patternError)
    case Some(e) => Failure(e)
    case None => Success(TableAnchors(custom, Search(search), content, CustomConfidence, Pattern))
  }

  /** `_detect_custom_patterns`, over the loaded registry `custom`. */
  method DetectCustomPatterns(content: string, custom: Table, search: (string, string) -> bool,
                              patternError: string -> Option<string>)
    returns (r: Result<seq<Anchor>, string>)
    ensures r == CustomDetection(content, custom, search, patternError)
  {
    var anchors := [];
    for i := 0 to |custom|
      invariant FirstPatternError(custom[..i], patternError).None?
      invariant anchors == TableAnchors(custom[..i], Search(search), content, CustomConfidence, Pattern)
    {
      TableAnchorsSnoc(custom, i, Search(search), content, CustomConfidence, Pattern);
      FirstPatternErrorSnoc(custom, i, patternError);
      var (pattern, tags) := custom[i];
      var compiled := patternError(pattern);
      if compiled.Some? {
        FirstPatternErrorSticks(custom, i + 1, patternError);
        return Failure(compiled.value);
      }
      if search(pattern, content) {
        anchors := AppendTags(anchors, tags, CustomConfidence, Pattern);
      }
    }
    assert custom[..|custom|] == custom;
    r := Success(anchors);
  }

  // ---------------------------------------------------------------------------
  // The custom registry

  /**
   * One object of the registry file, with its `pattern` and `tags`. An absent
   * or empty pattern is written `""` and absent tags `[]`: the loader skips
   * either.
   */
  datatype RegistryItem = RegistryItem(pattern: string, tags: seq<string>)

  /** Only an object with a non-empty pattern and non-empty tags is registered. */
  predicate Registers(item: RegistryItem) {
    item.pattern != "" && item.tags != []
  }

  /** The keys of a table, in order. */
  function TableKeys(t: Table): (ks: seq<string>)
    ensures |ks| == |t| && forall i :: 0 <= i < |t| ==> ks[i] == t[i].0
  {
    seq(|t|, i requires 0 <= i < |t| => t[i].0)
  }

  /** No key appears twice in the table, as in a dict. */
  predicate DistinctTableKeys(t: Table) {
    forall i, j :: 0 <= i < j < |t| ==> t[i].0 != t[j].0
  }

  /**
   * `d[key] = tags` on a dict: a key already present keeps its place and
   * takes the new tags; a new key goes last.
   */
  function Put(t: Table, key: string, tags: seq<string>): Table
    decreases |t|
  {
    if |t| == 0 then [(key, tags)]
    else if t[0].0 == key then [(key, tags)] + t[1..]
    else [t[0]] + Put(t[1..], key, tags)
  }

  /** The dict the loader builds from the registry's objects, in file order. */
  function RegistryOf(items: seq<RegistryItem>): Table
    decreases |items|
  {
    if |items| == 0 then []
    else
      var t := RegistryOf(items[..|items| - 1]);
      var item := items[|items| - 1];
      if Registers(item) then Put(t, item.pattern, item.tags) else t
  }

  /** `_load_custom_registry`'s loop over the decoded registry objects. */
  method LoadCustomRegistry(items: seq<RegistryItem>) returns (custom: Table)
    ensures custom == RegistryOf(items)
  {
    custom := [];
    for i := 0 to |items|
      invariant custom == RegistryOf(items[..i])
    {
      assert items[..i + 1][..i] == items[..i];
      var item := items[i];
      if item.pattern != "" && item.tags != [] {
        custom := Put(custom, item.pattern, item.tags);
      }
    }
    assert items[..|items|] == items;
  }

  /** The tags of the last registered object with pattern `p`, if any. */
  function LastTags(items: seq<RegistryItem>, p: string): Option<seq<string>>
    decreases |items|
  {
    if |items| == 0 then None
    else if Registers(items[|items| - 1]) && items[|items| - 1].pattern == p then Some(items[|items| - 1].tags)
    else LastTags(items[..|items| - 1], p)
  }

  /** The patterns of the registered objects, in file order, repeats included. */
  function RegisteredPatterns(items: seq<RegistryItem>): seq<string>
    decreases |items|
  {
    if |items| == 0 then []
    else
      RegisteredPatterns(items[..|items| - 1])
      + (if Registers(items[|items| - 1]) then [items[|items| - 1].pattern] else [])
  }

  /** Patterns are compared as they are. */
  function Same(p: string): string {
    p
  }

  lemma {:induction false} PutLookup(t: Table, key: string, tags: seq<string>, p: string)
    ensures Lookup(Put(t, key, tags), p) == if p == key then Some(tags) else Lookup(t, p)
    decreases |t|
  {
    if |t| > 0 && t[0].0 != key {
      PutLookup(t[1..], key, tags, p);
      assert Put(t, key, tags)[1..] == Put(t[1..], key, tags);
    } else if |t| > 0 {
      assert Put(t, key, tags)[1..] == t[1..];
    }
  }

  lemma {:induction false} PutKeys(t: Table, key: string, tags: seq<string>)
    ensures TableKeys(Put(t, key, tags)) == if key in TableKeys(t) then TableKeys(t) else TableKeys(t) + [key]
    decreases |t|
  {
    if |t| > 0 && t[0].0 != key {
      PutKeys(t[1..], key, tags);
      assert TableKeys(t) == [t[0].0] + TableKeys(t[1..]);
      assert TableKeys(Put(t, key, tags)) == [t[0].0] + TableKeys(Put(t[1..], key, tags));
      assert key in TableKeys(t) <==> key in TableKeys(t[1..]);
    } else if |t| > 0 {
      assert TableKeys(t)[0] == key;
    }
  }

  /** A pattern's tags are those of the last object that registers it. */
  lemma {:induction false} RegistryLookup(items: seq<RegistryItem>, p: string)
    ensures Lookup(RegistryOf(items), p) == LastTags(items, p)
    decreases |items|
  {
    if |items| > 0 {
      var init := items[..|items| - 1];
      RegistryLookup(init, p);
      var item := items[|items| - 1];
      if Registers(item) {
        PutLookup(RegistryOf(init), item.pattern, item.tags, p);
      }
    }
  }

  /**
   * The registry's keys are the registered patterns in the order of their
   * first appearance, each once: a later object with the same pattern only
   * replaces its tags.
   */
  lemma {:induction false} RegistryKeys(items: seq<RegistryItem>)
    ensures TableKeys(RegistryOf(items)) == DedupBy(RegisteredPatterns(items), Same)
    decreases |items|
  {
    if |items| > 0 {
      var init := items[..|items| - 1];
      RegistryKeys(init);
      var item := items[|items| - 1];
      var t := RegistryOf(init);
      var ps := RegisteredPatterns(init);
      if Registers(item) {
        PutKeys(t, item.pattern, item.tags);
        var all := ps + [item.pattern];
        assert RegisteredPatterns(items) == all;
        assert all[..|all| - 1] == ps;
        var d := DedupBy(ps, Same);
        assert item.pattern in Keys(d, Same) <==> item.pattern in TableKeys(t) by {
          if item.pattern in TableKeys(t) {
            var i :| 0 <= i < |d| && d[i] == item.pattern;
            assert Same(d[i]) == item.pattern;
          }
        }
      } else {
        assert RegisteredPatterns(items) == ps + [] == ps;
        assert RegistryOf(items) == t;
      }
    }
  }

  /** The registry holds each pattern once. */
  lemma RegistryDistinct(items: seq<RegistryItem>)
    ensures DistinctTableKeys(RegistryOf(items))
  {
    RegistryKeys(items);
    DedupKeys(RegisteredPatterns(items), Same);
    var t := RegistryOf(items);
    forall i, j | 0 <= i < j < |t|
      ensures t[i].0 != t[j].0
    {
      assert TableKeys(t)[i] == t[i].0 && TableKeys(t)[j] == t[j].0;
    }
  }

  // ---------------------------------------------------------------------------
  // Merging

  /** Anchors are merged by tag. */
  function TagOf(a: Anchor): string {
    a.tag
  }

  /** The annotation detector's part: only for paths ending in `.java`, case-sensitively. */
  function JavaPart(fd: FileDiff): seq<Anchor> {
    if EndsWith(fd.filePath, ".java")
    then TableAnchors(JavaAnnotations, Substring, fd.diffContent, AnnotationConfidence, Annotation)
    else []
  }

  /** The SQL detector's part: only for paths ending in `.sql`, case-sensitively. */
  function SqlPart(fd: FileDiff, search: (string, string) -> bool): seq<Anchor> {
    if EndsWith(fd.filePath, ".sql")
    then TableAnchors(SqlPatterns, Search(search), fd.diffContent, SqlConfidence, Pattern)
    else []
  }

  function CodePart(fd: FileDiff, search: (string, string) -> bool): seq<Anchor> {
    TableAnchors(CodePatterns, Search(search), fd.diffContent, CodeConfidence, Pattern)
  }

  function CustomPart(fd: FileDiff, custom: Table, search: (string, string) -> bool): seq<Anchor> {
    TableAnchors(custom, Search(search), fd.diffContent, CustomConfidence, Pattern)
  }

  /** Every detector's output for one file, in the order the merge visits them. */
  function Candidates(fd: FileDiff, custom: Table, search: (string, string) -> bool): seq<Anchor> {
    ExtensionAnchors(fd.filePath) + JavaPart(fd) + SqlPart(fd, search) + CodePart(fd, search)
    + CustomPart(fd, custom, search)
  }

  /**
   * What `detect_anchors` gives: the error of the first custom pattern that
   * does not compile, or the merged anchors.
   */
  function Detection(fd: FileDiff, custom: Table, search: (string, string) -> bool,
                     patternError: string -> Option<string>): Result<seq<Anchor>, string>
  {
    match FirstPatternError(custom, patternError)
    case Some(e) => Failure(e)
    case None => Success(DedupBy(Candidates(fd, custom, search), TagOf))
  }

  /**
   * `detect_anchors`: extension, annotation (`.java` paths only), SQL (`.sql`
   * paths only), code and custom detectors, merged with the first anchor of
   * each tag winning.
   */
  method DetectAnchors(fd: FileDiff, custom: Table, search: (string, string) -> bool,
                       patternError: string -> Option<string>)
    returns (r: Result<seq<Anchor>, string>)
    ensures r == Detection(fd, custom, search, patternError)
  {
    var anchors := [];
    var detectedTags: set<string> := {};
    var ext := ExtensionAnchors(fd.filePath);
    anchors, detectedTags := DedupOnto(anchors, detectedTags, [], ext, TagOf);
    assert [] + ext == ext;
    ghost var done := ext;
    if EndsWith(fd.filePath, ".java") {
      var ann := DetectJavaAnnotations(fd.diffContent);
      anchors, detectedTags := DedupOnto(anchors, detectedTags, done, ann, TagOf);
      done := done + ann;
    }
    assert done == ExtensionAnchors(fd.filePath) + JavaPart(fd);
    if EndsWith(fd.filePath, ".sql") {
      var sql := DetectSqlPatterns(fd.diffContent, search);
      anchors, detectedTags := DedupOnto(anchors, detectedTags, done, sql, TagOf);
      done := done + sql;
    }
    assert done == ExtensionAnchors(fd.filePath) + JavaPart(fd) + SqlPart(fd, search);
    var code := DetectCodePatterns(fd.diffContent, search);
    anchors, detectedTags := DedupOnto(anchors, detectedTags, done, code, TagOf);
    done := done + code;
    var customResult := DetectCustomPatterns(fd.diffContent, custom, search, patternError);
    if customResult.Failure? {
      return Failure(customResult.error);
    }
    var customAnchors := customResult.value;
    anchors, detectedTags := DedupOnto(anchors, detectedTags, done, customAnchors, TagOf);
    done := done + customAnchors;
    assert done == Candidates(fd, custom, search);
    r := Success(anchors);
  }

  /**
   * Detection raises exactly when some custom pattern does not compile,
   * whatever the file, and then with the error of the first such pattern.
   */
  lemma DetectAnchorsFails(fd: FileDiff, custom: Table, search: (string, string) -> bool,
                           patternError: string -> Option<string>)
    ensures Detection(fd, custom, search, patternError).Failure?
            <==> exists i :: 0 <= i < |custom| && patternError(custom[i].0).Some?
    ensures Detection(fd, custom, search, patternError).Failure? ==>
              exists i :: FirstInvalidAt(custom, patternError, i, Detection(fd, custom, search, patternError).error)
  {
    FirstPatternErrorCorrect(custom, patternError);
  }

  /**
   * Every detected anchor is a valid `Anchor` record: its confidence is one
   * of the detectors' 1.0, 0.9, 0.8 and 0.7.
   */
  lemma DetectedAnchorsValid(fd: FileDiff, custom: Table, search: (string, string) -> bool)
    ensures forall a :: a in DedupBy(Candidates(fd, custom, search), TagOf) ==>
              ValidAnchor(a) && (a.confidence == 100 || a.confidence == 90 || a.confidence == 80 || a.confidence == 70)
  {
    forall a | a in DedupBy(Candidates(fd, custom, search), TagOf)
      ensures ValidAnchor(a) && (a.confidence == 100 || a.confidence == 90 || a.confidence == 80 || a.confidence == 70)
    {
      DedupMember(Candidates(fd, custom, search), TagOf, a);
      CandidateConfidence(fd, custom, search, a);
    }
  }

  /** Every detector reports one of its fixed confidences. */
  lemma CandidateConfidence(fd: FileDiff, custom: Table, search: (string, string) -> bool, a: Anchor)
    requires a in Candidates(fd, custom, search)
    ensures a.confidence == 100 || a.confidence == 90 || a.confidence == 80 || a.confidence == 70
  {
    var ext := ExtensionAnchors(fd.filePath);
    var java := JavaPart(fd);
    var sql := SqlPart(fd, search);
    var code := CodePart(fd, search);
    var cust := CustomPart(fd, custom, search);
    assert Candidates(fd, custom, search) == ext + java + sql + code + cust;
    if a in ext {
    } else if a in java {
      TableAnchorsFrom(JavaAnnotations, Substring, fd.diffContent, AnnotationConfidence, Annotation, a);
    } else if a in sql {
      TableAnchorsFrom(SqlPatterns, Search(search), fd.diffContent, SqlConfidence, Pattern, a);
    } else if a in code {
      TableAnchorsFrom(CodePatterns, Search(search), fd.diffContent, CodeConfidence, Pattern, a);
    } else {
      assert a in cust;
      TableAnchorsFrom(custom, Search(search), fd.diffContent, CustomConfidence, Pattern, a);
    }
  }

  /**
   * What `detect_anchors` promises of its result: one anchor per tag, every
   * detected tag present, each anchor the first any detector reported for its
   * tag (so an extension anchor beats a pattern anchor of the same tag), and
   * each such first anchor kept.
   */
  lemma DetectAnchorsMerge(fd: FileDiff, custom: Table, search: (string, string) -> bool)
    ensures DistinctKeys(DedupBy(Candidates(fd, custom, search), TagOf), TagOf)
    ensures Keys(DedupBy(Candidates(fd, custom, search), TagOf), TagOf) == Keys(Candidates(fd, custom, search), TagOf)
    ensures forall k :: 0 <= k < |DedupBy(Candidates(fd, custom, search), TagOf)| ==>
              KeptIsFirst(Candidates(fd, custom, search), TagOf, DedupBy(Candidates(fd, custom, search), TagOf), k)
    ensures forall i :: FirstOfKey(Candidates(fd, custom, search), TagOf, i) ==>
              Candidates(fd, custom, search)[i] in DedupBy(Candidates(fd, custom, search), TagOf)
  {
    var xs := Candidates(fd, custom, search);
    DedupKeys(xs, TagOf);
    DedupKeepsOnlyFirsts(xs, TagOf);
    DedupKeepsAllFirsts(xs, TagOf);
  }

  /** Annotation anchors are only ever reported for paths ending in `.java`, case-sensitively. */
  lemma AnnotationsOnlyForJava(fd: FileDiff, custom: Table, search: (string, string) -> bool)
    requires !EndsWith(fd.filePath, ".java")
    ensures forall a :: a in DedupBy(Candidates(fd, custom, search), TagOf) ==> a.source != Annotation
  {
    forall a | a in DedupBy(Candidates(fd, custom, search), TagOf)
      ensures a.source != Annotation
    {
      DedupMember(Candidates(fd, custom, search), TagOf, a);
      CandidateNotAnnotation(fd, custom, search, a);
    }
  }

  /** Outside `.java` paths no detector reports an annotation anchor. */
  lemma CandidateNotAnnotation(fd: FileDiff, custom: Table, search: (string, string) -> bool, a: Anchor)
    requires !EndsWith(fd.filePath, ".java") && a in Candidates(fd, custom, search)
    ensures a.source != Annotation
  {
    var ext := ExtensionAnchors(fd.filePath);
    var sql := SqlPart(fd, search);
    var code := CodePart(fd, search);
    var cust := CustomPart(fd, custom, search);
    assert JavaPart(fd) == [];
    assert ext + JavaPart(fd) == ext;
    assert Candidates(fd, custom, search) == ext + sql + code + cust;
    if a in ext {
    } else if a in sql {
      TableAnchorsFrom(SqlPatterns, Search(search), fd.diffContent, SqlConfidence, Pattern, a);
    } else if a in code {
      TableAnchorsFrom(CodePatterns, Search(search), fd.diffContent, CodeConfidence, Pattern, a);
    } else {
      assert a in cust;
      TableAnchorsFrom(custom, Search(search), fd.diffContent, CustomConfidence, Pattern, a);
    }
  }

  /**
   * `get_anchor_tags`: each distinct tag exactly once, in an order the set
   * iteration chooses and the model leaves open.
   */
  method GetAnchorTags(anchors: seq<Anchor>) returns (tags: seq<string>)
    ensures forall i, j :: 0 <= i < j < |tags| ==> tags[i] != tags[j]
    ensures (set t | t in tags) == Keys(anchors, TagOf)
    ensures |tags| == |Keys(anchors, TagOf)|
  {
    tags := ListTags(Keys(anchors, TagOf));
  }

  /** `list(tags)` of a set: each member once, in the order the iteration picks. */
  method ListTags(tagSet: set<string>) returns (tags: seq<string>)
    ensures forall i, j :: 0 <= i < j < |tags| ==> tags[i] != tags[j]
    ensures (set t | t in tags) == tagSet
    ensures |tags| == |tagSet|
  {
    var remaining := tagSet;
    tags := [];
    while remaining != {}
      invariant (set t | t in tags) + remaining == tagSet
      invariant forall t :: t in tags ==> t !in remaining
      invariant forall i, j :: 0 <= i < j < |tags| ==> tags[i] != tags[j]
      invariant |tags| + |remaining| == |tagSet|
      decreases |remaining|
    {
      var t :| t in remaining;
      tags := tags + [t];
      remaining := remaining - {t};
    }
  }
}
