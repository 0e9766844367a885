/**
 * The semantic search query built from a file's anchor tags: each tag is
 * described in words and at most three descriptions are combined into one
 * sentence.
 */
module QueryBuilder {
  import opened Text

  /** Natural-language descriptions of the known tags. */
  const TagDescriptions: map<string, string> := map[
    "java" := "Java programming",
    "python" := "Python programming",
    "javascript" := "JavaScript programming",
    "typescript" := "TypeScript programming",
    "sql" := "SQL database",
    "jpa" := "JPA entity",
    "entity" := "database entity",
    "spring" := "Spring framework",
    "orm" := "object-relational mapping",
    "web-layer" := "web layer controller",
    "service-layer" := "service layer business logic",
    "repository" := "repository data access",
    "controller" := "controller",
    "api" := "REST API",
    "database" := "database",
    "migration" := "database migration",
    "ddl" := "DDL schema definition",
    "dml" := "DML data manipulation",
    "schema" := "database schema",
    "rest" := "RESTful API",
    "mvc" := "MVC pattern",
    "oop" := "object-oriented programming",
    "interface" := "interface design",
    "inheritance" := "class inheritance",
    "react" := "React components",
    "frontend" := "frontend development",
    "config" := "configuration",
    "testing" := "unit testing",
    "serialization" := "object serialization"
  ]

  const GeneralQuery := "general code review guidelines"

  /**
   * A tag's description: the known one, or else the tag itself with every
   * `-` turned into a space.
   */
  function Describe(tag: string): (d: string)
    ensures tag in TagDescriptions ==> d == TagDescriptions[tag]
    ensures tag !in TagDescriptions ==> |d| == |tag| && '-' !in d
    ensures tag !in TagDescriptions ==>
              forall i :: 0 <= i < |tag| ==> d[i] == (if tag[i] == '-' then ' ' else tag[i])
  {
    if tag in TagDescriptions then TagDescriptions[tag]
    else
      ReplaceCharAt(tag, '-', ' ');
      Replace(tag, "-", " ")
  }

  function Descriptions(tags: seq<string>): (ds: seq<string>)
    ensures |ds| == |tags|
    ensures forall i :: 0 <= i < |tags| ==> ds[i] == Describe(tags[i])
  {
    seq(|tags|, i requires 0 <= i < |tags| => Describe(tags[i]))
  }

  /** `build_query`: the sentence for no, one, two, or three and more tags. */
  function BuildQuery(tags: seq<string>): (q: string)
    ensures |tags| == 0 ==> q == GeneralQuery
    ensures |tags| == 1 ==> q == Describe(tags[0]) + " guidelines and best practices"
    ensures |tags| == 2 ==> q == Describe(tags[0]) + " and " + Describe(tags[1]) + " guidelines"
    ensures |tags| >= 3 ==>
              q == Describe(tags[0]) + ", " + Describe(tags[1]) + ", and " + Describe(tags[2]) + " guidelines"
  {
    if |tags| == 0 then GeneralQuery
    else
      var ds := Descriptions(tags);
      if |ds| == 1 then ds[0] + " guidelines and best practices"
      else if |ds| == 2 then ds[0] + " and " + ds[1] + " guidelines"
      else
        var top := ds[..3];
        assert Join(top[..2], ", ") == ds[0] + ", " + ds[1] by {
          assert top[..2][..1] == [ds[0]];
        }
        Join(top[..2], ", ") + ", and " + top[2] + " guidelines"
  }

  /** Only the first three tags shape the query; later ones are ignored. */
  lemma QueryUsesFirstThree(tags: seq<string>, more: seq<string>)
    requires |tags| == 3
    ensures BuildQuery(tags + more) == BuildQuery(tags)
  {
    assert (tags + more)[..3] == tags;
    assert (tags + more)[0] == tags[0] && (tags + more)[1] == tags[1] && (tags + more)[2] == tags[2];
  }

  /** Every query but the tagless one names the descriptions of its first tag. */
  lemma QueryStartsWithFirstDescription(tags: seq<string>)
    requires |tags| > 0
    ensures StartsWith(BuildQuery(tags), Describe(tags[0]))
  {
    var q := BuildQuery(tags);
    var d := Describe(tags[0]);
    assert q[..|d|] == d;
  }

  /** `build_metadata_filter`: no metadata filter is ever applied. */
  function BuildMetadataFilter(tags: seq<string>): (filter: map<string, string>)
    ensures filter == map[]
  {
    map[]
  }
}
