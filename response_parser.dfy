/**
 * Turning the model's reply into findings: pick the JSON text out of the
 * reply, decode it, build a finding from each array item, and validate the
 * findings.
 *
 * The two regular-expression searches and `json.loads` are parameters:
 * `fenced(text)` is the bracketed group of the first fenced code block
 * holding an array, `bare(text)` the first `[ {...} ]` span, and
 * `decode(json)` the decoded value.
 */
module ResponseParser {
  import opened Wrappers
  import opened Text
  import opened Models

  /** What `json.loads` yields: an array of items, another value, or a decode error. */
  datatype Decoded = JsonArray(items: seq<JsonItem>) | JsonNonArray | DecodeError

  /** An array item: an object with finding fields, or any other value. */
  datatype JsonItem = JsonObject(fields: RawFinding) | JsonOther

  /**
   * `_extract_json`: a fenced array first, then a bare array of objects, then
   * `"[]"` if the text contains it, else the empty string.
   */
  function ExtractJson(text: string, fenced: string -> Option<string>, bare: string -> Option<string>): (json: string)
    ensures fenced(text).Some? ==> json == fenced(text).value
    ensures fenced(text).None? && bare(text).Some? ==> json == bare(text).value
    ensures fenced(text).None? && bare(text).None? ==> (json == "[]" <==> Contains(text, "[]"))
    ensures fenced(text).None? && bare(text).None? ==> (json == "" <==> !Contains(text, "[]"))
  {
    match fenced(text)
    case Some(group) => group
    case None =>
      match bare(text)
      case Some(span) => span
      case None => if Contains(text, "[]") then "[]" else ""
  }

  /** The findings built from the items that construct, in order. */
  function BuildAll(items: seq<JsonItem>): (fs: seq<Finding>)
    ensures |fs| <= |items|
    ensures forall f :: f in fs ==> ValidFinding(f)
    decreases |items|
  {
    if |items| == 0 then []
    else
      var last := items[|items| - 1];
      BuildAll(items[..|items| - 1])
      + (if last.JsonObject? && MakeFinding(last.fields).Some? then [MakeFinding(last.fields).value] else [])
  }

  /** Every item that constructs contributes its finding. */
  lemma {:induction false} BuildAllKeeps(items: seq<JsonItem>, i: nat)
    requires i < |items| && items[i].JsonObject? && MakeFinding(items[i].fields).Some?
    ensures MakeFinding(items[i].fields).value in BuildAll(items)
    decreases |items|
  {
    if i < |items| - 1 {
      BuildAllKeeps(items[..|items| - 1], i);
    }
  }

  /** What `parse_findings` returns for a reply. */
  function ParsedFindings(response: string, fenced: string -> Option<string>, bare: string -> Option<string>,
                          decode: string -> Decoded): (fs: seq<Finding>)
    ensures ExtractJson(response, fenced, bare) == "" ==> fs == []
    ensures !decode(ExtractJson(response, fenced, bare)).JsonArray? ==> fs == []
    ensures forall f :: f in fs ==> ValidFinding(f)
  {
    var json := ExtractJson(response, fenced, bare);
    if json == "" then []
    else
      match decode(json)
      case JsonArray(items) => BuildAll(items)
      case JsonNonArray => []
      case DecodeError => []
  }

  /** `parse_findings`: the loop over the decoded items, skipping those that fail to construct. */
  method ParseFindings(response: string, fenced: string -> Option<string>, bare: string -> Option<string>,
                       decode: string -> Decoded)
    returns (findings: seq<Finding>)
    ensures findings == ParsedFindings(response, fenced, bare, decode)
    ensures forall f :: f in findings ==> ValidFinding(f)
  {
    var json := ExtractJson(response, fenced, bare);
    if json == "" {
      return [];
    }
    var data := decode(json);
    if !data.JsonArray? {
      return [];
    }
    findings := [];
    for i := 0 to |data.items|
      invariant findings == BuildAll(data.items[..i])
    {
      assert data.items[..i + 1][..i] == data.items[..i];
      var item := data.items[i];
      if item.JsonObject? {
        var finding := MakeFinding(item.fields);
        if finding.Some? {
          findings := findings + [finding.value];
        }
      }
    }
    assert data.items[..|data.items|] == data.items;
  }

  /** A finding names its file, rule and suggestion. */
  predicate Complete(f: Finding) {
    f.file != "" && f.rule != "" && f.suggestion != ""
  }

  /** A severity outside the three becomes `Medium`. */
  function FixSeverity(f: Finding): (g: Finding)
    ensures ValidSeverity(g.severity)
    ensures ValidSeverity(f.severity) ==> g == f
    ensures g == f.(severity := g.severity)
  {
    if ValidSeverity(f.severity) then f else f.(severity := "Medium")
  }

  /** What `validate_findings` keeps: the complete findings, severity fixed, in order. */
  function Validated(fs: seq<Finding>): seq<Finding>
    decreases |fs|
  {
    if |fs| == 0 then []
    else
      var last := fs[|fs| - 1];
      Validated(fs[..|fs| - 1]) + (if Complete(last) then [FixSeverity(last)] else [])
  }

  /** Everything validation keeps is a complete input finding with its severity fixed. */
  lemma {:induction false} ValidatedSound(fs: seq<Finding>)
    ensures |Validated(fs)| <= |fs|
    ensures forall g :: g in Validated(fs) ==> Complete(g) && ValidFinding(g)
    ensures forall g :: g in Validated(fs) ==> exists f :: f in fs && Complete(f) && g == FixSeverity(f)
    decreases |fs|
  {
    if |fs| > 0 {
      var init := fs[..|fs| - 1];
      ValidatedSound(init);
      assert forall f :: f in init ==> f in fs;
    }
  }

  /** Every complete input finding is kept, with its severity fixed. */
  lemma {:induction false} ValidatedComplete(fs: seq<Finding>)
    ensures forall f :: f in fs && Complete(f) ==> FixSeverity(f) in Validated(fs)
    decreases |fs|
  {
    if |fs| > 0 {
      var init := fs[..|fs| - 1];
      ValidatedComplete(init);
      assert init + [fs[|fs| - 1]] == fs;
      assert forall f :: f in fs ==> f in init || f == fs[|fs| - 1];
    }
  }

  /** Findings that are all complete with valid severities pass validation unchanged. */
  lemma ValidatedFixed(fs: seq<Finding>)
    requires forall f :: f in fs ==> Complete(f) && ValidFinding(f)
    ensures Validated(fs) == fs
  {
    ValidatedFixedPrefix(fs, |fs|);
    assert fs[..|fs|] == fs;
  }

  lemma {:induction false} ValidatedFixedPrefix(fs: seq<Finding>, n: nat)
    requires n <= |fs|
    requires forall f :: f in fs ==> Complete(f) && ValidFinding(f)
    ensures Validated(fs[..n]) == fs[..n]
    decreases n
  {
    if n > 0 {
      ValidatedFixedPrefix(fs, n - 1);
      assert fs[n - 1] in fs;
      ValidatedKeepsValid(fs[..n - 1], fs[n - 1]);
      assert fs[..n - 1] + [fs[n - 1]] == fs[..n];
    }
  }

  /** A complete finding with a valid severity is appended as it is. */
  lemma ValidatedKeepsValid(init: seq<Finding>, last: Finding)
    requires Complete(last) && ValidFinding(last)
    ensures Validated(init + [last]) == Validated(init) + [last]
  {
    assert (init + [last])[..|init|] == init;
  }

  /** Validating twice is validating once. */
  lemma ValidatedIdempotent(fs: seq<Finding>)
    ensures Validated(Validated(fs)) == Validated(fs)
  {
    ValidatedSound(fs);
    ValidatedFixed(Validated(fs));
  }

  /** `validate_findings`: the loop that skips incomplete findings and fixes severities. */
  method ValidateFindings(findings: seq<Finding>) returns (validated: seq<Finding>)
    ensures validated == Validated(findings)
  {
    validated := [];
    for i := 0 to |findings|
      invariant validated == Validated(findings[..i])
    {
      assert findings[..i + 1][..i] == findings[..i];
      var finding := findings[i];
      if finding.file == "" || finding.rule == "" || finding.suggestion == "" {
        continue;
      }
      if finding.severity != "High" && finding.severity != "Medium" && finding.severity != "Low" {
        finding := finding.(severity := "Medium");
      }
      validated := validated + [finding];
    }
    assert findings[..|findings|] == findings;
  }
}
