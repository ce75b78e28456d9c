/**
 `AllureResultParser.parseResults`: every `-result.json` file of the listing
 is read; each of its labels named `tag` whose value contains a `CBD-<digits>`
 key writes key -> the file's status into a map, later writes replacing
 earlier ones. A file that fails to parse is skipped.
 */
module AllureResultParser {
  import opened Common
  import opened AllureDocs

  const ResultSuffix := "-result.json"
  const TagLabel := "tag"
  const KeyPrefix := "CBD-"

  /** A whole match of the pattern `CBD-\d+`. */
  predicate IsTestCaseKey(k: string)
  {
    |k| > |KeyPrefix| && k[..|KeyPrefix|] == KeyPrefix && forall i :: |KeyPrefix| <= i < |k| ==> IsDigit(k[i])
  }

  /** End of the run of ASCII digits that starts at `i`. */
  function DigitRunEnd(s: string, i: nat): (e: nat)
    requires i <= |s|
    ensures i <= e <= |s|
    ensures forall j :: i <= j < e ==> IsDigit(s[j])
    ensures e == |s| || !IsDigit(s[e])
    decreases |s| - i
  {
    if i < |s| && IsDigit(s[i]) then DigitRunEnd(s, i + 1) else i
  }

  /** Whether `CBD-` followed by at least one digit starts at position `i`. */
  predicate PatternStartsAt(s: string, i: nat)
  {
    i + |KeyPrefix| < |s| && s[i..i + |KeyPrefix|] == KeyPrefix && IsDigit(s[i + |KeyPrefix|])
  }

  /**
   The match of `CBD-\d+` starting at `i`, if any: `\d+` is greedy, so the key
   takes the whole digit run.
   */
  function MatchAt(s: string, i: nat): (r: Option<string>)
    requires i <= |s|
    ensures r.Some? <==> PatternStartsAt(s, i)
    ensures r.Some? ==> IsTestCaseKey(r.value) && i + |r.value| <= |s| && s[i..i + |r.value|] == r.value
    ensures r.Some? ==> i + |r.value| == |s| || !IsDigit(s[i + |r.value|])
  {
    if PatternStartsAt(s, i) then
      var e := DigitRunEnd(s, i + |KeyPrefix|);
      assert s[i..e][..|KeyPrefix|] == s[i..i + |KeyPrefix|];
      Some(s[i..e])
    else None
  }

  /** The leftmost position at or after `from` where the pattern matches. */
  function LeftmostMatch(s: string, from: nat): (p: Option<nat>)
    requires from <= |s|
    ensures p.Some? ==> from <= p.value <= |s| && PatternStartsAt(s, p.value)
    ensures p.Some? ==> forall k :: from <= k < p.value ==> !PatternStartsAt(s, k)
    ensures p.None? ==> forall k :: from <= k <= |s| ==> !PatternStartsAt(s, k)
    decreases |s| - from
  {
    if PatternStartsAt(s, from) then Some(from)
    else if from == |s| then None
    else LeftmostMatch(s, from + 1)
  }

  /**
   `matcher.find()` then `matcher.group()`: the leftmost occurrence of `CBD-`
   followed by the maximal run of digits; None when the value has none.
   */
  function FindTestCaseKey(tag: string): (r: Option<string>)
    ensures r.Some? ==> IsTestCaseKey(r.value)
    ensures r.None? <==> forall k :: 0 <= k <= |tag| ==> !PatternStartsAt(tag, k)
    ensures r.Some? ==> exists p: nat :: PatternStartsAt(tag, p) && p + |r.value| <= |tag| && tag[p..p + |r.value|] == r.value
                                  && (forall k :: 0 <= k < p ==> !PatternStartsAt(tag, k))
                                  && (p + |r.value| == |tag| || !IsDigit(tag[p + |r.value|]))
  {
    match LeftmostMatch(tag, 0)
    case Some(p) => MatchAt(tag, p)
    case None => None
  }

  /** A tag whose whole value is a key yields that key. */
  lemma FindTestCaseKeyOfKey(k: string)
    requires IsTestCaseKey(k)
    ensures FindTestCaseKey(k) == Some(k)
  {
    assert k[0..|KeyPrefix|] == KeyPrefix;
    assert PatternStartsAt(k, 0);
    assert DigitRunEnd(k, |KeyPrefix|) == |k|;
    assert k[0..|k|] == k;
  }

  /** What the label loop leaves in the map `m` for a document with these labels and this status. */
  function PutTags(m: map<string, string>, labels: seq<Label>, status: string): map<string, string>
    decreases |labels|
  {
    if |labels| == 0 then m
    else
      var before := PutTags(m, labels[..|labels| - 1], status);
      var last := labels[|labels| - 1];
      if last.name == TagLabel && FindTestCaseKey(last.value).Some? then
        before[FindTestCaseKey(last.value).value := status]
      else before
  }

  /** The keys the tag labels of a document carry. */
  function TagKeys(labels: seq<Label>): (keys: set<string>)
    ensures forall k :: k in keys ==> IsTestCaseKey(k)
    decreases |labels|
  {
    if |labels| == 0 then {}
    else
      var last := labels[|labels| - 1];
      TagKeys(labels[..|labels| - 1]) +
        (if last.name == TagLabel && FindTestCaseKey(last.value).Some? then {FindTestCaseKey(last.value).value} else {})
  }

  /** Whether a listed file is read at all and parses. */
  predicate Contributes(f: ResultFile)
  {
    EndsWith(f.name, ResultSuffix) && f.parsed.Some?
  }

  /** The keys a file writes into the map. */
  function FileKeys(f: ResultFile): set<string>
  {
    if Contributes(f) then TagKeys(f.parsed.value.labels) else {}
  }

  /** The map `parseResults` returns for a listing. */
  function ResultMap(listing: seq<ResultFile>): map<string, string>
    decreases |listing|
  {
    if |listing| == 0 then map[]
    else
      var before := ResultMap(listing[..|listing| - 1]);
      var f := listing[|listing| - 1];
      if Contributes(f) then PutTags(before, f.parsed.value.labels, f.parsed.value.status) else before
  }

  /**
   The label loop inserts exactly the document's tag keys, each mapped to the
   document's status, and leaves every other entry as it was.
   */
  lemma {:induction false} PutTagsEffect(m: map<string, string>, labels: seq<Label>, status: string)
    ensures PutTags(m, labels, status).Keys == m.Keys + TagKeys(labels)
    ensures forall k :: k in TagKeys(labels) ==> PutTags(m, labels, status)[k] == status
    ensures forall k :: k in m && k !in TagKeys(labels) ==> PutTags(m, labels, status)[k] == m[k]
    decreases |labels|
  {
    if |labels| > 0 {
      PutTagsEffect(m, labels[..|labels| - 1], status);
    }
  }

  /** A key is in the result exactly when some contributing file carries it in a tag. */
  lemma {:induction false} ResultMapKeys(listing: seq<ResultFile>, k: string)
    ensures k in ResultMap(listing) <==> exists i :: 0 <= i < |listing| && k in FileKeys(listing[i])
    decreases |listing|
  {
    if |listing| > 0 {
      var n := |listing| - 1;
      var prefix := listing[..n];
      ResultMapKeys(prefix, k);
      assert forall i :: 0 <= i < n ==> prefix[i] == listing[i];
      if Contributes(listing[n]) {
        PutTagsEffect(ResultMap(prefix), listing[n].parsed.value.labels, listing[n].parsed.value.status);
      }
      if k in FileKeys(listing[n]) {
        assert k in ResultMap(listing);
      }
    }
  }

  /**
   Last write wins: a key's status is that of the last file in listing order
   that carries it, whatever earlier files said.
   */
  lemma {:induction false} LastWriteWins(listing: seq<ResultFile>, i: nat, k: string)
    requires i < |listing| && k in FileKeys(listing[i])
    requires forall j :: i < j < |listing| ==> k !in FileKeys(listing[j])
    ensures k in ResultMap(listing) && ResultMap(listing)[k] == listing[i].parsed.value.status
    decreases |listing|
  {
    var n := |listing| - 1;
    var prefix := listing[..n];
    var f := listing[n];
    if i == n {
      PutTagsEffect(ResultMap(prefix), f.parsed.value.labels, f.parsed.value.status);
    } else {
      assert prefix[i] == listing[i];
      assert forall j :: i < j < n ==> prefix[j] == listing[j];
      LastWriteWins(prefix, i, k);
      if Contributes(f) {
        assert k !in TagKeys(f.parsed.value.labels);
        PutTagsEffect(ResultMap(prefix), f.parsed.value.labels, f.parsed.value.status);
      }
    }
  }

  /** Every key matches `CBD-\d+` and every value is the status of a file that carries that key. */
  lemma {:induction false} ResultMapEntries(listing: seq<ResultFile>, k: string)
    requires k in ResultMap(listing)
    ensures IsTestCaseKey(k)
    ensures exists i :: 0 <= i < |listing| && k in FileKeys(listing[i])
                     && ResultMap(listing)[k] == listing[i].parsed.value.status
    decreases |listing|
  {
    var n := |listing| - 1;
    var prefix := listing[..n];
    if k in FileKeys(listing[n]) {
      LastWriteWins(listing, n, k);
    } else {
      if Contributes(listing[n]) {
        PutTagsEffect(ResultMap(prefix), listing[n].parsed.value.labels, listing[n].parsed.value.status);
      }
      ResultMapEntries(prefix, k);
      var i :| 0 <= i < n && k in FileKeys(prefix[i]) && ResultMap(prefix)[k] == prefix[i].parsed.value.status;
      assert listing[i] == prefix[i];
    }
  }

  /** A file that is not read, or fails to parse, leaves the rest of the batch's result unchanged. */
  lemma {:induction false} SkippedFileIsInvisible(before: seq<ResultFile>, skipped: ResultFile, after: seq<ResultFile>)
    requires !Contributes(skipped)
    ensures ResultMap(before + [skipped] + after) == ResultMap(before + after)
    decreases |after|
  {
    if |after| == 0 {
      assert (before + [skipped] + after)[..|before|] == before;
      assert before + after == before;
    } else {
      var n := |after| - 1;
      SkippedFileIsInvisible(before, skipped, after[..n]);
      assert (before + [skipped] + after)[..|before| + 1 + n] == before + [skipped] + after[..n];
      assert (before + after)[..|before| + n] == before + after[..n];
    }
  }

  /**
   `parseResults()` over a listing: the filter on the name, the per-file
   parse (a failure is printed and the file skipped), and the two loops.
   */
  method ParseResults(listing: seq<ResultFile>) returns (testResults: map<string, string>)
    ensures testResults == ResultMap(listing)
  {
    testResults := map[];
    for i := 0 to |listing|
      invariant testResults == ResultMap(listing[..i])
    {
      var file := listing[i];
      assert listing[..i + 1][..i] == listing[..i];
      if EndsWith(file.name, ResultSuffix) {
        match file.parsed
        case None =>
        case Some(root) =>
          var status := root.status;
          var labels := root.labels;
          for j := 0 to |labels|
            invariant testResults == PutTags(ResultMap(listing[..i]), labels[..j], status)
          {
            assert labels[..j + 1][..j] == labels[..j];
            if labels[j].name == TagLabel {
              var found := FindTestCaseKey(labels[j].value);
              if found.Some? {
                testResults := testResults[found.value := status];
              }
            }
          }
          assert labels[..|labels|] == labels;
      }
    }
    assert listing[..|listing|] == listing;
  }

  /** Two results and a malformed file: the malformed one is skipped, the others are kept. */
  lemma MalformedFileExample()
    ensures ResultMap([ResultFile("a-result.json", Some(Document("passed", [Label("tag", "CBD-1")]))),
                       ResultFile("b-result.json", Some(Document("failed", [Label("tag", "CBD-2")]))),
                       ResultFile("c-result.json", None)])
         == map["CBD-1" := "passed", "CBD-2" := "failed"]
  {
    var a := ResultFile("a-result.json", Some(Document("passed", [Label("tag", "CBD-1")])));
    var b := ResultFile("b-result.json", Some(Document("failed", [Label("tag", "CBD-2")])));
    var c := ResultFile("c-result.json", None);
    FindTestCaseKeyOfKey("CBD-1");
    FindTestCaseKeyOfKey("CBD-2");
    assert [a, b, c][..2] == [a, b];
    assert [a, b][..1] == [a];
    assert [a][..0] == [];
    assert [Label("tag", "CBD-1")][..0] == [];
    assert [Label("tag", "CBD-2")][..0] == [];
    assert ResultMap([a]) == map["CBD-1" := "passed"];
    assert ResultMap([a, b]) == map["CBD-1" := "passed", "CBD-2" := "failed"];
  }

  /** The same key in two files: the later file's status is kept. */
  lemma DuplicateKeyExample()
    ensures ResultMap([ResultFile("a-result.json", Some(Document("passed", [Label("tag", "CBD-1")]))),
                       ResultFile("b-result.json", Some(Document("failed", [Label("tag", "CBD-1")])))])
         == map["CBD-1" := "failed"]
  {
    var a := ResultFile("a-result.json", Some(Document("passed", [Label("tag", "CBD-1")])));
    var b := ResultFile("b-result.json", Some(Document("failed", [Label("tag", "CBD-1")])));
    FindTestCaseKeyOfKey("CBD-1");
    assert [a, b][..1] == [a];
    assert [a][..0] == [];
    assert [Label("tag", "CBD-1")][..0] == [];
  }
}
