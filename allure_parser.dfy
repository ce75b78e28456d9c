/**
 `AllureParser.parseResults` (file `allureParser.java`): every `.json` entry
 of the listing is read; the value of its first label named `testCaseId`,
 with the file's status, is appended to a list. Files without such a label
 add nothing, a file that fails to parse is skipped, and duplicates are kept.
 */
module AllureParser {
  import opened Common
  import opened AllureDocs

  const JsonSuffix := ".json"
  const TestCaseIdLabel := "testCaseId"

  /** Position of the first label named `testCaseId`, if any. */
  function FirstTestCaseIdAt(labels: seq<Label>, from: nat): (p: Option<nat>)
    requires from <= |labels|
    ensures p.Some? ==> from <= p.value < |labels| && labels[p.value].name == TestCaseIdLabel
    ensures p.Some? ==> forall k :: from <= k < p.value ==> labels[k].name != TestCaseIdLabel
    ensures p.None? ==> forall k :: from <= k < |labels| ==> labels[k].name != TestCaseIdLabel
    decreases |labels| - from
  {
    if from == |labels| then None
    else if labels[from].name == TestCaseIdLabel then Some(from)
    else FirstTestCaseIdAt(labels, from + 1)
  }

  /** The `testCaseId` the label loop settles on: the first one's value, verbatim. */
  function FirstTestCaseId(labels: seq<Label>): Option<string>
  {
    match FirstTestCaseIdAt(labels, 0)
    case Some(p) => Some(labels[p].value)
    case None => None
  }

  /**
   What one listed file adds to the list: nothing unless its name ends in
   `.json`, it parses and it has a `testCaseId` label; otherwise one result
   with the first such label's value and the file's status.
   */
  function FileResult(f: ResultFile): (r: seq<TestCaseResult>)
    ensures |r| <= 1
    ensures |r| == 1 <==> EndsWith(f.name, JsonSuffix) && f.parsed.Some? && FirstTestCaseId(f.parsed.value.labels).Some?
    ensures |r| == 1 ==> r[0] == TestCaseResult(FirstTestCaseId(f.parsed.value.labels).value, f.parsed.value.status)
  {
    if EndsWith(f.name, JsonSuffix) && f.parsed.Some? then
      match FirstTestCaseId(f.parsed.value.labels)
      case Some(id) => [TestCaseResult(id, f.parsed.value.status)]
      case None => []
    else []
  }

  /** The list `parseResults` returns for a listing. */
  function Results(listing: seq<ResultFile>): seq<TestCaseResult>
    decreases |listing|
  {
    if |listing| == 0 then [] else Results(listing[..|listing| - 1]) + FileResult(listing[|listing| - 1])
  }

  /** How many entries of the listing pass the `.json` filter. */
  function JsonFileCount(listing: seq<ResultFile>): (n: nat)
    ensures n <= |listing|
    decreases |listing|
  {
    if |listing| == 0 then 0
    else JsonFileCount(listing[..|listing| - 1]) + (if EndsWith(listing[|listing| - 1].name, JsonSuffix) then 1 else 0)
  }

  /**
   The list follows the listing: the results of a listing split in two are
   the results of the first part followed by those of the second. Order is
   kept and equal ids from different files are not merged.
   */
  lemma ResultsSnoc(listing: seq<ResultFile>, f: ResultFile)
    ensures Results(listing + [f]) == Results(listing) + FileResult(f)
  {
    assert (listing + [f])[..|listing|] == listing;
  }

  lemma {:induction false} ResultsAppend(first: seq<ResultFile>, second: seq<ResultFile>)
    ensures Results(first + second) == Results(first) + Results(second)
    decreases |second|
  {
    if |second| == 0 {
      assert first + second == first;
    } else {
      var init, last := second[..|second| - 1], second[|second| - 1];
      SplitLast(first, second);
      ResultsAppend(first, init);
      ResultsSnoc(first + init, last);
      ResultsSnoc(init, last);
      Regroup(Results(first), Results(init), FileResult(last));
    }
  }

  /** Each `.json` file adds at most one result. */
  lemma {:induction false} ResultsBound(listing: seq<ResultFile>)
    ensures |Results(listing)| <= JsonFileCount(listing)
    decreases |listing|
  {
    if |listing| > 0 {
      ResultsBound(listing[..|listing| - 1]);
    }
  }

  /** A file that is not `.json`, does not parse, or has no `testCaseId` leaves the list as the other files make it. */
  lemma SkippedFileIsInvisible(before: seq<ResultFile>, skipped: ResultFile, after: seq<ResultFile>)
    requires FileResult(skipped) == []
    ensures Results(before + [skipped] + after) == Results(before + after)
  {
    ResultsAppend(before + [skipped], after);
    ResultsAppend(before, [skipped]);
    ResultsAppend(before, after);
    assert [skipped][..0] == [];
  }

  /** Two files naming the same test case give two results, in listing order. */
  lemma DuplicatesKept(f1: ResultFile, f2: ResultFile, id: string)
    requires |FileResult(f1)| == 1 && |FileResult(f2)| == 1
    requires FileResult(f1)[0].id == id && FileResult(f2)[0].id == id
    ensures Results([f1, f2]) == FileResult(f1) + FileResult(f2)
    ensures |Results([f1, f2])| == 2 && Results([f1, f2])[0].id == Results([f1, f2])[1].id == id
  {
    assert [f1, f2][..1] == [f1];
    assert [f1][..0] == [];
    assert Results([f1]) == FileResult(f1);
    assert Results([f1, f2]) == Results([f1]) + FileResult(f2);
  }

  /**
   `parseResults(directory)` over the directory's listing: the `.json`
   filter, the per-file parse (an `IOException` is printed and the file
   skipped) and the label loop that stops at the first `testCaseId`.
   */
  method ParseResults(listing: seq<ResultFile>) returns (results: seq<TestCaseResult>)
    ensures results == Results(listing)
  {
    results := [];
    for i := 0 to |listing|
      invariant results == Results(listing[..i])
    {
      var file := listing[i];
      assert listing[..i + 1] == listing[..i] + [file];
      ResultsSnoc(listing[..i], file);
      if EndsWith(file.name, JsonSuffix) {
        match file.parsed
        case None =>
        case Some(root) =>
          var status := root.status;
          var labels := root.labels;
          var testCaseId: Option<string> := None;
          var j := 0;
          while j < |labels|
            invariant 0 <= j <= |labels|
            invariant FirstTestCaseIdAt(labels, j) == FirstTestCaseIdAt(labels, 0)
            invariant testCaseId == None
          {
            if labels[j].name == TestCaseIdLabel {
              testCaseId := Some(labels[j].value);
              break;
            }
            j := j + 1;
          }
          assert testCaseId == FirstTestCaseId(labels);
          if testCaseId.Some? {
            results := results + [TestCaseResult(testCaseId.value, status)];
          }
      }
    }
    assert listing[..|listing|] == listing;
  }
}
