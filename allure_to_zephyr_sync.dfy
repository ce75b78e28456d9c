/**
 `AllureToZephyrSync`: the status table and the fixed sequence of calls that
 `main` makes. The Zephyr client is a recorder: each call is appended to its
 trace and answered with the replies it was built with.
 */
module AllureToZephyrSync {
  import opened Common
  import opened AllureDocs
  import AllureParser

  // ---------------------------------------------------------------------------
  // Status table
  // ---------------------------------------------------------------------------

  const Passed := 1
  const Failed := 2
  const Broken := 4
  const Unrecognized := -1

  /** `mapStatus(allureStatus)`: the Zephyr status code for an Allure status, case ignored. */
  function MapStatus(allureStatus: string): (code: int)
    ensures code == Passed <==> Lower(allureStatus) == "passed"
    ensures code == Failed <==> Lower(allureStatus) == "failed"
    ensures code == Broken <==> Lower(allureStatus) == "broken"
    ensures code == Unrecognized <==> Lower(allureStatus) !in {"passed", "failed", "broken"}
  {
    match Lower(allureStatus)
    case "passed" => Passed
    case "failed" => Failed
    case "broken" => Broken
    case _ => Unrecognized
  }

  lemma {:induction false} LowerUpper(s: string)
    ensures Lower(Upper(s)) == Lower(s)
  {
    forall i | 0 <= i < |s| ensures Lower(Upper(s))[i] == Lower(s)[i] {
      assert Upper(s)[i] == UpperChar(s[i]);
    }
  }

  /** Upper-casing a status does not change its code: the table ignores case. */
  lemma MapStatusIgnoresCase(allureStatus: string)
    ensures MapStatus(Upper(allureStatus)) == MapStatus(allureStatus)
  {
    LowerUpper(allureStatus);
  }

  /** The table on the spellings a report may use. */
  lemma MapStatusExamples()
    ensures MapStatus("PASSED") == Passed && MapStatus("Failed") == Failed
    ensures MapStatus("broken") == Broken && MapStatus("skipped") == Unrecognized
  {
    assert Lower("PASSED") == "passed";
    assert Lower("Failed") == "failed";
    assert Lower("broken") == "broken";
    assert Lower("skipped") == "skipped";
  }

  // ---------------------------------------------------------------------------
  // The client and its trace
  // ---------------------------------------------------------------------------

  /** One call on the Zephyr client. A missing execution id (Java `null`) is `None`. */
  datatype Call =
    | CreateCycle(name: string, projectId: int, versionId: int)
    | CreateExecutions(issueKeys: seq<string>, cycleId: string, projectId: int)
    | UpdateExecution(executionId: Option<string>, status: int)

  /**
   The client `main` talks to. `cycleReply` holds the top-level text fields
   of the create-cycle response; `executionReply` maps each issue key to the
   execution id the create-executions response gives it.
   */
  class ZephyrClient {
    var trace: seq<Call>
    const cycleReply: map<string, string>
    const executionReply: map<string, string>

    constructor (cycleReply: map<string, string>, executionReply: map<string, string>)
      ensures trace == []
      ensures this.cycleReply == cycleReply && this.executionReply == executionReply
    {
      trace := [];
      this.cycleReply := cycleReply;
      this.executionReply := executionReply;
    }

    method CreateCycle(name: string, projectId: int, versionId: int) returns (response: map<string, string>)
      modifies this
      ensures trace == old(trace) + [Call.CreateCycle(name, projectId, versionId)]
      ensures response == cycleReply
    {
      trace := trace + [Call.CreateCycle(name, projectId, versionId)];
      response := cycleReply;
    }

    method CreateExecutions(issueKeys: seq<string>, cycleId: string, projectId: int) returns (executions: map<string, string>)
      modifies this
      ensures trace == old(trace) + [Call.CreateExecutions(issueKeys, cycleId, projectId)]
      ensures executions == executionReply
    {
      trace := trace + [Call.CreateExecutions(issueKeys, cycleId, projectId)];
      executions := executionReply;
    }

    method UpdateExecution(executionId: Option<string>, status: int)
      modifies this
      ensures trace == old(trace) + [Call.UpdateExecution(executionId, status)]
    {
      trace := trace + [Call.UpdateExecution(executionId, status)];
    }
  }

  // ---------------------------------------------------------------------------
  // The run
  // ---------------------------------------------------------------------------

  const CyclePrefix := "Automation Cycle - "
  const NoVersion := -1

  /** `readTree(cycleResponse).path("id").asText()`: the `id` field, or "" when absent. */
  function CycleIdOf(reply: map<string, string>): (cycleId: string)
    ensures "id" in reply ==> cycleId == reply["id"]
    ensures "id" !in reply ==> cycleId == ""
  {
    if "id" in reply then reply["id"] else ""
  }

  /** `executions.get(id)`: Java `null` when the id was not registered. */
  function Lookup(executions: map<string, string>, id: string): (executionId: Option<string>)
    ensures executionId.Some? <==> id in executions
    ensures executionId.Some? ==> executionId.value == executions[id]
  {
    if id in executions then Some(executions[id]) else None
  }

  /** `testResults.stream().map(r -> r.id)`. */
  function IssueKeys(results: seq<TestCaseResult>): (keys: seq<string>)
    ensures |keys| == |results|
    ensures forall i :: 0 <= i < |results| ==> keys[i] == results[i].id
  {
    seq(|results|, i requires 0 <= i < |results| => results[i].id)
  }

  /** The update calls the final loop makes, one per result in list order. */
  function Updates(results: seq<TestCaseResult>, executions: map<string, string>): seq<Call>
    decreases |results|
  {
    if |results| == 0 then []
    else
      var last := results[|results| - 1];
      Updates(results[..|results| - 1], executions) + [Call.UpdateExecution(Lookup(executions, last.id), MapStatus(last.status))]
  }

  /** The whole trace of one run of `main`. */
  function SyncTrace(projectId: int, today: string, listing: seq<ResultFile>,
                     cycleReply: map<string, string>, executionReply: map<string, string>): seq<Call>
  {
    var results := AllureParser.Results(listing);
    [Call.CreateCycle(CyclePrefix + today, projectId, NoVersion),
     Call.CreateExecutions(IssueKeys(results), CycleIdOf(cycleReply), projectId)]
    + Updates(results, executionReply)
  }

  /** The i-th update call is for the i-th result: its execution id (or null) and its mapped status. */
  lemma {:induction false} UpdatesAt(results: seq<TestCaseResult>, executions: map<string, string>)
    ensures |Updates(results, executions)| == |results|
    ensures forall i :: 0 <= i < |results| ==>
              Updates(results, executions)[i] == Call.UpdateExecution(Lookup(executions, results[i].id), MapStatus(results[i].status))
    decreases |results|
  {
    if |results| > 0 {
      UpdatesAt(results[..|results| - 1], executions);
    }
  }

  lemma UpdatesSnoc(results: seq<TestCaseResult>, i: nat, executions: map<string, string>)
    requires i < |results|
    ensures Updates(results[..i + 1], executions)
         == Updates(results[..i], executions) + [Call.UpdateExecution(Lookup(executions, results[i].id), MapStatus(results[i].status))]
  {
    assert results[..i + 1][..i] == results[..i];
  }

  /**
   The shape of a run: the cycle is created first, named after the date, for
   the project and version -1; the executions are registered second, for the
   parsed ids in list order (duplicates kept), against the id the cycle
   reply carries; then one update per parsed result, in list order, whether
   or not its id was registered.
   */
  lemma SyncTraceShape(projectId: int, today: string, listing: seq<ResultFile>,
                       cycleReply: map<string, string>, executionReply: map<string, string>)
    ensures var t := SyncTrace(projectId, today, listing, cycleReply, executionReply);
            var results := AllureParser.Results(listing);
            && |t| == 2 + |results|
            && t[0] == Call.CreateCycle("Automation Cycle - " + today, projectId, -1)
            && t[1].CreateExecutions? && t[1].cycleId == CycleIdOf(cycleReply) && t[1].projectId == projectId
            && |t[1].issueKeys| == |results|
            && (forall i :: 0 <= i < |results| ==> t[1].issueKeys[i] == results[i].id)
            && (forall i :: 0 <= i < |results| ==>
                  t[2 + i] == Call.UpdateExecution(Lookup(executionReply, results[i].id), MapStatus(results[i].status)))
  {
    UpdatesAt(AllureParser.Results(listing), executionReply);
  }

  /**
   The order of the calls: exactly one create-cycle, at the start; exactly
   one create-executions, right after it; every later call is an update.
   */
  lemma SyncTraceOrder(projectId: int, today: string, listing: seq<ResultFile>,
                       cycleReply: map<string, string>, executionReply: map<string, string>)
    ensures var t := SyncTrace(projectId, today, listing, cycleReply, executionReply);
            && |t| >= 2
            && (forall i :: 0 <= i < |t| ==> (t[i].CreateCycle? <==> i == 0))
            && (forall i :: 0 <= i < |t| ==> (t[i].CreateExecutions? <==> i == 1))
            && (forall i :: 0 <= i < |t| ==> (t[i].UpdateExecution? <==> i >= 2))
  {
    var t := SyncTrace(projectId, today, listing, cycleReply, executionReply);
    var updates := Updates(AllureParser.Results(listing), executionReply);
    UpdatesAt(AllureParser.Results(listing), executionReply);
    forall i | 0 <= i < |t|
      ensures (t[i].CreateCycle? <==> i == 0) && (t[i].CreateExecutions? <==> i == 1) && (t[i].UpdateExecution? <==> i >= 2)
    {
      if i >= 2 {
        assert t[i] == updates[i - 2];
      }
    }
  }

  /** Two parsed results, both registered: two updates, with codes 1 and 4, in that order. */
  lemma UpdatePhaseExample()
    ensures Updates([TestCaseResult("CBD-1", "passed"), TestCaseResult("CBD-2", "broken")],
                    map["CBD-1" := "E1", "CBD-2" := "E2"])
         == [Call.UpdateExecution(Some("E1"), 1), Call.UpdateExecution(Some("E2"), 4)]
  {
    var results := [TestCaseResult("CBD-1", "passed"), TestCaseResult("CBD-2", "broken")];
    var executions := map["CBD-1" := "E1", "CBD-2" := "E2"];
    UpdatesAt(results, executions);
    MapStatusExamples();
    assert Lower("passed") == "passed";
  }

  /**
   The last loop of `main`: for each parsed result, in list order, update
   the execution registered under its id (or `null`) with the mapped status.
   */
  method UpdateAll(client: ZephyrClient, testResults: seq<TestCaseResult>, executions: map<string, string>)
    modifies client
    ensures client.trace == old(client.trace) + Updates(testResults, executions)
  {
    for i := 0 to |testResults|
      invariant client.trace == old(client.trace) + Updates(testResults[..i], executions)
    {
      var result := testResults[i];
      var zephyrStatus := MapStatus(result.status);
      var executionId := Lookup(executions, result.id);
      client.UpdateExecution(executionId, zephyrStatus);
      UpdatesSnoc(testResults, i, executions);
    }
    assert testResults[..|testResults|] == testResults;
  }

  /** Three appends to a trace, regrouped as the trace followed by one block. */
  lemma TraceRegroup(t: seq<Call>, first: Call, second: Call, rest: seq<Call>)
    ensures t + [first] + [second] + rest == t + ([first, second] + rest)
  {
  }

  /**
   `main`: create the cycle, parse the results, register the executions,
   then update each execution with the mapped status. `projectId` and
   `today` (the date as `yyyy-MM-dd`) are the values `main` reads from the
   project properties and the clock; `listing` is the results directory.
   */
  method RunSync(client: ZephyrClient, projectId: int, today: string, listing: seq<ResultFile>)
    modifies client
    ensures client.trace == old(client.trace) + SyncTrace(projectId, today, listing, client.cycleReply, client.executionReply)
  {
    var cycleResponse := client.CreateCycle(CyclePrefix + today, projectId, NoVersion);
    var cycleId := CycleIdOf(cycleResponse);

    var testResults := AllureParser.ParseResults(listing);
    var issueKeys := IssueKeys(testResults);

    var executions := client.CreateExecutions(issueKeys, cycleId, projectId);
    UpdateAll(client, testResults, executions);
    TraceRegroup(old(client.trace), Call.CreateCycle(CyclePrefix + today, projectId, NoVersion),
                 Call.CreateExecutions(issueKeys, cycleId, projectId), Updates(testResults, executions));
  }
}
