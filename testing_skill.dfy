/**
 * The testing skill: every test case of a configuration is run through a
 * (simulated) agent interaction, its output validated against the expected
 * output, and the outcome counted and recorded for the test report.
 */
module TestingSkill {
  import opened Wrappers
  import opened Text
  import Paths

  /** A test case of the configuration: its name and its optional
      `expected_output` and `mock_output`. */
  datatype TestCase = TestCase(name: string, expectedOutput: Option<string>, mockOutput: Option<string>)

  /** One entry of the report's `results` list; `actualOutput` is `None` for a
      case whose interaction raised. */
  datatype CaseResult = CaseResult(
    testName: string,
    passed: bool,
    message: string,
    expectedOutput: string,
    actualOutput: Option<string>)

  /** The report: the counters and the per-case results. */
  datatype TestResults = TestResults(totalTests: nat, passedTests: nat, failedTests: nat, results: seq<CaseResult>)

  /** An agent interaction: its output, or the message of what it raised. */
  type Interaction = TestCase -> Result<string, string>

  const MockOutput: string := "Mock output for testing"
  const PassedMessage: string := "Test passed"
  const MismatchMessage: string := "Test failed: Output does not match expected result"
  const ExceptionPrefix: string := "Test failed with exception: "

  /** `test_case.get("expected_output", "")`. */
  function ExpectedOutput(tc: TestCase): (e: string)
    ensures tc.expectedOutput.None? ==> e == ""
    ensures tc.expectedOutput.Some? ==> e == tc.expectedOutput.value
  {
    if tc.expectedOutput.Some? then tc.expectedOutput.value else ""
  }

  /** `_simulate_agent_interaction`: the case's mock output, or the default
      one; it never raises. */
  function SimulateAgentInteraction(tc: TestCase): (r: Result<string, string>)
    ensures r.Ok?
    ensures tc.mockOutput.Some? ==> r.value == tc.mockOutput.value
    ensures tc.mockOutput.None? ==> r.value == MockOutput
  {
    Ok(if tc.mockOutput.Some? then tc.mockOutput.value else MockOutput)
  }

  /** `_validate_result`: a case without expected output always passes; any
      other passes exactly when its expected output occurs in the result. */
  predicate ValidateResult(tc: TestCase, result: string)
  {
    ExpectedOutput(tc) == "" || Contains(result, ExpectedOutput(tc))
  }

  /** Validation accepts every result that has the expected output somewhere
      inside it; when an output is expected, it accepts exactly the results in
      which `find` locates it. */
  lemma ValidateResultMeaning(tc: TestCase, pre: string, post: string, result: string)
    ensures ValidateResult(tc, pre + ExpectedOutput(tc) + post)
    ensures ExpectedOutput(tc) != "" ==>
      (ValidateResult(tc, result) <==> IndexFrom(result, ExpectedOutput(tc), 0).Some?)
  {
    ContainsInConcat(pre, ExpectedOutput(tc), post);
    ContainsIndex(result, ExpectedOutput(tc));
  }

  /** The mock output always passes a case that expects nothing or expects
      exactly the mock output. */
  lemma MockPasses(tc: TestCase)
    requires tc.expectedOutput.None? || tc.expectedOutput == Some(SimulateAgentInteraction(tc).value)
    ensures ValidateResult(tc, SimulateAgentInteraction(tc).value)
  {
    var out := SimulateAgentInteraction(tc).value;
    if tc.expectedOutput.Some? {
      ContainsInConcat("", out, "");
      assert "" + out + "" == out;
    }
  }

  /** One pass of the loop body: the result recorded for a case. */
  function Outcome(tc: TestCase, interact: Interaction): (o: CaseResult)
    ensures o.testName == tc.name && o.expectedOutput == ExpectedOutput(tc)
    ensures o.actualOutput.None? <==> interact(tc).Err?
    ensures interact(tc).Ok? ==> o.actualOutput == Some(interact(tc).value)
    ensures o.passed <==> interact(tc).Ok? && ValidateResult(tc, interact(tc).value)
    ensures o.passed ==> o.message == PassedMessage
    ensures interact(tc).Ok? && !o.passed ==> o.message == MismatchMessage
    ensures interact(tc).Err? ==> o.message == ExceptionPrefix + interact(tc).error
  {
    match interact(tc)
    case Ok(result) =>
      var passed := ValidateResult(tc, result);
      CaseResult(tc.name, passed, if passed then PassedMessage else MismatchMessage, ExpectedOutput(tc), Some(result))
    case Err(e) =>
      CaseResult(tc.name, false, ExceptionPrefix + e, ExpectedOutput(tc), None)
  }

  /** The number of passed results. */
  function CountPassed(rs: seq<CaseResult>): (n: nat)
    ensures n <= |rs|
  {
    if |rs| == 0 then 0
    else CountPassed(rs[..|rs| - 1]) + (if rs[|rs| - 1].passed then 1 else 0)
  }

  lemma CountPassedSnoc(rs: seq<CaseResult>, r: CaseResult)
    ensures CountPassed(rs + [r]) == CountPassed(rs) + (if r.passed then 1 else 0)
  {
    assert (rs + [r])[..|rs|] == rs;
  }

  /** Every result passed exactly when the count of passed results is the
      number of results. */
  lemma {:induction false} AllPassedCount(rs: seq<CaseResult>)
    ensures CountPassed(rs) == |rs| <==> forall i :: 0 <= i < |rs| ==> rs[i].passed
  {
    if |rs| > 0 {
      var init := rs[..|rs| - 1];
      AllPassedCount(init);
      assert forall i :: 0 <= i < |init| ==> init[i] == rs[i];
    }
  }

  /** The results of a list of cases, in order. */
  function Outcomes(cases: seq<TestCase>, interact: Interaction): (rs: seq<CaseResult>)
    ensures |rs| == |cases| && forall i :: 0 <= i < |cases| ==> rs[i] == Outcome(cases[i], interact)
  {
    seq(|cases|, i requires 0 <= i < |cases| => Outcome(cases[i], interact))
  }

  /** The loop of `test_agent_interactions`: one result per case, in order;
      the passed and failed counters add up to the number of cases, and the
      passed counter counts the passed results. */
  method RunTestCases(cases: seq<TestCase>, interact: Interaction) returns (report: TestResults)
    ensures report.totalTests == |cases|
    ensures report.results == Outcomes(cases, interact)
    ensures report.passedTests == CountPassed(report.results)
    ensures report.passedTests + report.failedTests == report.totalTests
  {
    var passedTests := 0;
    var failedTests := 0;
    var results: seq<CaseResult> := [];
    var i := 0;
    while i < |cases|
      invariant 0 <= i <= |cases|
      invariant results == Outcomes(cases[..i], interact)
      invariant passedTests == CountPassed(results)
      invariant passedTests + failedTests == i
    {
      var tc := cases[i];
      var testResult: CaseResult;
      match interact(tc) {
        case Ok(result) =>
          var passed := ValidateResult(tc, result);
          testResult := CaseResult(tc.name, passed, if passed then PassedMessage else MismatchMessage, ExpectedOutput(tc), Some(result));
        case Err(e) =>
          testResult := CaseResult(tc.name, false, ExceptionPrefix + e, ExpectedOutput(tc), None);
      }
      CountPassedSnoc(results, testResult);
      results := results + [testResult];
      if testResult.passed {
        passedTests := passedTests + 1;
      } else {
        failedTests := failedTests + 1;
      }
      assert cases[..i + 1] == cases[..i] + [tc];
      i := i + 1;
    }
    assert cases[..i] == cases;
    report := TestResults(|cases|, passedTests, failedTests, results);
  }

  /** The summary `test_agent_interactions` returns: the two counters and the
      report beside the configuration file. */
  function Summary(report: TestResults, configPath: string): string
  {
    "Testing completed. Passed: " + NatToString(report.passedTests)
      + ", Failed: " + NatToString(report.failedTests)
      + ". Report saved to " + ReportPath(configPath)
  }

  function ReportPath(configPath: string): (p: string)
    ensures EndsWith(p, "test_report.json")
  {
    Paths.Join(Paths.Dirname(configPath), "test_report.json")
  }

  /** The report of `dir/config.json` is saved as `dir/test_report.json`. */
  lemma ReportBesideConfig(dir: string, name: string)
    requires NoChar(name, '/') && |dir| > 0 && dir[|dir| - 1] != '/'
    ensures ReportPath(dir + "/" + name) == dir + "/" + "test_report.json"
  {
    Paths.DirnameOfPath(dir, name);
  }

  /** `test_agent_interactions` on the loaded test cases. */
  method TestAgentInteractions(cases: seq<TestCase>, configPath: string, interact: Interaction)
    returns (summary: string, report: TestResults)
    ensures report.totalTests == |cases| && report.results == Outcomes(cases, interact)
    ensures report.passedTests == CountPassed(report.results)
    ensures report.passedTests + report.failedTests == report.totalTests
    ensures summary == Summary(report, configPath)
  {
    report := RunTestCases(cases, interact);
    summary := Summary(report, configPath);
  }

  /** With the simulated interaction nothing raises: every result carries the
      mock output, and a run whose cases expect nothing passes them all. */
  lemma SimulatedRun(cases: seq<TestCase>)
    ensures forall i :: 0 <= i < |cases| ==>
      Outcomes(cases, SimulateAgentInteraction)[i].actualOutput == Some(SimulateAgentInteraction(cases[i]).value)
    ensures (forall i :: 0 <= i < |cases| ==> ExpectedOutput(cases[i]) == "") ==>
      CountPassed(Outcomes(cases, SimulateAgentInteraction)) == |cases|
  {
    AllPassedCount(Outcomes(cases, SimulateAgentInteraction));
  }

  /** A case whose interaction raises is recorded as failed, with no output. */
  lemma RaisingCaseFails(cases: seq<TestCase>, interact: Interaction, i: nat)
    requires i < |cases| && interact(cases[i]).Err?
    ensures !Outcomes(cases, interact)[i].passed
    ensures Outcomes(cases, interact)[i].actualOutput.None?
    ensures CountPassed(Outcomes(cases, interact)) < |cases|
  {
    AllPassedCount(Outcomes(cases, interact));
  }
}
