/**
 * The script as one sequential run (entrypoint.js:15-76): pick the document
 * to lint, make the configuration extend the custom ruleset, choose the fail
 * limit, report the engine's findings and decide the exit status. The program
 * arguments and the environment are parameters; the engine's findings and its
 * summary formatter are given, not computed.
 */
module Entrypoint {
  import opened SpectralConfig
  import opened Reporting

  const DefaultDocument: string := "openapi.yaml"

  /**
   * An environment variable is set when it is present and not empty: an
   * absent variable and an empty one are both falsy in JavaScript.
   */
  function EnvSet(env: map<string, string>, name: string): (isSet: bool)
    ensures name !in env ==> !isSet
    ensures name in env ==> (isSet <==> |env[name]| > 0)
  {
    name in env && env[name] != ""
  }

  /**
   * One run of the script. `argv` holds the interpreter and the script path
   * before the user's arguments; `results` are the findings the engine
   * reports for `filename` under the written configuration, and `render`
   * is the summary formatter. `output` is what the script prints, in order.
   */
  method Run(argv: seq<string>, env: map<string, string>, config: ConfigFile,
             results: seq<Finding>, render: seq<Finding> -> string)
    returns (filename: string, written: Document, output: seq<string>, code: nat)
    ensures filename == if |argv| >= 3 then argv[2] else DefaultDocument
    ensures written == Merged(config, RulesetRef)
    ensures |output| >= 1 && output[|output| - 1] == render(results)
    ensures EnvSet(env, "GITHUB_ACTIONS") ==> |output| == |results| + 1
    ensures EnvSet(env, "GITHUB_ACTIONS") ==>
      forall i :: 0 <= i < |results| ==> output[i] == Annotation(results[i])
    ensures !EnvSet(env, "GITHUB_ACTIONS") ==> output == [render(results)]
    ensures code == 1 <==> exists i :: 0 <= i < |results| && results[i].severity <= FailLimit(EnvSet(env, "FAIL_ON_WARNINGS"))
    ensures code == 0 <==> forall i :: 0 <= i < |results| ==> results[i].severity > FailLimit(EnvSet(env, "FAIL_ON_WARNINGS"))
  {
    filename := DefaultDocument;
    if |argv| >= 3 {
      filename := argv[2];
    }
    written := EnsureRulesetLinked(config);
    var failLimit := FailLimit(EnvSet(env, "FAIL_ON_WARNINGS"));
    var errors, lines := Report(results, failLimit, EnvSet(env, "GITHUB_ACTIONS"));
    output := lines + [render(results)];
    code := ExitStatus(errors);
    ExitStatusReflectsFindings(results, failLimit);
  }
}
