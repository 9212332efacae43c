# rest-api-lint: configuration merge and result reporting, in Dafny

The repository is one Node script, `entrypoint.js`. It lints an OpenAPI document with
the Spectral engine and a custom ruleset, `./isp-rules.yaml`. Before linting, it makes
sure Spectral's configuration file `.spectral.yaml` extends that ruleset. After linting,
it goes through the findings. It counts the ones whose severity is at or below the fail
limit. Under GitHub Actions it prints one workflow annotation line per finding. It prints
the formatted summary and exits with status 1 when anything failed.

This project models those two sequential pieces and proves their properties:

- `SpectralConfig` (`config.dfy`): the parsed configuration document and the merge of the
  ruleset reference into its `extends` list. `Merged` is the specification function.
  `EnsureRulesetLinked` is the script's step-by-step update of the parsed document. The
  lemmas give membership, idempotence, occurrence counts, preservation of the other keys
  and of the old entries, and the `[ref]` result for a missing list or file.
- `Reporting` (`report.dfy`): the `Finding` datatype, the severity-to-level table `SevMap`,
  the fail limit, the counting and annotating loop `Report`, the exit status and the
  annotation line. `Report` is proved against the counting function `FailureCount`.
  `FailureCount` is in turn proved equal to the size of the set of failing positions, and
  lemmas relate it to the warnings toggle and to the exit status.
- `NumberText` (`number_text.dfy`): the decimal text a template literal gives a line or
  column number, with a parser that reads it back.
- `WorkflowCommands` (`workflow.dfy`): the syntax a CI runner reads an annotation line
  with, `::name key=value,...::data`. It is the inverse that the annotation format is
  proved against (`AnnotationReadsBack`).
- `Entrypoint` (`entrypoint.dfy`): one run of the script as a sequential method. The
  program arguments, the environment, the configuration file's parsed content, the
  engine's findings and the summary formatter are its parameters.

Three behaviours of the script that the model keeps as they are:

- The script appends the reference only when it is missing. It never removes duplicates a
  user already wrote (`MergeOccurrences`). `MergeListsRefOnce` gives "exactly once" for a
  list without a duplicate.
- Annotations are printed when `GITHUB_ACTIONS` is set, that is, present and not empty.
  `FAIL_ON_WARNINGS` is read the same way. Both follow JavaScript's truthiness of
  environment strings.
- The exit code is `process.exit(errors > 0)`, a boolean. The model takes the coercion
  of `true`/`false` to 1/0 made by the Node versions the script was written for.

## Model

| member | source | states |
|---|---|---|
| SpectralConfig.Merged | entrypoint.js:22-38 | the written document always lists the ruleset reference; a missing file gives a document with only `extends: [ref]`; an existing file keeps every other key, keeps its old entries as a prefix, and grows by at most one entry; `extends` stays apart from the other keys |
| SpectralConfig.Entries | entrypoint.js:26-28 | a falsy `extends` reads as the empty list and a list reads as itself; `MergeWithoutExtends` shows that a falsy one ends as exactly `[ref]` |
| SpectralConfig.EnsureRulesetLinked | entrypoint.js:22-38 | the in-place update (falsy `extends` set to `[]`, then push `./isp-rules.yaml` unless included) writes exactly the document `Merged` specifies |
| SpectralConfig.MergeIdempotent | entrypoint.js:30-32 | merging the written document again gives the same document |
| SpectralConfig.MergeOccurrences | entrypoint.js:26-32 | the reference occurs once after the merge if it was absent, otherwise as often as before; every other entry keeps its number of occurrences |
| SpectralConfig.MergeListsRefOnce | entrypoint.js:30-32 | a list that did not repeat the reference, or a missing file, ends with the reference exactly once |
| SpectralConfig.MergeWithoutExtends | entrypoint.js:26-37 | a document without `extends`, or a missing file, ends with `extends` equal to exactly `[ref]` |
| NumberText.Decimal | entrypoint.js:65-67 | a line or column number becomes a non-empty string of digits whose first digit is `0` only for zero |
| NumberText.DecimalRoundTrip | entrypoint.js:65-67 | the decimal text of a number parses back to that number |
| NumberText.DecimalInjective | entrypoint.js:65-67 | different numbers give different text |
| Reporting.Label | entrypoint.js:13 | the `SEV_MAP` level of a severity is one of `error`, `warning`, `debug`; it is `error` exactly for severity 0 and `warning` exactly for severity 1; `FailureMatchesLabel` ties it to the fail decision |
| Reporting.FailLimit | entrypoint.js:41-44 | the fail limit is 1 with the warnings toggle and 0 without it; `WarningsToggleAddsWarnings` gives what that does to the count |
| Reporting.ExitStatus | entrypoint.js:76 | the status is 0 or 1, and 0 exactly when the failure count is 0; `ExitStatusReflectsFindings` restates it over the findings |
| Reporting.Annotation | entrypoint.js:65-67 | the line starts with `::` and the finding's level and ends with `::` and its message; `AnnotationReadsBack` shows every field is recovered from it |
| Reporting.FailureCount | entrypoint.js:55-60 | the failure count never exceeds the number of findings |
| Reporting.Report | entrypoint.js:55-70 | the loop's counter is `FailureCount(results, failLimit)`; with annotations on, there is exactly one line per finding, in order, and it is that finding's annotation, whether it fails or not; with annotations off, no line |
| Reporting.FailureCountIsFailing | entrypoint.js:57-60 | the count equals the number of positions whose severity is at most the limit |
| Reporting.FailureCountMonotone | entrypoint.js:58 | a wider limit never counts fewer failures |
| Reporting.WarningsToggleAddsWarnings | entrypoint.js:41-44 | with `FAIL_ON_WARNINGS` set, the count is the error count plus the number of warnings; findings with no error never fail without it |
| Reporting.ExitStatusReflectsFindings | entrypoint.js:55-76 | the exit status is 1 exactly when some finding has severity at most the limit, and 0 exactly when none does, so 0 for no findings |
| Reporting.FailureMatchesLabel | entrypoint.js:41-44 | a finding fails exactly when its `SEV_MAP` level is `error`, or `warning` with the warnings toggle set; `debug` findings never fail |
| Reporting.AnnotationReadsBack | entrypoint.js:63-68 | an annotation line reads back as the command named by the finding's level, with properties `file`, `line`, `col` equal to its source and numbers and with its message as data, when the source has no `,` and no `::` |
| Reporting.CommaInSourceIsMisread | entrypoint.js:65 | a source `x,y` is read back as the file `x`, because the script writes the source unescaped |
| Reporting.SingleErrorScenario | entrypoint.js:55-68 | an error with message `M1` in `openapi.yaml` at 3:5 is annotated `::error file=openapi.yaml,line=3,col=5::M1` and makes the exit status 1 |
| Reporting.SingleWarningScenario | entrypoint.js:41-60 | a single warning gives exit status 0, and 1 with the warnings toggle set |
| Entrypoint.EnvSet | entrypoint.js:42 | an absent or empty environment variable is unset, and any other value is set, as in the truthiness tests at lines 42 and 63 |
| Entrypoint.Run | entrypoint.js:15-76 | the linted file is `argv[2]` when given, else `openapi.yaml`; the written configuration is `Merged(config, "./isp-rules.yaml")`; the output is the annotations (under `GITHUB_ACTIONS`) followed by the rendered summary; the exit code is 1 exactly when a finding fails under the limit `FAIL_ON_WARNINGS` selects |

## Left out

- File-system access (`fs.existsSync`, `readFileSync`, `writeFileSync`) and YAML parsing and dumping are left out. The file is modelled by its parsed content, and the result is the document written back. Read, write and parse errors are left out, and so is the fact that the file is rewritten even when nothing changed.
- `SpectralConfig.Merged`: YAML anchors and aliases are not modelled. `safeLoad` gives every alias of an anchored node the same object, so when `extends` is an alias (`extends: *r`, or a merge key `<<: *b` whose mapping holds `extends`), the push at line 31 also changes the aliased key. `yaml.dump` then writes the reference under both. For such a file, the promise that the other keys are unchanged does not hold.
- A configuration file whose top level is not a mapping is left out:
  - For an empty file or a `null` document, `doc.extends` throws at line 26.
  - For a scalar document, the assignment at line 27 has no effect and `doc.extends.includes` throws at line 30.
  - For a top-level list, nothing throws. `extends` is set as a property of the array and the reference is pushed there. `yaml.dump` at line 34 then writes only the list's elements, so the reference is silently not linked.
- An `extends` that is not a list of strings is left out. Not every such value makes the script fail:
  - A list with entries that are not strings, such as Spectral's `[name, severity]` pairs, works as a list of strings does: `includes` finds no match among them and the reference is appended.
  - A string is searched by substring. If it already contains `./isp-rules.yaml` it is kept unchanged; otherwise `push` throws.
  - For `true`, a non-zero number or a mapping, `includes` throws.
- The Spectral engine (`registerFormat`, `loadRuleset`, `run`) is foreign library code. Its findings are an input of `Entrypoint.Run`, whatever file and configuration it was given.
- The `stylish` formatter is foreign library code. It is a function parameter, `render`, whose text is treated as opaque.
- Promise chaining, unhandled rejections and `process.exit` are reduced to a sequential method that returns the exit code.
- `Entrypoint.Run`: newer Node versions (20 and later) reject a boolean exit code with an exception, and that path is not modelled.
- `process.argv` and `process.env` are parameters. The unused `execSync` import has no counterpart.
- Severities outside 0..3 are excluded by the `Severity` type. For them the script would print the level `undefined`. Sources that are not strings are not modelled either.
- `Reporting.AnnotationReadsBack`: stated only for sources without `,` and without `::`; a single `:`, as in a drive letter or a URL, is allowed. The script does not escape these in properties, or `%` and line breaks in messages. `CommaInSourceIsMisread` shows the consequence for a comma.
- `NumberText.Decimal`: prints every digit of an unbounded number. JavaScript prints numbers of 10^21 and above in exponent form and loses precision above 2^53, far beyond any line or column number.
- The workflow-command reader in `WorkflowCommands` leaves out a real runner's trimming, `%`-escape decoding and handling of empty values. It is the syntax the annotation is written for, not a model of any particular runner.
- A message or source containing a line break makes one annotation span several console lines. The model counts each printed string as one line.
