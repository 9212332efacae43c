/**
 * Classification of the linting engine's findings: the fail limit chosen by
 * the warnings toggle, the counting loop, the CI annotation line emitted per
 * finding and the exit status (entrypoint.js:13, 41-44, 55-76).
 */
module Reporting {
  import opened Wrappers
  import opened NumberText
  import opened WorkflowCommands

  /** A finding's severity: 0 error, 1 warning, 2 information, 3 hint. */
  type Severity = s: nat | s <= 3

  /** One finding of the engine, with the start of its range. */
  datatype Finding = Finding(severity: Severity, message: string, source: string, line: nat, character: nat)

  /** The annotation level for each severity, indexed by severity. */
  const SevMap: seq<string> := ["error", "warning", "debug", "debug"]

  /** The annotation level of a severity: `error` only for errors, `warning` only for warnings. */
  function Label(s: Severity): (level: string)
    ensures level in {"error", "warning", "debug"}
    ensures (level == "error") == (s == 0) && (level == "warning") == (s == 1)
  {
    SevMap[s]
  }

  /** The fail limit: errors only, or errors and warnings when the toggle is set. */
  function FailLimit(failOnWarnings: bool): (limit: Severity)
    ensures limit <= 1
    ensures failOnWarnings ==> limit == 1
    ensures !failOnWarnings ==> limit == 0
  {
    if failOnWarnings then 1 else 0
  }

  /** The number of findings whose severity is at most `limit`. */
  function FailureCount(fs: seq<Finding>, limit: Severity): (n: nat)
    ensures n <= |fs|
  {
    if fs == [] then 0
    else FailureCount(fs[..|fs| - 1], limit) + (if fs[|fs| - 1].severity <= limit then 1 else 0)
  }

  /** The positions of the findings whose severity is exactly `s`. */
  ghost function WithSeverity(fs: seq<Finding>, s: Severity): set<nat> {
    set i | 0 <= i < |fs| && fs[i].severity == s
  }

  /** The positions of the findings that fail under `limit`. */
  ghost function Failing(fs: seq<Finding>, limit: Severity): set<nat> {
    set i | 0 <= i < |fs| && fs[i].severity <= limit
  }

  /** The exit status for a failure count: the boolean `errors > 0` as a number. */
  function ExitStatus(errors: nat): (code: nat)
    ensures code <= 1
    ensures code == 0 <==> errors == 0
  {
    if errors > 0 then 1 else 0
  }

  /**
   * The CI annotation line for one finding: it starts with `::` and its
   * level, and ends with `::` and the message.
   */
  function Annotation(f: Finding): (line: string)
    ensures "::" + Label(f.severity) + " " <= line
    ensures |line| >= |f.message| + 2 && line[|line| - |f.message| - 2..] == "::" + f.message
  {
    "::" + Label(f.severity) + " file=" + f.source + ",line=" + Decimal(f.line)
    + ",col=" + Decimal(f.character) + "::" + f.message
  }

  /**
   * The reporting loop: counts the findings that fail under `failLimit` and,
   * when `annotate` holds, emits one annotation line per finding, in order,
   * whether or not it fails.
   */
  method Report(results: seq<Finding>, failLimit: Severity, annotate: bool)
    returns (errors: nat, lines: seq<string>)
    ensures errors == FailureCount(results, failLimit)
    ensures annotate ==> |lines| == |results|
    ensures annotate ==> forall i :: 0 <= i < |results| ==> lines[i] == Annotation(results[i])
    ensures !annotate ==> lines == []
  {
    errors, lines := 0, [];
    for i := 0 to |results|
      invariant errors == FailureCount(results[..i], failLimit)
      invariant |lines| == (if annotate then i else 0)
      invariant forall k :: 0 <= k < |lines| ==> lines[k] == Annotation(results[k])
    {
      var r := results[i];
      assert results[..i + 1][..i] == results[..i];
      if r.severity <= failLimit {
        errors := errors + 1;
      }
      if annotate {
        lines := lines + [Annotation(r)];
      }
    }
    assert results[..|results|] == results;
  }

  /** The count is the number of failing positions. */
  lemma {:induction false} FailureCountIsFailing(fs: seq<Finding>, limit: Severity)
    ensures FailureCount(fs, limit) == |Failing(fs, limit)|
  {
    if fs != [] {
      var n := |fs| - 1;
      var prefix := fs[..n];
      FailureCountIsFailing(prefix, limit);
      if fs[n].severity <= limit {
        assert Failing(fs, limit) == Failing(prefix, limit) + {n};
      } else {
        assert Failing(fs, limit) == Failing(prefix, limit);
      }
    }
  }

  /** A wider limit never counts fewer failures. */
  lemma {:induction false} FailureCountMonotone(fs: seq<Finding>, lo: Severity, hi: Severity)
    requires lo <= hi
    ensures FailureCount(fs, lo) <= FailureCount(fs, hi)
  {
    if fs != [] {
      FailureCountMonotone(fs[..|fs| - 1], lo, hi);
    }
  }

  /**
   * Setting the warnings toggle adds exactly the warnings to the failures;
   * in particular warnings alone never fail without it.
   */
  lemma WarningsToggleAddsWarnings(fs: seq<Finding>)
    ensures FailureCount(fs, FailLimit(true)) == FailureCount(fs, FailLimit(false)) + |WithSeverity(fs, 1)|
    ensures (forall i :: 0 <= i < |fs| ==> fs[i].severity >= 1) ==> FailureCount(fs, FailLimit(false)) == 0
  {
    FailureCountIsFailing(fs, 0);
    FailureCountIsFailing(fs, 1);
    assert Failing(fs, 1) == Failing(fs, 0) + WithSeverity(fs, 1);
    assert Failing(fs, 0) * WithSeverity(fs, 1) == {};
    if forall i :: 0 <= i < |fs| ==> fs[i].severity >= 1 {
      assert Failing(fs, 0) == {};
    }
  }

  /**
   * The exit status is 1 exactly when some finding fails under the limit,
   * and 0 exactly when none does (so 0 for no findings).
   */
  lemma ExitStatusReflectsFindings(fs: seq<Finding>, limit: Severity)
    ensures ExitStatus(FailureCount(fs, limit)) == 1 <==> exists i :: 0 <= i < |fs| && fs[i].severity <= limit
    ensures ExitStatus(FailureCount(fs, limit)) == 0 <==> forall i :: 0 <= i < |fs| ==> fs[i].severity > limit
  {
    FailureCountIsFailing(fs, limit);
    if i :| 0 <= i < |fs| && fs[i].severity <= limit {
      assert i in Failing(fs, limit);
    }
  }

  /**
   * A finding fails exactly when its annotation level is `error`, or
   * `warning` with the warnings toggle set; `debug` findings never fail.
   */
  lemma FailureMatchesLabel(f: Finding, failOnWarnings: bool)
    ensures f.severity <= FailLimit(failOnWarnings)
      <==> Label(f.severity) == "error" || (failOnWarnings && Label(f.severity) == "warning")
  {
  }

  lemma {:induction false} LabelAvoids(s: Severity)
    ensures ':' !in Label(s) && ' ' !in Label(s)
  {
  }

  /**
   * An annotation reads back as a command named by the finding's level with
   * its file, line and column as properties and its message as data, and the
   * line and column parse back to the finding's numbers. This needs a source
   * without `,` and without `::`, which the script writes unescaped.
   */
  lemma {:induction false} AnnotationReadsBack(f: Finding)
    requires NoDoubleColon(f.source) && ',' !in f.source
    ensures ParseCommand(Annotation(f))
      == Some(Command(Label(f.severity),
                      [("file", f.source), ("line", Decimal(f.line)), ("col", Decimal(f.character))],
                      f.message))
    ensures ParseDecimal(Decimal(f.line)) == Some(f.line)
    ensures ParseDecimal(Decimal(f.character)) == Some(f.character)
  {
    var dl, dc := Decimal(f.line), Decimal(f.character);
    var props := "file=" + f.source + ",line=" + dl + ",col=" + dc;
    assert Annotation(f) == "::" + Label(f.severity) + " " + props + "::" + f.message;
    LabelAvoids(f.severity);
    AnnotationPropertiesColonSafe(f.source, dl, dc);
    ParseCommandFormat(Label(f.severity), props, f.message);
    AnnotationProperties(f.source, dl, dc);
    DecimalRoundTrip(f.line);
    DecimalRoundTrip(f.character);
  }

  /** The property list of an annotation holds no `::` and ends in a digit. */
  lemma {:induction false} AnnotationPropertiesColonSafe(source: string, dl: string, dc: string)
    requires NoDoubleColon(source) && AllDigits(dl) && AllDigits(dc) && dc != []
    ensures var props := "file=" + source + ",line=" + dl + ",col=" + dc;
      NoDoubleColon(props) && props[|props| - 1] != ':'
  {
    NoNonDigit(dl, ':');
    NoNonDigit(dc, ':');
    var head, tail := "file=", ",line=" + dl + ",col=" + dc;
    assert NoDoubleColon(head);
    assert NoDoubleColon(tail);
    NoDoubleColonConcat(head, source);
    NoDoubleColonConcat(head + source, tail);
    assert "file=" + source + ",line=" + dl + ",col=" + dc == head + source + tail;
    assert tail[|tail| - 1] == dc[|dc| - 1];
  }

  /** The property list of an annotation splits into its three entries. */
  lemma {:induction false} AnnotationProperties(source: string, dl: string, dc: string)
    requires ',' !in source && AllDigits(dl) && AllDigits(dc)
    ensures Properties(SplitOn("file=" + source + ",line=" + dl + ",col=" + dc, ','))
      == [("file", source), ("line", dl), ("col", dc)]
  {
    NoNonDigit(dl, ',');
    NoNonDigit(dc, ',');
    var p1, p2, p3 := "file=" + source, "line=" + dl, "col=" + dc;
    assert "file=" + source + ",line=" + dl + ",col=" + dc == p1 + [','] + (p2 + [','] + p3);
    SplitOnAt(p1, ',', p2 + [','] + p3);
    SplitOnAt(p2, ',', p3);
    SplitOnNone(p3, ',');
    assert SplitOn(p1 + [','] + (p2 + [','] + p3), ',') == [p1, p2, p3];
    assert p1 == "file" + ['='] + source && p2 == "line" + ['='] + dl && p3 == "col" + ['='] + dc;
    SplitAtFirstAt("file", '=', source);
    SplitAtFirstAt("line", '=', dl);
    SplitAtFirstAt("col", '=', dc);
    assert [p1, p2, p3][1..] == [p2, p3];
    assert [p2, p3][1..] == [p3];
    assert Properties([p3]) == [("col", dc)];
    assert Properties([p2, p3]) == [("line", dl)] + Properties([p3]);
    assert Properties([p1, p2, p3]) == [("file", source)] + Properties([p2, p3]);
  }

  /** A single error is annotated as `::error file=openapi.yaml,line=3,col=5::M1` and fails the run. */
  lemma SingleErrorScenario()
    ensures var f := Finding(0, "M1", "openapi.yaml", 3, 5);
      && Annotation(f) == "::error file=openapi.yaml,line=3,col=5::M1"
      && ExitStatus(FailureCount([f], FailLimit(false))) == 1
  {
    var f := Finding(0, "M1", "openapi.yaml", 3, 5);
    assert DigitChar(3) == '3' && DigitChar(5) == '5';
    assert Decimal(3) == "3" && Decimal(5) == "5" && Label(0) == "error";
    assert Annotation(f) == "::" + "error" + " file=" + "openapi.yaml" + ",line=" + "3" + ",col=" + "5" + "::" + "M1";
    ScenarioText();
    assert [f][..0] == [];
  }

  lemma ScenarioText()
    ensures "::" + "error" + " file=" + "openapi.yaml" + ",line=" + "3" + ",col=" + "5" + "::" + "M1"
      == "::error file=openapi.yaml,line=3,col=5::M1"
  {
    var head, tail := "::error file=openapi.yaml", ",line=3,col=5::M1";
    assert "::" + "error" + " file=" + "openapi.yaml" == head;
    assert ",line=" + "3" + ",col=" + "5" + "::" + "M1" == tail;
    assert "::" + "error" + " file=" + "openapi.yaml" + ",line=" + "3" + ",col=" + "5" + "::" + "M1" == head + tail;
    assert head + tail == "::error file=openapi.yaml,line=3,col=5::M1";
  }

  /** A single warning passes the run, unless the warnings toggle is set. */
  lemma SingleWarningScenario(f: Finding)
    requires f.severity == 1
    ensures ExitStatus(FailureCount([f], FailLimit(false))) == 0
    ensures ExitStatus(FailureCount([f], FailLimit(true))) == 1
  {
    assert [f][..0] == [];
  }

  /**
   * A `,` in the source splits the file property: a source `x,y` reads back
   * as the file `x`, not the finding's source.
   */
  lemma {:induction false} CommaInSourceIsMisread(f: Finding, x: string, y: string)
    requires f.source == x + "," + y && NoDoubleColon(f.source) && ',' !in x
    ensures var c := ParseCommand(Annotation(f));
      && c.Some? && |c.value.properties| >= 1
      && c.value.properties[0] == ("file", x) && x != f.source
  {
    var dl, dc := Decimal(f.line), Decimal(f.character);
    var tail := y + ",line=" + dl + ",col=" + dc;
    var props := "file=" + x + [','] + tail;
    assert "file=" + f.source + ",line=" + dl + ",col=" + dc == props;
    assert Annotation(f) == "::" + Label(f.severity) + " " + props + "::" + f.message;
    LabelAvoids(f.severity);
    AnnotationPropertiesColonSafe(f.source, dl, dc);
    ParseCommandFormat(Label(f.severity), props, f.message);
    FirstPropertyIsFile(x, tail);
    assert |x| < |f.source|;
  }

  /** A property list starting with `file=x,` has the file `x` as its first property. */
  lemma {:induction false} FirstPropertyIsFile(x: string, tail: string)
    requires ',' !in x
    ensures var ps := Properties(SplitOn("file=" + x + [','] + tail, ','));
      |ps| >= 1 && ps[0] == ("file", x)
  {
    SplitOnAt("file=" + x, ',', tail);
    assert "file=" + x == "file" + ['='] + x;
    SplitAtFirstAt("file", '=', x);
    var parts := SplitOn("file=" + x + [','] + tail, ',');
    assert parts[0] == "file=" + x;
    assert Properties(parts) == [("file", x)] + Properties(parts[1..]);
  }
}
