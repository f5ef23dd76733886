/** Browser reports (interventions, deprecations) and CSP violations turned into `Report`
    values: their messages, their stacks, and which sources a list of requested apis sets up. */
module ReportObservable {
  import opened Text

  datatype ReportType = Intervention | Deprecation | CspViolation

  /** The type's name as it appears in messages. */
  function TypeName(t: ReportType): string {
    match t
    case Intervention => "intervention"
    case Deprecation => "deprecation"
    case CspViolation => "csp_violation"
  }

  /** The types a `ReportingObserver` reports. */
  type BrowserReportType = t: ReportType | !t.CspViolation? witness Intervention

  datatype ReportBody = ReportBody(id: string, message: string, lineNumber: int, columnNumber: int, sourceFile: string)

  datatype BrowserReport = BrowserReport(reportType: BrowserReportType, url: string, body: ReportBody)

  /** The fields of a `securitypolicyviolation` event the core reads. */
  datatype CspViolationEvent = CspViolationEvent(
    blockedUri: string, effectiveDirective: string,
    sourceFile: Option<string>, lineNumber: Option<int>, columnNumber: Option<int>)

  datatype Report = Report(reportType: ReportType, message: string, stack: Option<string>)

  /** JavaScript truthiness of an optional number: defined and not 0. */
  predicate TruthyNumber(n: Option<int>) {
    n.Some? && n.value != 0
  }

  /** The location parts that survive `filter((e) => e)`, as strings. */
  function LocationParts(sourceFile: string, lineNumber: Option<int>, columnNumber: Option<int>): seq<string> {
    [sourceFile]
    + (if TruthyNumber(lineNumber) then [IntToString(lineNumber.value)] else [])
    + (if TruthyNumber(columnNumber) then [IntToString(columnNumber.value)] else [])
  }

  /** The first line of a stack and the start of its only frame. */
  function StackHead(name: string, message: string): string {
    name + ": " + message + "\nat <anonymous> @ "
  }

  /** `buildStack`: nothing without a source file; otherwise a one-frame stack whose location
      is the source file, line and column, joined by `:`, falsy parts left out. */
  function BuildStack(name: string, message: string, sourceFile: Option<string>,
                      lineNumber: Option<int>, columnNumber: Option<int>): (stack: Option<string>)
    ensures stack.None? <==> !Truthy(sourceFile)
    ensures stack.Some? ==> |stack.value| > |StackHead(name, message)| && stack.value[..|StackHead(name, message)|] == StackHead(name, message)
  {
    if !Truthy(sourceFile) then None
    else Some(StackHead(name, message) + Join(LocationParts(sourceFile.value, lineNumber, columnNumber), ':'))
  }

  /** `buildReportLogFromReport`: the message is prefixed with the report type; only an
      intervention gets a stack, named after the report's id. */
  function BuildReportLogFromReport(report: BrowserReport): (r: Report)
    ensures r.reportType == report.reportType
    ensures r.message == TypeName(report.reportType) + ": " + report.body.message
    ensures r.stack.Some? <==> report.reportType == Intervention && report.body.sourceFile != ""
    ensures r.stack.Some? ==>
      r.stack.value == StackHead(report.body.id, report.body.message)
                       + (report.body.sourceFile + PositionSuffix(Some(report.body.lineNumber))
                          + PositionSuffix(Some(report.body.columnNumber)))
  {
    var b := report.body;
    StackSpelledOut(b.id, b.message, Some(b.sourceFile), Some(b.lineNumber), Some(b.columnNumber));
    Report(report.reportType, TypeName(report.reportType) + ": " + b.message,
           if report.reportType == Intervention
           then BuildStack(b.id, b.message, Some(b.sourceFile), Some(b.lineNumber), Some(b.columnNumber))
           else None)
  }

  /** The text of a CSP violation. */
  function CspMessage(event: CspViolationEvent): string {
    "'" + event.blockedUri + "' blocked by '" + event.effectiveDirective + "' directive"
  }

  /** `buildReportLogFromCspViolation`. */
  function BuildReportLogFromCspViolation(event: CspViolationEvent): (r: Report)
    ensures r.reportType == CspViolation
    ensures r.message == "csp_violation: " + CspMessage(event)
    ensures r.stack.Some? <==> Truthy(event.sourceFile)
    ensures r.stack.Some? ==>
      r.stack.value == StackHead("csp_violation", CspMessage(event))
                       + (event.sourceFile.value + PositionSuffix(event.lineNumber) + PositionSuffix(event.columnNumber))
  {
    StackSpelledOut(TypeName(CspViolation), CspMessage(event), event.sourceFile, event.lineNumber, event.columnNumber);
    Report(CspViolation, TypeName(CspViolation) + ": " + CspMessage(event),
           BuildStack(TypeName(CspViolation), CspMessage(event), event.sourceFile, event.lineNumber, event.columnNumber))
  }

  /** `apis.filter((api) => api !== 'csp_violation')`. */
  function BrowserReportTypes(apis: seq<ReportType>): (types: seq<BrowserReportType>)
    ensures multiset(types) == multiset(apis)[CspViolation := 0]
    ensures |types| > 0 <==> exists i :: 0 <= i < |apis| && apis[i] != CspViolation
    decreases |apis|
  {
    if |apis| == 0 then []
    else
      var rest := BrowserReportTypes(apis[1..]);
      assert apis == [apis[0]] + apis[1..];
      if apis[0] == CspViolation then rest
      else
        var t: BrowserReportType := apis[0];
        [t] + rest
  }

  /** The sources `initReportObservable` merges: a CSP listener, and a reporting observer for
      the browser report types requested, if any. */
  datatype ReportSources = ReportSources(cspListener: bool, reportingObserver: Option<seq<BrowserReportType>>)

  /** The api partitioning of `initReportObservable`. */
  function InitReportObservable(apis: seq<ReportType>): (r: ReportSources)
    ensures r.cspListener <==> CspViolation in apis
    ensures r.reportingObserver.Some? <==> exists i :: 0 <= i < |apis| && apis[i] != CspViolation
    ensures r.reportingObserver.Some? ==>
      && |r.reportingObserver.value| > 0
      && multiset(r.reportingObserver.value) == multiset(apis)[CspViolation := 0]
  {
    var types := BrowserReportTypes(apis);
    ReportSources(CspViolation in apis, if |types| > 0 then Some(types) else None)
  }

  // ----- properties -----

  /** `:n` for a position that is neither missing nor 0, nothing otherwise. */
  function PositionSuffix(n: Option<int>): string {
    if TruthyNumber(n) then ":" + IntToString(n.value) else ""
  }

  /** The joined location spelled out: the source file, then `:line` and `:column` for each
      position that is neither missing nor 0. */
  lemma LocationSpelledOut(sourceFile: string, lineNumber: Option<int>, columnNumber: Option<int>)
    ensures Join(LocationParts(sourceFile, lineNumber, columnNumber), ':')
            == sourceFile + PositionSuffix(lineNumber) + PositionSuffix(columnNumber)
  {
    var parts := LocationParts(sourceFile, lineNumber, columnNumber);
    if TruthyNumber(lineNumber) && TruthyNumber(columnNumber) {
      var a := IntToString(lineNumber.value);
      var b := IntToString(columnNumber.value);
      assert parts == [sourceFile, a, b];
      JoinThree(sourceFile, a, b);
    } else if TruthyNumber(lineNumber) {
      assert parts == [sourceFile, IntToString(lineNumber.value)];
      JoinTwo(sourceFile, IntToString(lineNumber.value));
    } else if TruthyNumber(columnNumber) {
      assert parts == [sourceFile, IntToString(columnNumber.value)];
      JoinTwo(sourceFile, IntToString(columnNumber.value));
    } else {
      assert parts == [sourceFile];
    }
  }

  /** Two parts joined with `:`. */
  lemma JoinTwo(x: string, y: string)
    ensures Join([x, y], ':') == x + (":" + y)
  {
    assert [x, y][1..] == [y];
  }

  /** Three parts joined with `:`. */
  lemma JoinThree(x: string, y: string, z: string)
    ensures Join([x, y, z], ':') == x + (":" + y) + (":" + z)
  {
    assert [x, y, z][1..] == [y, z];
    JoinTwo(y, z);
  }

  /** The stack, when there is one, spelled out: the name and message, then the source file,
      then `:line` and `:column` for each position that is neither missing nor 0. */
  lemma StackSpelledOut(name: string, message: string, sourceFile: Option<string>,
                        lineNumber: Option<int>, columnNumber: Option<int>)
    ensures BuildStack(name, message, sourceFile, lineNumber, columnNumber).None? <==> !Truthy(sourceFile)
    ensures Truthy(sourceFile) ==>
      BuildStack(name, message, sourceFile, lineNumber, columnNumber).value
      == StackHead(name, message) + (sourceFile.value + PositionSuffix(lineNumber) + PositionSuffix(columnNumber))
  {
    if Truthy(sourceFile) {
      LocationSpelledOut(sourceFile.value, lineNumber, columnNumber);
    }
  }

  /** The decimal forms of the sample positions. */
  lemma SamplePositions()
    ensures IntToString(20) == "20" && IntToString(10) == "10"
    ensures IntToString(17) == "17" && IntToString(8) == "8"
  {
    assert NatToString(2) == "2" && NatToString(1) == "1" && NatToString(8) == "8";
    assert NatToString(20) == NatToString(2) + [DigitChar(0)];
    assert NatToString(10) == NatToString(1) + [DigitChar(0)];
    assert NatToString(17) == NatToString(1) + [DigitChar(7)];
  }

  /** The location of the sample reports, spelled out. */
  lemma SampleLocations()
    ensures "http://foo.bar/index.js" + PositionSuffix(Some(20)) + PositionSuffix(Some(10))
            == "http://foo.bar/index.js:20:10"
    ensures "http://foo.bar/index.js" + PositionSuffix(Some(17)) + PositionSuffix(Some(8))
            == "http://foo.bar/index.js:17:8"
  {
    SamplePositions();
  }

  /** The sample intervention report of `reportObservable.spec.ts`: the message carries the
      type, and the stack is named after the report id and located at line 20, column 10. */
  lemma InterventionExample()
    ensures
      var body := ReportBody("NavigatorVibrate", "foo bar", 20, 10, "http://foo.bar/index.js");
      var r := BuildReportLogFromReport(BrowserReport(Intervention, "http://foo.bar/", body));
      && r.message == "intervention: foo bar"
      && r.stack == Some(StackHead("NavigatorVibrate", "foo bar") + "http://foo.bar/index.js:20:10")
  {
    SampleLocations();
    StackSpelledOut("NavigatorVibrate", "foo bar", Some("http://foo.bar/index.js"), Some(20), Some(10));
  }

  /** The text of the sample CSP violation. */
  lemma SampleCspMessage()
    ensures CspMessage(CspViolationEvent("blob", "worker-src", Some("http://foo.bar/index.js"), Some(17), Some(8)))
            == "'blob' blocked by 'worker-src' directive"
  {
    assert "'" + "blob" == "'blob";
    assert "'blob" + "' blocked by '" == "'blob' blocked by '";
    assert "'blob' blocked by '" + "worker-src" == "'blob' blocked by 'worker-src";
    assert "'blob' blocked by 'worker-src" + "' directive" == "'blob' blocked by 'worker-src' directive";
  }

  /** The sample CSP violation of `reportObservable.spec.ts`: the stack is named after the
      report type and its message is the violation's text. */
  lemma CspViolationExample()
    ensures
      var event := CspViolationEvent("blob", "worker-src", Some("http://foo.bar/index.js"), Some(17), Some(8));
      var r := BuildReportLogFromCspViolation(event);
      && r.reportType == CspViolation
      && r.message == "csp_violation: " + "'blob' blocked by 'worker-src' directive"
      && r.stack == Some(StackHead("csp_violation", "'blob' blocked by 'worker-src' directive") + "http://foo.bar/index.js:17:8")
  {
    SampleLocations();
    SampleCspMessage();
    var event := CspViolationEvent("blob", "worker-src", Some("http://foo.bar/index.js"), Some(17), Some(8));
    StackSpelledOut("csp_violation", CspMessage(event), event.sourceFile, event.lineNumber, event.columnNumber);
  }

  /** A zero line or column, like a missing one, is left out of the location. */
  lemma ZeroPositionsDropped(name: string, message: string, sourceFile: string)
    requires sourceFile != ""
    ensures BuildStack(name, message, Some(sourceFile), Some(0), Some(0))
            == Some(StackHead(name, message) + sourceFile)
  {
    StackSpelledOut(name, message, Some(sourceFile), Some(0), Some(0));
  }
}
