/** The GoogleApiClient lifecycle detector: per analysed Java file it records
    whether a qualifying `connect()` and `disconnect()` were seen (and which
    `connect()` node came last), reports calls made outside the expected
    lifecycle hook as they are visited, and at the end of the file reports a
    `connect()` that has no `disconnect()` before resetting its state. */
module Detectors {
  import opened Wrappers
  import Utils

  const GoogleApiClient := "com.google.android.gms.common.api.GoogleApiClient"
  const ConnectMethod := "connect"
  const DisconnectMethod := "disconnect"
  const OnConnectionFailedMethod := "onConnectionFailed"

  /** One method invocation as the visitor sees it. The answers of the Lint
      host are inputs: whether the project reports issues, whether the call
      resolves to a method, whether that method's class is a GoogleApiClient
      (or a subclass), whether the call sits in an activity or a fragment, and
      the name of its enclosing method. `id` tells invocation nodes apart. */
  datatype Call = Call(
    reportIssues: bool,
    name: string,
    resolved: bool,
    inApiClientSubclass: bool,
    inActivityOrFragment: bool,
    callerName: string,
    id: nat)

  /** The detector reports a single Lint issue, GoogleApiClientLifecycle,
      with one of three messages; a report carries which message it is. */
  datatype Message =
    | ConnectOutsideOnStart      // connect() in an activity/fragment, not in onStart/onConnectionFailed
    | DisconnectOutsideOnStop    // disconnect() in an activity/fragment, not in onStop
    | ConnectWithoutDisconnect   // end of file: a connect() but no disconnect()

  /** A reported diagnostic: its message and the invocation node it is anchored at. */
  datatype Report = Report(message: Message, node: Call)

  /** The detector's three static fields. */
  datatype Flags = Flags(foundConnect: bool, connectNode: Option<Call>, foundDisconnect: bool)

  /** The state at class load and after every reset. */
  const Initial := Flags(false, None, false)

  /** Whenever a connect was found, the node to anchor its report at is set. */
  predicate ConnectNodeKept(f: Flags) {
    f.foundConnect ==> f.connectNode.Some?
  }

  /** New flags and the reports added by one step. */
  datatype Step = Step(flags: Flags, reports: seq<Report>)

  /** The method names the visitor filters on before resolving a call. */
  function ApplicableMethodNames(): (names: seq<string>)
    ensures forall n :: n in names <==> n == ConnectMethod || n == DisconnectMethod
  {
    [ConnectMethod, DisconnectMethod]
  }

  /** A call that passes all four filters of the visitor. */
  predicate Qualifies(c: Call) {
    c.reportIssues && c.name in ApplicableMethodNames() && c.resolved && c.inApiClientSubclass
  }

  predicate IsConnect(c: Call) {
    Qualifies(c) && c.name == ConnectMethod
  }

  predicate IsDisconnect(c: Call) {
    Qualifies(c) && c.name == DisconnectMethod
  }

  /** A qualifying connect() whose placement is reported. */
  predicate ConnectMisplaced(c: Call) {
    c.inActivityOrFragment && c.callerName != Utils.OnStartMethod && c.callerName != OnConnectionFailedMethod
  }

  /** A qualifying disconnect() whose placement is reported. */
  predicate DisconnectMisplaced(c: Call) {
    c.inActivityOrFragment && c.callerName != Utils.OnStopMethod
  }

  /** What visiting one method invocation does to the flags and the reports. */
  function Visit(f: Flags, c: Call): (r: Step)
    // the four filters leave everything as it was
    ensures !Qualifies(c) ==> r == Step(f, [])
    // a connect() sets the flag and becomes the anchor node; foundDisconnect is untouched
    ensures IsConnect(c) ==> r.flags == Flags(true, Some(c), f.foundDisconnect)
    ensures IsConnect(c) ==> r.reports == if ConnectMisplaced(c) then [Report(ConnectOutsideOnStart, c)] else []
    // a disconnect() sets its flag only; there is no escape hook for it
    ensures IsDisconnect(c) ==> r.flags == f.(foundDisconnect := true)
    ensures IsDisconnect(c) ==> r.reports == if DisconnectMisplaced(c) then [Report(DisconnectOutsideOnStop, c)] else []
    ensures ConnectNodeKept(f) ==> ConnectNodeKept(r.flags)
  {
    if !c.reportIssues then Step(f, [])
    else if c.name !in ApplicableMethodNames() then Step(f, [])
    else if !c.resolved then Step(f, [])
    else if !c.inApiClientSubclass then Step(f, [])
    else if c.name == ConnectMethod then
      Step(Flags(true, Some(c), f.foundDisconnect),
           if c.inActivityOrFragment && c.callerName != Utils.OnStartMethod && c.callerName != OnConnectionFailedMethod
           then [Report(ConnectOutsideOnStart, c)] else [])
    else if c.name == DisconnectMethod then
      Step(f.(foundDisconnect := true),
           if c.inActivityOrFragment && c.callerName != Utils.OnStopMethod
           then [Report(DisconnectOutsideOnStop, c)] else [])
    else Step(f, [])
  }

  /** The end-of-file hook. A context that is not a Java context returns
      before anything is reported or reset. */
  function Finish(f: Flags, isJava: bool): (r: Step)
    requires ConnectNodeKept(f)
    ensures !isJava ==> r == Step(f, [])
    ensures isJava ==> r.flags == Initial
    ensures isJava ==> |r.reports| == (if f.foundConnect && !f.foundDisconnect then 1 else 0)
    ensures forall k :: 0 <= k < |r.reports| ==> r.reports[k] == Report(ConnectWithoutDisconnect, f.connectNode.value)
  {
    if !isJava then Step(f, [])
    else
      var reports := if f.foundConnect && !f.foundDisconnect
                     then [Report(ConnectWithoutDisconnect, f.connectNode.value)] else [];
      Step(Initial, reports)
  }

  /** Visiting the invocations of one file in order. Every prefix of a file
      is itself visited this way, so the invariant kept here holds at every
      step between two resets. */
  function VisitAll(f: Flags, calls: seq<Call>): (r: Step)
    ensures ConnectNodeKept(f) ==> ConnectNodeKept(r.flags)
    decreases |calls|
  {
    if calls == [] then Step(f, [])
    else
      var before := VisitAll(f, calls[..|calls| - 1]);
      var last := Visit(before.flags, calls[|calls| - 1]);
      Step(last.flags, before.reports + last.reports)
  }

  /** One file analysed from flags `f`: every invocation, then the end-of-file hook. */
  function AnalyzeFile(f: Flags, calls: seq<Call>, isJava: bool): (r: Step)
    requires ConnectNodeKept(f)
    ensures ConnectNodeKept(r.flags)
  {
    var visited := VisitAll(f, calls);
    var finished := Finish(visited.flags, isJava);
    Step(finished.flags, visited.reports + finished.reports)
  }

  datatype SourceFile = SourceFile(calls: seq<Call>, isJava: bool)

  /** Files analysed one after the other by the same detector, its flags
      carried from each file to the next. */
  function AnalyzeFiles(f: Flags, files: seq<SourceFile>): (r: Step)
    requires ConnectNodeKept(f)
    decreases |files|
  {
    if files == [] then Step(f, [])
    else
      var first := AnalyzeFile(f, files[0].calls, files[0].isJava);
      var rest := AnalyzeFiles(first.flags, files[1..]);
      Step(rest.flags, first.reports + rest.reports)
  }

  /** Each file analysed by a fresh detector. */
  function AnalyzeEachAlone(files: seq<SourceFile>): seq<Report>
    decreases |files|
  {
    if files == [] then []
    else AnalyzeFile(Initial, files[0].calls, files[0].isJava).reports + AnalyzeEachAlone(files[1..])
  }

  // ---------------------------------------------------------------------
  // What a file leaves in the flags
  // ---------------------------------------------------------------------

  /** The last qualifying connect() of a file, if there is one. */
  function LastConnect(calls: seq<Call>): (r: Option<Call>)
    ensures r.Some? ==> IsConnect(r.value) && r.value in calls
    decreases |calls|
  {
    if calls == [] then None
    else if IsConnect(calls[|calls| - 1]) then Some(calls[|calls| - 1])
    else LastConnect(calls[..|calls| - 1])
  }

  /** There is no last connect() iff the file has none; otherwise it is a
      qualifying connect() with no qualifying connect() after it. */
  lemma {:induction false} LastConnectIsLast(calls: seq<Call>)
    ensures LastConnect(calls).None? <==> forall j :: 0 <= j < |calls| ==> !IsConnect(calls[j])
    ensures LastConnect(calls).Some? ==>
              exists j :: 0 <= j < |calls| && calls[j] == LastConnect(calls).value &&
                          forall k :: j < k < |calls| ==> !IsConnect(calls[k])
    decreases |calls|
  {
    if calls != [] {
      var n := |calls| - 1;
      var init := calls[..n];
      if IsConnect(calls[n]) {
        assert calls[n] == LastConnect(calls).value;
      } else {
        LastConnectIsLast(init);
        assert forall j :: 0 <= j < n ==> init[j] == calls[j];
        if LastConnect(init).Some? {
          var j :| 0 <= j < n && init[j] == LastConnect(init).value &&
                   forall k :: j < k < n ==> !IsConnect(init[k]);
          assert calls[j] == LastConnect(calls).value;
          assert forall k :: j < k < |calls| ==> !IsConnect(calls[k]);
        }
      }
    }
  }

  predicate HasDisconnect(calls: seq<Call>) {
    exists j :: 0 <= j < |calls| && IsDisconnect(calls[j])
  }

  /** After visiting a file, foundConnect says whether it had a qualifying
      connect(), connectNode is the last one (the last connect wins), and
      foundDisconnect says whether it had a qualifying disconnect(). */
  lemma {:induction false} VisitAllFlags(f: Flags, calls: seq<Call>)
    ensures VisitAll(f, calls).flags ==
              Flags(f.foundConnect || LastConnect(calls).Some?,
                    if LastConnect(calls).Some? then LastConnect(calls) else f.connectNode,
                    f.foundDisconnect || HasDisconnect(calls))
    decreases |calls|
  {
    if calls != [] {
      var init := calls[..|calls| - 1];
      var last := calls[|calls| - 1];
      VisitAllFlags(f, init);
      assert forall j :: 0 <= j < |init| ==> init[j] == calls[j];
      if HasDisconnect(init) {
        var j :| 0 <= j < |init| && IsDisconnect(init[j]);
        assert IsDisconnect(calls[j]);
      }
      if HasDisconnect(calls) && !IsDisconnect(last) {
        var j :| 0 <= j < |calls| && IsDisconnect(calls[j]);
        assert j < |init| && IsDisconnect(init[j]);
      }
    }
  }

  /** The placement diagnostics of a file, invocation by invocation. */
  function PlacementReports(calls: seq<Call>): seq<Report>
    decreases |calls|
  {
    if calls == [] then [] else Visit(Initial, calls[0]).reports + PlacementReports(calls[1..])
  }

  /** Visiting a file reports exactly its placement diagnostics, in order. */
  lemma {:induction false} VisitAllReportsPlacements(f: Flags, calls: seq<Call>)
    ensures VisitAll(f, calls).reports == PlacementReports(calls)
    decreases |calls|
  {
    if calls != [] {
      var init := calls[..|calls| - 1];
      var last := calls[|calls| - 1];
      VisitAllReportsPlacements(f, init);
      assert PlacementReports([last]) == Visit(Initial, last).reports;
      PlacementReportsAppend(init, [last]);
      assert init + [last] == calls;
    }
  }

  lemma {:induction false} PlacementReportsAppend(a: seq<Call>, b: seq<Call>)
    ensures PlacementReports(a + b) == PlacementReports(a) + PlacementReports(b)
    decreases |a|
  {
    if a == [] {
      assert a + b == b;
    } else {
      var first := Visit(Initial, a[0]).reports;
      assert (a + b)[0] == a[0] && (a + b)[1..] == a[1..] + b;
      PlacementReportsAppend(a[1..], b);
      calc {
        PlacementReports(a + b);
        first + PlacementReports(a[1..] + b);
        first + (PlacementReports(a[1..]) + PlacementReports(b));
        (first + PlacementReports(a[1..])) + PlacementReports(b);
        PlacementReports(a) + PlacementReports(b);
      }
    }
  }

  /** A file none of whose invocations is misplaced has no placement diagnostics. */
  lemma {:induction false} PlacementReportsEmpty(calls: seq<Call>)
    requires forall k :: 0 <= k < |calls| ==> Visit(Initial, calls[k]).reports == []
    ensures PlacementReports(calls) == []
    decreases |calls|
  {
    if calls != [] {
      PlacementReportsEmpty(calls[1..]);
    }
  }

  /** Visiting never reports a missing disconnect. */
  lemma {:induction false} VisitAllNoEndOfFileReport(f: Flags, calls: seq<Call>)
    ensures forall k :: 0 <= k < |VisitAll(f, calls).reports| ==>
              VisitAll(f, calls).reports[k].message != ConnectWithoutDisconnect
    decreases |calls|
  {
    if calls != [] {
      VisitAllNoEndOfFileReport(f, calls[..|calls| - 1]);
    }
  }

  /** The number of reports with one message. */
  function Count(reports: seq<Report>, message: Message): nat
    decreases |reports|
  {
    if reports == [] then 0
    else (if reports[0].message == message then 1 else 0) + Count(reports[1..], message)
  }

  lemma {:induction false} CountAppend(a: seq<Report>, b: seq<Report>, message: Message)
    ensures Count(a + b, message) == Count(a, message) + Count(b, message)
    decreases |a|
  {
    if a == [] {
      assert a + b == b;
    } else {
      assert (a + b)[0] == a[0] && (a + b)[1..] == a[1..] + b;
      CountAppend(a[1..], b, message);
    }
  }

  lemma {:induction false} CountNone(a: seq<Report>, message: Message)
    requires forall k :: 0 <= k < |a| ==> a[k].message != message
    ensures Count(a, message) == 0
    decreases |a|
  {
    if a != [] {
      CountNone(a[1..], message);
    }
  }

  /** A file analysed from the initial state reports its placement
      diagnostics, then exactly one missing-disconnect diagnostic, anchored at the
      last connect(), iff it has a qualifying connect() and no qualifying
      disconnect() (in any order); it leaves the initial state behind. */
  lemma EndOfFileReport(calls: seq<Call>)
    ensures AnalyzeFile(Initial, calls, true).flags == Initial
    ensures AnalyzeFile(Initial, calls, true).reports ==
              PlacementReports(calls) +
              (if LastConnect(calls).Some? && !HasDisconnect(calls)
               then [Report(ConnectWithoutDisconnect, LastConnect(calls).value)] else [])
    ensures Count(AnalyzeFile(Initial, calls, true).reports, ConnectWithoutDisconnect) ==
              (if LastConnect(calls).Some? && !HasDisconnect(calls) then 1 else 0)
  {
    VisitAllFlags(Initial, calls);
    VisitAllReportsPlacements(Initial, calls);
    var visited := VisitAll(Initial, calls);
    var finished := Finish(visited.flags, true);
    VisitAllNoEndOfFileReport(Initial, calls);
    CountNone(visited.reports, ConnectWithoutDisconnect);
    CountAppend(visited.reports, finished.reports, ConnectWithoutDisconnect);
  }

  /** Reordering the invocations of a file does not change whether the
      missing-disconnect diagnostic is reported. */
  lemma EndOfFileReportIgnoresOrder(calls: seq<Call>, reordered: seq<Call>)
    requires multiset(calls) == multiset(reordered)
    ensures Count(AnalyzeFile(Initial, calls, true).reports, ConnectWithoutDisconnect) ==
            Count(AnalyzeFile(Initial, reordered, true).reports, ConnectWithoutDisconnect)
  {
    EndOfFileReport(calls);
    EndOfFileReport(reordered);
    SameElementsSameConnect(calls, reordered);
    SameElementsSameConnect(reordered, calls);
  }

  lemma SameElementsSameConnect(a: seq<Call>, b: seq<Call>)
    requires multiset(a) == multiset(b)
    ensures LastConnect(a).Some? ==> LastConnect(b).Some?
    ensures HasDisconnect(a) ==> HasDisconnect(b)
  {
    LastConnectIsLast(a);
    LastConnectIsLast(b);
    if LastConnect(a).Some? {
      var j :| 0 <= j < |a| && IsConnect(a[j]);
      assert a[j] in multiset(b);
      var k :| 0 <= k < |b| && b[k] == a[j];
    }
    if HasDisconnect(a) {
      var j :| 0 <= j < |a| && IsDisconnect(a[j]);
      assert a[j] in multiset(b);
      var k :| 0 <= k < |b| && b[k] == a[j];
    }
  }

  /** Files analysed in sequence by one detector report exactly what each
      would report when analysed alone, as long as every end-of-file hook
      gets a Java context: nothing leaks from one file into the next. */
  lemma {:induction false} FilesAreIsolated(files: seq<SourceFile>)
    requires forall k :: 0 <= k < |files| ==> files[k].isJava
    ensures AnalyzeFiles(Initial, files).flags == Initial
    ensures AnalyzeFiles(Initial, files).reports == AnalyzeEachAlone(files)
    decreases |files|
  {
    if files != [] {
      EndOfFileReport(files[0].calls);
      FilesAreIsolated(files[1..]);
    }
  }

  // ---------------------------------------------------------------------
  // The detector object
  // ---------------------------------------------------------------------

  /** The detector's static fields and the diagnostics handed to the Lint
      context so far. */
  class GoogleApiClientDetector {
    var foundConnect: bool
    var connectNode: Option<Call>
    var foundDisconnect: bool
    var reports: seq<Report>

    function State(): Flags
      reads this
    {
      Flags(foundConnect, connectNode, foundDisconnect)
    }

    predicate Valid()
      reads this
    {
      ConnectNodeKept(State())
    }

    constructor ()
      ensures Valid() && State() == Initial && reports == []
    {
      foundConnect := false;
      connectNode := None;
      foundDisconnect := false;
      reports := [];
    }

    /** The visitor's hook for one method invocation. */
    method VisitMethodInvocation(c: Call)
      requires Valid()
      modifies this
      ensures Valid()
      ensures State() == Visit(old(State()), c).flags
      ensures reports == old(reports) + Visit(old(State()), c).reports
    {
      if !c.reportIssues {
        return;
      }
      if c.name !in ApplicableMethodNames() {
        return;
      }
      if !c.resolved {
        return;
      }
      if !c.inApiClientSubclass {
        return;
      }
      if c.name == ConnectMethod {
        foundConnect := true;
        connectNode := Some(c);
        if c.inActivityOrFragment {
          var callerMethod := c.callerName;
          if callerMethod != Utils.OnStartMethod && callerMethod != OnConnectionFailedMethod {
            reports := reports + [Report(ConnectOutsideOnStart, c)];
          }
        }
      } else if c.name == DisconnectMethod {
        foundDisconnect := true;
        if c.inActivityOrFragment && c.callerName != Utils.OnStopMethod {
          reports := reports + [Report(DisconnectOutsideOnStop, c)];
        }
      }
    }

    /** The end-of-file hook. */
    method AfterCheckFile(isJava: bool)
      requires Valid()
      modifies this
      ensures Valid()
      ensures State() == Finish(old(State()), isJava).flags
      ensures reports == old(reports) + Finish(old(State()), isJava).reports
    {
      if !isJava {
        return;
      }
      if foundConnect && !foundDisconnect {
        reports := reports + [Report(ConnectWithoutDisconnect, connectNode.value)];
      }
      foundConnect := false;
      foundDisconnect := false;
      connectNode := None;
    }

    /** The host's traversal of one file: every invocation in order, then the
        end-of-file hook. */
    method CheckFile(calls: seq<Call>, isJava: bool)
      requires Valid()
      modifies this
      ensures Valid()
      ensures State() == AnalyzeFile(old(State()), calls, isJava).flags
      ensures reports == old(reports) + AnalyzeFile(old(State()), calls, isJava).reports
    {
      var k := 0;
      while k < |calls|
        invariant 0 <= k <= |calls|
        invariant Valid()
        invariant State() == VisitAll(old(State()), calls[..k]).flags
        invariant reports == old(reports) + VisitAll(old(State()), calls[..k]).reports
      {
        assert calls[..k + 1][..k] == calls[..k];
        VisitMethodInvocation(calls[k]);
        k := k + 1;
      }
      assert calls[..|calls|] == calls;
      AfterCheckFile(isJava);
    }
  }
}
