/** The GoogleApiClient fixture activities of the test application, written
    as the invocation sequences the detector visits, with the diagnostics
    the detector reports for each. Call ids are the fixtures' line numbers. */
module Scenarios {
  import opened Wrappers
  import opened Detectors

  /** An invocation in a Java project that reports issues. */
  function At(name: string, resolved: bool, apiClient: bool, inComponent: bool, caller: string, line: nat): Call {
    Call(true, name, resolved, apiClient, inComponent, caller, line)
  }

  /** CorrectUsage: connect() in onStart, disconnect() in onStop of an activity. */
  function CorrectUsage(): seq<Call> {
    [ At("enableAutoManage", true, false, true, "", 16),
      At("build", true, false, true, "", 17),
      At("onCreate", true, false, true, "onCreate", 22),
      At("setContentView", true, false, true, "onCreate", 23),
      At("onStart", true, false, true, "onStart", 29),
      At("connect", true, true, true, "onStart", 30),
      At("onStop", true, false, true, "onStop", 36),
      At("disconnect", true, true, true, "onStop", 37) ]
  }

  /** WrongPlaces: connect() in onPause, disconnect() in onDestroy, and a
      second connect() in onConnectionFailed, which is allowed. (The calls
      of onCreate and the field initializer are left out here; CorrectUsage
      shows that such calls are filtered.) */
  function WrongPlaces(): seq<Call> {
    [ At("onPause", true, false, true, "onPause", 27),
      At("connect", true, true, true, "onPause", 28),
      At("onDestroy", true, false, true, "onDestroy", 34),
      At("disconnect", true, true, true, "onDestroy", 35),
      At("connect", true, true, true, "onConnectionFailed", 42) ]
  }

  /** WrongPlacesNotActivity: the same calls in a class that is neither an
      activity nor a fragment. */
  function WrongPlacesNotActivity(): seq<Call> {
    [ At("enableAutoManage", true, false, false, "", 14),
      At("build", true, false, false, "", 15),
      At("connect", true, true, false, "myMethod1", 22),
      At("disconnect", true, true, false, "myMethod2", 27),
      At("connect", true, true, false, "onConnectionFailed", 34) ]
  }

  /** One unfolding of the placement reports of a suffix. */
  lemma PlacementReportsFrom(calls: seq<Call>, k: nat, expected: seq<Report>)
    requires k < |calls|
    requires Visit(Initial, calls[k]).reports + PlacementReports(calls[k + 1..]) == expected
    ensures PlacementReports(calls[k..]) == expected
  {
    assert calls[k..][1..] == calls[k + 1..];
  }

  lemma CorrectUsageReportsNothing(calls: seq<Call>)
    requires calls == CorrectUsage()
    ensures AnalyzeFile(Initial, calls, true) == Step(Initial, [])
  {
    assert IsDisconnect(calls[7]);
    assert HasDisconnect(calls);
    forall k | 0 <= k < |calls| ensures Visit(Initial, calls[k]).reports == [] {
    }
    PlacementReportsEmpty(calls);
    EndOfFileReport(calls);
  }

  /** The placement diagnostics of WrongPlaces: the connect() in onPause and
      the disconnect() in onDestroy. */
  lemma WrongPlacesPlacements(calls: seq<Call>)
    requires calls == WrongPlaces()
    ensures PlacementReports(calls) ==
              [Report(ConnectOutsideOnStart, calls[1]), Report(DisconnectOutsideOnStop, calls[3])]
  {
    var r1, r3 := Report(ConnectOutsideOnStart, calls[1]), Report(DisconnectOutsideOnStop, calls[3]);
    PlacementReportsFrom(calls, 4, []);
    PlacementReportsFrom(calls, 3, [r3]);
    PlacementReportsFrom(calls, 2, [r3]);
    PlacementReportsFrom(calls, 1, [r1, r3]);
    PlacementReportsFrom(calls, 0, [r1, r3]);
    assert calls[0..] == calls;
  }

  lemma WrongPlacesReportsTwo(calls: seq<Call>)
    requires calls == WrongPlaces()
    ensures AnalyzeFile(Initial, calls, true).reports ==
              [Report(ConnectOutsideOnStart, calls[1]), Report(DisconnectOutsideOnStop, calls[3])]
  {
    assert IsDisconnect(calls[3]);
    assert HasDisconnect(calls);
    WrongPlacesPlacements(calls);
    EndOfFileReport(calls);
  }

  lemma WrongPlacesNotActivityReportsNothing(calls: seq<Call>)
    requires calls == WrongPlacesNotActivity()
    ensures AnalyzeFile(Initial, calls, true).reports == []
  {
    assert IsDisconnect(calls[3]);
    assert HasDisconnect(calls);
    forall k | 0 <= k < |calls| ensures Visit(Initial, calls[k]).reports == [] { }
    PlacementReportsEmpty(calls);
    EndOfFileReport(calls);
  }

  /** WrongPlaces without its disconnect() also gets the end-of-file
      diagnostic, anchored at the last connect(), the one in onConnectionFailed. */
  lemma WrongPlacesWithoutDisconnect()
    ensures var calls := [WrongPlaces()[1], WrongPlaces()[4]];
            AnalyzeFile(Initial, calls, true).reports ==
              [Report(ConnectOutsideOnStart, WrongPlaces()[1]),
               Report(ConnectWithoutDisconnect, WrongPlaces()[4])]
  {
    var calls := [WrongPlaces()[1], WrongPlaces()[4]];
    EndOfFileReport(calls);
    assert LastConnect(calls) == Some(calls[1]);
    assert !HasDisconnect(calls);
    PlacementReportsAppend([calls[0]], [calls[1]]);
    assert calls == [calls[0]] + [calls[1]];
  }
}
