# GoogleApiClient lifecycle lint — Dafny model

This project models the core of LifecycleLintChecks, an Android Lint plugin.

Its `GoogleApiClientDetector` visits every method invocation of a Java file. It watches calls to `GoogleApiClient.connect()` and `disconnect()` and keeps three static fields across the visit:
- `foundConnect`
- `connectNode`
- `foundDisconnect`

It reports a `connect()` made in an activity or fragment outside `onStart` (or the `onConnectionFailed` callback). It reports a `disconnect()` made in one outside `onStop`. At the end of each file it reports a `connect()` with no `disconnect()`, anchored at the last `connect()` node, and then resets the three fields.

The project also models the `Utils` helpers:
- the walk from an invocation up to its enclosing method declaration
- the lookup of an invocation's i-th argument text
- the reflexive "method contained in a subclass of" test

Files:
- `wrappers.dfy`: `Option`, standing for Java's nullable references.
- `utils.dfy`: module `Utils`. The syntax tree is a sequence of nodes whose parent link always points to a smaller index, so every parent chain ends. The class hierarchy is a sequence of classes whose superclass link works the same way.
- `detectors.dfy`: module `Detectors`.
  - Pure specification functions for one visit (`Visit`), the end-of-file hook (`Finish`), a whole file (`VisitAll`, `AnalyzeFile`) and a sequence of files (`AnalyzeFiles`).
  - The class `GoogleApiClientDetector`, which holds the three static fields and the list of reports handed to the Lint context. Its methods are proved against those functions.
- `scenarios.dfy`: the three GoogleApiClient fixture activities of the test application, as invocation sequences with the reports they produce.

Inputs rather than code: the Lint host's answers about each invocation become fields of the `Call` record:
- whether the project reports issues
- whether `context.resolve` gives a method
- whether its class is a `GoogleApiClient` or a subclass
- whether the call is in an activity or fragment
- the enclosing method's name

## Model

| member | source | states |
|---|---|---|
| `Utils.AncestorIsBelow` | src/main/java/it/polimi/testing/lifecycle_lint/Utils.java:38-49 | every step of the parent walk moves to a node strictly nearer the root, so the walk ends |
| `Utils.NearestMethodDeclaration` | src/main/java/it/polimi/testing/lifecycle_lint/Utils.java:37-48 | the declaration the walk stops at lies strictly above the invocation and is a method declaration |
| `Utils.NearestMethodDeclarationIsNearest` | src/main/java/it/polimi/testing/lifecycle_lint/Utils.java:37-51 | the result is a strict ancestor that is a method declaration, no ancestor between it and the invocation is one, and there is no result iff no ancestor is a method declaration |
| `Utils.CallerMethodEmptyIffNoEnclosingMethod` | src/main/java/it/polimi/testing/lifecycle_lint/Utils.java:42-50 | the caller name is "" iff no ancestor is a method declaration, given that method names are non-empty |
| `Utils.GetCallerMethod` | src/main/java/it/polimi/testing/lifecycle_lint/Utils.java:34-52 | the `while(true)` parent walk returns the name of the nearest enclosing method declaration, starting at the parent, or "" |
| `Utils.GetMethodInvocationArgumentName` | src/main/java/it/polimi/testing/lifecycle_lint/Utils.java:60-73 | the counting loop returns argument i's text when 0 <= i < number of arguments, and "" when the list is null, i is negative or i is past the end |
| `Utils.ContainedInSubclassOfIffNamedInChain` | src/main/java/it/polimi/testing/lifecycle_lint/Utils.java:18-27 | for any resolved method, the non-strict test holds iff some class on its containing class's superclass chain, that class included, has the given name |
| `Utils.ContainedInSubclassOfIsReflexive` | src/main/java/it/polimi/testing/lifecycle_lint/Utils.java:24-27 | a method is contained in a subclass of its own class (the test passes `strict = false`) |
| `Detectors.ApplicableMethodNames` | src/main/java/it/polimi/testing/lifecycle_lint/detectors/GoogleApiClientDetector.java:155-158 | a name is applicable iff it is `connect` or `disconnect` |
| `Detectors.Visit` | src/main/java/it/polimi/testing/lifecycle_lint/detectors/GoogleApiClientDetector.java:164-224 | a call that fails any of the four filters changes nothing; a connect sets `foundConnect`, becomes `connectNode` and leaves `foundDisconnect`; it adds one report iff in an activity/fragment outside `onStart` and `onConnectionFailed`; a disconnect sets only `foundDisconnect` and adds one report iff in an activity/fragment outside `onStop`; `foundConnect ==> connectNode != null` is preserved |
| `Detectors.Finish` | src/main/java/it/polimi/testing/lifecycle_lint/detectors/GoogleApiClientDetector.java:109-124 | a non-Java context changes nothing; a Java context adds one report anchored at `connectNode` iff `foundConnect && !foundDisconnect`, and resets to false/null/false |
| `Detectors.VisitAll` | src/main/java/it/polimi/testing/lifecycle_lint/detectors/GoogleApiClientDetector.java:192-221 | visiting any file, and so any prefix of one, keeps `foundConnect ==> connectNode != null`: the invariant holds at every step between resets |
| `Detectors.AnalyzeFile` | src/main/java/it/polimi/testing/lifecycle_lint/detectors/GoogleApiClientDetector.java:115-123 | a visited and finished file leaves `foundConnect ==> connectNode != null` |
| `Detectors.LastConnect` | src/main/java/it/polimi/testing/lifecycle_lint/detectors/GoogleApiClientDetector.java:194-197 | the node kept for the end-of-file report is a qualifying connect call of the file |
| `Detectors.LastConnectIsLast` | src/main/java/it/polimi/testing/lifecycle_lint/detectors/GoogleApiClientDetector.java:194-197 | the kept node is a qualifying connect with no qualifying connect after it (the last connect wins), and there is none iff the file has no qualifying connect |
| `Detectors.VisitAllFlags` | src/main/java/it/polimi/testing/lifecycle_lint/detectors/GoogleApiClientDetector.java:192-214 | after a file, `foundConnect` says whether a qualifying connect occurred, `connectNode` is the last one (the last connect wins), `foundDisconnect` whether a qualifying disconnect occurred |
| `Detectors.VisitAllReportsPlacements` | src/main/java/it/polimi/testing/lifecycle_lint/detectors/GoogleApiClientDetector.java:199-220 | the reports made while visiting are each call's placement report in order, independent of the flags |
| `Detectors.VisitAllNoEndOfFileReport` | src/main/java/it/polimi/testing/lifecycle_lint/detectors/GoogleApiClientDetector.java:199-220 | no report made during the visit is the missing-disconnect report |
| `Detectors.EndOfFileReport` | src/main/java/it/polimi/testing/lifecycle_lint/detectors/GoogleApiClientDetector.java:115-123 | a file analysed from the initial state reports its placement reports plus exactly one missing-disconnect report, anchored at the last connect, iff it has a qualifying connect and no qualifying disconnect; the state is reset afterwards |
| `Detectors.EndOfFileReportIgnoresOrder` | src/main/java/it/polimi/testing/lifecycle_lint/detectors/GoogleApiClientDetector.java:115-118 | reordering a file's calls does not change whether the missing-disconnect report is made |
| `Detectors.FilesAreIsolated` | src/main/java/it/polimi/testing/lifecycle_lint/detectors/GoogleApiClientDetector.java:120-123 | files analysed in sequence with Java contexts report what each reports alone, and the state ends as initial |
| `Detectors.GoogleApiClientDetector.constructor` | src/main/java/it/polimi/testing/lifecycle_lint/detectors/GoogleApiClientDetector.java:70-72 | the fields start as false, null, false with no reports |
| `Detectors.GoogleApiClientDetector.VisitMethodInvocation` | src/main/java/it/polimi/testing/lifecycle_lint/detectors/GoogleApiClientDetector.java:164-224 | the fields and the report list change exactly as `Visit` says, keeping `foundConnect ==> connectNode != null` |
| `Detectors.GoogleApiClientDetector.AfterCheckFile` | src/main/java/it/polimi/testing/lifecycle_lint/detectors/GoogleApiClientDetector.java:109-124 | the fields and the report list change exactly as `Finish` says |
| `Detectors.GoogleApiClientDetector.CheckFile` | src/main/java/it/polimi/testing/lifecycle_lint/detectors/GoogleApiClientDetector.java:96-133 | the host's traversal of a file, each invocation then the end-of-file hook, changes the fields and reports as `AnalyzeFile` says |
| `Scenarios.CorrectUsageReportsNothing` | testapplication/src/main/java/it/polimi/testing/testapplication/google_api_client/CorrectUsage.java:26-38 | connect in `onStart` and disconnect in `onStop` give no report and leave the initial state |
| `Scenarios.WrongPlacesPlacements` | testapplication/src/main/java/it/polimi/testing/testapplication/google_api_client/WrongPlaces.java:24-43 | the placement reports are the connect in `onPause` and the disconnect in `onDestroy`, in that order |
| `Scenarios.WrongPlacesReportsTwo` | testapplication/src/main/java/it/polimi/testing/testapplication/google_api_client/WrongPlaces.java:24-43 | exactly two reports: the connect in `onPause` and the disconnect in `onDestroy`; the connect in `onConnectionFailed` is accepted |
| `Scenarios.WrongPlacesNotActivityReportsNothing` | testapplication/src/main/java/it/polimi/testing/testapplication/google_api_client/WrongPlacesNotActivity.java:20-35 | outside activities and fragments no placement is reported, and a disconnect exists, so there is no report |
| `Scenarios.WrongPlacesWithoutDisconnect` | src/main/java/it/polimi/testing/lifecycle_lint/detectors/GoogleApiClientDetector.java:115-118 | two connects and no disconnect: the missing-disconnect report is anchored at the second, later connect |

## Left out

- The GoogleApiClient detector does not pair calls by receiver, does not look for try/catch guards, has no save-state rule and gives no immediate diagnostic for a second `connect()`. A second `connect()` overwrites `connectNode` (GoogleApiClientDetector.java:197), so the last connect wins. The state is held in static fields (GoogleApiClientDetector.java:70-72); the model holds it in one detector object.
- `BroadcastReceiverDetector`: its only behaviour is printing; it has no pairing or guard logic.
- The issue registry and the issue metadata are plugin glue and constants: id, description, explanation, category, priority, severity, URL and message texts. The detector reports one Lint issue, GoogleApiClientLifecycle, with three messages; a report carries which of the three messages it is (`Message`) and its anchor node, not the message text.
- `Utils.getCallerMethodName` and `Utils.isCalledInActivityOrFragment` are called by the detector but are not part of this model. Their results are the `callerName` and `inActivityOrFragment` inputs of a call. `GetCallerMethod` models the walk of `Utils.getCallerMethod` on its own.
- `Utils.ON_START_METHOD` and `Utils.ON_STOP_METHOD` are not defined in the modelled `Utils.java`. They are taken as "onStart" and "onStop", the hooks the issue explanation and the messages name.
- `Utils.ON_SAVE_INSTANCE_STATE_METHOD` is never used, so it is not modelled.
- `context.resolve` and `ResolvedClass.isSubclassOf` are Lint internals. The detector sees their answers as booleans. `Utils` models the subclass test over superclass links only; implemented interfaces are not modelled.
- Detectors.Visit: the name filter uses the invocation's syntactic name and the branch uses the resolved method's name; the model uses one name for both.
- Detectors.GoogleApiClientDetector.VisitMethodInvocation: the boolean the visitor returns to the AST walker (the forwarding visitor's default) is not modelled.
- `appliesTo`, `getApplicableFiles`, `getApplicableNodeTypes` and `createJavaVisitor` only return constants or wire up the visitor. `CheckFile` stands for the host traversal they configure.
- `Node.toString()` of an argument is taken as the argument's text. An argument list is a sequence of those texts, or None where the tree has no list.
- Threads and sharing the static fields across concurrent files are not modelled. One detector object is driven over files in sequence.
- Detectors.Finish: requires `foundConnect ==> connectNode != null`. Every operation keeps this invariant; without it the Java code would throw a NullPointerException on `connectNode.astName()`.
