/**
  The fan-out logger (controller/control/logger.go): entries queued on one
  input are forwarded by a dispatcher to every named sink whose level filter
  accepts them. Queues are sequences; the dispatcher and sink writer
  goroutines become explicit steps.
 */
module Logging {

  const LogLevelNotSet: bv64 := 0
  const LogLevelDebug: bv64 := 1
  const LogLevelMessage: bv64 := 2
  const LogLevelWarning: bv64 := 4
  const LogLevelPass: bv64 := 8
  const LogLevelFail: bv64 := 16
  const LogLevelResults: bv64 := 32
  const LogLevelError: bv64 := 64
  const LogLevelAll: bv64 := 128

  /** One queued entry: its level bits and the already prefixed pattern. */
  datatype LogArg = LogArg(level: bv64, pattern: string)

  /** A registered sink: its level filter and its own queue. */
  datatype Sink = Sink(level: bv64, queue: seq<LogArg>)

  /** The logger. `os` is the runtime's GOOS, fixed for the process. */
  datatype Logger = Logger(
    input: seq<LogArg>,
    sinks: map<string, Sink>,
    debugMode: bool,
    initialized: bool,
    faulted: bool,
    end: string,
    os: string)

  /** A logger as declared, before Init. */
  function Zero(os: string): Logger
  {
    Logger([], map[], false, false, false, "", os)
  }

  predicate Overlaps(a: bv64, b: bv64) {
    a & b != 0
  }

  /** The dispatcher's test for one sink, in the code's order: a debug entry
      to a Message or All sink while debug mode is on; any entry to an All
      sink; a Pass or Fail entry to a Results sink; an entry whose level bits
      meet the sink's. */
  predicate Delivers(msgLevel: bv64, sinkLevel: bv64, debugMode: bool) {
    if Overlaps(msgLevel, LogLevelDebug) && Overlaps(sinkLevel, LogLevelMessage | LogLevelAll) && debugMode then true
    else if Overlaps(sinkLevel, LogLevelAll) then true
    else if Overlaps(sinkLevel, LogLevelResults) && Overlaps(msgLevel, LogLevelPass | LogLevelFail) then true
    else Overlaps(msgLevel, sinkLevel)
  }

  /** Init: a no-op once initialised; otherwise it installs empty sinks and
      an empty input, turns debug mode off and picks the line ending. */
  function Init(l: Logger): (r: Logger)
    ensures r.initialized && r.os == l.os
    ensures l.initialized ==> r == l
    ensures !l.initialized ==> r.sinks == map[] && r.input == [] && !r.debugMode
    ensures !l.initialized ==> r.end == (if l.os == "linux" then "\n" else "\r\n")
  {
    if l.initialized then l
    else Logger([], map[], false, true, l.faulted, if l.os == "linux" then "\n" else "\r\n", l.os)
  }

  lemma InitIdempotent(l: Logger)
    ensures Init(Init(l)) == Init(l)
  {
  }

  /** ready: true when initialised; false when an earlier Init panicked;
      otherwise it runs Init. */
  function Ready(l: Logger): (r: (Logger, bool))
    ensures r.1 <==> l.initialized || !l.faulted
    ensures r.1 ==> r.0 == Init(l)
    ensures !r.1 ==> r.0 == l
  {
    if l.initialized then (l, true)
    else if l.faulted then (l, false)
    else (Init(l), Init(l).initialized)
  }

  /** Add: registers a sink with an empty queue under a new name; a name
      already registered keeps its sink and level. */
  function Add(l: Logger, name: string, level: bv64): (r: Logger)
    ensures !Ready(l).1 ==> r == l
    ensures Ready(l).1 ==> r.sinks.Keys == Ready(l).0.sinks.Keys + {name}
    ensures Ready(l).1 && name in Ready(l).0.sinks ==> r == Ready(l).0
    ensures Ready(l).1 && name !in Ready(l).0.sinks ==> r.sinks[name] == Sink(level, [])
  {
    var (k, ok) := Ready(l);
    if !ok then k
    else if name in k.sinks then k
    else k.(sinks := k.sinks[name := Sink(level, [])])
  }

  function SetDebug(l: Logger, mode: bool): (r: Logger)
    ensures Ready(l).1 ==> r == Ready(l).0.(debugMode := mode)
    ensures !Ready(l).1 ==> r == l
  {
    var (k, ok) := Ready(l);
    if ok then k.(debugMode := mode) else k
  }

  /** The six Log* functions. */
  datatype LogKind = LogError | LogDebug | LogWarning | LogPass | LogFail | LogMessage

  function LevelOf(kind: LogKind): bv64
  {
    match kind
    case LogError => LogLevelError
    case LogDebug => LogLevelDebug
    case LogWarning => LogLevelWarning
    case LogPass => LogLevelPass
    case LogFail => LogLevelFail
    case LogMessage => LogLevelMessage
  }

  /** The tag each function puts in front of the pattern; warnings carry the
      error tag. */
  function TagOf(kind: LogKind): string
  {
    match kind
    case LogError => "ERROR::"
    case LogDebug => "DEBUG::"
    case LogWarning => "ERROR::"
    case LogPass => "PASS::"
    case LogFail => "FAIL::"
    case LogMessage => "MSG::"
  }

  /** Printf: queues one entry on the input. The input channel exists only
      after Init; a send on the nil channel would block for ever. */
  function Printf(l: Logger, level: bv64, value: string): (r: Logger)
    requires l.initialized
    ensures |r.input| == |l.input| + 1 && r.input[..|l.input|] == l.input
    ensures r.input[|l.input|] == LogArg(level, value)
    ensures r.sinks == l.sinks && r.debugMode == l.debugMode && r.end == l.end && r.initialized
  {
    l.(input := l.input + [LogArg(level, value)])
  }

  /** Log*: when the logger is ready, queues one entry at the function's
      level whose pattern is the tag, the message and the line ending;
      LogDebug queues nothing while debug mode is off. Nothing else changes. */
  function Log(l: Logger, kind: LogKind, msg: string): (r: Logger)
    ensures var (k, ok) := Ready(l);
      if ok && (kind != LogDebug || k.debugMode) then
        && |r.input| == |k.input| + 1 && r.input[..|k.input|] == k.input
        && r.input[|k.input|] == LogArg(LevelOf(kind), TagOf(kind) + msg + k.end)
        && r.sinks == k.sinks && r.debugMode == k.debugMode
      else r == k
    ensures !Ready(l).1 ==> r == l
  {
    var (k, ok) := Ready(l);
    if ok && (kind != LogDebug || k.debugMode) then
      Printf(k, LevelOf(kind), TagOf(kind) + msg + k.end)
    else k
  }

  /** One dispatcher iteration: the oldest input entry goes to the queue of
      every sink that accepts it, once; an empty input is left alone. */
  function Dispatch(l: Logger): (r: Logger)
    ensures l.input == [] ==> r == l
    ensures l.input != [] ==> r == l.(input := l.input[1..], sinks := r.sinks)
    ensures r.sinks.Keys == l.sinks.Keys
    ensures l.input != [] ==> forall n :: n in l.sinks ==>
      && r.sinks[n].level == l.sinks[n].level
      && r.sinks[n].queue == l.sinks[n].queue + (if Delivers(l.input[0].level, l.sinks[n].level, l.debugMode) then [l.input[0]] else [])
  {
    if l.input == [] then l
    else
      var m := l.input[0];
      var sinks := map n | n in l.sinks ::
        if Delivers(m.level, l.sinks[n].level, l.debugMode) then Sink(l.sinks[n].level, l.sinks[n].queue + [m])
        else l.sinks[n];
      l.(input := l.input[1..], sinks := sinks)
  }

  /** The entries of `msgs` a sink at `sinkLevel` accepts, in order. */
  function Accepted(msgs: seq<LogArg>, sinkLevel: bv64, debugMode: bool): seq<LogArg>
  {
    if |msgs| == 0 then []
    else (if Delivers(msgs[0].level, sinkLevel, debugMode) then [msgs[0]] else [])
         + Accepted(msgs[1..], sinkLevel, debugMode)
  }

  /** The dispatcher run until the input is empty. */
  function Drain(l: Logger): (r: Logger)
    ensures r.input == [] && r.sinks.Keys == l.sinks.Keys
    ensures r.debugMode == l.debugMode
    decreases |l.input|
  {
    if l.input == [] then l else Drain(Dispatch(l))
  }

  /** After draining, every sink's queue has grown by exactly the entries it
      accepts, in the order they were logged, and keeps its level. */
  lemma {:induction false} DrainDeliversAccepted(l: Logger, n: string)
    requires n in l.sinks
    ensures n in Drain(l).sinks
    ensures Drain(l).sinks[n].level == l.sinks[n].level
    ensures Drain(l).sinks[n].queue == l.sinks[n].queue + Accepted(l.input, l.sinks[n].level, l.debugMode)
    decreases |l.input|
  {
    if l.input != [] {
      var d := Dispatch(l);
      assert Drain(l) == Drain(d);
      DrainDeliversAccepted(d, n);
      var sink := l.sinks[n];
      var head := if Delivers(l.input[0].level, sink.level, l.debugMode) then [l.input[0]] else [];
      var rest := Accepted(d.input, sink.level, l.debugMode);
      assert d.sinks[n] == Sink(sink.level, sink.queue + head);
      AcceptedHead(l.input, sink.level, l.debugMode);
      assert d.input == l.input[1..];
      AppendAssoc(sink.queue, head, rest);
    }
  }

  /** Accepted takes the first entry when the sink accepts it. */
  lemma AcceptedHead(msgs: seq<LogArg>, sinkLevel: bv64, debugMode: bool)
    requires msgs != []
    ensures Accepted(msgs, sinkLevel, debugMode)
      == (if Delivers(msgs[0].level, sinkLevel, debugMode) then [msgs[0]] else []) + Accepted(msgs[1..], sinkLevel, debugMode)
  {
  }

  lemma AppendAssoc<T>(a: seq<T>, b: seq<T>, c: seq<T>)
    ensures a + b + c == a + (b + c)
  {
  }

  /** A sink registered for All ends up with the whole input, in order. */
  lemma {:induction false} AllSinkGetsEverything(msgs: seq<LogArg>, debugMode: bool)
    ensures Accepted(msgs, LogLevelAll, debugMode) == msgs
  {
    if |msgs| > 0 {
      AllSinkGetsEverything(msgs[1..], debugMode);
      assert Delivers(msgs[0].level, LogLevelAll, debugMode);
      assert msgs == [msgs[0]] + msgs[1..];
    }
  }

  /** The acceptance rule stated as four independent conditions. */
  predicate Accepts(msgLevel: bv64, sinkLevel: bv64, debugMode: bool) {
    || (msgLevel & LogLevelDebug != 0 && sinkLevel & (LogLevelMessage | LogLevelAll) != 0 && debugMode)
    || sinkLevel & LogLevelAll != 0
    || (sinkLevel & LogLevelResults != 0 && msgLevel & (LogLevelPass | LogLevelFail) != 0)
    || msgLevel & sinkLevel != 0
  }

  /** A sink receives an entry exactly when one of the four conditions holds. */
  lemma DeliversIffAccepts(msgLevel: bv64, sinkLevel: bv64, debugMode: bool)
    ensures Delivers(msgLevel, sinkLevel, debugMode) <==> Accepts(msgLevel, sinkLevel, debugMode)
  {
  }

  /** The level constants are eight distinct single bits. */
  lemma LevelsAreDistinctBits()
    ensures var levels := [LogLevelDebug, LogLevelMessage, LogLevelWarning, LogLevelPass,
                           LogLevelFail, LogLevelResults, LogLevelError, LogLevelAll];
      && (forall i :: 0 <= i < |levels| ==> levels[i] != 0 && levels[i] & (levels[i] - 1) == 0)
      && (forall i, j :: 0 <= i < j < |levels| ==> levels[i] & levels[j] == 0)
  {
  }

  /** A sink registered for All receives every entry, whatever the debug mode;
      a Pass or Fail entry reaches a Results sink; a Pass entry does not reach
      a sink registered only for Debug while debug mode is off. */
  lemma FilterExamples(msgLevel: bv64, debugMode: bool)
    ensures Delivers(msgLevel, LogLevelAll, debugMode)
    ensures Delivers(LogLevelPass, LogLevelResults, debugMode) && Delivers(LogLevelFail, LogLevelResults, debugMode)
    ensures !Delivers(LogLevelPass, LogLevelDebug, false)
  {
  }

  /** Every queued entry carries one of the single-bit levels. */
  predicate SingleLevelled(input: seq<LogArg>) {
    forall i :: 0 <= i < |input| ==> input[i].level in LevelSet()
  }

  /** However many Log* calls are made, every queued entry has exactly one
      level bit, the one of the function that queued it. */
  lemma {:induction false} LoggedEntriesHaveOneLevel(l: Logger, kinds: seq<LogKind>, msgs: seq<string>)
    requires |kinds| == |msgs|
    requires SingleLevelled(l.input)
    ensures SingleLevelled(LogAll(l, kinds, msgs).input)
  {
    if |kinds| > 0 {
      var n := |kinds| - 1;
      LoggedEntriesHaveOneLevel(l, kinds[..n], msgs[..n]);
      var k := LogAll(l, kinds[..n], msgs[..n]);
      var k0 := Ready(k).0;
      var r := Log(k, kinds[n], msgs[n]);
      assert SingleLevelled(k0.input);
      if Ready(k).1 && (kinds[n] != LogDebug || k0.debugMode) {
        forall i | 0 <= i < |r.input|
          ensures r.input[i].level in LevelSet()
        {
          if i < |k0.input| {
            assert r.input[i] == r.input[..|k0.input|][i] == k0.input[i];
          }
        }
      }
    }
  }

  /** The single-bit levels the Log* functions use. */
  function LevelSet(): set<bv64>
  {
    {LogLevelDebug, LogLevelMessage, LogLevelWarning, LogLevelPass, LogLevelFail, LogLevelError}
  }

  /** A sequence of Log* calls in order. */
  function LogAll(l: Logger, kinds: seq<LogKind>, msgs: seq<string>): Logger
    requires |kinds| == |msgs|
  {
    if |kinds| == 0 then l
    else
      var n := |kinds| - 1;
      Log(LogAll(l, kinds[..n], msgs[..n]), kinds[n], msgs[n])
  }
}
