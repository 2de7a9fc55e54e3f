/** A whole recording: from the program's text and the VM's states to the finished trace. */
module Recorder {
  import opened Common
  import opened Ancestry
  import opened Text
  import Utf8
  import opened CallInference
  import opened Fidelity
  import opened SourceMaps
  import opened SourceScan
  import opened SourceText
  import opened ProcLocals
  import opened TraceModel
  import opened TraceTheorems
  import opened LogContents
  import opened Tracer

  lemma {:induction false} PlainLeaves(n: nat)
    ensures PlainAll(Leaves(n)) == Leaves(n)
  {
    if n > 0 {
      PlainLeaves(n - 1);
    }
  }

  lemma DrainCount(s: Shadow, stack: seq<string>)
    requires Mirrors(s, stack) && Consistent(s)
    ensures Drain(s) == Leaves(|stack| + if Synthesised(s) then 1 else 0)
  {
    hide Leaves;
    var n := |s.callers|;
    assert |stack| == n + 1;
    LeavesAdd(n, 1);
    LeavesAdd(n + 1, 1);
    assert Leaves(n) + [] == Leaves(n) && Leaves(n + 1) + [] == Leaves(n + 1);
  }

  /** The frames of the finished trace of a run from `e`, with the closing ones. */
  function WholeCallTree(e: Entry, moves: seq<Move>): seq<Mark> {
    PlainAll(Opened(e)) + PlainAll(MarksAfter(moves))
    + Leaves(|StackAfter(Known(e), moves)| + if HasFrame(e) then 1 else 0)
  }

  /**
   The finished trace of a readable run, however it begins, is the run's own
   call tree: its enters and leaves, then the frames still open closed, then
   the toplevel; also when the VM failed part way.
   */
  lemma {:induction false} WholeTraceIsTrue(env: Env, table: seq<Function>, results: seq<CycleResult>, e: Entry, moves: seq<Move>)
    requires NoHash(env.graph) && IsParentMap(env.graph.calls, env.graph.parents)
    requires IsReadableRun(env.graph, e, moves, Contexts(Consumed(results)))
    ensures var end := Trace(env, table, results);
            Frames(end.functions, end.log) == WholeCallTree(e, moves)
  {
    hide Run, Trace, Consumed, Contexts, Frames, OpenFrames, IsReadableRun, MarksAfter, StackAfter,
         PlainAll, Drain, Leaves, Opened, Known, NoHash, IsParentMap, RecordedStack;
    var stream := Consumed(results);
    LogIsTrueCallTrace(env, table, stream, e, moves);
    OpenFramesAreShadow(env, table, stream);
    TraceFrames(env, table, results);
    DrainCount(Run(env, table, stream).shadow, StackAfter(Known(e), moves));
    PlainLeaves(|StackAfter(Known(e), moves)| + if HasFrame(e) then 1 else 0);
  }

  /**
   A source whose call graph misses a call: in the run that makes it, `a` is
   recorded as ended before `b` starts.
   */
  lemma NestedCallIsMisread(parents: map<string, Option<string>>)
    ensures var g := Program(ScannedGraph(NESTED_SOURCE), parents);
            var main, a, b := RuntimeName(MAIN), RuntimeName("a"), RuntimeName("b");
            var moves := [Move.Call(a), Move.Call(b)];
            && AllPossible([main], moves) && !AllReadable(g, [main], moves)
            && MarksAfter(moves) == [Enter(a, true), Enter(b, true)]
            && ObserveAll(g, UNOBSERVED, [main] + Observed([main], moves)).1
               == [Enter(main, false), Enter(a, true), Leave(false), Enter(b, true)]
  {
    hide ScannedGraph, BareName, Observed, ObserveAll, MarksAfter, AllPossible, AllReadable;
    var main, a, b := RuntimeName(MAIN), RuntimeName("a"), RuntimeName("b");
    assert a[7] == 'a' && b[7] == 'b' && main[7] == '#' && MAIN[0] == '#' && "a"[0] == 'a' && "b"[0] == 'b';
    assert ':' !in MAIN && ':' !in "a" && ':' !in "b";
    BareOfRuntime(MAIN);
    BareOfRuntime("a");
    BareOfRuntime("b");
    NestedGraph();
    MissedCallIsMisread(Program(ScannedGraph(NESTED_SOURCE), parents), main, a, b);
  }

  /**
   Record one program. Everything the recorder relies on is established here
   from its text: the path's line count, the table of local counts, the call
   graph and its parent map.
   */
  method RecordProgram(path: string, code: string, results: seq<CycleResult>)
    returns (writer: TraceWriter, ghost env: Env, ghost table: seq<Function>)
    requires Mappable(Utf8.Encode(code))
    ensures env.source == Utf8.Encode(code) && IsLocalTable(Text.Lines(code), env.procLocals)
    ensures env.graph.calls == ScannedGraph(code)
    ensures IsParentMap(env.graph.calls, env.graph.parents) && NoHash(env.graph)
    ensures IsPreRegistration(env, table) && DistinctNames(writer.functions)
    ensures writer.log == Trace(env, table, results).log
    ensures writer.functions == Trace(env, table, results).functions
    ensures writer.paths == [(path, |Text.Split(code, '\n')|)]
    ensures OpenFrames(Frames(writer.functions, writer.log)) == Some([])
    ensures forall e, moves :: IsReadableRun(env.graph, e, moves, Contexts(Consumed(results))) ==>
              Frames(writer.functions, writer.log) == WholeCallTree(e, moves)
    ensures ReportsFailure(env, table, results, writer.log)
    ensures forall bodies :: AreBodies(bodies) && code == Rendered(bodies) ==>
              IsWrittenGraph(bodies, env.graph.calls) && env.procLocals == WrittenLocals(bodies)
  {
    hide ReportsFailure, AreBodies, Rendered, Names, Uses, IsWrittenGraph, WrittenLocals, Utf8.Encode;
    hide ScannedGraph, IsLocalTable, Text.Lines, Trace, Run, Consumed, Contexts, GraphOf, Bodies, CallSites, Forms, IsPreRegistration, IsReadableRun, NoHash,
         IsParentMap, SourceLineCount, Frames, OpenFrames, Callees, WholeCallTree, Mappable, LineStarts, DistinctNames, CallsKnown;
    writer := new TraceWriter();
    var paths := new LineCountedPaths();
    var utf8 := Utf8.Encode(code);
    paths.Register(writer, path, utf8);
    var sourceMap := FromSource(path, utf8);
    var procLocals := ParseProcLocals(code);
    var graph := ParseCallGraph(code);
    assert writer.paths[0] == (sourceMap.path, SourceLineCount(sourceMap.source));
    var tracer := new MidenTracer(writer, sourceMap, graph, procLocals);
    env := Env(utf8, Program(graph, tracer.parentMap), procLocals);
    NothingCallsMain(code, tracer.parentMap);
    table := tracer.ProcessVmStates(results);
    assert Consumed(results) + [] == Consumed(results);
    FunctionIdsStable(env, table, Consumed(results), []);
    TraceFrames(env, table, results);
    Utf8.LinesSurviveEncoding(code);
    FailureOnLog(env, table, results);
    forall bodies | AreBodies(bodies) && code == Rendered(bodies)
      ensures IsWrittenGraph(bodies, env.graph.calls) && env.procLocals == WrittenLocals(bodies)
    {
      GraphIsWritten(bodies);
      LocalsAreWritten(bodies, env.procLocals);
    }
    forall e, moves | IsReadableRun(env.graph, e, moves, Contexts(Consumed(results)))
      ensures Frames(writer.functions, writer.log) == WholeCallTree(e, moves)
    {
      WholeTraceIsTrue(env, table, results, e, moves);
    }
  }
}
