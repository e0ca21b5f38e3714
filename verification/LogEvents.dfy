/** Extracting a program's events from a transaction's log: a stack machine over
    log lines that agrees with the tree of program calls the log flattens. */
module LogEvents {
  import opened Collections

  /** A log line, as the three patterns classify it. */
  datatype Line = Invoke(program: string) | Data(payload: string) | Finish(program: string) | Noise

  /** The extractor mid-way: running, stopped at an unmatched finish, or crashed on data outside any program. */
  datatype Machine = Running(stack: seq<string>, output: seq<string>) | Stopped(output: seq<string>) | Crashed

  function Step(m: Machine, line: Line, program: string): Machine {
    if !m.Running? then m else
    match line
    case Invoke(p) => m.(stack := m.stack + [p])
    case Data(payload) =>
      if m.stack == [] then Crashed
      else if m.stack[|m.stack| - 1] == program then m.(output := m.output + [payload])
      else m
    case Finish(p) =>
      if m.stack == [] then Stopped(m.output)
      else if m.stack[|m.stack| - 1] == p then m.(stack := m.stack[..|m.stack| - 1])
      else m
    case Noise => m
  }

  function RunLines(m: Machine, lines: seq<Line>, program: string): Machine
    decreases lines
  {
    if lines == [] then m else RunLines(Step(m, lines[0], program), lines[1..], program)
  }

  datatype Extraction = Events(output: seq<string>) | Crash

  function Result(m: Machine): Extraction {
    match m
    case Running(_, output) => Events(output)
    case Stopped(output) => Events(output)
    case Crashed => Crash
  }

  /** `ExtractEvents`. */
  method ExtractEvents(logs: seq<Line>, program: string) returns (r: Extraction)
    ensures r == Result(RunLines(Running([], []), logs, program))
  {
    var stack: seq<string>, output: seq<string> := [], [];
    var i := 0;
    while i < |logs|
      invariant 0 <= i <= |logs|
      invariant RunLines(Running([], []), logs, program) == RunLines(Running(stack, output), logs[i..], program)
    {
      match logs[i] {
        case Invoke(p) =>
          stack := stack + [p];
        case Data(payload) =>
          if |stack| == 0 {
            Halted(Crashed, logs[i + 1..], program);
            return Crash;
          }
          if stack[|stack| - 1] == program {
            output := output + [payload];
          }
        case Finish(p) =>
          if |stack| == 0 {
            Halted(Stopped(output), logs[i + 1..], program);
            return Events(output);
          }
          if stack[|stack| - 1] == p {
            stack := stack[..|stack| - 1];
          }
        case Noise =>
      }
      i := i + 1;
    }
    return Events(output);
  }

  lemma {:induction false} Halted(m: Machine, lines: seq<Line>, program: string)
    requires !m.Running?
    ensures RunLines(m, lines, program) == m
  {
    if lines != [] {
      Halted(m, lines[1..], program);
    }
  }

  // ----- The tree of calls

  /** What a program's frame contains: its own logs, other lines, finish lines of some other
      program, and the frames of programs it calls. */
  datatype Item = Log(payload: string) | Other | Stray(program: string) | Frame(program: string, body: seq<Item>)

  function FlattenItem(item: Item): seq<Line>
    decreases item, 1
  {
    match item
    case Log(payload) => [Data(payload)]
    case Other => [Noise]
    case Stray(p) => [Finish(p)]
    case Frame(p, body) => [Invoke(p)] + Flatten(body) + [Finish(p)]
  }

  function Flatten(items: seq<Item>): seq<Line>
    decreases items, 0
  {
    if items == [] then [] else FlattenItem(items[0]) + Flatten(items[1..])
  }

  /** Logs and stray finish lines occur inside frames only, and a stray line is not the frame's own. */
  predicate ProperItem(item: Item, within: Option<string>)
    decreases item, 1
  {
    match item
    case Log(_) => within.Some?
    case Other => true
    case Stray(p) => within.Some? && p != within.value
    case Frame(p, body) => Proper(body, Some(p))
  }

  predicate Proper(items: seq<Item>, within: Option<string>)
    decreases items, 0
  {
    forall i :: 0 <= i < |items| ==> ProperItem(items[i], within)
  }

  /** The payloads logged directly in frames of `program`, in order; `within` is the enclosing frame's program. */
  function LoggedByItem(item: Item, within: Option<string>, program: string): seq<string>
    decreases item, 1
  {
    match item
    case Log(payload) => if within == Some(program) then [payload] else []
    case Other => []
    case Stray(_) => []
    case Frame(p, body) => LoggedBy(body, Some(p), program)
  }

  function LoggedBy(items: seq<Item>, within: Option<string>, program: string): seq<string>
    decreases items, 0
  {
    if items == [] then [] else LoggedByItem(items[0], within, program) + LoggedBy(items[1..], within, program)
  }

  lemma {:induction false} RunConcat(m: Machine, a: seq<Line>, b: seq<Line>, program: string)
    ensures RunLines(m, a + b, program) == RunLines(RunLines(m, a, program), b, program)
    decreases a
  {
    if a == [] {
      assert a + b == b;
    } else {
      RunConcat(Step(m, a[0], program), a[1..], b, program);
      assert (a + b)[1..] == a[1..] + b;
    }
  }

  lemma RunOne(m: Machine, line: Line, program: string)
    ensures RunLines(m, [line], program) == Step(m, line, program)
  {
    assert RunLines(Step(m, line, program), [line][1..], program) == Step(m, line, program);
  }

  function Innermost(stack: seq<string>): Option<string> {
    if stack == [] then None else Some(stack[|stack| - 1])
  }

  /** A whole frame leaves the stack as it found it and outputs what the tree says. */
  lemma {:induction false} RunFrame(p: string, body: seq<Item>, stack: seq<string>, output: seq<string>,
                                    program: string)
    requires Proper(body, Some(p))
    ensures RunLines(Running(stack, output), FlattenItem(Frame(p, body)), program)
            == Running(stack, output + LoggedBy(body, Some(p), program))
    decreases body, 2
  {
    var inner := output + LoggedBy(body, Some(p), program);
    RunOne(Running(stack, output), Invoke(p), program);
    RunConcat(Running(stack, output), [Invoke(p)], Flatten(body), program);
    RunItems(body, stack + [p], output, program);
    RunConcat(Running(stack, output), [Invoke(p)] + Flatten(body), [Finish(p)], program);
    RunOne(Running(stack + [p], inner), Finish(p), program);
    assert (stack + [p])[..|stack|] == stack;
  }

  lemma {:induction false} RunItems(items: seq<Item>, stack: seq<string>, output: seq<string>, program: string)
    requires Proper(items, Innermost(stack))
    ensures RunLines(Running(stack, output), Flatten(items), program)
            == Running(stack, output + LoggedBy(items, Innermost(stack), program))
    decreases items, 1
  {
    if items != [] {
      var (first, rest, within) := (items[0], items[1..], Innermost(stack));
      var mid := output + LoggedByItem(first, within, program);
      assert ProperItem(first, within);
      assert RunLines(Running(stack, output), FlattenItem(first), program) == Running(stack, mid) by {
        match first
        case Log(payload) => RunOne(Running(stack, output), Data(payload), program);
        case Other => RunOne(Running(stack, output), Noise, program);
        case Stray(p) => RunOne(Running(stack, output), Finish(p), program);
        case Frame(p, body) => RunFrame(p, body, stack, output, program);
      }
      RunConcat(Running(stack, output), FlattenItem(first), Flatten(rest), program);
      RunItems(rest, stack, mid, program);
      Assoc(output, LoggedByItem(first, within, program), LoggedBy(rest, within, program));
    }
  }

  /** For every forest of calls: exactly the payloads its frames logged, in order, and an empty stack. */
  lemma ExtractsExactly(items: seq<Item>, program: string)
    requires Proper(items, None)
    ensures RunLines(Running([], []), Flatten(items), program) == Running([], LoggedBy(items, None, program))
    ensures Result(RunLines(Running([], []), Flatten(items), program)) == Events(LoggedBy(items, None, program))
  {
    RunItems(items, [], [], program);
    assert [] + LoggedBy(items, None, program) == LoggedBy(items, None, program);
  }

  // ----- Every log

  /** A log so far: calls that are over, or frames still open around the latest of them. */
  datatype Trace = Closed(items: seq<Item>) | Open(outer: Trace, program: string, body: seq<Item>)

  function Lines(t: Trace): seq<Line> {
    match t
    case Closed(items) => Flatten(items)
    case Open(outer, p, body) => Lines(outer) + [Invoke(p)] + Flatten(body)
  }

  predicate ProperTrace(t: Trace) {
    match t
    case Closed(items) => Proper(items, None)
    case Open(outer, p, body) => ProperTrace(outer) && Proper(body, Some(p))
  }

  function OpenPrograms(t: Trace): seq<string> {
    match t
    case Closed(_) => []
    case Open(outer, p, _) => OpenPrograms(outer) + [p]
  }

  function LoggedIn(t: Trace, program: string): seq<string> {
    match t
    case Closed(items) => LoggedBy(items, None, program)
    case Open(outer, p, body) => LoggedIn(outer, program) + LoggedBy(body, Some(p), program)
  }

  /** The machine's stack and output are what the trace says. */
  lemma {:induction false} RunTrace(t: Trace, program: string)
    requires ProperTrace(t)
    ensures RunLines(Running([], []), Lines(t), program) == Running(OpenPrograms(t), LoggedIn(t, program))
  {
    match t
    case Closed(items) => ExtractsExactly(items, program);
    case Open(outer, p, body) =>
      RunTrace(outer, program);
      var (stack, output) := (OpenPrograms(outer), LoggedIn(outer, program));
      RunConcat(Running([], []), Lines(outer), [Invoke(p)], program);
      RunOne(Running(stack, output), Invoke(p), program);
      RunConcat(Running([], []), Lines(outer) + [Invoke(p)], Flatten(body), program);
      RunItems(body, stack + [p], output, program);
  }

  /** One more item in the innermost frame. */
  function Grown(t: Trace, item: Item): Trace {
    match t
    case Closed(items) => Closed(items + [item])
    case Open(outer, p, body) => Open(outer, p, body + [item])
  }

  function Within(t: Trace): Option<string> {
    match t
    case Closed(_) => None
    case Open(_, p, _) => Some(p)
  }

  lemma Assoc<T>(a: seq<T>, b: seq<T>, c: seq<T>)
    ensures (a + b) + c == a + (b + c)
  {}

  lemma {:induction false} FlattenSnoc(items: seq<Item>, item: Item)
    ensures Flatten(items + [item]) == Flatten(items) + FlattenItem(item)
  {
    var all := items + [item];
    if items == [] {
      assert all[1..] == [];
    } else {
      var (first, rest) := (items[0], items[1..]);
      FlattenSnoc(rest, item);
      assert all[1..] == rest + [item];
      Assoc(FlattenItem(first), Flatten(rest), FlattenItem(item));
    }
  }

  lemma GrownReads(t: Trace, item: Item)
    requires ProperTrace(t) && ProperItem(item, Within(t))
    ensures ProperTrace(Grown(t, item)) && Lines(Grown(t, item)) == Lines(t) + FlattenItem(item)
  {
    match t
    case Closed(items) => FlattenSnoc(items, item);
    case Open(_, _, body) => FlattenSnoc(body, item);
  }

  /** The finish line of the innermost frame turns it into an item of the one around it. */
  lemma ClosedReads(t: Trace)
    requires ProperTrace(t) && t.Open?
    ensures var t' := Grown(t.outer, Frame(t.program, t.body));
            ProperTrace(t') && Lines(t') == Lines(t) + [Finish(t.program)]
  {
    GrownReads(t.outer, Frame(t.program, t.body));
  }

  /** A log is read as a trace. */
  ghost predicate ReadsAs(lines: seq<Line>, t: Trace) {
    ProperTrace(t) && Lines(t) == lines
  }

  /** At line `k`, with no frame open after the calls in `items`, comes a log or a finish line. */
  ghost predicate BreaksAt(lines: seq<Line>, k: int, items: seq<Item>) {
    0 <= k < |lines| && Proper(items, None) && lines[..k] == Flatten(items) && (lines[k].Data? || lines[k].Finish?)
  }

  lemma NextLine(t: Trace, line: Line) returns (t': Trace)
    requires ProperTrace(t) && (t.Open? || line.Invoke? || line.Noise?)
    ensures ReadsAs(Lines(t) + [line], t')
  {
    match line
    case Invoke(p) =>
      t' := Open(t, p, []);
    case Data(payload) =>
      t' := Grown(t, Log(payload));
      GrownReads(t, Log(payload));
    case Noise =>
      t' := Grown(t, Other);
      GrownReads(t, Other);
    case Finish(p) =>
      if p == t.program {
        t' := Grown(t.outer, Frame(p, t.body));
        ClosedReads(t);
      } else {
        t' := Grown(t, Stray(p));
        GrownReads(t, Stray(p));
      }
  }

  /** Every log reads as a trace, or breaks. */
  lemma {:induction false} EveryLogReads(lines: seq<Line>)
    ensures (exists t :: ReadsAs(lines, t)) || (exists k, items :: BreaksAt(lines, k, items))
  {
    if lines == [] {
      assert ReadsAs(lines, Closed([]));
    } else {
      var n := |lines| - 1;
      EveryLogReads(lines[..n]);
      if exists t :: ReadsAs(lines[..n], t) {
        var t :| ReadsAs(lines[..n], t);
        if t.Open? || lines[n].Invoke? || lines[n].Noise? {
          var t' := NextLine(t, lines[n]);
          assert lines == lines[..n] + [lines[n]];
          assert ReadsAs(lines, t');
        } else {
          assert BreaksAt(lines, n, t.items);
        }
      } else {
        var k, items :| BreaksAt(lines[..n], k, items);
        assert lines[..n][..k] == lines[..k] && lines[..n][k] == lines[k];
        assert BreaksAt(lines, k, items);
      }
    }
  }

  lemma RunBreak(lines: seq<Line>, k: int, items: seq<Item>, program: string)
    requires BreaksAt(lines, k, items)
    ensures RunLines(Running([], []), lines, program)
            == if lines[k].Data? then Crashed else Stopped(LoggedBy(items, None, program))
  {
    var start := Running([], []);
    assert lines == Flatten(items) + ([lines[k]] + lines[k + 1..]);
    RunConcat(start, Flatten(items), [lines[k]] + lines[k + 1..], program);
    ExtractsExactly(items, program);
    var before := Running([], LoggedBy(items, None, program));
    RunConcat(before, [lines[k]], lines[k + 1..], program);
    RunOne(before, lines[k], program);
    Halted(Step(before, lines[k], program), lines[k + 1..], program);
  }

  /** Over every log, well nested or not: the extractor crashes exactly when a log line comes after
      complete calls with no frame open. */
  lemma CrashesIffLoggedOutside(lines: seq<Line>, program: string)
    ensures RunLines(Running([], []), lines, program) == Crashed
            <==> exists k, items :: BreaksAt(lines, k, items) && lines[k].Data?
  {
    if exists k, items :: BreaksAt(lines, k, items) {
      var k, items :| BreaksAt(lines, k, items);
      RunBreak(lines, k, items, program);
      forall k', items' | BreaksAt(lines, k', items')
        ensures lines[k'].Data? <==> RunLines(Running([], []), lines, program) == Crashed
      {
        RunBreak(lines, k', items', program);
      }
    } else {
      EveryLogReads(lines);
      var t :| ReadsAs(lines, t);
      RunTrace(t, program);
    }
  }

  /** Over every log, what the extractor returns: the payloads logged by the program in all of the
      log, or in the calls before a finish line that no frame is open for. */
  lemma ReturnsExactly(lines: seq<Line>, program: string, output: seq<string>)
    ensures Result(RunLines(Running([], []), lines, program)) == Events(output)
            <==> || (exists t :: ReadsAs(lines, t) && output == LoggedIn(t, program))
                 || (exists k, items ::
                       BreaksAt(lines, k, items) && lines[k].Finish? && output == LoggedBy(items, None, program))
  {
    EveryLogReads(lines);
    forall t | ReadsAs(lines, t)
      ensures RunLines(Running([], []), lines, program) == Running(OpenPrograms(t), LoggedIn(t, program))
    {
      RunTrace(t, program);
    }
    forall k, items | BreaksAt(lines, k, items)
      ensures RunLines(Running([], []), lines, program)
              == if lines[k].Data? then Crashed else Stopped(LoggedBy(items, None, program))
    {
      RunBreak(lines, k, items, program);
    }
  }

  /** One log line alone crashes it; after a finish line, which ends the search, it does not. */
  lemma CrashAndStop(payload: string, p: string, program: string)
    ensures RunLines(Running([], []), [Data(payload)], program) == Crashed
    ensures RunLines(Running([], []), [Finish(p), Data(payload)], program) == Stopped([])
  {
    assert BreaksAt([Data(payload)], 0, []);
    RunBreak([Data(payload)], 0, [], program);
    assert BreaksAt([Finish(p), Data(payload)], 0, []);
    RunBreak([Finish(p), Data(payload)], 0, [], program);
  }
}
