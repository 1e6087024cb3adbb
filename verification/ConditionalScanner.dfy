/** The preprocessor conditional scanner: a stack machine over the lines of a source file.

    A file is the list of its lines, each already classified by the directive pattern; the
    set of active lines is the set of line numbers at which some cursor of the translation
    unit is located. */
module ConditionalScanner {

  import opened Basics

  datatype Word = If | Ifdef | Ifndef | Elif | Else

  type Opener = w: Word | w.If? || w.Ifdef? || w.Ifndef? witness If

  type Alternation = w: Word | w.Elif? || w.Else? witness Elif

  datatype Line =
    | Text
    | Open(opener: Opener, condition: string)
    | Alternative(alternation: Alternation, condition: string)
    | Endif(trailing: string)

  /** One reported conditional; `result` and `end` stay None while the branch is open. */
  datatype Entry = Entry(word: Word, condition: string, result: Option<bool>, start: nat, end: Option<nat>)

  /** The scanner's working state: open branches (innermost last) and finished records. */
  datatype State = State(stack: seq<Entry>, records: seq<Entry>)

  const INITIAL := State([], [])

  predicate ActiveWithin(active: set<nat>, first: nat, last: int) {
    exists line :: line in active && first <= line <= last
  }

  // ------------------------------------------------------------------
  // The scanner as a function of the state
  // ------------------------------------------------------------------

  function Opened(word: Word, condition: string, line: nat): Entry {
    Entry(word, condition, None, line, None)
  }

  function Step(st: State, line: Line, lineno: nat, active: set<nat>): State
    requires 0 < lineno
  {
    match line
    case Text => st
    case Open(word, condition) => st.(stack := st.stack + [Opened(word, condition, lineno)])
    case Alternative(word, condition) =>
      if st.stack == [] then
        st
      else
        var below, top := st.stack[..|st.stack| - 1], st.stack[|st.stack| - 1];
        var records :=
          if top.result == None then
            var result := ActiveWithin(active, top.start + 1, lineno - 1);
            st.records + [top.(result := Some(result), end := Some(lineno - 1))]
          else
            st.records;
        State(below + [Opened(word, condition, lineno)], records)
    case Endif(_) =>
      if st.stack == [] then
        st
      else
        var below, top := st.stack[..|st.stack| - 1], st.stack[|st.stack| - 1];
        var result := if top.result == None then Some(ActiveWithin(active, top.start + 1, lineno)) else top.result;
        State(below, st.records + [top.(result := result, end := Some(lineno))])
  }

  /** The state after scanning `lines`, the first of which has number `lineno`. */
  function Run(lines: seq<Line>, lineno: nat, st: State, active: set<nat>): State
    requires 0 < lineno
  {
    if lines == [] then st else Run(lines[1..], lineno + 1, Step(st, lines[0], lineno, active), active)
  }

  /** What is reported for a branch still open at the end of a file of `total` lines. */
  function Abandon(entry: Entry, total: nat): Entry {
    entry.(result := if entry.result == None then Some(false) else entry.result,
           end := if entry.end == None then Some(total) else entry.end)
  }

  function AbandonAll(stack: seq<Entry>, total: nat): seq<Entry> {
    seq(|stack|, i requires 0 <= i < |stack| => Abandon(stack[i], total))
  }

  function Scan(lines: seq<Line>, active: set<nat>): seq<Entry> {
    var st := Run(lines, 1, INITIAL, active);
    st.records + AbandonAll(st.stack, |lines|)
  }

  // ------------------------------------------------------------------
  // The scanner as the program runs it
  // ------------------------------------------------------------------

  method ScanConditionals(lines: seq<Line>, active: set<nat>) returns (conditionals: seq<Entry>)
    ensures conditionals == Scan(lines, active)
  {
    var stack: seq<Entry> := [];
    conditionals := [];
    var i := 0;
    while i < |lines|
      invariant 0 <= i <= |lines|
      invariant Run(lines[i..], i + 1, State(stack, conditionals), active) == Run(lines, 1, INITIAL, active)
    {
      RunStep(lines, i, State(stack, conditionals), active);
      stack, conditionals := ScanLine(lines[i], i + 1, stack, conditionals, active);
      i := i + 1;
    }
    conditionals := ReportOpenBranches(stack, conditionals, |lines|);
  }

  /** One turn of the loop over the lines. */
  method ScanLine(line: Line, lineno: nat, open: seq<Entry>, done: seq<Entry>, active: set<nat>)
    returns (stack: seq<Entry>, conditionals: seq<Entry>)
    requires 0 < lineno
    ensures State(stack, conditionals) == Step(State(open, done), line, lineno, active)
  {
    stack, conditionals := open, done;
    match line {
      case Text =>
      case Open(word, condition) =>
        stack := stack + [Opened(word, condition, lineno)];
      case Alternative(word, condition) =>
        if stack != [] {
          var prev := stack[|stack| - 1];
          if prev.result == None {
            var branchActive := ActiveWithin(active, prev.start + 1, lineno - 1);
            conditionals := conditionals + [prev.(result := Some(branchActive), end := Some(lineno - 1))];
          }
          stack := stack[|stack| - 1 := Opened(word, condition, lineno)];
          assert stack == open[..|open| - 1] + [Opened(word, condition, lineno)];
        }
      case Endif(_) =>
        if stack != [] {
          var top := stack[|stack| - 1];
          stack := stack[..|stack| - 1];
          if top.result == None {
            top := top.(result := Some(ActiveWithin(active, top.start + 1, lineno)));
          }
          conditionals := conditionals + [top.(end := Some(lineno))];
        }
    }
  }

  /** The loop over the branches still open at the end of the file. */
  method ReportOpenBranches(stack: seq<Entry>, done: seq<Entry>, total: nat) returns (conditionals: seq<Entry>)
    ensures conditionals == done + AbandonAll(stack, total)
  {
    conditionals := done;
    for i := 0 to |stack|
      invariant conditionals == done + AbandonAll(stack[..i], total)
    {
      var entry := stack[i];
      if entry.result == None {
        entry := entry.(result := Some(false));
      }
      if entry.end == None {
        entry := entry.(end := Some(total));
      }
      assert AbandonAll(stack[..i + 1], total) == AbandonAll(stack[..i], total) + [entry];
      conditionals := conditionals + [entry];
    }
    assert stack[..|stack|] == stack;
  }

  lemma RunStep(lines: seq<Line>, i: nat, st: State, active: set<nat>)
    requires i < |lines|
    ensures Run(lines[i..], i + 1, st, active) == Run(lines[i + 1..], i + 2, Step(st, lines[i], i + 1, active), active)
  {
  }

  lemma RunCons(line: Line, rest: seq<Line>, lineno: nat, st: State, active: set<nat>)
    requires 0 < lineno
    ensures Run([line] + rest, lineno, st, active) == Run(rest, lineno + 1, Step(st, line, lineno, active), active)
  {
  }

  lemma {:induction false} RunConcat(a: seq<Line>, b: seq<Line>, lineno: nat, st: State, active: set<nat>)
    requires 0 < lineno
    ensures Run(a + b, lineno, st, active) == Run(b, lineno + |a|, Run(a, lineno, st, active), active)
    decreases |a|
  {
    if a == [] {
      assert a + b == b;
    } else {
      assert (a + b)[1..] == a[1..] + b;
      RunConcat(a[1..], b, lineno + 1, Step(st, a[0], lineno, active), active);
    }
  }

  // ------------------------------------------------------------------
  // Well-nested files: the grammar of section 15.2 [cpp.cond] of ISO/IEC 14882:2020
  // ------------------------------------------------------------------

  /** A list of text lines and conditional groups. */
  datatype Forest =
    | Empty
    | TextLine(rest: Forest)
    | Group(word: Opener, condition: string, body: Forest, tail: Tail, after: Forest)

  /** What closes a branch: its `#endif`, or the next branch of the same group. */
  datatype Tail =
    | End(trailing: string)
    | Next(word: Alternation, condition: string, body: Forest, tail: Tail)

  function Render(f: Forest): seq<Line> {
    match f
    case Empty => []
    case TextLine(rest) => [Text] + Render(rest)
    case Group(word, condition, body, tail, after) =>
      [Open(word, condition)] + Render(body) + RenderTail(tail) + Render(after)
  }

  lemma {:induction false} RenderGroup(word: Opener, condition: string, body: Forest, tail: Tail, after: Forest)
    ensures Render(Group(word, condition, body, tail, after))
         == [Open(word, condition)] + (Render(body) + RenderTail(tail) + Render(after))
  {
  }

  function RenderTail(t: Tail): (lines: seq<Line>)
    ensures lines != []
  {
    match t
    case End(trailing) => [Endif(trailing)]
    case Next(word, condition, body, tail) => [Alternative(word, condition)] + Render(body) + RenderTail(tail)
  }

  lemma RenderNext(word: Alternation, condition: string, body: Forest, tail: Tail)
    ensures RenderTail(Next(word, condition, body, tail))
         == [Alternative(word, condition)] + (Render(body) + RenderTail(tail))
  {
    Associate([Alternative(word, condition)], Render(body), RenderTail(tail));
  }

  /** The record a branch from line `start` to line `end` deserves. */
  function BranchRecord(word: Word, condition: string, start: nat, end: nat, active: set<nat>): Entry {
    Entry(word, condition, Some(ActiveWithin(active, start + 1, end)), start, Some(end))
  }

  /** The records of a forest whose first line has number `lineno`, in closing order. */
  function Records(f: Forest, lineno: nat, active: set<nat>): seq<Entry>
    requires 0 < lineno
  {
    match f
    case Empty => []
    case TextLine(rest) => Records(rest, lineno + 1, active)
    case Group(word, condition, body, tail, after) =>
      var closing := lineno + 1 + |Render(body)|;
      Records(body, lineno + 1, active)
      + TailRecords(word, condition, lineno, tail, closing, active)
      + Records(after, closing + |RenderTail(tail)|, active)
  }

  /** The records of the branch pushed at `start` and closed by `tail` at line `lineno`, and of its successors. */
  function TailRecords(word: Word, condition: string, start: nat, tail: Tail, lineno: nat, active: set<nat>): seq<Entry>
    requires 0 < lineno
    decreases tail
  {
    match tail
    case End(_) => [BranchRecord(word, condition, start, lineno, active)]
    case Next(word', condition', body, tail') =>
      [BranchRecord(word, condition, start, lineno - 1, active)]
      + Records(body, lineno + 1, active)
      + TailRecords(word', condition', lineno, tail', lineno + 1 + |Render(body)|, active)
  }

  lemma {:induction false} RunForest(f: Forest, lineno: nat, st: State, active: set<nat>)
    requires 0 < lineno
    ensures Run(Render(f), lineno, st, active) == State(st.stack, st.records + Records(f, lineno, active))
    decreases f
  {
    hide Run, Render, RenderTail, TailRecords;
    match f
    case Empty => RunText(lineno, st, active);
    case TextLine(rest) =>
      RunText(lineno, st, active);
      assert Render(f) == [Text] + Render(rest) by { RenderText(rest); }
      RunCons(Text, Render(rest), lineno, st, active);
      RunForest(rest, lineno + 1, st, active);
    case Group(word, condition, body, tail, after) =>
      var closing := lineno + 1 + |Render(body)|;
      var pushed := State(st.stack + [Opened(word, condition, lineno)], st.records);
      var bodyRecords := Records(body, lineno + 1, active);
      var inner := State(pushed.stack, st.records + bodyRecords);
      var tailRecords := TailRecords(word, condition, lineno, tail, closing, active);
      var left := State(st.stack, inner.records + tailRecords);
      assert Run(RenderTail(tail), closing, inner, active) == left by {
        SwapTop(st.stack, Opened(word, condition, lineno));
        RunTail(word, condition, lineno, tail, closing, inner, active);
      }
      RunForest(body, lineno + 1, pushed, active);
      RunForest(after, closing + |RenderTail(tail)|, left, active);
      RunGroup(word, condition, body, tail, after, lineno, st, active);
      AssociateFour(st.records, bodyRecords, tailRecords, Records(after, closing + |RenderTail(tail)|, active));
  }

  lemma RunText(lineno: nat, st: State, active: set<nat>)
    requires 0 < lineno
    ensures Render(Empty) == [] && Run([], lineno, st, active) == st
    ensures Step(st, Text, lineno, active) == st
  {
  }

  lemma RenderText(rest: Forest)
    ensures Render(TextLine(rest)) == [Text] + Render(rest)
  {
  }

  lemma AssociateFour(a: seq<Entry>, b: seq<Entry>, c: seq<Entry>, d: seq<Entry>)
    ensures a + b + c + d == a + (b + c + d)
  {
  }

  lemma {:induction false} RunGroup(word: Opener, condition: string, body: Forest, tail: Tail, after: Forest,
                                    lineno: nat, st: State, active: set<nat>)
    requires 0 < lineno
    ensures
      var pushed := State(st.stack + [Opened(word, condition, lineno)], st.records);
      var inner := Run(Render(body), lineno + 1, pushed, active);
      var closing := lineno + 1 + |Render(body)|;
      Run(Render(Group(word, condition, body, tail, after)), lineno, st, active)
      == Run(Render(after), closing + |RenderTail(tail)|, Run(RenderTail(tail), closing, inner, active), active)
  {
    hide Run, Render, RenderTail;
    var pushed := State(st.stack + [Opened(word, condition, lineno)], st.records);
    var others := Render(body) + (RenderTail(tail) + Render(after));
    RenderGroup(word, condition, body, tail, after);
    Associate(Render(body), RenderTail(tail), Render(after));
    RunCons(Open(word, condition), others, lineno, st, active);
    RunThree(Render(body), RenderTail(tail), Render(after), lineno + 1, pushed, active);
  }

  lemma {:induction false} RunThree(a: seq<Line>, b: seq<Line>, c: seq<Line>, lineno: nat, st: State, active: set<nat>)
    requires 0 < lineno
    ensures
      var first := Run(a, lineno, st, active);
      Run(a + (b + c), lineno, st, active)
      == Run(c, lineno + |a| + |b|, Run(b, lineno + |a|, first, active), active)
  {
    RunConcat(a, b + c, lineno, st, active);
    RunConcat(b, c, lineno + |a|, Run(a, lineno, st, active), active);
  }

  lemma {:induction false} RunTail(word: Word, condition: string, start: nat, tail: Tail, lineno: nat, st: State,
                                   active: set<nat>)
    requires 0 < lineno
    requires st.stack != [] && st.stack[|st.stack| - 1] == Opened(word, condition, start)
    ensures Run(RenderTail(tail), lineno, st, active)
         == State(st.stack[..|st.stack| - 1], st.records + TailRecords(word, condition, start, tail, lineno, active))
    decreases tail
  {
    hide Run, Render, RenderTail, Records, ActiveWithin;
    var below := st.stack[..|st.stack| - 1];
    match tail
    case End(trailing) => RunEnd(trailing, lineno, st, active);
    case Next(word', condition', body, tail') =>
      var closed := st.records + [BranchRecord(word, condition, start, lineno - 1, active)];
      var next := State(below + [Opened(word', condition', lineno)], closed);
      var inner := State(next.stack, closed + Records(body, lineno + 1, active));
      RunNext(word', condition', body, tail', lineno, st, active);
      assert Step(st, Alternative(word', condition'), lineno, active) == next;
      RunForest(body, lineno + 1, next, active);
      SwapTop(below, Opened(word', condition', lineno));
      RunTail(word', condition', lineno, tail', lineno + 1 + |Render(body)|, inner, active);
      AssociateFour(st.records, [BranchRecord(word, condition, start, lineno - 1, active)],
                    Records(body, lineno + 1, active),
                    TailRecords(word', condition', lineno, tail', lineno + 1 + |Render(body)|, active));
  }

  lemma RunEnd(trailing: string, lineno: nat, st: State, active: set<nat>)
    requires 0 < lineno
    ensures Run(RenderTail(End(trailing)), lineno, st, active) == Step(st, Endif(trailing), lineno, active)
  {
    RunCons(Endif(trailing), [], lineno, st, active);
  }

  lemma SwapTop(below: seq<Entry>, top: Entry)
    ensures
      var swapped := below + [top];
      |swapped| > 0 && swapped[|swapped| - 1] == top && swapped[..|swapped| - 1] == below
  {
  }

  lemma {:induction false} RunNext(word: Alternation, condition: string, body: Forest, tail: Tail, lineno: nat,
                                   st: State, active: set<nat>)
    requires 0 < lineno
    ensures
      var inner := Run(Render(body), lineno + 1, Step(st, Alternative(word, condition), lineno, active), active);
      Run(RenderTail(Next(word, condition, body, tail)), lineno, st, active)
      == Run(RenderTail(tail), lineno + 1 + |Render(body)|, inner, active)
  {
    hide Run, Step, Render, RenderTail;
    var others := Render(body) + RenderTail(tail);
    RenderNext(word, condition, body, tail);
    RunCons(Alternative(word, condition), others, lineno, st, active);
    var next := Step(st, Alternative(word, condition), lineno, active);
    RunConcat(Render(body), RenderTail(tail), lineno + 1, next, active);
  }

  /** Scanning any well-nested file reports exactly the records of its branches, in closing order. */
  lemma {:induction false} ScanOfForest(f: Forest, active: set<nat>)
    ensures Scan(Render(f), active) == Records(f, 1, active)
  {
    RunForest(f, 1, INITIAL, active);
  }

  // ------------------------------------------------------------------
  // Which files are well-nested
  // ------------------------------------------------------------------

  /** Inside `depth` open groups, the lines close every group they open and all `depth` others. */
  predicate Balanced(lines: seq<Line>, depth: nat) {
    if lines == [] then
      depth == 0
    else
      match lines[0]
      case Text => Balanced(lines[1..], depth)
      case Open(_, _) => Balanced(lines[1..], depth + 1)
      case Alternative(_, _) => 0 < depth && Balanced(lines[1..], depth)
      case Endif(_) => 0 < depth && Balanced(lines[1..], depth - 1)
  }

  lemma BalancedCons(line: Line, rest: seq<Line>, depth: nat)
    ensures Balanced([line] + rest, depth) ==
      match line
      case Text => Balanced(rest, depth)
      case Open(_, _) => Balanced(rest, depth + 1)
      case Alternative(_, _) => 0 < depth && Balanced(rest, depth)
      case Endif(_) => 0 < depth && Balanced(rest, depth - 1)
  {
    assert ([line] + rest)[1..] == rest;
  }

  lemma {:induction false} RenderedIsBalanced(f: Forest, rest: seq<Line>, depth: nat)
    ensures Balanced(Render(f) + rest, depth) == Balanced(rest, depth)
    decreases f
  {
    hide Balanced, RenderTail;
    match f
    case Empty =>
      assert Render(f) + rest == rest;
    case TextLine(f') =>
      Associate([Text], Render(f'), rest);
      BalancedCons(Text, Render(f') + rest, depth);
      RenderedIsBalanced(f', rest, depth);
    case Group(word, condition, body, tail, after) =>
      var inner := RenderTail(tail) + (Render(after) + rest);
      RenderGroup(word, condition, body, tail, after);
      assert Render(f) + rest == [Open(word, condition)] + (Render(body) + inner);
      BalancedCons(Open(word, condition), Render(body) + inner, depth);
      RenderedIsBalanced(body, inner, depth + 1);
      RenderedTailIsBalanced(tail, Render(after) + rest, depth + 1);
      RenderedIsBalanced(after, rest, depth);
  }

  lemma {:induction false} RenderedTailIsBalanced(tail: Tail, rest: seq<Line>, depth: nat)
    requires 0 < depth
    ensures Balanced(RenderTail(tail) + rest, depth) == Balanced(rest, depth - 1)
    decreases tail
  {
    hide Balanced, Render;
    match tail
    case End(trailing) =>
      BalancedCons(Endif(trailing), rest, depth);
    case Next(word, condition, body, tail') =>
      var inner := Render(body) + (RenderTail(tail') + rest);
      RenderNext(word, condition, body, tail');
      assert RenderTail(tail) + rest == [Alternative(word, condition)] + inner;
      BalancedCons(Alternative(word, condition), inner, depth);
      RenderedIsBalanced(body, RenderTail(tail') + rest, depth);
      RenderedTailIsBalanced(tail', rest, depth);
  }

  lemma {:induction false} ParseForest(lines: seq<Line>) returns (f: Forest)
    requires Balanced(lines, 0)
    ensures Render(f) == lines
    decreases |lines|
  {
    if lines == [] {
      f := Empty;
    } else {
      var line, others := lines[0], lines[1..];
      assert lines == [line] + others;
      match line
      case Text =>
        var rest := ParseForest(others);
        f := TextLine(rest);
      case Open(word, condition) =>
        var body, tail, rest := ParseBranch(others, 1);
        var after := ParseForest(rest);
        f := Group(word, condition, body, tail, after);
        RenderGroup(word, condition, body, tail, after);
        assert Render(body) + RenderTail(tail) + Render(after) == others;
    }
  }

  lemma {:induction false} ParsedGroup(word: Opener, condition: string, inner: Forest, innerTail: Tail, outer: Forest,
                                       tail: Tail,
                    others: seq<Line>, after: seq<Line>, rest: seq<Line>)
    requires others == Render(inner) + RenderTail(innerTail) + after
    requires after == Render(outer) + RenderTail(tail) + rest
    ensures [Open(word, condition)] + others
         == Render(Group(word, condition, inner, innerTail, outer)) + RenderTail(tail) + rest
  {
  }

  lemma ParsedNext(word: Alternation, condition: string, next: Forest, tail: Tail, others: seq<Line>, rest: seq<Line>)
    requires others == Render(next) + RenderTail(tail) + rest
    ensures [Alternative(word, condition)] + others
         == Render(Empty) + RenderTail(Next(word, condition, next, tail)) + rest
  {
  }

  lemma ParsedText(body: Forest, tail: Tail, others: seq<Line>, rest: seq<Line>)
    requires others == Render(body) + RenderTail(tail) + rest
    ensures [Text] + others == Render(TextLine(body)) + RenderTail(tail) + rest
  {
  }

  /** The lines up to the end of the innermost of `depth` open groups are a branch and its tail. */
  lemma {:induction false} ParseBranch(lines: seq<Line>, depth: nat) returns (body: Forest, tail: Tail, rest: seq<Line>)
    requires 0 < depth && Balanced(lines, depth)
    ensures lines == Render(body) + RenderTail(tail) + rest
    ensures Balanced(rest, depth - 1)
    decreases |lines|
  {
    var line, others := lines[0], lines[1..];
    assert lines == [line] + others;
    match line
    case Text =>
      var inner;
      inner, tail, rest := ParseBranch(others, depth);
      body := TextLine(inner);
      ParsedText(inner, tail, others, rest);
    case Open(word, condition) =>
      var inner, innerTail, after := ParseBranch(others, depth + 1);
      var outer;
      outer, tail, rest := ParseBranch(after, depth);
      body := Group(word, condition, inner, innerTail, outer);
      ParsedGroup(word, condition, inner, innerTail, outer, tail, others, after, rest);
    case Alternative(word, condition) =>
      var next, nextTail;
      next, nextTail, rest := ParseBranch(others, depth);
      body, tail := Empty, Next(word, condition, next, nextTail);
      ParsedNext(word, condition, next, nextTail, others, rest);
    case Endif(trailing) =>
      body, tail, rest := Empty, End(trailing), others;
      assert RenderTail(tail) == [line];
  }

  /** The balanced files are exactly the rendered ones. */
  lemma BalancedIsRendered(lines: seq<Line>)
    ensures Balanced(lines, 0) <==> exists f :: Render(f) == lines
  {
    if Balanced(lines, 0) {
      var f := ParseForest(lines);
    }
    forall f | Render(f) == lines ensures Balanced(lines, 0) {
      RenderedIsBalanced(f, [], 0);
      assert Render(f) + [] == lines;
    }
  }

  // ------------------------------------------------------------------
  // Arbitrary files, balanced or not
  // ------------------------------------------------------------------

  /** Openers, plus `#elif`/`#else` lines met inside an open group, when `depth` groups are open. */
  function BranchCount(lines: seq<Line>, depth: nat): nat {
    if lines == [] then
      0
    else
      match lines[0]
      case Text => BranchCount(lines[1..], depth)
      case Open(_, _) => 1 + BranchCount(lines[1..], depth + 1)
      case Alternative(_, _) => (if depth == 0 then 0 else 1) + BranchCount(lines[1..], depth)
      case Endif(_) => BranchCount(lines[1..], if depth == 0 then 0 else depth - 1)
  }

  /** The first lines of the branches left open by `lines`, those in `pending` being open before. */
  function OpenStarts(lines: seq<Line>, lineno: nat, pending: seq<nat>): seq<nat> {
    if lines == [] then pending else OpenStarts(lines[1..], lineno + 1, StartsAfter(lines[0], lineno, pending))
  }

  function StartsAfter(line: Line, lineno: nat, pending: seq<nat>): seq<nat> {
    match line
    case Text => pending
    case Open(_, _) => pending + [lineno]
    case Alternative(_, _) => if pending == [] then [] else pending[..|pending| - 1] + [lineno]
    case Endif(_) => if pending == [] then [] else pending[..|pending| - 1]
  }

  function Last(entry: Entry): nat {
    if entry.end.Some? then entry.end.value else 0
  }

  /** `a` is reported before `b`: it ends no later, and lies either before `b` or inside it. */
  predicate BeforeOrInside(a: Entry, b: Entry) {
    Last(a) <= Last(b) && (Last(a) < b.start || b.start <= a.start)
  }

  /** A branch still open, first seen before line `lineno`. */
  predicate Waiting(entry: Entry, lineno: nat) {
    entry.result == None && entry.end == None && entry.start < lineno
  }

  /** A finished record of an interval that ends before line `lineno`. */
  predicate Finished(entry: Entry, lineno: nat) {
    entry.result.Some? && entry.end.Some? && entry.start <= entry.end.value < lineno
  }

  predicate Truthful(entry: Entry, active: set<nat>) {
    entry.result == Some(ActiveWithin(active, entry.start + 1, Last(entry)))
  }

  ghost predicate FinishedRecords(records: seq<Entry>, lineno: nat) {
    && (forall i :: 0 <= i < |records| ==> Finished(records[i], lineno))
    && (forall i, j :: 0 <= i < j < |records| ==> BeforeOrInside(records[i], records[j]))
  }

  ghost predicate WaitingBranches(stack: seq<Entry>, lineno: nat) {
    && (forall i :: 0 <= i < |stack| ==> Waiting(stack[i], lineno))
    && (forall i, j :: 0 <= i < j < |stack| ==> stack[i].start < stack[j].start)
  }

  /** A finished record lies before an open branch or inside it. */
  predicate Apart(record: Entry, branch: Entry) {
    Last(record) < branch.start || branch.start < record.start
  }

  ghost predicate AllTruthful(records: seq<Entry>, active: set<nat>) {
    forall i :: 0 <= i < |records| ==> Truthful(records[i], active)
  }

  /** What holds of the scanner's state before it reads line `lineno`. */
  ghost predicate Inv(st: State, lineno: nat, active: set<nat>) {
    && FinishedRecords(st.records, lineno)
    && AllTruthful(st.records, active)
    && WaitingBranches(st.stack, lineno)
    && (forall i, j :: 0 <= i < |st.records| && 0 <= j < |st.stack| ==> Apart(st.records[i], st.stack[j]))
  }

  /** Closing the innermost branch at line `end`. */
  lemma CloseKeepsInv(st: State, end: nat, lineno: nat, active: set<nat>)
    requires 0 < lineno && st.stack != [] && Inv(st, lineno, active)
    requires lineno - 1 <= end <= lineno
    ensures
      var below, top := st.stack[..|st.stack| - 1], st.stack[|st.stack| - 1];
      var closed := top.(result := Some(ActiveWithin(active, top.start + 1, end)), end := Some(end));
      && top.result == None && Inv(State(below, st.records + [closed]), lineno + 1, active)
      && (end < lineno ==> BelowLine(State(below, st.records + [closed]), lineno))
  {
  }

  lemma PushKeepsInv(st: State, word: Word, condition: string, lineno: nat, active: set<nat>)
    requires Inv(st, lineno + 1, active) && BelowLine(st, lineno)
    ensures Inv(st.(stack := st.stack + [Opened(word, condition, lineno)]), lineno + 1, active)
  {
  }

  ghost predicate BelowLine(st: State, lineno: nat) {
    && (forall i :: 0 <= i < |st.records| ==> Last(st.records[i]) < lineno)
    && (forall i :: 0 <= i < |st.stack| ==> st.stack[i].start < lineno)
  }

  lemma NextLine(st: State, lineno: nat, active: set<nat>)
    requires Inv(st, lineno, active)
    ensures Inv(st, lineno + 1, active) && BelowLine(st, lineno)
  {
  }

  lemma StepKeepsInv(st: State, line: Line, lineno: nat, active: set<nat>)
    requires 0 < lineno && Inv(st, lineno, active)
    ensures Inv(Step(st, line, lineno, active), lineno + 1, active)
  {
    hide Inv, BelowLine, ActiveWithin;
    NextLine(st, lineno, active);
    match line
    case Text =>
    case Open(word, condition) => PushKeepsInv(st, word, condition, lineno, active);
    case Alternative(word, condition) =>
      if st.stack != [] {
        CloseKeepsInv(st, lineno - 1, lineno, active);
        var below, top := st.stack[..|st.stack| - 1], st.stack[|st.stack| - 1];
        var closed := top.(result := Some(ActiveWithin(active, top.start + 1, lineno - 1)), end := Some(lineno - 1));
        PushKeepsInv(State(below, st.records + [closed]), word, condition, lineno, active);
      }
    case Endif(_) =>
      if st.stack != [] {
        CloseKeepsInv(st, lineno, lineno, active);
      }
  }

  lemma {:induction false} RunKeepsInv(lines: seq<Line>, lineno: nat, st: State, active: set<nat>)
    requires 0 < lineno && Inv(st, lineno, active)
    ensures Inv(Run(lines, lineno, st, active), lineno + |lines|, active)
  {
    if lines != [] {
      StepKeepsInv(st, lines[0], lineno, active);
      RunKeepsInv(lines[1..], lineno + 1, Step(st, lines[0], lineno, active), active);
    }
  }

  /** Branches are still open, or have been reported. */
  lemma {:induction false} RunCounts(lines: seq<Line>, lineno: nat, st: State, active: set<nat>)
    requires 0 < lineno && Inv(st, lineno, active)
    ensures
      var last := Run(lines, lineno, st, active);
      |last.records| + |last.stack| == |st.records| + |st.stack| + BranchCount(lines, |st.stack|)
  {
    if lines != [] {
      var next := Step(st, lines[0], lineno, active);
      StepKeepsInv(st, lines[0], lineno, active);
      RunCounts(lines[1..], lineno + 1, next, active);
      StepCounts(st, lines[0], lineno, active);
    }
  }

  lemma StepCounts(st: State, line: Line, lineno: nat, active: set<nat>)
    requires 0 < lineno && Inv(st, lineno, active)
    ensures
      var next := Step(st, line, lineno, active);
      && |next.records| + |next.stack| == |st.records| + |st.stack|
         + (if line.Open? || (line.Alternative? && st.stack != []) then 1 else 0)
      && |next.stack| == if line.Open? then |st.stack| + 1
                         else if line.Endif? && st.stack != [] then |st.stack| - 1
                         else |st.stack|
  {
  }

  function Starts(stack: seq<Entry>): seq<nat> {
    seq(|stack|, i requires 0 <= i < |stack| => stack[i].start)
  }

  lemma {:induction false} RunLeavesOpen(lines: seq<Line>, lineno: nat, st: State, active: set<nat>)
    requires 0 < lineno
    ensures Starts(Run(lines, lineno, st, active).stack) == OpenStarts(lines, lineno, Starts(st.stack))
  {
    if lines != [] {
      RunLeavesOpen(lines[1..], lineno + 1, Step(st, lines[0], lineno, active), active);
      StartsOfStep(st, lines[0], lineno, active);
    }
  }

  lemma StartsOfStep(st: State, line: Line, lineno: nat, active: set<nat>)
    requires 0 < lineno
    ensures Starts(Step(st, line, lineno, active).stack) == StartsAfter(line, lineno, Starts(st.stack))
  {
  }

  predicate NestedOrDisjoint(a: Entry, b: Entry) {
    || Last(a) < b.start
    || Last(b) < a.start
    || (a.start <= b.start && Last(b) <= Last(a))
    || (b.start <= a.start && Last(a) <= Last(b))
  }

  /** Finished records of intervals within the first `total` lines, reported in the order of
      their ends, any two of which nest or are disjoint. */
  ghost predicate Laminar(records: seq<Entry>, total: nat) {
    && (forall i :: 0 <= i < |records| ==> Finished(records[i], total + 1))
    && (forall i, j :: 0 <= i < j < |records| ==> Last(records[i]) <= Last(records[j]))
    && (forall i, j :: 0 <= i < j < |records| ==> NestedOrDisjoint(records[i], records[j]))
  }

  /** Whatever the file, the report is laminar, with one record per opener and per
      `#elif`/`#else` met inside a group. */
  lemma {:induction false} ScanShape(lines: seq<Line>, active: set<nat>)
    ensures |Scan(lines, active)| == BranchCount(lines, 0)
    ensures Laminar(Scan(lines, active), |lines|)
  {
    var st := Run(lines, 1, INITIAL, active);
    RunCounts(lines, 1, INITIAL, active);
    RunKeepsInv(lines, 1, INITIAL, active);
    ReportedShape(st, |lines|, active);
  }

  lemma ReportedShape(st: State, total: nat, active: set<nat>)
    requires Inv(st, total + 1, active)
    ensures Laminar(st.records + AbandonAll(st.stack, total), total)
  {
  }

  /** An entry's first line has its directive and condition. */
  predicate Names(entry: Entry, lines: seq<Line>) {
    && 1 <= entry.start <= |lines|
    && match lines[entry.start - 1]
       case Open(word, condition) => word == entry.word && condition == entry.condition
       case Alternative(word, condition) => word == entry.word && condition == entry.condition
       case _ => false
  }

  /** Entries are of different lines, whose directives they name. */
  ghost predicate NamesApart(st: State, lines: seq<Line>) {
    && (forall i :: 0 <= i < |st.records| ==> Names(st.records[i], lines))
    && (forall i :: 0 <= i < |st.stack| ==> Names(st.stack[i], lines))
    && (forall i, j :: 0 <= i < j < |st.records| ==> st.records[i].start != st.records[j].start)
  }

  lemma StepKeepsNames(st: State, lines: seq<Line>, i: nat, active: set<nat>)
    requires i < |lines| && Inv(st, i + 1, active) && NamesApart(st, lines)
    ensures NamesApart(Step(st, lines[i], i + 1, active), lines)
  {
    hide Laminar, FinishedRecords, AllTruthful, ActiveWithin;
    if st.stack != [] {
      var top := st.stack[|st.stack| - 1];
      forall k | 0 <= k < |st.records| ensures st.records[k].start != top.start {
        assert Apart(st.records[k], top);
        FinishedStart(st, k, i + 1, active);
      }
    }
  }

  lemma FinishedStart(st: State, k: nat, lineno: nat, active: set<nat>)
    requires Inv(st, lineno, active) && k < |st.records|
    ensures st.records[k].start <= Last(st.records[k])
  {
    assert Finished(st.records[k], lineno);
  }

  lemma {:induction false} RunKeepsNames(lines: seq<Line>, i: nat, st: State, active: set<nat>)
    requires i <= |lines| && Inv(st, i + 1, active) && NamesApart(st, lines)
    ensures NamesApart(Run(lines[i..], i + 1, st, active), lines)
    decreases |lines| - i
  {
    hide Inv, NamesApart, Step;
    if i < |lines| {
      RunStep(lines, i, st, active);
      StepKeepsNames(st, lines, i, active);
      StepKeepsInv(st, lines[i], i + 1, active);
      RunKeepsNames(lines, i + 1, Step(st, lines[i], i + 1, active), active);
    }
  }

  /** Whatever the file: a record names the directive on its first line, no two records the same
      line, and the branches never closed come last, outermost first, inactive up to the last line. */
  lemma {:induction false} ScanNames(lines: seq<Line>, active: set<nat>)
    ensures
      var records, left := Scan(lines, active), OpenStarts(lines, 1, []);
      && (forall i :: 0 <= i < |records| ==> Names(records[i], lines))
      && (forall i, j :: 0 <= i < j < |records| ==> records[i].start != records[j].start)
      && EndsWithOpen(records, left, |lines|)
  {
    hide Run, Inv, NamesApart, Names, OpenStarts;
    var st := Run(lines, 1, INITIAL, active);
    assert lines[0..] == lines;
    InitialNames(lines, active);
    RunKeepsNames(lines, 0, INITIAL, active);
    RunKeepsInv(lines, 1, INITIAL, active);
    RunLeavesOpen(lines, 1, INITIAL, active);
    assert Starts([]) == [];
    ReportedNames(st, lines, active);
  }

  /** The last records are of branches from these lines, inactive up to the last line. */
  predicate EndsWithOpen(records: seq<Entry>, left: seq<nat>, total: nat) {
    && |left| <= |records|
    && (forall i :: 0 <= i < |left| ==> records[|records| - |left| + i].start == left[i])
    && (forall i :: |records| - |left| <= i < |records| ==>
          records[i].result == Some(false) && records[i].end == Some(total))
  }

  lemma InitialNames(lines: seq<Line>, active: set<nat>)
    ensures Inv(INITIAL, 1, active) && NamesApart(INITIAL, lines)
  {
  }

  lemma ReportedNames(st: State, lines: seq<Line>, active: set<nat>)
    requires Inv(st, |lines| + 1, active) && NamesApart(st, lines)
    ensures
      var records := st.records + AbandonAll(st.stack, |lines|);
      && (forall i :: 0 <= i < |records| ==> Names(records[i], lines))
      && (forall i, j :: 0 <= i < j < |records| ==> records[i].start != records[j].start)
      && EndsWithOpen(records, Starts(st.stack), |lines|)
  {
    hide FinishedRecords, AllTruthful;
    forall i, j | 0 <= i < |st.records| && 0 <= j < |st.stack| ensures st.records[i].start != st.stack[j].start {
      assert Apart(st.records[i], st.stack[j]);
      FinishedStart(st, i, |lines| + 1, active);
    }
    forall i | 0 <= i < |st.stack| ensures Waiting(st.stack[i], |lines| + 1) {
    }
  }

  /** The results are right exactly when no active line follows the start of the outermost
      branch that is never closed. */
  lemma {:induction false} ScanTruthful(lines: seq<Line>, active: set<nat>)
    ensures AllTruthful(Scan(lines, active), active)
       <==> var left := OpenStarts(lines, 1, []);
            left == [] || !ActiveWithin(active, left[0] + 1, |lines|)
  {
    hide Run, Inv, AllTruthful, OpenStarts, ActiveWithin;
    var st := Run(lines, 1, INITIAL, active);
    RunLeavesOpen(lines, 1, INITIAL, active);
    assert Starts([]) == [];
    InitialNames(lines, active);
    RunKeepsInv(lines, 1, INITIAL, active);
    ReportedTruth(st, |lines|, OpenStarts(lines, 1, []), active);
  }

  lemma ReportedTruth(st: State, total: nat, left: seq<nat>, active: set<nat>)
    requires Inv(st, total + 1, active)
    requires left == Starts(st.stack)
    ensures AllTruthful(st.records + AbandonAll(st.stack, total), active)
       <==> left == [] || !ActiveWithin(active, left[0] + 1, total)
  {
    var abandoned := AbandonAll(st.stack, total);
    assert AllTruthful(st.records + abandoned, active) <==> AllTruthful(abandoned, active) by {
      forall i | 0 <= i < |abandoned| ensures abandoned[i] == (st.records + abandoned)[|st.records| + i] {
      }
    }
    AbandonedTruth(st.stack, total, active);
  }

  lemma AbandonedTruth(stack: seq<Entry>, total: nat, active: set<nat>)
    requires WaitingBranches(stack, total + 1)
    ensures AllTruthful(AbandonAll(stack, total), active)
       <==> stack == [] || !ActiveWithin(active, stack[0].start + 1, total)
  {
    var abandoned := AbandonAll(stack, total);
    forall i | 0 <= i < |abandoned|
      ensures Truthful(abandoned[i], active) <==> !ActiveWithin(active, stack[i].start + 1, total)
    {
      assert Waiting(stack[i], total + 1);
    }
    if stack != [] && !ActiveWithin(active, stack[0].start + 1, total) {
      forall i | 0 <= i < |abandoned| ensures Truthful(abandoned[i], active) {
        assert i > 0 ==> stack[0].start < stack[i].start;
      }
    }
  }

  /** An unterminated group is reported inactive even around an active line. */
  lemma UnterminatedIsWrong()
    ensures Scan([Open(If, "1"), Text], {2}) == [Entry(If, "1", Some(false), 1, Some(2))]
    ensures ActiveWithin({2}, 2, 2)
  {
    var lines := [Open(If, "1"), Text];
    assert lines[1..] == [Text] && lines[1..][1..] == [];
    var st := Run(lines, 1, INITIAL, {2});
    assert [] + [Opened(If, "1", 1)] == [Opened(If, "1", 1)];
    assert st == Run([Text], 2, State([Opened(If, "1", 1)], []), {2}) == State([Opened(If, "1", 1)], []);
    assert 2 in {2};
  }
}
