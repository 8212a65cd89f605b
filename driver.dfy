/** `SLRParser.LR_parser`: the table-driven loop that reads the tokens of
    `w` followed by "$", with a stack of state numbers (kept as strings) and
    a stack of grammar symbols, and records each step in the `results`
    table. */
module Driver {
  import opened Wrappers
  import opened Text
  import opened GrammarModel
  import opened Cells
  import opened Table

  /** The exceptions the loop can raise. */
  datatype Failure =
    | IndexError  // `stack[-1]` of an empty stack, `buffer[pointer]` past the end, a missing production
    | ValueError  // `int` of a string that is not a number
    | KeyError    // `parse_table[s]` of a state with no row, `parse_table[k][head]` of a column the row lacks
    | TypeError   // `'/' in` a cell that holds a number

  /** The `results` dictionary, one list per column of the trace. */
  datatype Results = Results(step: seq<string>, stack: seq<string>, symbols: seq<string>,
                             input: seq<string>, action: seq<string>)

  /** The loop's variables: `stack`, `symbols`, `pointer`, `step` and
      `results` (`a` is always `buffer[pointer]`). */
  datatype Config = Config(stack: seq<string>, symbols: seq<string>, pointer: nat, step: nat, results: Results)

  /** After a step: the loop goes on, it breaks, or it raises. */
  datatype Status = Running(next: Config) | Halted(last: Config) | Crashed(error: Failure)

  /** The variables before the first step. */
  function Initial(): Config {
    Config(["0"], [""], 0, 0, Results([""], ["STACK", "0"], ["SYMBOLS", ""], ["INPUT"], ["ACTION"]))
  }

  // ---------------------------------------------------------------------
  // Python's `int`, `str` and truth value on the strings and cells involved.

  predicate IsDigit(c: char) { '0' <= c <= '9' }

  predicate AllDigits(s: string) {
    forall i :: 0 <= i < |s| ==> IsDigit(s[i])
  }

  /** The number a string of decimal digits denotes. */
  function DigitsValue(s: string): nat
    requires AllDigits(s)
    decreases |s|
  {
    if s == [] then 0 else 10 * DigitsValue(s[..|s| - 1]) + ((s[|s| - 1] as int) - ('0' as int))
  }

  /** `int(s)` on a string of decimal digits; `None` where `int` raises
      ValueError. */
  function ParseInt(s: string): Option<nat> {
    if s != [] && AllDigits(s) then Some(DigitsValue(s)) else None
  }

  /** `int` reads back what `str` writes. */
  lemma {:induction false} ParseDecimal(n: nat)
    ensures ParseInt(Decimal(n)) == Some(n)
    decreases n
  {
    var r := Decimal(n);
    assert (r[|r| - 1] as int) - ('0' as int) == n % 10;
    if n >= 10 {
      ParseDecimal(n / 10);
      assert r[..|r| - 1] == Decimal(n / 10);
    } else {
      assert r[..|r| - 1] == [];
      assert DigitsValue(r) == 10 * DigitsValue([]) + n % 10;
    }
  }

  /** `str(cell)`. */
  function Str(c: Cell): string {
    match c
    case Text(t) => t
    case Number(n) => Decimal(n)
  }

  /** `not cell`: the empty string and the number 0 are false. */
  predicate Falsy(c: Cell) {
    c == Text("") || c == Number(0)
  }

  function Last(s: seq<string>): string
    requires s != []
  {
    s[|s| - 1]
  }

  /** `s[:-n]`: all but the last `n` entries; nothing when `n` is 0 or
      exceeds the length. */
  function Drop(s: seq<string>, n: nat): seq<string> {
    if n == 0 || n > |s| then [] else s[..|s| - n]
  }

  /** The step label `f'({step})'`. */
  function Label(step: nat): string {
    "(" + Decimal(step) + ")"
  }

  /** The message of a cell holding a "/". */
  function ConflictMessage(text: string, s: nat, a: string): string {
    var kind := if Count(text, 'r') > 1 then "reduce" else "shift";
    "ERROR: " + kind + "-reduce conflict at state " + Decimal(s) + ", symbol " + a
  }

  const Unrecognized: string := "ERROR: unrecognized symbol "
  const CannotParse: string := "ERROR: input cannot be parsed by given grammar"
  const AcceptMessage: string := "accept"
  const ShiftMessage: string := "shift"

  function ReduceMessage(p: Production): string {
    "reduce by " + p.0 + " -> " + Join(p.1, " ")
  }

  // ---------------------------------------------------------------------
  // One pass of `while True`.

  /** The loop after `step`, the step label and the input column. */
  function Begun(c: Config, buffer: seq<string>): Config
    requires c.pointer < |buffer|
  {
    var r := c.results;
    c.(step := c.step + 1,
       results := r.(step := r.step + [Label(c.step + 1)], input := r.input + [Join(buffer[c.pointer..], " ")]))
  }

  /** `results['action'].append(msg); break`. */
  function Stop(c: Config, msg: string): Status {
    Halted(c.(results := c.results.(action := c.results.action + [msg])))
  }

  /** The stacks replaced, their new contents appended to the trace, and
      `msg` recorded as the action. */
  function Record(c: Config, stack: seq<string>, symbols: seq<string>, pointer: nat, msg: string): Config {
    var r := c.results;
    Config(stack, symbols, pointer, c.step,
           r.(stack := r.stack + [Join(stack, " ")], symbols := r.symbols + [Join(symbols, " ")],
              action := r.action + [msg]))
  }

  /** One pass of the loop. */
  function Step(table: seq<Row>, G: seq<Production>, buffer: seq<string>, c: Config): (r: Status)
    requires c.pointer < |buffer|
    ensures r.Running? ==> r.next.pointer < |buffer|
  {
    if c.stack == [] then Crashed(IndexError)
    else match ParseInt(Last(c.stack))
    case None => Crashed(ValueError)
    case Some(s) =>
      if s >= |table| then Crashed(KeyError)
      else
        var a := buffer[c.pointer];
        var b := Begun(c, buffer);
        if a !in table[s] then Stop(b, Unrecognized + a)
        else if Falsy(table[s][a]) then Stop(b, CannotParse)
        else if table[s][a].Number? then Crashed(TypeError)
        else
          var t := table[s][a].text;
          if '/' in t then Stop(b, ConflictMessage(t, s, a))
          else if t[0] == 's' then ShiftStep(buffer, b, a, t)
          else if t[0] == 'r' then ReduceStep(table, G, b, t)
          else if t == "acc" then Stop(b, AcceptMessage)
          else Running(b)
  }

  /** Push the state named after the "s", push the token, and read the next
      token. */
  function ShiftStep(buffer: seq<string>, b: Config, a: string, t: string): (r: Status)
    requires |t| > 0
    ensures r.Running? ==> r.next.pointer < |buffer|
  {
    var next := Record(b, b.stack + [t[1..]], b.symbols + [a], b.pointer + 1, ShiftMessage);
    if b.pointer + 1 < |buffer| then Running(next) else Crashed(IndexError)
  }

  /** Pop the body of the production named after the "r" (nothing for the
      empty body `^`), then push the goto of the uncovered state on its
      head, and the head. */
  function ReduceStep(table: seq<Row>, G: seq<Production>, b: Config, t: string): Status
    requires |t| > 0
  {
    match ParseInt(t[1..])
    case None => Crashed(ValueError)
    case Some(j) =>
      if j >= |G| then Crashed(IndexError)
      else
        var (head, body) := G[j];
        var n := if body != [Null] then |body| else 0;
        var stack := if body != [Null] then Drop(b.stack, n) else b.stack;
        var symbols := if body != [Null] then Drop(b.symbols, n) else b.symbols;
        if stack == [] then Crashed(IndexError)
        else match ParseInt(Last(stack))
        case None => Crashed(ValueError)
        case Some(k) =>
          if k >= |table| then Crashed(KeyError)
          else if head !in table[k] then Crashed(KeyError)
          else Running(Record(b, stack + [Str(table[k][head])], symbols + [head], b.pointer, ReduceMessage(G[j])))
  }

  /** At most `fuel` passes of the loop from `c`; `Running` when the loop
      has not stopped by then. */
  function Run(table: seq<Row>, G: seq<Production>, buffer: seq<string>, c: Config, fuel: nat): (r: Status)
    requires c.pointer < |buffer|
    ensures r.Running? ==> r.next.pointer < |buffer|
    decreases fuel, 0
  {
    if fuel == 0 then Running(c) else Resume(table, G, buffer, Step(table, G, buffer, c), fuel - 1)
  }

  /** The rest of the run after a pass: `fuel` more passes unless the loop
      stopped. */
  function Resume(table: seq<Row>, G: seq<Production>, buffer: seq<string>, r: Status, fuel: nat): (r': Status)
    requires r.Running? ==> r.next.pointer < |buffer|
    ensures r'.Running? ==> r'.next.pointer < |buffer|
    decreases fuel, 1
  {
    if r.Running? then Run(table, G, buffer, r.next, fuel) else r
  }

  /** `LR_parser(w)` with at most `fuel` passes. */
  function Parse(table: seq<Row>, G: seq<Production>, w: string, fuel: nat): Status {
    WordsWithEndMarker(w);
    Run(table, G, Words(w + " $"), Initial(), fuel)
  }

  /** `LR_parser(w)`, stopped after `fuel` passes of its loop. The loop's
      variables `stack`, `symbols`, `pointer`, `step` and `results` are
      the fields of `c`. */
  method LRParser(table: seq<Row>, G: seq<Production>, w: string, fuel: nat) returns (r: Status)
    ensures r == Parse(table, G, w, fuel)
  {
    WordsWithEndMarker(w);
    var buffer := Words(w + " $");
    var stack := ["0"];
    var symbols := [""];
    var results := Results([""], ["STACK"] + stack, ["SYMBOLS"] + symbols, ["INPUT"], ["ACTION"]);
    var c := Config(stack, symbols, 0, 0, results);
    assert c == Initial();
    ghost var goal := Parse(table, G, w, fuel);
    var left := fuel;
    while left > 0
      invariant c.pointer < |buffer|
      invariant Run(table, G, buffer, c, left) == goal
    {
      var next := Pass(table, G, buffer, c);
      RunUnfold(table, G, buffer, c, left, next);
      if !next.Running? {
        return next;
      }
      c := next.next;
      left := left - 1;
    }
    return Running(c);
  }

  /** A run of at least one pass is one pass and then the rest. */
  lemma RunUnfold(table: seq<Row>, G: seq<Production>, buffer: seq<string>, c: Config, fuel: nat, r: Status)
    requires c.pointer < |buffer| && fuel > 0 && r == Step(table, G, buffer, c)
    ensures r.Running? ==> r.next.pointer < |buffer| && Run(table, G, buffer, c, fuel) == Run(table, G, buffer, r.next, fuel - 1)
    ensures !r.Running? ==> Run(table, G, buffer, c, fuel) == r
  {
  }

  /** One pass of the loop of `LR_parser` from the variables `c`. */
  method Pass(table: seq<Row>, G: seq<Production>, buffer: seq<string>, c: Config) returns (r: Status)
    requires c.pointer < |buffer|
    ensures r == Step(table, G, buffer, c) && (r.Running? ==> r.next.pointer < |buffer|)
  {
    var stack, symbols, pointer, step, results := c.stack, c.symbols, c.pointer, c.step, c.results;
    var a := buffer[pointer];
    if stack == [] {
      return Crashed(IndexError);
    }
    var state := ParseInt(stack[|stack| - 1]);
    if state.None? {
      return Crashed(ValueError);
    }
    var s := state.value;
    if s >= |table| {
      return Crashed(KeyError);
    }
    step := step + 1;
    results := results.(step := results.step + [Label(step)], input := results.input + [Join(buffer[pointer..], " ")]);
    if a !in table[s] {
      results := results.(action := results.action + [Unrecognized + a]);
      return Halted(Config(stack, symbols, pointer, step, results));
    }
    var cell := table[s][a];
    if Falsy(cell) {
      results := results.(action := results.action + [CannotParse]);
      return Halted(Config(stack, symbols, pointer, step, results));
    }
    if cell.Number? {
      return Crashed(TypeError);
    }
    var t := cell.text;
    if '/' in t {
      results := results.(action := results.action + [ConflictMessage(t, s, a)]);
      return Halted(Config(stack, symbols, pointer, step, results));
    } else if t[0] == 's' {
      results := results.(action := results.action + [ShiftMessage]);
      stack := stack + [t[1..]];
      symbols := symbols + [a];
      results := results.(stack := results.stack + [Join(stack, " ")], symbols := results.symbols + [Join(symbols, " ")]);
      pointer := pointer + 1;
      if pointer >= |buffer| {
        return Crashed(IndexError);
      }
      r := Running(Config(stack, symbols, pointer, step, results));
    } else if t[0] == 'r' {
      r := ReduceBy(table, G, Config(stack, symbols, pointer, step, results), t);
    } else if t == "acc" {
      results := results.(action := results.action + [AcceptMessage]);
      return Halted(Config(stack, symbols, pointer, step, results));
    } else {
      r := Running(Config(stack, symbols, pointer, step, results));
    }
  }

  /** The reduce branch of the loop, from the variables `c` and the cell
      text `t`. */
  method ReduceBy(table: seq<Row>, G: seq<Production>, c: Config, t: string) returns (r: Status)
    requires |t| > 0
    ensures r == ReduceStep(table, G, c, t)
  {
    var stack, symbols, results := c.stack, c.symbols, c.results;
    var index := ParseInt(t[1..]);
    if index.None? {
      return Crashed(ValueError);
    }
    if index.value >= |G| {
      return Crashed(IndexError);
    }
    var (head, body) := G[index.value];
    results := results.(action := results.action + [ReduceMessage(G[index.value])]);
    if body != [Null] {
      stack := Drop(stack, |body|);
      symbols := Drop(symbols, |body|);
    }
    if stack == [] {
      return Crashed(IndexError);
    }
    var uncovered := ParseInt(stack[|stack| - 1]);
    if uncovered.None? {
      return Crashed(ValueError);
    }
    var k := uncovered.value;
    if k >= |table| {
      return Crashed(KeyError);
    }
    if head !in table[k] {
      return Crashed(KeyError);
    }
    stack := stack + [Str(table[k][head])];
    symbols := symbols + [head];
    results := results.(stack := results.stack + [Join(stack, " ")], symbols := results.symbols + [Join(symbols, " ")]);
    r := Running(Config(stack, symbols, c.pointer, c.step, results));
  }

  // ---------------------------------------------------------------------
  // What a pass does.

  /** The state and symbol stacks have equal lengths, and so do their
      columns in the trace. */
  predicate Lockstep(c: Config) {
    |c.stack| == |c.symbols| && |c.results.stack| == |c.results.symbols|
  }

  lemma StepLockstep(table: seq<Row>, G: seq<Production>, buffer: seq<string>, c: Config)
    requires c.pointer < |buffer| && Lockstep(c)
    ensures Step(table, G, buffer, c).Running? ==> Lockstep(Step(table, G, buffer, c).next)
    ensures Step(table, G, buffer, c).Halted? ==> Lockstep(Step(table, G, buffer, c).last)
  {
  }

  /** A run keeps the two stacks in lockstep. */
  lemma {:induction false} RunLockstep(table: seq<Row>, G: seq<Production>, buffer: seq<string>, c: Config, fuel: nat)
    requires c.pointer < |buffer| && Lockstep(c)
    ensures Run(table, G, buffer, c, fuel).Running? ==> Lockstep(Run(table, G, buffer, c, fuel).next)
    ensures Run(table, G, buffer, c, fuel).Halted? ==> Lockstep(Run(table, G, buffer, c, fuel).last)
    decreases fuel
  {
    if fuel > 0 {
      StepLockstep(table, G, buffer, c);
      var r := Step(table, G, buffer, c);
      if r.Running? {
        RunLockstep(table, G, buffer, r.next, fuel - 1);
      }
    }
  }

  /** A cell one of the branches of the loop handles: the loop makes no
      progress on any other. */
  predicate Legible(cell: Cell) {
    || Falsy(cell) || cell.Number? || '/' in cell.text
    || cell.text[0] == 's' || cell.text[0] == 'r' || cell.text == "acc"
  }

  predicate LegibleTable(table: seq<Row>) {
    forall i, a :: 0 <= i < |table| && a in table[i] ==> Legible(table[i][a])
  }

  /** The trace has one step label, one input entry and one action entry
      per pass. */
  predicate Aligned(c: Config) {
    |c.results.step| == c.step + 1 && |c.results.input| == c.step + 1 && |c.results.action| == c.step + 1
  }

  /** A pass that does not raise adds its step label and its input entry to
      the trace, adds one action entry when the cell was legible, and none
      otherwise. */
  lemma StepTrace(table: seq<Row>, G: seq<Production>, buffer: seq<string>, c: Config)
    requires c.pointer < |buffer|
    ensures var r := Step(table, G, buffer, c);
      r.Running? || r.Halted? ==>
        var d := if r.Running? then r.next else r.last;
        && d.step == c.step + 1
        && d.results.step == c.results.step + [Label(c.step + 1)]
        && d.results.input == c.results.input + [Join(buffer[c.pointer..], " ")]
        && (if LegibleTable(table) then |d.results.action| == |c.results.action| + 1
                                         && d.results.action[..|c.results.action|] == c.results.action
            else d.results.action == c.results.action
                 || (|d.results.action| == |c.results.action| + 1 && d.results.action[..|c.results.action|] == c.results.action))
  {
    var r := Step(table, G, buffer, c);
    if r.Running? || r.Halted? {
      var d := if r.Running? then r.next else r.last;
      var s := ParseInt(Last(c.stack)).value;
      var a := buffer[c.pointer];
      if LegibleTable(table) && a in table[s] {
        assert Legible(table[s][a]);
      }
    }
  }

  /** A run on a legible table keeps the trace aligned. */
  lemma {:induction false} RunAligned(table: seq<Row>, G: seq<Production>, buffer: seq<string>, c: Config, fuel: nat)
    requires c.pointer < |buffer| && Aligned(c) && LegibleTable(table)
    ensures Run(table, G, buffer, c, fuel).Running? ==> Aligned(Run(table, G, buffer, c, fuel).next)
    ensures Run(table, G, buffer, c, fuel).Halted? ==> Aligned(Run(table, G, buffer, c, fuel).last)
    decreases fuel
  {
    if fuel > 0 {
      StepTrace(table, G, buffer, c);
      var r := Step(table, G, buffer, c);
      if r.Running? {
        RunAligned(table, G, buffer, r.next, fuel - 1);
      }
    }
  }

  /** On an illegible cell the loop never ends: each pass only adds a step
      label and an input entry. */
  lemma {:induction false} IllegibleLoops(table: seq<Row>, G: seq<Production>, buffer: seq<string>, c: Config, s: nat, fuel: nat)
    requires c.pointer < |buffer| && c.stack != [] && ParseInt(Last(c.stack)) == Some(s) && s < |table|
    requires buffer[c.pointer] in table[s] && !Legible(table[s][buffer[c.pointer]])
    ensures Run(table, G, buffer, c, fuel).Running?
    ensures Run(table, G, buffer, c, fuel).next.stack == c.stack
    ensures Run(table, G, buffer, c, fuel).next.pointer == c.pointer
    decreases fuel
  {
    if fuel > 0 {
      var r := Step(table, G, buffer, c);
      assert r == Running(Begun(c, buffer));
      IllegibleLoops(table, G, buffer, r.next, s, fuel - 1);
    }
  }

  /** A pass that breaks leaves the stacks and the input position as they
      were and records an error or `accept`; it records `accept` exactly
      when the cell is `acc`. */
  lemma StepHalts(table: seq<Row>, G: seq<Production>, buffer: seq<string>, c: Config)
    requires c.pointer < |buffer|
    ensures var r := Step(table, G, buffer, c);
      r.Halted? ==>
        && r.last.stack == c.stack && r.last.symbols == c.symbols && r.last.pointer == c.pointer
        && r.last.results.stack == c.results.stack && r.last.results.symbols == c.results.symbols
        && r.last.results.action != []
        && (Last(r.last.results.action) == AcceptMessage <==>
             exists s :: (c.stack != [] && ParseInt(Last(c.stack)) == Some(s) && s < |table|
               && buffer[c.pointer] in table[s] && table[s][buffer[c.pointer]] == Text("acc")))
  {
    var r := Step(table, G, buffer, c);
    if r.Halted? {
      var s := ParseInt(Last(c.stack)).value;
      var a := buffer[c.pointer];
      assert (Unrecognized + a)[0] == 'E';
      assert CannotParse[0] == 'E';
      if a in table[s] && table[s][a].Text? {
        ConflictHead(table[s][a].text, s, a);
      }
    }
  }

  lemma ConflictHead(t: string, s: nat, a: string)
    ensures ConflictMessage(t, s, a)[0] == 'E'
  {
    var kind := if Count(t, 'r') > 1 then "reduce" else "shift";
    assert ConflictMessage(t, s, a) == "ERROR: " + (kind + "-reduce conflict at state " + Decimal(s) + ", symbol " + a);
  }

  /** A cell holding a shift or a reduce text hands the pass on to the
      shift or the reduce. */
  lemma StepText(table: seq<Row>, G: seq<Production>, buffer: seq<string>, c: Config, s: nat, t: string)
    requires c.pointer < |buffer| && c.stack != [] && ParseInt(Last(c.stack)) == Some(s) && s < |table|
    requires buffer[c.pointer] in table[s] && table[s][buffer[c.pointer]] == Text(t) && t != "" && '/' !in t
    ensures t[0] == 's' ==> Step(table, G, buffer, c) == ShiftStep(buffer, Begun(c, buffer), buffer[c.pointer], t)
    ensures t[0] == 'r' ==> Step(table, G, buffer, c) == ReduceStep(table, G, Begun(c, buffer), t)
  {
  }

  /** The shift the table writes, `sn`, pushes state `n` (the next pass
      reads it back as `n`) and the token, and moves to the next token; past
      the end marker there is no next token and `buffer[pointer]` raises. */
  lemma ShiftEffect(table: seq<Row>, G: seq<Production>, buffer: seq<string>, c: Config, s: nat, n: nat)
    requires c.pointer < |buffer| && c.stack != [] && ParseInt(Last(c.stack)) == Some(s) && s < |table|
    requires buffer[c.pointer] in table[s] && table[s][buffer[c.pointer]] == Text(ActionText(Shift(n)))
    ensures var r := Step(table, G, buffer, c);
      if c.pointer + 1 < |buffer| then
        && r.Running? && r.next.stack == c.stack + [Decimal(n)] && ParseInt(Last(r.next.stack)) == Some(n)
        && r.next.symbols == c.symbols + [buffer[c.pointer]] && r.next.pointer == c.pointer + 1
        && Last(r.next.results.action) == ShiftMessage
      else r == Crashed(IndexError)
  {
    var t := ActionText(Shift(n));
    assert t[1..] == Decimal(n);
    assert '/' !in t;
    StepText(table, G, buffer, c, s, t);
    ParseDecimal(n);
  }

  /** The reduce the table writes, `rj`, pops the body of `G[j]` from both
      stacks (nothing for `^`), then pushes the head and the goto cell of
      the uncovered state. An empty body, or one longer than the stack
      below it, leaves nothing to read the uncovered state from: `stack[-1]`
      raises. */
  lemma ReduceEffect(table: seq<Row>, G: seq<Production>, buffer: seq<string>, c: Config, s: nat, j: nat)
    requires c.pointer < |buffer| && c.stack != [] && ParseInt(Last(c.stack)) == Some(s) && s < |table|
    requires buffer[c.pointer] in table[s] && table[s][buffer[c.pointer]] == Text(ActionText(Reduce(j)))
    requires j < |G| && Lockstep(c)
    ensures var r := Step(table, G, buffer, c);
      var head, body := G[j].0, G[j].1;
      var n := if body == [Null] then 0 else |body|;
      if body != [Null] && (body == [] || |body| >= |c.stack|) then r == Crashed(IndexError)
      else
        var stack := c.stack[..|c.stack| - n];
        (forall k :: ParseInt(Last(stack)) == Some(k) && k < |table| && head in table[k] ==>
          && r.Running? && r.next.stack == stack + [Str(table[k][head])]
          && r.next.symbols == c.symbols[..|c.symbols| - n] + [head]
          && r.next.pointer == c.pointer && Last(r.next.results.action) == ReduceMessage(G[j]))
  {
    var t := ActionText(Reduce(j));
    assert t[1..] == Decimal(j);
    assert '/' !in t;
    StepText(table, G, buffer, c, s, t);
    ReduceStepEffect(table, G, Begun(c, buffer), j);
  }

  /** `ReduceEffect` for the reduce itself, after the pass has begun. */
  lemma ReduceStepEffect(table: seq<Row>, G: seq<Production>, b: Config, j: nat)
    requires j < |G| && b.stack != [] && Lockstep(b)
    ensures var r := ReduceStep(table, G, b, ActionText(Reduce(j)));
      var head, body := G[j].0, G[j].1;
      var n := if body == [Null] then 0 else |body|;
      if body != [Null] && (body == [] || |body| >= |b.stack|) then r == Crashed(IndexError)
      else
        var stack := b.stack[..|b.stack| - n];
        (forall k :: ParseInt(Last(stack)) == Some(k) && k < |table| && head in table[k] ==>
          && r.Running? && r.next.stack == stack + [Str(table[k][head])]
          && r.next.symbols == b.symbols[..|b.symbols| - n] + [head]
          && r.next.pointer == b.pointer && Last(r.next.results.action) == ReduceMessage(G[j]))
  {
    var t := ActionText(Reduce(j));
    assert t[1..] == Decimal(j);
    ParseDecimal(j);
  }

  /** Running for `f1 + f2` passes is running for `f1` passes and then,
      unless the loop stopped, for `f2` more. */
  lemma {:induction false} RunSplit(table: seq<Row>, G: seq<Production>, buffer: seq<string>, c: Config, f1: nat, f2: nat)
    requires c.pointer < |buffer|
    ensures var r := Run(table, G, buffer, c, f1);
      Run(table, G, buffer, c, f1 + f2) == if r.Running? then Run(table, G, buffer, r.next, f2) else r
    decreases f1
  {
    if f1 > 0 {
      var r := Step(table, G, buffer, c);
      RunUnfold(table, G, buffer, c, f1, r);
      RunUnfold(table, G, buffer, c, f1 + f2, r);
      if r.Running? {
        RunSplit(table, G, buffer, r.next, f1 - 1, f2);
      }
    }
  }

  /** Once the loop has stopped, more passes change nothing. */
  lemma RunStops(table: seq<Row>, G: seq<Production>, buffer: seq<string>, c: Config, f: nat, f': nat)
    requires c.pointer < |buffer| && f <= f' && !Run(table, G, buffer, c, f).Running?
    ensures Run(table, G, buffer, c, f') == Run(table, G, buffer, c, f)
  {
    RunSplit(table, G, buffer, c, f, f' - f);
  }

  /** `acc` is only ever in the "$" column. */
  ghost predicate AcceptsAtEnd(table: seq<Row>) {
    forall s, a :: 0 <= s < |table| && a in table[s] && table[s][a] == Text("acc") ==> a == "$"
  }

  /** On such a table a run accepts only with "$" as the current token. */
  lemma {:induction false} RunAcceptsAtEnd(table: seq<Row>, G: seq<Production>, buffer: seq<string>, c: Config, fuel: nat)
    requires AcceptsAtEnd(table) && c.pointer < |buffer|
    ensures var r := Run(table, G, buffer, c, fuel);
      r.Halted? && r.last.results.action != [] && Last(r.last.results.action) == AcceptMessage ==>
        r.last.pointer < |buffer| && buffer[r.last.pointer] == "$"
    decreases fuel
  {
    if fuel > 0 {
      var r := Step(table, G, buffer, c);
      if r.Running? {
        RunAcceptsAtEnd(table, G, buffer, r.next, fuel - 1);
      } else if r.Halted? {
        StepHalts(table, G, buffer, c);
      }
    }
  }

  /** So `LR_parser(w)` accepts only once every token of `w` has been
      shifted, when `w` does not itself hold "$". */
  lemma ParseAcceptsAtEnd(table: seq<Row>, G: seq<Production>, w: string, fuel: nat)
    requires AcceptsAtEnd(table) && "$" !in Words(w)
    ensures var r := Parse(table, G, w, fuel);
      r.Halted? && r.last.results.action != [] && Last(r.last.results.action) == AcceptMessage ==>
        r.last.pointer == |Words(w)|
  {
    WordsWithEndMarker(w);
    var buffer := Words(w + " $");
    RunAcceptsAtEnd(table, G, buffer, Initial(), fuel);
  }
}
