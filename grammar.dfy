/** The grammar reader: grammar text, one production line `HEAD -> B1 | B2 | ...`
    per non-empty line, becomes the grammar's start symbol, its productions
    by head, and its terminal and nonterminal symbols. */
module GrammarModel {
  import opened Wrappers
  import opened Text

  type Symbol = string

  /** A production body as the reader stores it; `["^"]` is the empty body. */
  type Body = seq<Symbol>

  const Arrow: string := " -> "

  /** The empty-body marker. */
  const Null: Symbol := "^"

  datatype GrammarError =
    | MalformedHead(head: string)     // the head is not upper case
    | NullSymbolMisuse(head: string)  // a body holds "^" beside other symbols

  /** The reader's outcome. `lines` is the grammar text without its empty
      lines, `heads` the heads in the order they were first read (the key
      order of the production dictionary), `prods` the set of bodies of each
      head. */
  datatype Grammar = Grammar(
    lines: seq<string>,
    start: Option<Symbol>,
    heads: seq<Symbol>,
    prods: map<Symbol, set<Body>>,
    terminals: set<Symbol>,
    nonterminals: set<Symbol>)
  {
    function Symbols(): set<Symbol> { terminals + nonterminals }
  }

  const EmptyGrammar: Grammar := Grammar([], None, [], map[], {}, {})

  /** The text before the first " -> " of a line. */
  function LineHead(line: string): string {
    Partition(line, Arrow).before
  }

  /** The bodies of a line: its right-hand side with white space collapsed,
      cut at every '|', each piece split into words. Equal bodies collapse. */
  function BodiesOf(rhs: string): set<Body> {
    var pieces := SplitOn(Join(Words(rhs), " "), '|');
    set p | p in pieces :: Words(p)
  }

  function LineBodies(line: string): set<Body> {
    BodiesOf(Partition(line, Arrow).after)
  }

  predicate MisusesNull(b: Body) {
    Null in b && b != [Null]
  }

  /** How the reader classifies a body symbol. */
  predicate IsTerminalName(s: Symbol) { !IsUpper(s) && s != Null }

  function UpperSymbols(bodies: set<Body>): set<Symbol> {
    set b, s | b in bodies && s in b && IsUpper(s) :: s
  }

  function TerminalSymbols(bodies: set<Body>): set<Symbol> {
    set b, s | b in bodies && s in b && IsTerminalName(s) :: s
  }

  /** The error a line raises, if any; a bad head is reported before a bad body. */
  function LineError(line: string): Option<GrammarError> {
    var head := LineHead(line);
    if !IsUpper(head) then Some(MalformedHead(head))
    else if exists b :: b in LineBodies(line) && MisusesNull(b) then Some(NullSymbolMisuse(head))
    else None
  }

  /** What reading one well-formed line adds to the grammar read so far. */
  function AddLine(g: Grammar, line: string): Grammar {
    var head := LineHead(line);
    var bodies := LineBodies(line);
    Grammar(
      g.lines + [line],
      if g.start.None? then Some(head) else g.start,
      if head in g.prods then g.heads else g.heads + [head],
      g.prods[head := (if head in g.prods then g.prods[head] else {}) + bodies],
      g.terminals + TerminalSymbols(bodies),
      g.nonterminals + {head} + UpperSymbols(bodies))
  }

  /** Reading one more line after the lines read so far. */
  function ReadStep(sofar: Result<Grammar, GrammarError>, line: string): Result<Grammar, GrammarError> {
    match sofar
    case Err(e) => Err(e)
    case Ok(g) =>
      match LineError(line)
      case Some(e) => Err(e)
      case None => Ok(AddLine(g, line))
  }

  /** Reading a sequence of lines: the first line that raises an error stops it. */
  function Build(lines: seq<string>): Result<Grammar, GrammarError>
    decreases |lines|
  {
    if lines == [] then Ok(EmptyGrammar) else ReadStep(Build(lines[..|lines| - 1]), lines[|lines| - 1])
  }

  /** `Grammar(text)`: the reader of app.py, iterating over the non-empty
      lines and filling the production dictionary and the two symbol sets in
      place; the first line that raises an error ends it. */
  method ParseGrammar(text: string) returns (r: Result<Grammar, GrammarError>)
    ensures r == Build(Lines(text))
  {
    var lines := Lines(text);
    var g := EmptyGrammar;
    var i := 0;
    while i < |lines|
      invariant 0 <= i <= |lines|
      invariant Build(lines[..i]) == Ok(g)
    {
      assert lines[..i + 1][..i] == lines[..i];
      var next := ReadLine(g, lines[i]);
      if next.Err? {
        BuildKeepsError(lines, i + 1);
        return next;
      }
      g := next.value;
      i := i + 1;
    }
    assert lines[..i] == lines;
    return Ok(g);
  }

  /** One turn of the reader's loop over lines: check the head, record it,
      then read the line's bodies. */
  method ReadLine(g: Grammar, line: string) returns (r: Result<Grammar, GrammarError>)
    ensures r == ReadStep(Ok(g), line)
  {
    var parted := Partition(line, Arrow);
    var head := parted.before;
    if !IsUpper(head) {
      return Err(MalformedHead(head));
    }
    var start := if g.start.None? then Some(head) else g.start;
    var heads := if head in g.prods then g.heads else g.heads + [head];
    var bodies := BodiesOf(parted.after);
    var before := if head in g.prods then g.prods[head] else {};
    var ok, added, terminals, nonterminals := ReadBodies(bodies);
    if !ok {
      return Err(NullSymbolMisuse(head));
    }
    return Ok(Grammar(g.lines + [line], start, heads, g.prods[head := before + added],
                      g.terminals + terminals, g.nonterminals + {head} + nonterminals));
  }

  /** The reader's loop over the bodies of one line, visited in an arbitrary
      order as Python iterates over a set: a body holding "^" beside other
      symbols stops it; every other body is added and its symbols classified. */
  method ReadBodies(bodies: set<Body>) returns (ok: bool, added: set<Body>, terminals: set<Symbol>, nonterminals: set<Symbol>)
    ensures ok <==> !exists b :: b in bodies && MisusesNull(b)
    ensures ok ==> added == bodies && terminals == TerminalSymbols(bodies) && nonterminals == UpperSymbols(bodies)
  {
    added, terminals, nonterminals := {}, {}, {};
    var todo := bodies;
    while todo != {}
      invariant todo <= bodies
      invariant added == bodies - todo
      invariant forall b :: b in added ==> !MisusesNull(b)
      invariant terminals == TerminalSymbols(added)
      invariant nonterminals == UpperSymbols(added)
      decreases todo
    {
      var body :| body in todo;
      if Null in body && body != [Null] {
        assert MisusesNull(body);
        return false, added, terminals, nonterminals;
      }
      var newTerminals, newNonterminals := ClassifySymbols(body);
      SymbolsOfOneMore(added, body);
      added := added + {body};
      terminals := terminals + newTerminals;
      nonterminals := nonterminals + newNonterminals;
      todo := todo - {body};
    }
    return true, added, terminals, nonterminals;
  }

  /** The innermost loop of the reader: each symbol of a body goes to the
      terminals when it is not upper case and not "^", to the nonterminals
      when it is upper case. */
  method ClassifySymbols(body: Body) returns (terminals: set<Symbol>, nonterminals: set<Symbol>)
    ensures terminals == set k | 0 <= k < |body| && IsTerminalName(body[k]) :: body[k]
    ensures nonterminals == set k | 0 <= k < |body| && IsUpper(body[k]) :: body[k]
  {
    terminals, nonterminals := {}, {};
    var j := 0;
    while j < |body|
      invariant 0 <= j <= |body|
      invariant terminals == set k | 0 <= k < j && IsTerminalName(body[k]) :: body[k]
      invariant nonterminals == set k | 0 <= k < j && IsUpper(body[k]) :: body[k]
    {
      var symbol := body[j];
      if !IsUpper(symbol) && symbol != Null {
        terminals := terminals + {symbol};
      } else if IsUpper(symbol) {
        nonterminals := nonterminals + {symbol};
      }
      j := j + 1;
    }
  }

  lemma SymbolsOfOneMore(done: set<Body>, body: Body)
    ensures TerminalSymbols(done + {body})
         == TerminalSymbols(done) + (set k | 0 <= k < |body| && IsTerminalName(body[k]) :: body[k])
    ensures UpperSymbols(done + {body})
         == UpperSymbols(done) + (set k | 0 <= k < |body| && IsUpper(body[k]) :: body[k])
  {
    forall s | s in TerminalSymbols(done + {body})
      ensures s in TerminalSymbols(done) + (set k | 0 <= k < |body| && IsTerminalName(body[k]) :: body[k])
    {
      var b :| b in done + {body} && s in b && IsTerminalName(s);
      if b == body {
        var k :| 0 <= k < |body| && body[k] == s;
      }
    }
    forall s | s in UpperSymbols(done + {body})
      ensures s in UpperSymbols(done) + (set k | 0 <= k < |body| && IsUpper(body[k]) :: body[k])
    {
      var b :| b in done + {body} && s in b && IsUpper(s);
      if b == body {
        var k :| 0 <= k < |body| && body[k] == s;
      }
    }
  }

  /** Once a prefix of the lines fails, reading the whole fails the same way. */
  lemma {:induction false} BuildKeepsError(lines: seq<string>, k: nat)
    requires k <= |lines|
    requires Build(lines[..k]).Err?
    ensures Build(lines) == Build(lines[..k])
    decreases |lines| - k
  {
    if k < |lines| {
      assert lines[..k + 1][..k] == lines[..k];
      BuildKeepsError(lines, k + 1);
    } else {
      assert lines[..k] == lines;
    }
  }
}

module GrammarFacts {
  import opened Wrappers
  import opened Text
  import opened GrammarModel

  /** What every successfully read grammar satisfies. */
  ghost predicate WellFormed(g: Grammar) {
    HeadsWellFormed(g) && SymbolsWellFormed(g)
  }

  /** Heads are recorded once each, the first is the start symbol, and each
      has at least one body and is a nonterminal. */
  ghost predicate HeadsWellFormed(g: Grammar) {
    && (forall i, j :: 0 <= i < j < |g.heads| ==> g.heads[i] != g.heads[j])
    && (forall h :: h in g.prods <==> h in g.heads)
    && (g.start.Some? <==> g.heads != [])
    && (g.heads != [] ==> g.start == Some(g.heads[0]))
    && (forall h :: h in g.prods ==> g.prods[h] != {} && h in g.nonterminals)
  }

  /** Nonterminals are upper case, terminals are not, and every body is classified. */
  ghost predicate SymbolsWellFormed(g: Grammar) {
    && (forall n :: n in g.nonterminals ==> IsUpper(n))
    && (forall t :: t in g.terminals ==> IsTerminalName(t))
    && (forall h, b :: h in g.prods && b in g.prods[h] ==> BodyClassified(g, b))
  }

  /** "^" stands alone, and every other symbol of the body is a terminal or a nonterminal. */
  ghost predicate BodyClassified(g: Grammar, b: Body) {
    && !MisusesNull(b)
    && forall s :: s in b && s != Null ==> s in g.terminals || s in g.nonterminals
  }

  /** The terminals and the nonterminals of a well-formed grammar are disjoint
      and neither holds "^": each body symbol other than "^" has one kind. */
  lemma SymbolKindsDisjoint(g: Grammar)
    requires WellFormed(g)
    ensures g.terminals !! g.nonterminals
    ensures Null !in g.terminals && Null !in g.nonterminals
  {
    assert !IsUpper(Null) by { assert Null[0] == '^'; }
  }

  /** Every line of the text either reads or yields its error; reading stops at
      the first line that fails, with that line's error. */
  lemma {:induction false} BuildFailsAtFirstBadLine(lines: seq<string>, k: nat)
    requires k < |lines| && LineError(lines[k]).Some?
    requires forall i :: 0 <= i < k ==> LineError(lines[i]).None?
    ensures Build(lines) == Err(LineError(lines[k]).value)
  {
    BuildSucceedsOnGoodLines(lines[..k]);
    assert lines[..k + 1][..k] == lines[..k];
    BuildKeepsError(lines, k + 1);
  }

  /** When no line raises an error the text reads, recording the lines, and
      the first head read becomes the start symbol. */
  lemma {:induction false} BuildSucceedsOnGoodLines(lines: seq<string>)
    requires forall i :: 0 <= i < |lines| ==> LineError(lines[i]).None?
    ensures Build(lines).Ok?
    ensures Build(lines).value.lines == lines
    ensures Build(lines).value.start == if lines == [] then None else Some(LineHead(lines[0]))
  {
    if lines != [] {
      var init, line := lines[..|lines| - 1], lines[|lines| - 1];
      GoodInit(lines);
      BuildSucceedsOnGoodLines(init);
      ReadStepGood(Build(init), line);
      SplitLast(lines);
    }
  }

  lemma SplitLast(lines: seq<string>)
    requires lines != []
    ensures lines[..|lines| - 1] + [lines[|lines| - 1]] == lines
    ensures |lines| > 1 ==> lines[..|lines| - 1][0] == lines[0]
  {
  }

  /** The lines before the last read, and so does the last. */
  lemma GoodInit(lines: seq<string>)
    requires lines != [] && forall i :: 0 <= i < |lines| ==> LineError(lines[i]).None?
    ensures var init := lines[..|lines| - 1]; forall i :: 0 <= i < |init| ==> LineError(init[i]).None?
    ensures LineError(lines[|lines| - 1]).None?
  {
  }

  lemma ReadStepGood(sofar: Result<Grammar, GrammarError>, line: string)
    requires sofar.Ok? && LineError(line).None?
    ensures ReadStep(sofar, line).Ok?
    ensures ReadStep(sofar, line).value.lines == sofar.value.lines + [line]
    ensures ReadStep(sofar, line).value.start == if sofar.value.start.None? then Some(LineHead(line)) else sofar.value.start
  {
  }

  /** The start symbol of a grammar that reads is the head of its first line. */
  lemma {:induction false} BuildStart(lines: seq<string>)
    requires Build(lines).Ok?
    ensures Build(lines).value.start == if lines == [] then None else Some(LineHead(lines[0]))
    decreases |lines|
  {
    if lines != [] {
      var init, line := lines[..|lines| - 1], lines[|lines| - 1];
      ReadStepStart(Build(init), line);
      BuildStart(init);
      if init != [] { assert init[0] == lines[0]; }
    }
  }

  lemma ReadStepStart(sofar: Result<Grammar, GrammarError>, line: string)
    requires ReadStep(sofar, line).Ok?
    ensures sofar.Ok?
    ensures ReadStep(sofar, line).value.start == if sofar.value.start.None? then Some(LineHead(line)) else sofar.value.start
  {
  }

  /** A grammar that reads is well formed: heads are recorded once each and
      in first-seen order, every head is an upper-case nonterminal with at
      least one body, every body symbol other than a lone "^" has been
      classified, and the first head is the start symbol. */
  lemma {:induction false} BuildWellFormed(lines: seq<string>)
    requires Build(lines).Ok?
    ensures WellFormed(Build(lines).value)
    decreases |lines|
  {
    if lines != [] {
      var init := lines[..|lines| - 1];
      var line := lines[|lines| - 1];
      BuildWellFormed(init);
      var g := Build(init).value;
      assert LineError(line).None?;
      AddLineWellFormed(g, line);
    }
  }

  lemma AddLineWellFormed(g: Grammar, line: string)
    requires WellFormed(g) && LineError(line).None?
    ensures WellFormed(AddLine(g, line))
  {
    AddLineHeads(g, line);
    AddLineSymbols(g, line);
  }

  lemma AddLineHeads(g: Grammar, line: string)
    requires HeadsWellFormed(g)
    ensures HeadsWellFormed(AddLine(g, line))
  {
    var g' := AddLine(g, line);
    var head := LineHead(line);
    LineHasBody(line);
    if head !in g.prods {
      forall i, j | 0 <= i < j < |g'.heads| ensures g'.heads[i] != g'.heads[j] {
        if j == |g.heads| { assert g.heads[i] in g.prods; }
      }
    }
  }

  lemma AddLineSymbols(g: Grammar, line: string)
    requires SymbolsWellFormed(g) && LineError(line).None?
    ensures SymbolsWellFormed(AddLine(g, line))
  {
    var g' := AddLine(g, line);
    var head := LineHead(line);
    var bodies := LineBodies(line);
    assert IsUpper(head);
    assert forall b :: b in bodies ==> !MisusesNull(b);
    forall h, b | h in g'.prods && b in g'.prods[h] ensures BodyClassified(g', b) {
      if h == head && b in bodies {
        forall s | s in b && s != Null ensures s in g'.terminals || s in g'.nonterminals {
          if IsUpper(s) { assert s in UpperSymbols(bodies); } else { assert s in TerminalSymbols(bodies); }
        }
      } else {
        assert BodyClassified(g, b);
      }
    }
  }

  /** Every line contributes at least one body (an empty right-hand side gives
      the empty body). */
  lemma LineHasBody(line: string)
    ensures LineBodies(line) != {}
  {
    var pieces := SplitOn(Join(Words(Partition(line, Arrow).after), " "), '|');
    assert Words(pieces[0]) in LineBodies(line);
  }

  /** Line `line` writes body `b` for head `h`. */
  predicate Writes(line: string, h: Symbol, b: Body) {
    LineHead(line) == h && b in LineBodies(line)
  }

  /** Line `line` mentions `s` as a terminal. */
  predicate MentionsTerminal(line: string, s: Symbol) {
    s in TerminalSymbols(LineBodies(line))
  }

  /** Line `line` mentions `s` as a nonterminal, as its head or in a body. */
  predicate MentionsNonterminal(line: string, s: Symbol) {
    s == LineHead(line) || s in UpperSymbols(LineBodies(line))
  }

  /** The productions read are exactly the bodies written on the lines for each
      head: a body written twice for a head is stored once. */
  lemma {:induction false} BuildProductions(lines: seq<string>, h: Symbol, b: Body)
    requires Build(lines).Ok?
    ensures (h in Build(lines).value.prods && b in Build(lines).value.prods[h])
        <==> exists i :: 0 <= i < |lines| && Writes(lines[i], h, b)
    decreases |lines|
  {
    if lines != [] {
      var init, line := lines[..|lines| - 1], lines[|lines| - 1];
      var g := Build(init).value;
      assert Build(lines) == Ok(AddLine(g, line));
      BuildProductions(init, h, b);
      PrefixExists(lines, init, l => Writes(l, h, b));
    }
  }

  /** The terminals read are exactly the body symbols that are neither upper
      case nor "^". */
  lemma {:induction false} BuildTerminals(lines: seq<string>, s: Symbol)
    requires Build(lines).Ok?
    ensures s in Build(lines).value.terminals <==> exists i :: 0 <= i < |lines| && MentionsTerminal(lines[i], s)
    decreases |lines|
  {
    if lines != [] {
      var init, line := lines[..|lines| - 1], lines[|lines| - 1];
      var g := Build(init).value;
      assert Build(lines) == Ok(AddLine(g, line));
      BuildTerminals(init, s);
      PrefixExists(lines, init, l => MentionsTerminal(l, s));
    }
  }

  /** The nonterminals read are exactly the heads and the upper-case body symbols. */
  lemma {:induction false} BuildNonterminals(lines: seq<string>, s: Symbol)
    requires Build(lines).Ok?
    ensures s in Build(lines).value.nonterminals <==> exists i :: 0 <= i < |lines| && MentionsNonterminal(lines[i], s)
    decreases |lines|
  {
    if lines != [] {
      var init, line := lines[..|lines| - 1], lines[|lines| - 1];
      var g := Build(init).value;
      assert Build(lines) == Ok(AddLine(g, line));
      BuildNonterminals(init, s);
      PrefixExists(lines, init, l => MentionsNonterminal(l, s));
    }
  }

  /** A line property holds of some line iff it holds of some line before the
      last or of the last. */
  lemma PrefixExists(lines: seq<string>, init: seq<string>, p: string -> bool)
    requires lines != [] && init == lines[..|lines| - 1]
    ensures (exists i :: 0 <= i < |lines| && p(lines[i]))
        <==> (exists i :: 0 <= i < |init| && p(init[i])) || p(lines[|lines| - 1])
  {
    if exists i :: 0 <= i < |lines| && p(lines[i]) {
      var i :| 0 <= i < |lines| && p(lines[i]);
      if i < |lines| - 1 { assert p(init[i]); }
    }
    if exists i :: 0 <= i < |lines| - 1 && p(init[i]) {
      var i :| 0 <= i < |lines| - 1 && p(init[i]);
      assert lines[i] == init[i];
    }
  }
}
