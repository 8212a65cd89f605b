/** `SLRParser.__init__` applied to a grammar read from text: the augmented
    grammar, read again from the text `S' -> S` followed by the grammar's
    lines; its productions numbered; FIRST and FOLLOW; the canonical
    collection; and the parse table. */
module SlrParser {
  import opened Wrappers
  import opened Text
  import opened GrammarModel
  import opened GrammarFacts
  import opened Automaton
  import opened Transitions
  import Collection
  import opened FirstFollow
  import opened Cells
  import opened Table
  import opened TableFacts

  datatype BuildError =
    | ReadError(error: GrammarError)        // `Grammar` raises ValueError
    | UndefinedNonterminal(symbol: Symbol)  // `CLOSURE` raises KeyError

  /** The fields of an `SLRParser`: `G_prime`, `G_indexed`, `first`,
      `follow`, `C` and `parse_table`. */
  datatype Parser = Parser(g: Grammar, G: seq<Production>, first: Sets, follow: Sets,
                           C: seq<ItemSet>, table: seq<Row>)

  function SettingOf(p: Parser): Setting {
    Setting(p.g, p.C, p.G, p.follow)
  }

  /** How `f"{G.start}"` prints the start symbol: "None" when there is none. */
  function StartName(g: Grammar): string {
    if g.start.Some? then g.start.value else "None"
  }

  /** The first line of the augmented grammar, `S' -> S`. */
  function AugmentedLine(g: Grammar): string {
    StartName(g) + "'" + Arrow + StartName(g)
  }

  /** The text of the augmented grammar: its first line and then
      `grammar_str`, the non-empty lines of the grammar's text. */
  function AugmentedText(g: Grammar, lines: seq<string>): string {
    AugmentedLine(g) + "\n" + Join(lines, "\n")
  }

  /** `Grammar(text)`. */
  function GrammarOf(text: string): Result<Grammar, GrammarError> {
    Build(Lines(text))
  }

  /** `Grammar(f"{G.start}' -> {G.start}\n{G.grammar_str}")` for
      `G = Grammar(text)`. */
  function AugmentedOf(text: string): Result<Grammar, GrammarError> {
    match GrammarOf(text)
    case Err(e) => Err(e)
    case Ok(g) => Build(Lines(AugmentedText(g, Lines(text))))
  }

  // ---------------------------------------------------------------------
  // The augmented grammar.

  /** The augmented text splits into its first line and the grammar's lines. */
  lemma AugmentedLines(text: string)
    requires GrammarOf(text).Ok?
    ensures Lines(AugmentedText(GrammarOf(text).value, Lines(text)))
      == [AugmentedLine(GrammarOf(text).value)] + Lines(text)
    ensures LineHead(AugmentedLine(GrammarOf(text).value)) == StartName(GrammarOf(text).value) + "'"
  {
    var lines := Lines(text);
    var g := GrammarOf(text).value;
    var name := StartName(g);
    StartNameIsPlain(text);
    var fl := AugmentedLine(g);
    assert fl == name + ['\''] + Arrow + name;
    forall i | 0 <= i < |fl| ensures !IsLineBreak(fl[i]) {
      if i < |name| {
        assert fl[i] == name[i];
      } else if i < |name| + 1 + |Arrow| {
        assert fl[i] == ("'" + Arrow)[i - |name|];
      } else {
        assert fl[i] == name[i - |name| - 1 - |Arrow|];
      }
    }
    FieldsOfRun(fl, IsLineBreak);
    assert AugmentedText(g, lines) == fl + ['\n'] + Join(lines, ['\n']);
    FieldsAroundSeparator(fl, '\n', Join(lines, ['\n']), IsLineBreak);
    FieldsOfJoin(lines, '\n', IsLineBreak);
    PartitionAfter(name, '\'', Arrow, name);
  }

  /** The start symbol's name is non-empty, holds no line break and no
      " -> ", and is not "^". */
  lemma StartNameIsPlain(text: string)
    requires GrammarOf(text).Ok?
    ensures var name := StartName(GrammarOf(text).value);
      && |name| > 0 && name != Null
      && (forall i :: 0 <= i < |name| ==> !IsLineBreak(name[i]))
      && (forall i :: 0 <= i <= |name| ==> !OccursAt(name, Arrow, i))
  {
    var lines := Lines(text);
    var g := GrammarOf(text).value;
    BuildStart(lines);
    BuildWellFormed(lines);
    if g.start.Some? {
      var name := g.start.value;
      PartitionBefore(lines[0], Arrow);
      assert name <= lines[0];
      forall i | 0 <= i < |name| ensures !IsLineBreak(name[i]) {
        assert name[i] == lines[0][i];
      }
      assert name in g.prods by { assert g.heads[0] in g.prods; }
      assert IsUpper(name);
      assert name != Null by {
        var i :| 0 <= i < |name| && IsUpperLetter(name[i]);
      }
    } else {
      assert !OccursAt("None", Arrow, 0) by { assert "None"[0] != Arrow[0]; }
    }
  }

  /** The augmented grammar's start symbol is `S'`, its name being one
      character longer than the grammar's start symbol. */
  lemma AugmentedStart(text: string)
    requires AugmentedOf(text).Ok?
    ensures GrammarOf(text).Ok?
    ensures AugmentedOf(text).value.start == Some(StartName(GrammarOf(text).value) + "'")
    ensures Collection.DropLast(AugmentedOf(text).value.start.value) == StartName(GrammarOf(text).value)
    ensures StartName(GrammarOf(text).value) != Null
    ensures WellFormed(AugmentedOf(text).value)
  {
    var g := GrammarOf(text).value;
    AugmentedLines(text);
    StartNameIsPlain(text);
    var lines' := Lines(AugmentedText(g, Lines(text)));
    BuildStart(lines');
    BuildWellFormed(lines');
    var s := StartName(g) + "'";
    assert s[..|s| - 1] == StartName(g);
  }

  /** A grammar without productions has no start symbol, and `None' -> None`
      is then rejected for its lower-case head. */
  lemma EmptyGrammarRejected(text: string)
    requires GrammarOf(text) == Ok(EmptyGrammar)
    ensures AugmentedOf(text).Err? && AugmentedOf(text).error == MalformedHead("None'")
  {
    AugmentedLines(text);
    var lines' := Lines(AugmentedText(EmptyGrammar, Lines(text)));
    assert LineHead(lines'[0]) == "None'";
    assert !IsUpper("None'") by { assert IsLowerLetter("None'"[1]); }
    BuildFailsAtFirstBadLine(lines', 0);
  }

  // ---------------------------------------------------------------------
  // `G_indexed`.

  /** The position of a head in the order heads were first read. */
  function Rank(g: Grammar, h: Symbol): nat {
    if h in g.heads then IndexOf(g.heads, h) else |g.heads|
  }

  /** `G` lists each production once, head by head in the order heads were
      first read. */
  ghost predicate Numbered(G: seq<Production>, g: Grammar) {
    && (forall p :: p in G <==> p.0 in g.prods && p.1 in g.prods[p.0])
    && (forall a, b :: 0 <= a < b < |G| ==> G[a] != G[b])
    && (forall a, b :: 0 <= a < b < |G| ==> Rank(g, G[a].0) <= Rank(g, G[b].0))
  }

  /** `G` lists the productions of the first `i` heads. */
  ghost predicate NumberedUpTo(G: seq<Production>, g: Grammar, i: nat) {
    && (forall p :: p in G <==> Rank(g, p.0) < i && p.0 in g.prods && p.1 in g.prods[p.0])
    && (forall a, b :: 0 <= a < b < |G| ==> G[a] != G[b])
    && (forall a, b :: 0 <= a < b < |G| ==> Rank(g, G[a].0) <= Rank(g, G[b].0))
    && (forall a :: 0 <= a < |G| ==> Rank(g, G[a].0) < i)
  }

  lemma RankAt(g: Grammar, i: nat)
    requires HeadsWellFormed(g) && i < |g.heads|
    ensures Rank(g, g.heads[i]) == i
  {
    var r := IndexOf(g.heads, g.heads[i]);
    assert g.heads[r] == g.heads[i];
  }

  /** The loops of app.py that fill `G_indexed`: the heads in dictionary
      order, each head's bodies in a set iteration order. */
  method IndexProductions(g: Grammar) returns (G: seq<Production>)
    requires HeadsWellFormed(g)
    ensures Numbered(G, g)
  {
    G := [];
    var i := 0;
    while i < |g.heads|
      invariant 0 <= i <= |g.heads|
      invariant NumberedUpTo(G, g, i)
    {
      G := IndexHead(g, i, G);
      i := i + 1;
    }
    forall h | h in g.prods ensures Rank(g, h) < |g.heads| {
      var r := IndexOf(g.heads, h);
    }
  }

  method IndexHead(g: Grammar, i: nat, G0: seq<Production>) returns (G: seq<Production>)
    requires HeadsWellFormed(g) && i < |g.heads| && NumberedUpTo(G0, g, i)
    ensures NumberedUpTo(G, g, i + 1)
  {
    var head := g.heads[i];
    RankAt(g, i);
    G := G0;
    var bodies := g.prods[head];
    while bodies != {}
      invariant bodies <= g.prods[head] && HeadProgress(g, i, G0, G, bodies)
      decreases bodies
    {
      var body :| body in bodies;
      AddBody(g, i, G0, G, bodies, body);
      G := G + [(head, body)];
      bodies := bodies - {body};
    }
  }

  /** `G` extends `G0` with the bodies of head `i` other than `bodies`. */
  ghost predicate HeadProgress(g: Grammar, i: nat, G0: seq<Production>, G: seq<Production>, bodies: set<Body>)
    requires i < |g.heads| && g.heads[i] in g.prods
  {
    && (forall p :: p in G <==> p in G0 || (p.0 == g.heads[i] && p.1 in g.prods[g.heads[i]] - bodies))
    && (forall a, b :: 0 <= a < b < |G| ==> G[a] != G[b])
    && (forall a, b :: 0 <= a < b < |G| ==> Rank(g, G[a].0) <= Rank(g, G[b].0))
    && (forall a :: 0 <= a < |G| ==> Rank(g, G[a].0) <= i)
  }

  lemma AddBody(g: Grammar, i: nat, G0: seq<Production>, G: seq<Production>, bodies: set<Body>, body: Body)
    requires HeadsWellFormed(g) && i < |g.heads| && NumberedUpTo(G0, g, i)
    requires bodies <= g.prods[g.heads[i]] && body in bodies && HeadProgress(g, i, G0, G, bodies)
    ensures HeadProgress(g, i, G0, G + [(g.heads[i], body)], bodies - {body})
  {
    RankAt(g, i);
    assert (g.heads[i], body) !in G0;
  }

  // ---------------------------------------------------------------------
  // The parser.

  /** What holds of a parser built from text: an augmented grammar whose
      nonterminals all have productions; its productions numbered; FIRST and
      FOLLOW the least sets closed under the rules; the canonical
      collection; and one row per state, each filled by CASE 2 visiting
      the state's items in the order `orders[i]` and then by CASE 3. */
  ghost predicate Valid(p: Parser, orders: seq<seq<Source>>) {
    && WellFormed(p.g) && Complete(p.g) && p.g.start.Some?
    && Collection.DropLast(p.g.start.value) != Null
    && Numbered(p.G, p.g)
    && Shape(p.g, p.first, p.follow) && FirstFollow.Closed(p.g, p.first, p.follow)
    && Below(InitialFirst(p.g), p.first) && Below(InitialFollow(p.g), p.follow)
    && BelowEveryClosed(p.g, InitialFirst(p.g), InitialFollow(p.g), p.first, p.follow)
    && Collection.Canonical(p.g, p.g.start.value, p.C)
    && (forall i :: 0 <= i < |p.C| ==> Collection.Bounded(p.g, p.g.start.value, p.C[i]))
    && |p.table| == |p.C| && |orders| == |p.C|
    && (forall i :: 0 <= i < |p.C| ==> Built(SettingOf(p), p.C[i], orders[i], p.table[i]))
  }

  /** The lookups of `construct_table` succeed on the collection of a
      complete grammar. */
  lemma ReadyFor(g: Grammar, C: seq<ItemSet>, G: seq<Production>, first: Sets, follow: Sets)
    requires WellFormed(g) && Complete(g) && g.start.Some?
    requires Collection.Canonical(g, g.start.value, C)
    requires forall i :: 0 <= i < |C| ==> Collection.Bounded(g, g.start.value, C[i])
    requires Shape(g, first, follow)
    ensures Ready(Setting(g, C, G, follow))
  {
    var s := g.start.value;
    assert s in g.nonterminals by { assert g.heads[0] in g.prods; }
    forall i | 0 <= i < |C| ensures C[i].Keys <= follow.Keys {
      assert C[i].Keys <= Collection.KeyRange(g, s);
    }
    forall i, k | 0 <= i < |C| && k in C[i] ensures [] !in C[i][k] {
      forall b | b in C[i][k] ensures b != [] {
        assert (k, b) in Collection.Dottings(g, s);
      }
    }
  }

  /** `SLRParser(Grammar(text))`: read the grammar, read the augmented
      grammar, number its productions, compute FIRST and FOLLOW, the
      canonical collection and the parse table. */
  method NewParser(text: string) returns (r: Result<Parser, BuildError>, ghost orders: seq<seq<Source>>)
    ensures AugmentedOf(text).Err? ==> r == Err(ReadError(AugmentedOf(text).error))
    ensures AugmentedOf(text).Ok? ==> (r.Err? <==> !Complete(AugmentedOf(text).value))
    ensures r.Err? && r.error.UndefinedNonterminal? ==>
      AugmentedOf(text).Ok? && r.error.symbol in AugmentedOf(text).value.nonterminals
      && r.error.symbol !in AugmentedOf(text).value.prods
    ensures r.Ok? ==> AugmentedOf(text).Ok? && r.value.g == AugmentedOf(text).value && Valid(r.value, orders)
    ensures r.Ok? ==> r.value.g.start == Some(StartName(GrammarOf(text).value) + "'")
  {
    orders := [];
    var read := ParseGrammar(text);
    if read.Err? {
      return Err(ReadError(read.error)), orders;
    }
    var g := read.value;
    var read' := ParseGrammar(AugmentedText(g, Lines(text)));
    if read'.Err? {
      return Err(ReadError(read'.error)), orders;
    }
    var g' := read'.value;
    AugmentedStart(text);
    if !Complete(g') {
      var n :| n in g'.nonterminals && !(n in g'.prods && g'.prods[n] != {});
      return Err(UndefinedNonterminal(n)), orders;
    }
    var p;
    p, orders := Assemble(g');
    r := Ok(p);
  }

  /** The rest of `SLRParser.__init__`, once the augmented grammar is read. */
  method Assemble(g: Grammar) returns (p: Parser, ghost orders: seq<seq<Source>>)
    requires WellFormed(g) && Complete(g) && g.start.Some? && Collection.DropLast(g.start.value) != Null
    ensures p.g == g && Valid(p, orders)
  {
    var G := IndexProductions(g);
    var first, follow := FirstFollow.FirstFollow(g);
    var C := Collection.Items(g);
    ReadyFor(g, C, G, first, follow);
    var st := Setting(g, C, G, follow);
    var table, orders' := ConstructTable(st);
    orders := orders';
    p := Parser(g, G, first, follow, C, table);
    assert SettingOf(p) == st;
  }

  // ---------------------------------------------------------------------
  // What the table of a parser holds.

  /** What holds of one state `I` of a valid parser and its row: the row is
      CASE 2 and CASE 3 applied to the items of `I` in the order `order`,
      and `I` is a state of the canonical collection of a complete
      augmented grammar. */
  ghost predicate StateOf(st: Setting, I: ItemSet, order: seq<Source>, row: Row) {
    && WellFormed(st.g) && st.g.start.Some?
    && Enumerates(order, I) && row == RowOf(st, I, order)
    && Collection.Closed(st.g, st.C, I, st.g.Symbols()) && map[] !in st.C
    && Collection.Bounded(st.g, st.g.start.value, I) && NoNullItem(I)
    && Indexes(st.G, st.g) && Collection.Distinct(st.C)
    && (forall n :: n in st.follow ==> st.follow[n] <= st.g.terminals + {EndMarker})
  }

  /** Every row of a valid parser is the row of its state. */
  lemma ValidState(p: Parser, orders: seq<seq<Source>>, i: nat)
    requires Valid(p, orders) && i < |p.C|
    ensures StateOf(SettingOf(p), p.C[i], orders[i], p.table[i])
  {
    var s := p.g.start.value;
    assert Built(SettingOf(p), p.C[i], orders[i], p.table[i]);
    assert Collection.Closed(p.g, p.C, p.C[i], p.g.Symbols());
    assert Collection.Bounded(p.g, s, p.C[i]);
    BoundedNoNullItem(p.g, s, p.C[i]);
    NoEmptyState(p.g, s, p.C);
    forall k, body | k in p.g.prods && body in p.g.prods[k] ensures (k, body) in p.G {
      assert (k, body).0 in p.g.prods;
    }
  }

  /** No state of the collection is empty. */
  lemma NoEmptyState(g: Grammar, s: Symbol, C: seq<ItemSet>)
    requires Collection.Canonical(g, s, C)
    ensures map[] !in C
  {
    forall i | 0 <= i < |C| ensures C[i] != map[] {
      if i > 0 {
        assert Collection.NewFrom(g, C, i, C[i]);
      }
    }
  }

  /** "$" is not upper case, so not a nonterminal. */
  lemma EndMarkerNotUpper()
    ensures !IsUpper(EndMarker)
  {
    forall i | 0 <= i < |EndMarker| ensures !IsUpperLetter(EndMarker[i]) {
      assert EndMarker[i] == '$';
    }
  }

  /** A state's `GOTO` on a symbol is listed exactly when some item of the
      state has that symbol after its dot. */
  lemma GotoListed(st: Setting, I: ItemSet, order: seq<Source>, row: Row, X: Symbol)
    requires StateOf(st, I, order, row) && X in st.g.Symbols()
    ensures GotoOf(st.g, I, X) in st.C <==> Sources(I, X) != {}
  {
    GotoEmpty(st.g, I, X);
  }

  /** CASE 2a: an item `k -> α . a β` of the state, `a` a terminal other
      than "$", puts the shift to `GOTO(I, a)` into cell `a`; the cell holds
      exactly that shift when no reduce is written there. */
  lemma TableShift(st: Setting, I: ItemSet, order: seq<Source>, row: Row, k: Symbol, b: Dotted, a: Symbol)
    requires StateOf(st, I, order, row)
    requires k in I && b in I[k] && AfterDot(b) == Some(a)
    requires a in st.g.terminals && a != EndMarker
    ensures GotoOf(st.g, I, a) in st.C
    ensures a in row && row[a].Text?
    ensures Contains(row[a].text, ActionText(Shift(IndexOf(st.C, GotoOf(st.g, I, a)))))
    ensures (forall j :: Reduce(j) !in Demand(st, I, a)) ==>
      row[a] == Text(ActionText(Shift(IndexOf(st.C, GotoOf(st.g, I, a)))))
  {
    ShiftDemanded(st, I, k, b, a);
    var n := IndexOf(st.C, GotoOf(st.g, I, a));
    SymbolKindsDisjoint(st.g);
    assert ActionColumn(st, a);
    AcceptDemanded(st, I, a);
    forall m | Shift(m) in Demand(st, I, a) ensures m == n {
      ShiftDemandedOnly(st, I, a, m);
    }
    ShiftCell(st, I, order, a, n);
  }

  /** A column whose only shift is to state `n` and that holds no accept
      contains `sn`, and is exactly `sn` when no reduce is written there. */
  lemma ShiftCell(st: Setting, I: ItemSet, order: seq<Source>, a: Symbol, n: nat)
    requires Enumerates(order, I) && ActionColumn(st, a) && NoNullItem(I)
    requires Accept !in Demand(st, I, a) && Shift(n) in Demand(st, I, a)
    requires forall m :: Shift(m) in Demand(st, I, a) ==> m == n
    ensures a in RowOf(st, I, order) && RowOf(st, I, order)[a].Text?
    ensures Contains(RowOf(st, I, order)[a].text, ActionText(Shift(n)))
    ensures (forall j :: Reduce(j) !in Demand(st, I, a)) ==> RowOf(st, I, order)[a] == Text(ActionText(Shift(n)))
  {
    ActionCell(st, I, order, a);
    var acts := ColumnActs(st, I, order, a);
    ActsTidy(st, I, order, a);
    RenderTidy(acts);
    if forall j :: Reduce(j) !in Demand(st, I, a) {
      forall x | x in Demand(st, I, a) ensures x == Shift(n) {
        assert x.Shift? || x.Reduce? || x.Accept?;
      }
      CellSingle(st, I, order, a, Shift(n));
    }
  }

  /** CASE 2b: a completed item `k -> α .` of the state, `k` not the start
      symbol, matches a production, and the first `G[j]` that matches puts
      `rj` into the cell of every `f` in FOLLOW(k). The cell is then never
      empty; it holds an `r` unless an accept was written in it too; and
      it is exactly `rj` when nothing else is written there. */
  lemma TableReduce(st: Setting, I: ItemSet, order: seq<Source>, row: Row, k: Symbol, b: Dotted, f: Symbol)
    requires StateOf(st, I, order, row)
    requires k in I && b in I[k] && AfterDot(b).None? && Some(k) != st.g.start
    requires f in Of(st.follow, k)
    ensures FirstMatch(st.G, k, b).Some?
    ensures var j := FirstMatch(st.G, k, b).value;
      && j < |st.G| && Matches(st.G[j], k, b) && (forall i :: 0 <= i < j ==> !Matches(st.G[i], k, b))
      && Reduce(j) in Demand(st, I, f)
    ensures f in row && row[f].Text? && row[f].text != ""
    ensures Accept !in Demand(st, I, f) ==> Count(row[f].text, 'r') >= 1
    ensures Demand(st, I, f) == {Reduce(FirstMatch(st.G, k, b).value)} ==>
      row[f] == Text(ActionText(Reduce(FirstMatch(st.G, k, b).value)))
  {
    CompletedMatches(st, I, k, b);
    FirstMatchIs(st.G, k, b);
    var j := FirstMatch(st.G, k, b).value;
    ReduceDemanded(st, I, k, b, f);
    SymbolKindsDisjoint(st.g);
    EndMarkerNotUpper();
    assert ActionColumn(st, f);
    ReduceCell(st, I, order, f, j);
  }

  /** A column in which a reduce is written is not empty; it holds an `r`
      when no accept is written there; and a lone reduce `rj` is the whole
      cell. */
  lemma ReduceCell(st: Setting, I: ItemSet, order: seq<Source>, f: Symbol, j: nat)
    requires Enumerates(order, I) && ActionColumn(st, f) && NoNullItem(I)
    requires Reduce(j) in Demand(st, I, f)
    ensures f in RowOf(st, I, order) && RowOf(st, I, order)[f].Text? && RowOf(st, I, order)[f].text != ""
    ensures Accept !in Demand(st, I, f) ==> Count(RowOf(st, I, order)[f].text, 'r') >= 1
    ensures Demand(st, I, f) == {Reduce(j)} ==> RowOf(st, I, order)[f] == Text(ActionText(Reduce(j)))
  {
    CellEmpty(st, I, order, f);
    ActionCell(st, I, order, f);
    var acts := ColumnActs(st, I, order, f);
    if Accept !in Demand(st, I, f) {
      ActsTidy(st, I, order, f);
      RenderTidy(acts);
      ReducesOne(acts);
      assert Reduce(j) in acts;
      var k :| 0 <= k < |acts| && acts[k] == Reduce(j);
    }
    if Demand(st, I, f) == {Reduce(j)} {
      CellSingle(st, I, order, f, Reduce(j));
    }
  }

  /** The accept of CASE 2c: a completed item of the start symbol `S'`
      makes the "$" cell start with `acc`. */
  lemma TableAccept(st: Setting, I: ItemSet, order: seq<Source>, row: Row, b: Dotted)
    requires StateOf(st, I, order, row)
    requires st.g.start.value in I && b in I[st.g.start.value] && AfterDot(b).None?
    ensures EndMarker in row && row[EndMarker].Text?
    ensures |row[EndMarker].text| >= 3 && row[EndMarker].text[..3] == "acc"
  {
    var s := st.g.start.value;
    assert !Completed(st, s, b);
    AcceptDemanded(st, I, EndMarker);
    EndMarkerNotUpper();
    assert ActionColumn(st, EndMarker);
    CellAccept(st, I, order, EndMarker);
  }

  /** CASE 3: the cell of a nonterminal `A` holds the number of the state
      `GOTO(I, A)` when some item has `A` after its dot, and no other
      number; otherwise it is an empty text cell, absent only for the start
      symbol `S'`. */
  lemma TableGoto(st: Setting, I: ItemSet, order: seq<Source>, row: Row, A: Symbol)
    requires StateOf(st, I, order, row) && A in st.g.nonterminals
    ensures Sources(I, A) != {} ==> A in row && row[A].Number? && row[A].n < |st.C|
    ensures Sources(I, A) != {} ==>
      forall n :: 0 <= n < |st.C| ==> (row[A] == Number(n) <==> st.C[n] == GotoOf(st.g, I, A))
    ensures Sources(I, A) == {} ==> (A in row <==> Some(A) != st.g.start)
    ensures Sources(I, A) == {} && A in row ==> row[A] == Text("")
  {
    SymbolKindsDisjoint(st.g);
    EndMarkerNotUpper();
    GotoListed(st, I, order, row, A);
    GotoCell(st, I, order, A);
    if Sources(I, A) != {} {
      IndexUnique(st.C, GotoOf(st.g, I, A));
    }
  }

  /** In a list without repeats an element is only at its first position. */
  lemma IndexUnique(s: seq<ItemSet>, x: ItemSet)
    requires Collection.Distinct(s) && x in s
    ensures forall n :: 0 <= n < |s| && s[n] == x ==> n == IndexOf(s, x)
  {
    var m := IndexOf(s, x);
    forall n | 0 <= n < |s| && s[n] == x ensures n == m {
      assert s[m] == s[n];
    }
  }

  /** A cell that starts with the `a` of `acc` is in the "$" column. */
  lemma AcceptOnlyAtEnd(st: Setting, I: ItemSet, order: seq<Source>, row: Row, c: Symbol)
    requires StateOf(st, I, order, row)
    requires c in row && row[c].Text? && row[c].text != "" && row[c].text[0] == 'a'
    ensures c == EndMarker
  {
    SymbolKindsDisjoint(st.g);
    EndMarkerNotUpper();
    if c in st.g.nonterminals {
      GotoCell(st, I, order, c);
    } else {
      RowAfterKeys(st, I, InitialRow(st.g), order);
      assert c in Columns(st.g);
      assert ActionColumn(st, c);
      ActionCell(st, I, order, c);
      if Accept in Demand(st, I, c) {
        CellAccept(st, I, order, c);
      } else {
        RenderFirst(ColumnActs(st, I, order, c));
      }
    }
  }
}
