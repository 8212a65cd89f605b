/** `construct_table`: the SLR(1) parsing table, one row per state of the
    canonical collection. CASE 2 writes the actions of each state's items
    as text into the columns of the terminals and "$"; CASE 3 stores the
    state numbers of the gotos on nonterminals. */
module Table {
  import opened Wrappers
  import opened GrammarModel
  import opened Automaton
  import opened Transitions
  import opened Collection
  import opened FirstFollow
  import opened Cells

  /** An entry of `G_indexed`: a head and one of its bodies; its position
      in the list is the production's number. */
  type Production = (Symbol, Body)

  /** A row of the table: column symbol -> cell. */
  type Row = map<Symbol, Cell>

  /** What `construct_table` reads from the parser: the augmented grammar,
      the canonical collection, the numbered productions and FOLLOW. */
  datatype Setting = Setting(g: Grammar, C: seq<ItemSet>, G: seq<Production>, follow: Sets)

  /** The test of CASE 2 b: production `p` belongs to the completed item
      `head -> body` when it has that head and its body is the item's body
      without the final dot, or is `("^",)` and the item is the lone dot. */
  predicate Matches(p: Production, head: Symbol, body: Dotted) {
    |body| > 0 && p.0 == head && (p.1 == body[..|body| - 1] || (p.1 == [Null] && body == [Dot]))
  }

  /** The first production at position `k` or later that matches. */
  function FirstMatchFrom(G: seq<Production>, head: Symbol, body: Dotted, k: nat): Option<nat>
    decreases |G| - k
  {
    if k >= |G| then None
    else if Matches(G[k], head, body) then Some(k)
    else FirstMatchFrom(G, head, body, k + 1)
  }

  /** The number CASE 2 b reduces by: the first matching production. */
  function FirstMatch(G: seq<Production>, head: Symbol, body: Dotted): Option<nat> {
    FirstMatchFrom(G, head, body, 0)
  }

  /** The writes of CASE 2 for the item `head -> body` of state `I`, as a
      map from column to action: a shift to the state `GOTO(I, X)` in the
      column of a terminal `X` after the dot (CASE 2 a); a reduce by the
      first matching production in every column of FOLLOW(head) for a
      completed item whose head is not the start symbol (CASE 2 b); and
      an accept in column "$" for every other item (CASE 2 c). */
  function ItemWrites(st: Setting, I: ItemSet, head: Symbol, body: Dotted): map<Symbol, Action> {
    match AfterDot(body)
    case Some(X) =>
      if X in st.g.terminals && GotoOf(st.g, I, X) in st.C
      then map[X := Shift(IndexOf(st.C, GotoOf(st.g, I, X)))]
      else map[]
    case None =>
      if |body| > 0 && body[|body| - 1] == Dot && Some(head) != st.g.start then
        match FirstMatch(st.G, head, body)
        case Some(j) => map f | f in Of(st.follow, head) :: Reduce(j)
        case None => map[]
      else map[EndMarker := Accept]
  }

  /** A row after the writes `W`, each applied to its text cell by `Put`. */
  function Apply(row: Row, W: map<Symbol, Action>): Row {
    map c | c in row :: if c in W && row[c].Text? then Text(Put(row[c].text, W[c])) else row[c]
  }

  /** A row after CASE 2 has visited the items of `order` in turn. */
  function RowAfter(st: Setting, I: ItemSet, row: Row, order: seq<Source>): Row
    decreases |order|
  {
    if order == [] then row
    else
      var p := order[|order| - 1];
      Apply(RowAfter(st, I, row, order[..|order| - 1]), ItemWrites(st, I, p.0, p.1))
  }

  /** `parse_table_symbols`: the terminals and "$" (the action columns),
      then the nonterminals other than the start symbol (the goto
      columns). */
  function Columns(g: Grammar): set<Symbol> {
    g.terminals + {EndMarker} + (g.nonterminals - (if g.start.Some? then {g.start.value} else {}))
  }

  /** A row before anything is written: every column empty. */
  function InitialRow(g: Grammar): Row {
    map c | c in Columns(g) :: Text("")
  }

  /** CASE 3 for the nonterminals in `K`: the number of each non-empty
      `GOTO(I, A)` that is listed in the collection. */
  function TargetsIn(st: Setting, I: ItemSet, K: set<Symbol>): map<Symbol, nat> {
    map A | A in K && GotoOf(st.g, I, A) in st.C :: IndexOf(st.C, GotoOf(st.g, I, A))
  }

  function Targets(st: Setting, I: ItemSet): map<Symbol, nat> {
    TargetsIn(st, I, st.g.nonterminals)
  }

  /** A row with the goto numbers `T` stored over its cells. */
  function WithGotos(row: Row, T: map<Symbol, nat>): Row {
    map c | c in row.Keys + T.Keys :: if c in T then Number(T[c]) else row[c]
  }

  /** The row of state `I` when CASE 2 visits its items in the order
      `order`. */
  function RowOf(st: Setting, I: ItemSet, order: seq<Source>): Row {
    WithGotos(RowAfter(st, I, InitialRow(st.g), order), Targets(st, I))
  }

  /** `order` lists every item of `I` exactly once: one of the orders in
      which the loops over `I.items()` and over each set of bodies may run. */
  ghost predicate Enumerates(order: seq<Source>, I: ItemSet) {
    && (forall i, j :: 0 <= i < j < |order| ==> order[i] != order[j])
    && (forall p :: p in order <==> p.0 in I && p.1 in I[p.0])
  }

  /** `row` is the row of state `I` for the item order `order`, and that
      order visits every item of `I` once. */
  ghost predicate Built(st: Setting, I: ItemSet, order: seq<Source>, row: Row) {
    Enumerates(order, I) && row == RowOf(st, I, order)
  }

  /** What the lookups of `construct_table` rely on: `GOTO` can compute
      closures, every non-empty `GOTO` of a state on a symbol is listed
      (`C.index`), every state's heads have a FOLLOW set and every FOLLOW
      set names columns (`parse_table[i][f]`), and no item is empty
      (`body[-1]`). */
  ghost predicate Ready(st: Setting) {
    && Complete(st.g)
    && (forall i :: 0 <= i < |st.C| ==> Collection.Closed(st.g, st.C, st.C[i], st.g.Symbols()))
    && (forall i :: 0 <= i < |st.C| ==> st.C[i].Keys <= st.follow.Keys)
    && (forall n :: n in st.follow ==> st.follow[n] <= st.g.terminals + {EndMarker})
    && (forall i, k :: 0 <= i < |st.C| && k in st.C[i] ==> [] !in st.C[i][k])
  }

  /** A row during CASE 2: every column present and every cell text. */
  ghost predicate Fit(g: Grammar, row: Row) {
    row.Keys == Columns(g) && forall c :: c in row ==> row[c].Text?
  }

  /** The items of `I` under the heads in `K`. */
  function Pairs(I: ItemSet, K: set<Symbol>): set<Source> {
    set k, b | k in I && k in K && b in I[k] :: (k, b)
  }

  function HeadPairs(head: Symbol, bodies: set<Dotted>): set<Source> {
    set b | b in bodies :: (head, b)
  }

  /** `order` lists the items `S`, each once. */
  ghost predicate Lists(order: seq<Source>, S: set<Source>) {
    && (forall i, j :: 0 <= i < j < |order| ==> order[i] != order[j])
    && (forall p :: p in order <==> p in S)
  }

  // ---------------------------------------------------------------------
  // construct_table as the source computes it.

  /** `construct_table()`: every row starts with every column empty; then
      each state's row is filled. The orders in which its loops visit the
      items of each state are returned beside the table. */
  method ConstructTable(st: Setting) returns (T: seq<Row>, orders: seq<seq<Source>>)
    requires Ready(st)
    ensures |T| == |st.C| && |orders| == |st.C|
    ensures forall i :: 0 <= i < |st.C| ==> Built(st, st.C[i], orders[i], T[i])
  {
    var init := map c | c in Columns(st.g) :: Text("");
    T, orders := [], [];
    var i := 0;
    while i < |st.C|
      invariant 0 <= i <= |st.C| && |T| == i && |orders| == i
      invariant forall k :: 0 <= k < i ==> Built(st, st.C[k], orders[k], T[k])
    {
      var row, order := TableRow(st, i, init);
      T, orders := T + [row], orders + [order];
      i := i + 1;
    }
  }

  /** Row `i`: CASE 2 for every item of state `i`, head by head and body
      by body, then CASE 3. */
  method TableRow(st: Setting, i: nat, init: Row) returns (row: Row, order: seq<Source>)
    requires Ready(st) && i < |st.C| && init == InitialRow(st.g)
    ensures Built(st, st.C[i], order, row)
  {
    var I := st.C[i];
    row, order := init, [];
    var heads := I.Keys;
    while heads != {}
      invariant heads <= I.Keys
      invariant Lists(order, Pairs(I, I.Keys - heads))
      invariant row == RowAfter(st, I, init, order) && Fit(st.g, row)
      decreases heads
    {
      var head :| head in heads;
      PairsAdd(I, I.Keys - heads, head);
      row, order := TableHead(st, i, head, row, order, init, Pairs(I, I.Keys - heads));
      assert I.Keys - (heads - {head}) == (I.Keys - heads) + {head};
      heads := heads - {head};
    }
    assert Pairs(I, I.Keys - heads) == Pairs(I, I.Keys);
    ListsAll(order, I);
    row := GotoCells(st, I, row);
  }

  /** The bodies of one head of state `i`. */
  method TableHead(st: Setting, i: nat, head: Symbol, row0: Row, order0: seq<Source>,
                   ghost init: Row, ghost done: set<Source>)
    returns (row: Row, order: seq<Source>)
    requires Ready(st) && i < |st.C| && head in st.C[i]
    requires Lists(order0, done) && done !! HeadPairs(head, st.C[i][head])
    requires row0 == RowAfter(st, st.C[i], init, order0) && Fit(st.g, row0)
    ensures Lists(order, done + HeadPairs(head, st.C[i][head]))
    ensures row == RowAfter(st, st.C[i], init, order) && Fit(st.g, row)
  {
    var I := st.C[i];
    row, order := row0, order0;
    var bodies := I[head];
    while bodies != {}
      invariant bodies <= I[head]
      invariant Lists(order, done + HeadPairs(head, I[head] - bodies))
      invariant row == RowAfter(st, I, init, order) && Fit(st.g, row)
      decreases bodies
    {
      var body :| body in bodies;
      HeadPairsNext(done, head, I[head], bodies, body);
      row, order := BodyStep(st, i, head, body, row, order, init, done + HeadPairs(head, I[head] - bodies));
      bodies := bodies - {body};
    }
    assert I[head] - bodies == I[head];
  }

  /** One body of the loop over bodies: the item is visited and listed. */
  method BodyStep(st: Setting, i: nat, head: Symbol, body: Dotted, row0: Row, order0: seq<Source>,
                  ghost init: Row, ghost S: set<Source>)
    returns (row: Row, order: seq<Source>)
    requires Ready(st) && i < |st.C| && head in st.C[i] && body in st.C[i][head]
    requires Lists(order0, S) && (head, body) !in S
    requires row0 == RowAfter(st, st.C[i], init, order0) && Fit(st.g, row0)
    ensures Lists(order, S + {(head, body)})
    ensures row == RowAfter(st, st.C[i], init, order) && Fit(st.g, row)
  {
    row := ItemStep(st, i, head, body, row0);
    order := order0 + [(head, body)];
    assert order[..|order| - 1] == order0;
    ListsSnoc(order0, S, (head, body));
  }

  /** CASE 2 for one item. */
  method ItemStep(st: Setting, i: nat, head: Symbol, body: Dotted, row: Row) returns (row': Row)
    requires Ready(st) && i < |st.C| && head in st.C[i] && body in st.C[i][head]
    requires Fit(st.g, row)
    ensures row' == Apply(row, ItemWrites(st, st.C[i], head, body)) && Fit(st.g, row')
  {
    var I := st.C[i];
    AfterDotAt(body);
    if DotBeforeLast(body) {
      var X := body[DotPos(body) + 1];
      if X in st.g.terminals {
        var J := Goto(st.g, I, X);
        GotoAdvances(st.g, I, X, head, body);
        assert Collection.Closed(st.g, st.C, I, st.g.Symbols());
        var s := ActionText(Shift(IndexOf(st.C, J)));
        var cell := row[X].text;
        if !Contains(cell, s) {
          if 'r' in cell {
            cell := cell + "/";
          }
          cell := cell + s;
        }
        row' := row[X := Text(cell)];
        ApplyOne(st.g, row, X, Shift(IndexOf(st.C, J)));
      } else {
        row' := row;
        ApplyNothing(st.g, row);
      }
    } else if body[|body| - 1] == Dot && Some(head) != st.g.start {
      var j := FindProduction(st.G, head, body);
      if j.Some? {
        row' := ReduceAll(st, i, head, j.value, row);
      } else {
        row' := row;
        ApplyNothing(st.g, row);
      }
    } else {
      row' := row[EndMarker := Text("acc")];
      ApplyOne(st.g, row, EndMarker, Accept);
    }
  }

  /** The loop over `G_indexed` of CASE 2 b, which stops at the first
      production that matches. */
  method FindProduction(G: seq<Production>, head: Symbol, body: Dotted) returns (r: Option<nat>)
    ensures r == FirstMatch(G, head, body)
  {
    var j := 0;
    while j < |G|
      invariant j <= |G|
      invariant FirstMatchFrom(G, head, body, j) == FirstMatch(G, head, body)
    {
      if Matches(G[j], head, body) {
        return Some(j);
      }
      j := j + 1;
    }
    return None;
  }

  /** The loop over FOLLOW(head) of CASE 2 b: a reduce is written in each
      of its columns, after a "/" when the cell is not empty. */
  method ReduceAll(st: Setting, i: nat, head: Symbol, j: nat, row: Row) returns (row': Row)
    requires Ready(st) && i < |st.C| && head in st.C[i] && Fit(st.g, row)
    ensures row' == Apply(row, map f | f in Of(st.follow, head) :: Reduce(j)) && Fit(st.g, row')
  {
    assert head in st.follow;
    var fs := st.follow[head];
    ghost var done: set<Symbol> := {};
    row' := row;
    ApplyNothing(st.g, row);
    assert (map f | f in done :: Reduce(j)) == map[];
    while fs != {}
      invariant fs + done == st.follow[head] && fs !! done
      invariant row' == Apply(row, map f | f in done :: Reduce(j)) && Fit(st.g, row')
      decreases fs
    {
      var f :| f in fs;
      var cell := row'[f].text;
      if cell != "" {
        cell := cell + "/";
      }
      cell := cell + ActionText(Reduce(j));
      ApplyAddReduce(st.g, row, done, f, j);
      row' := row'[f := Text(cell)];
      fs, done := fs - {f}, done + {f};
    }
  }

  /** CASE 3: the goto numbers of the nonterminals. */
  method GotoCells(st: Setting, I: ItemSet, row: Row) returns (row': Row)
    requires Complete(st.g)
    ensures row' == WithGotos(row, Targets(st, I))
  {
    var ns := st.g.nonterminals;
    ghost var done: set<Symbol> := {};
    row' := row;
    assert TargetsIn(st, I, done) == map[];
    assert WithGotos(row, map[]) == row;
    while ns != {}
      invariant ns + done == st.g.nonterminals && ns !! done
      invariant row' == WithGotos(row, TargetsIn(st, I, done))
      decreases ns
    {
      var A :| A in ns;
      var J := Goto(st.g, I, A);
      TargetsAdd(st, I, done, A);
      if J in st.C {
        WithGotosAdd(row, TargetsIn(st, I, done), A, IndexOf(st.C, J));
        row' := row'[A := Number(IndexOf(st.C, J))];
      }
      ns, done := ns - {A}, done + {A};
    }
  }

  // ---------------------------------------------------------------------
  // The steps of the loops, one cell at a time.

  lemma ApplyNothing(g: Grammar, row: Row)
    ensures Apply(row, map[]) == row
  {
  }

  lemma ApplyOne(g: Grammar, row: Row, c: Symbol, a: Action)
    requires Fit(g, row) && c in row
    ensures Apply(row, map[c := a]) == row[c := Text(Put(row[c].text, a))]
    ensures Fit(g, row[c := Text(Put(row[c].text, a))])
  {
  }

  lemma ApplyAddReduce(g: Grammar, row: Row, done: set<Symbol>, f: Symbol, j: nat)
    requires Fit(g, row) && f in row && f !in done
    ensures Apply(row, map x | x in done + {f} :: Reduce(j))
      == Apply(row, map x | x in done :: Reduce(j))[f := Text(Put(row[f].text, Reduce(j)))]
  {
  }

  lemma TargetsAdd(st: Setting, I: ItemSet, done: set<Symbol>, A: Symbol)
    requires A !in done
    ensures TargetsIn(st, I, done + {A}) ==
      if GotoOf(st.g, I, A) in st.C then TargetsIn(st, I, done)[A := IndexOf(st.C, GotoOf(st.g, I, A))]
      else TargetsIn(st, I, done)
  {
  }

  lemma WithGotosAdd(row: Row, T: map<Symbol, nat>, A: Symbol, n: nat)
    ensures WithGotos(row, T[A := n]) == WithGotos(row, T)[A := Number(n)]
  {
  }

  lemma PairsAdd(I: ItemSet, K: set<Symbol>, head: Symbol)
    requires head in I && head !in K
    ensures Pairs(I, K + {head}) == Pairs(I, K) + HeadPairs(head, I[head])
    ensures Pairs(I, K) !! HeadPairs(head, I[head])
  {
  }

  lemma HeadPairsNext(done: set<Source>, head: Symbol, B: set<Dotted>, bodies: set<Dotted>, b: Dotted)
    requires b in bodies && bodies <= B && done !! HeadPairs(head, B)
    ensures (head, b) !in done + HeadPairs(head, B - bodies)
    ensures done + HeadPairs(head, B - (bodies - {b})) == done + HeadPairs(head, B - bodies) + {(head, b)}
  {
    assert (head, b) in HeadPairs(head, B);
    assert B - (bodies - {b}) == (B - bodies) + {b};
  }

  lemma ListsSnoc(order: seq<Source>, S: set<Source>, p: Source)
    requires Lists(order, S) && p !in S
    ensures Lists(order + [p], S + {p})
  {
  }

  lemma ListsAll(order: seq<Source>, I: ItemSet)
    requires Lists(order, Pairs(I, I.Keys))
    ensures Enumerates(order, I)
  {
  }
}
