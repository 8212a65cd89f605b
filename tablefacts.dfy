/** What a filled row holds, whatever order the loops of `construct_table`
    visit a state's items in: each action cell is determined by the set of
    actions the state's items demand for that column, as far as the parser
    reads it (empty, a single action, a conflict and its kind), and each
    goto cell holds the number of the `GOTO` state. */
module TableFacts {
  import opened Wrappers
  import opened GrammarModel
  import opened Automaton
  import opened Transitions
  import opened FirstFollow
  import opened Cells
  import opened Table
  import Collection

  /** The writes of CASE 2 for item `p`. */
  function WritesOf(st: Setting, I: ItemSet, p: Source): map<Symbol, Action> {
    ItemWrites(st, I, p.0, p.1)
  }

  /** The actions CASE 2 writes into column `c`, in the order written,
      when it visits the items of `order`. */
  function ColumnActs(st: Setting, I: ItemSet, order: seq<Source>, c: Symbol): seq<Action>
    decreases |order|
  {
    if order == [] then []
    else
      var W := WritesOf(st, I, order[|order| - 1]);
      ColumnActs(st, I, order[..|order| - 1], c) + (if c in W then [W[c]] else [])
  }

  /** The actions the items of `I` demand in column `c`. */
  function Demand(st: Setting, I: ItemSet, c: Symbol): set<Action> {
    set k, b | k in I && b in I[k] && c in ItemWrites(st, I, k, b) :: ItemWrites(st, I, k, b)[c]
  }

  /** No item of `I` is `("^", ".")`: the only way two completed items can
      match the same production is for one of them to be that item. */
  ghost predicate NoNullItem(I: ItemSet) {
    forall k :: k in I ==> [Null, Dot] !in I[k]
  }

  /** Every item of `order` is an item of `I`, and none is listed twice. */
  ghost predicate ItemsOnce(order: seq<Source>, I: ItemSet) {
    && (forall i, j :: 0 <= i < j < |order| ==> order[i] != order[j])
    && (forall i :: 0 <= i < |order| ==> order[i].0 in I && order[i].1 in I[order[i].0])
  }

  // ---------------------------------------------------------------------
  // An action cell is the rendering of the actions written to it.

  /** A cell that starts empty holds the text of the actions written to it,
      in order; no column is added or removed. */
  lemma {:induction false} RowAfterCell(st: Setting, I: ItemSet, row: Row, order: seq<Source>, c: Symbol)
    requires c in row && row[c] == Text("")
    ensures RowAfter(st, I, row, order).Keys == row.Keys
    ensures RowAfter(st, I, row, order)[c] == Text(Render(ColumnActs(st, I, order, c)))
    decreases |order|
  {
    if order != [] {
      var order0 := order[..|order| - 1];
      RowAfterCell(st, I, row, order0, c);
      var acts0 := ColumnActs(st, I, order0, c);
      var W := WritesOf(st, I, order[|order| - 1]);
      if c in W {
        assert (acts0 + [W[c]])[..|acts0|] == acts0;
      } else {
        assert acts0 + [] == acts0;
      }
    }
  }

  /** Each action written comes from an item visited. */
  lemma {:induction false} ActsFrom(st: Setting, I: ItemSet, order: seq<Source>, c: Symbol, k: nat) returns (p: Source)
    requires k < |ColumnActs(st, I, order, c)|
    ensures p in order && c in WritesOf(st, I, p) && WritesOf(st, I, p)[c] == ColumnActs(st, I, order, c)[k]
    decreases |order|
  {
    var order0 := order[..|order| - 1];
    var acts0 := ColumnActs(st, I, order0, c);
    if k < |acts0| {
      p := ActsFrom(st, I, order0, c, k);
      var i :| 0 <= i < |order0| && order0[i] == p;
      assert order[i] == p;
    } else {
      p := order[|order| - 1];
    }
  }

  /** Each item visited that writes to the column has its action written. */
  lemma {:induction false} ActsHas(st: Setting, I: ItemSet, order: seq<Source>, c: Symbol, p: Source)
    requires p in order && c in WritesOf(st, I, p)
    ensures WritesOf(st, I, p)[c] in ColumnActs(st, I, order, c)
    decreases |order|
  {
    var order0 := order[..|order| - 1];
    if p != order[|order| - 1] {
      var i :| 0 <= i < |order| && order[i] == p;
      assert order0[i] == p;
      ActsHas(st, I, order0, c, p);
    }
  }

  /** Visiting every item once, the actions written are the ones demanded. */
  lemma ActsAreDemand(st: Setting, I: ItemSet, order: seq<Source>, c: Symbol)
    requires Enumerates(order, I)
    ensures forall a :: a in ColumnActs(st, I, order, c) <==> a in Demand(st, I, c)
  {
    var acts := ColumnActs(st, I, order, c);
    forall a | a in acts ensures a in Demand(st, I, c) {
      var k :| 0 <= k < |acts| && acts[k] == a;
      var p := ActsFrom(st, I, order, c, k);
      assert p.0 in I && p.1 in I[p.0];
    }
    forall a | a in Demand(st, I, c) ensures a in acts {
      var k, b :| k in I && b in I[k] && c in ItemWrites(st, I, k, b) && ItemWrites(st, I, k, b)[c] == a;
      ActsHas(st, I, order, c, (k, b));
    }
  }

  // ---------------------------------------------------------------------
  // The actions written to one column can be read back from its text.

  /** Every shift of a column is the shift to `GOTO(I, c)`. */
  lemma ShiftValue(st: Setting, I: ItemSet, p: Source, c: Symbol)
    ensures c in WritesOf(st, I, p) && WritesOf(st, I, p)[c].Shift? ==>
      GotoOf(st.g, I, c) in st.C && WritesOf(st, I, p)[c] == Shift(IndexOf(st.C, GotoOf(st.g, I, c)))
  {
  }

  /** Accept is written in column "$" only. */
  lemma AcceptColumn(st: Setting, I: ItemSet, p: Source, c: Symbol)
    ensures c in WritesOf(st, I, p) && WritesOf(st, I, p)[c] == Accept ==> c == EndMarker
  {
  }

  /** Two different completed items never reduce by the same production,
      unless one of them is `("^", ".")`. */
  lemma ReduceInjective(st: Setting, I: ItemSet, c: Symbol, p: Source, q: Source)
    requires p.0 in I && p.1 in I[p.0] && q.0 in I && q.1 in I[q.0] && NoNullItem(I)
    ensures (c in WritesOf(st, I, p) && c in WritesOf(st, I, q) && WritesOf(st, I, p)[c].Reduce?
             && WritesOf(st, I, p)[c] == WritesOf(st, I, q)[c]) ==> p == q
  {
    var Wp, Wq := WritesOf(st, I, p), WritesOf(st, I, q);
    if c in Wp && c in Wq && Wp[c].Reduce? && Wp[c] == Wq[c] {
      var j := Wp[c].prod;
      assert AfterDot(p.1).None? && FirstMatch(st.G, p.0, p.1) == Some(j);
      assert AfterDot(q.1).None? && FirstMatch(st.G, q.0, q.1) == Some(j);
      FirstMatchIs(st.G, p.0, p.1);
      FirstMatchIs(st.G, q.0, q.1);
      var b, b' := p.1, q.1;
      assert b[|b| - 1] == Dot && b'[|b'| - 1] == Dot;
      assert b == b[..|b| - 1] + [Dot] && b' == b'[..|b'| - 1] + [Dot];
      assert b != [Null, Dot] && b' != [Null, Dot];
    }
  }

  /** `FirstMatchFrom` finds the first matching production at `k` or later,
      and only fails when none matches. */
  lemma {:induction false} FirstMatchFromIs(G: seq<Production>, head: Symbol, body: Dotted, k: nat)
    ensures FirstMatchFrom(G, head, body, k).Some? ==>
      var j := FirstMatchFrom(G, head, body, k).value;
      k <= j < |G| && Matches(G[j], head, body) && forall i :: k <= i < j ==> !Matches(G[i], head, body)
    ensures FirstMatchFrom(G, head, body, k).None? ==> forall i :: k <= i < |G| ==> !Matches(G[i], head, body)
    decreases |G| - k
  {
    if k < |G| && !Matches(G[k], head, body) {
      FirstMatchFromIs(G, head, body, k + 1);
    }
  }

  /** `FirstMatch` is the least position of a matching production. */
  lemma FirstMatchIs(G: seq<Production>, head: Symbol, body: Dotted)
    ensures FirstMatch(G, head, body).Some? ==>
      var j := FirstMatch(G, head, body).value;
      j < |G| && Matches(G[j], head, body) && forall i :: 0 <= i < j ==> !Matches(G[i], head, body)
    ensures FirstMatch(G, head, body).None? <==> forall i :: 0 <= i < |G| ==> !Matches(G[i], head, body)
  {
    FirstMatchFromIs(G, head, body, 0);
  }

  /** No reduce is written twice to a column. */
  lemma {:induction false} ReducesOnce(st: Setting, I: ItemSet, order: seq<Source>, c: Symbol)
    requires ItemsOnce(order, I) && NoNullItem(I)
    ensures forall k, l :: 0 <= k < l < |ColumnActs(st, I, order, c)| && ColumnActs(st, I, order, c)[k].Reduce? ==>
      ColumnActs(st, I, order, c)[k] != ColumnActs(st, I, order, c)[l]
    decreases |order|
  {
    if order != [] {
      var order0 := order[..|order| - 1];
      var last := order[|order| - 1];
      assert ItemsOnce(order0, I);
      ReducesOnce(st, I, order0, c);
      var acts0 := ColumnActs(st, I, order0, c);
      var acts := ColumnActs(st, I, order, c);
      var W := WritesOf(st, I, last);
      if c in W {
        forall k | 0 <= k < |acts0| ensures acts0[k].Reduce? ==> acts0[k] != W[c] {
          var p := ActsFrom(st, I, order0, c, k);
          var i :| 0 <= i < |order0| && order0[i] == p;
          assert order[i] == p && p != last;
          ReduceInjective(st, I, c, p, last);
        }
        assert acts == acts0 + [W[c]];
      } else {
        assert acts == acts0;
      }
    }
  }

  /** The actions written to a column without an accept are tidy. */
  lemma ActsTidy(st: Setting, I: ItemSet, order: seq<Source>, c: Symbol)
    requires Enumerates(order, I) && NoNullItem(I) && Accept !in Demand(st, I, c)
    ensures Tidy(ColumnActs(st, I, order, c))
  {
    var acts := ColumnActs(st, I, order, c);
    ActsAreDemand(st, I, order, c);
    assert ItemsOnce(order, I) by {
      forall i | 0 <= i < |order| ensures order[i].0 in I && order[i].1 in I[order[i].0] {
        assert order[i] in order;
      }
    }
    ReducesOnce(st, I, order, c);
    forall k | 0 <= k < |acts| ensures acts[k].Shift? ==>
      GotoOf(st.g, I, c) in st.C && acts[k] == Shift(IndexOf(st.C, GotoOf(st.g, I, c))) {
      var p := ActsFrom(st, I, order, c, k);
      ShiftValue(st, I, p, c);
    }
    forall k | 0 <= k < |acts| ensures acts[k] != Accept {
      assert acts[k] in acts;
    }
  }

  // ---------------------------------------------------------------------
  // The action cells of a row.

  /** An action column: a terminal or "$", never a nonterminal. */
  ghost predicate ActionColumn(st: Setting, c: Symbol) {
    c in st.g.terminals + {EndMarker} && c !in st.g.nonterminals
  }

  /** The cell of an action column is the rendering of its actions, which
      are the ones demanded. */
  lemma ActionCell(st: Setting, I: ItemSet, order: seq<Source>, c: Symbol)
    requires Enumerates(order, I) && ActionColumn(st, c)
    ensures c in RowOf(st, I, order)
    ensures RowOf(st, I, order)[c] == Text(Render(ColumnActs(st, I, order, c)))
    ensures forall a :: a in ColumnActs(st, I, order, c) <==> a in Demand(st, I, c)
  {
    var init := InitialRow(st.g);
    assert c in Columns(st.g);
    RowAfterCell(st, I, init, order, c);
    ActsAreDemand(st, I, order, c);
    assert c !in Targets(st, I);
  }

  /** An action cell is empty exactly when no item demands an action in
      its column ("input cannot be parsed"). */
  lemma CellEmpty(st: Setting, I: ItemSet, order: seq<Source>, c: Symbol)
    requires Enumerates(order, I) && ActionColumn(st, c)
    ensures c in RowOf(st, I, order) && RowOf(st, I, order)[c].Text?
    ensures RowOf(st, I, order)[c].text == "" <==> Demand(st, I, c) == {}
  {
    ActionCell(st, I, order, c);
    var acts := ColumnActs(st, I, order, c);
    RenderEmpty(acts);
    if acts != [] {
      assert acts[0] in acts;
    }
  }

  /** A cell demanded a single action (and only once, if a reduce) holds
      that action's text: `sN` or `rJ`. */
  lemma CellSingle(st: Setting, I: ItemSet, order: seq<Source>, c: Symbol, a: Action)
    requires Enumerates(order, I) && ActionColumn(st, c) && NoNullItem(I)
    requires Demand(st, I, c) == {a} && a != Accept
    ensures c in RowOf(st, I, order)
    ensures RowOf(st, I, order)[c] == Text(ActionText(a))
  {
    ActionCell(st, I, order, c);
    var acts := ColumnActs(st, I, order, c);
    ActsTidy(st, I, order, c);
    assert a in acts;
    forall k | 0 <= k < |acts| ensures acts[k] == a {
      assert acts[k] in acts;
    }
    RenderSingle(acts, a);
  }

  /** A cell of a state demanding accept starts with `acc`. */
  lemma CellAccept(st: Setting, I: ItemSet, order: seq<Source>, c: Symbol)
    requires Enumerates(order, I) && ActionColumn(st, c) && Accept in Demand(st, I, c)
    ensures c == EndMarker && c in RowOf(st, I, order) && RowOf(st, I, order)[c].Text?
    ensures |RowOf(st, I, order)[c].text| >= 3 && RowOf(st, I, order)[c].text[..3] == "acc"
  {
    var k, b :| k in I && b in I[k] && c in ItemWrites(st, I, k, b) && ItemWrites(st, I, k, b)[c] == Accept;
    AcceptColumn(st, I, (k, b), c);
    ActionCell(st, I, order, c);
    RenderAccept(ColumnActs(st, I, order, c));
  }

  /** Without an accept, the text of a cell tells a conflict and its kind
      apart the way `LR_parser` reads it: a "/" exactly when two different
      actions are demanded, more than one `r` exactly when two different
      reduces are, and an `s` exactly when a shift is. */
  lemma CellConflict(st: Setting, I: ItemSet, order: seq<Source>, c: Symbol)
    requires Enumerates(order, I) && ActionColumn(st, c) && NoNullItem(I)
    requires Accept !in Demand(st, I, c)
    ensures c in RowOf(st, I, order) && RowOf(st, I, order)[c].Text?
    ensures '/' in RowOf(st, I, order)[c].text <==>
      exists a, a' :: a in Demand(st, I, c) && a' in Demand(st, I, c) && a != a'
    ensures Count(RowOf(st, I, order)[c].text, 'r') > 1 <==>
      exists j, j' :: Reduce(j) in Demand(st, I, c) && Reduce(j') in Demand(st, I, c) && j != j'
    ensures 's' in RowOf(st, I, order)[c].text <==> exists n :: Shift(n) in Demand(st, I, c)
  {
    ActionCell(st, I, order, c);
    var acts := ColumnActs(st, I, order, c);
    ActsTidy(st, I, order, c);
    RenderTidy(acts);
    TwoKindsDemand(st, I, order, c);
    ReducesDemand(st, I, order, c);
    ShiftsIn(acts, Demand(st, I, c));
  }

  lemma TwoKindsDemand(st: Setting, I: ItemSet, order: seq<Source>, c: Symbol)
    requires forall a :: a in ColumnActs(st, I, order, c) <==> a in Demand(st, I, c)
    ensures TwoKinds(ColumnActs(st, I, order, c)) <==>
      exists a, a' :: a in Demand(st, I, c) && a' in Demand(st, I, c) && a != a'
  {
    var acts := ColumnActs(st, I, order, c);
    if TwoKinds(acts) {
      var k, l :| 0 <= k < |acts| && 0 <= l < |acts| && acts[k] != acts[l];
      assert acts[k] in acts && acts[l] in acts;
    }
    if exists a, a' :: a in Demand(st, I, c) && a' in Demand(st, I, c) && a != a' {
      var a, a' :| a in Demand(st, I, c) && a' in Demand(st, I, c) && a != a';
      DemandedTwoKinds(ColumnActs(st, I, order, c), a, a');
    }
  }

  lemma DemandedTwoKinds(acts: seq<Action>, a: Action, a': Action)
    requires a in acts && a' in acts && a != a'
    ensures TwoKinds(acts)
  {
    var k :| 0 <= k < |acts| && acts[k] == a;
    var l :| 0 <= l < |acts| && acts[l] == a';
  }

  /** A list of actions with the same members as a set holds a shift
      exactly when the set does. */
  lemma ShiftsIn(acts: seq<Action>, D: set<Action>)
    requires forall a :: a in acts <==> a in D
    ensures (exists k :: 0 <= k < |acts| && acts[k].Shift?) <==> exists n :: Shift(n) in D
  {
    if exists k :: 0 <= k < |acts| && acts[k].Shift? {
      var k :| 0 <= k < |acts| && acts[k].Shift?;
      assert acts[k] in acts && acts[k] == Shift(acts[k].target);
    }
    if exists n :: Shift(n) in D {
      var n :| Shift(n) in D;
      assert Shift(n) in acts;
      var k :| 0 <= k < |acts| && acts[k] == Shift(n);
      assert acts[k].Shift?;
    }
  }

  lemma ReducesDemand(st: Setting, I: ItemSet, order: seq<Source>, c: Symbol)
    requires forall a :: a in ColumnActs(st, I, order, c) <==> a in Demand(st, I, c)
    requires Tidy(ColumnActs(st, I, order, c))
    ensures Reduces(ColumnActs(st, I, order, c)) > 1 <==>
      exists j, j' :: Reduce(j) in Demand(st, I, c) && Reduce(j') in Demand(st, I, c) && j != j'
  {
    var acts := ColumnActs(st, I, order, c);
    ReducesTwo(acts);
    if Reduces(acts) > 1 {
      var k, l :| 0 <= k < l < |acts| && acts[k].Reduce? && acts[l].Reduce?;
      TwoReducesDemanded(st, I, order, c, k, l);
    }
    if exists j, j' :: Reduce(j) in Demand(st, I, c) && Reduce(j') in Demand(st, I, c) && j != j' {
      var j, j' :| Reduce(j) in Demand(st, I, c) && Reduce(j') in Demand(st, I, c) && j != j';
      DemandedTwoReduces(st, I, order, c, j, j');
    }
  }

  lemma TwoReducesDemanded(st: Setting, I: ItemSet, order: seq<Source>, c: Symbol, k: nat, l: nat)
    requires forall a :: a in ColumnActs(st, I, order, c) <==> a in Demand(st, I, c)
    requires Tidy(ColumnActs(st, I, order, c))
    requires k < l < |ColumnActs(st, I, order, c)|
    requires ColumnActs(st, I, order, c)[k].Reduce? && ColumnActs(st, I, order, c)[l].Reduce?
    ensures exists j, j' :: Reduce(j) in Demand(st, I, c) && Reduce(j') in Demand(st, I, c) && j != j'
  {
    var acts := ColumnActs(st, I, order, c);
    var j, j' := acts[k].prod, acts[l].prod;
    assert acts[k] == Reduce(j) && acts[l] == Reduce(j');
    assert acts[k] in acts && acts[l] in acts;
  }

  lemma DemandedTwoReduces(st: Setting, I: ItemSet, order: seq<Source>, c: Symbol, j: nat, j': nat)
    requires forall a :: a in ColumnActs(st, I, order, c) <==> a in Demand(st, I, c)
    requires Reduce(j) in Demand(st, I, c) && Reduce(j') in Demand(st, I, c) && j != j'
    ensures exists k, l :: (0 <= k < l < |ColumnActs(st, I, order, c)|
      && ColumnActs(st, I, order, c)[k].Reduce? && ColumnActs(st, I, order, c)[l].Reduce?)
  {
    var acts := ColumnActs(st, I, order, c);
    assert Reduce(j) in acts && Reduce(j') in acts;
    var k :| 0 <= k < |acts| && acts[k] == Reduce(j);
    var l :| 0 <= l < |acts| && acts[l] == Reduce(j');
    if k < l {
      assert acts[k].Reduce? && acts[l].Reduce?;
    } else {
      assert acts[l].Reduce? && acts[k].Reduce?;
    }
  }

  /** Two reduces are counted exactly when two positions hold reduces. */
  lemma {:induction false} ReducesTwo(acts: seq<Action>)
    ensures Reduces(acts) > 1 <==> exists k, l :: 0 <= k < l < |acts| && acts[k].Reduce? && acts[l].Reduce?
    decreases |acts|
  {
    if acts != [] {
      var init := acts[..|acts| - 1];
      ReducesTwo(init);
      ReducesOne(init);
      if exists k, l :: 0 <= k < l < |acts| && acts[k].Reduce? && acts[l].Reduce? {
        var k, l :| 0 <= k < l < |acts| && acts[k].Reduce? && acts[l].Reduce?;
        if l < |init| {
          assert init[k].Reduce? && init[l].Reduce?;
        } else {
          assert init[k].Reduce?;
        }
      }
      if exists k, l :: 0 <= k < l < |init| && init[k].Reduce? && init[l].Reduce? {
        var k, l :| 0 <= k < l < |init| && init[k].Reduce? && init[l].Reduce?;
        assert acts[k].Reduce? && acts[l].Reduce?;
      }
      if Reduces(init) > 0 && acts[|acts| - 1].Reduce? {
        var k :| 0 <= k < |init| && init[k].Reduce?;
        assert acts[k].Reduce?;
      }
    }
  }

  /** A reduce is counted exactly when some position holds one. */
  lemma {:induction false} ReducesOne(acts: seq<Action>)
    ensures Reduces(acts) > 0 <==> exists k :: 0 <= k < |acts| && acts[k].Reduce?
    decreases |acts|
  {
    if acts != [] {
      var init := acts[..|acts| - 1];
      ReducesOne(init);
      if exists k :: 0 <= k < |init| && init[k].Reduce? {
        var k :| 0 <= k < |init| && init[k].Reduce?;
        assert acts[k].Reduce?;
      }
      if exists k :: 0 <= k < |acts| && acts[k].Reduce? {
        var k :| 0 <= k < |acts| && acts[k].Reduce?;
        if k < |init| {
          assert init[k].Reduce?;
        }
      }
    }
  }

  // ---------------------------------------------------------------------
  // What each kind of item demands (the SLR rules of CASE 2).

  /** An item whose dot is last and that is not the start item. */
  predicate Completed(st: Setting, head: Symbol, b: Dotted) {
    AfterDot(b).None? && |b| > 0 && b[|b| - 1] == Dot && Some(head) != st.g.start
  }

  /** CASE 2a: an item with the dot before a terminal `a` demands, in column
      `a`, the shift to the state `GOTO(I, a)`, which is listed. */
  lemma ShiftDemanded(st: Setting, I: ItemSet, k: Symbol, b: Dotted, a: Symbol)
    requires Collection.Closed(st.g, st.C, I, st.g.Symbols())
    requires k in I && b in I[k] && AfterDot(b) == Some(a) && a in st.g.terminals
    ensures GotoOf(st.g, I, a) in st.C
    ensures Shift(IndexOf(st.C, GotoOf(st.g, I, a))) in Demand(st, I, a)
  {
    GotoAdvances(st.g, I, a, k, b);
    assert GotoOf(st.g, I, a) != map[];
    assert ItemWrites(st, I, k, b)[a] == Shift(IndexOf(st.C, GotoOf(st.g, I, a)));
  }

  /** Conversely, a shift is demanded only in a terminal's column, by an
      item with the dot before that terminal, and only to `GOTO(I, c)`. */
  lemma ShiftDemandedOnly(st: Setting, I: ItemSet, c: Symbol, n: nat)
    requires Shift(n) in Demand(st, I, c)
    ensures c in st.g.terminals && Sources(I, c) != {}
    ensures GotoOf(st.g, I, c) in st.C && n == IndexOf(st.C, GotoOf(st.g, I, c)) && st.C[n] == GotoOf(st.g, I, c)
  {
    var k, b :| k in I && b in I[k] && c in ItemWrites(st, I, k, b) && ItemWrites(st, I, k, b)[c] == Shift(n);
    assert (k, b) in Sources(I, c);
  }

  /** CASE 2b: a completed item demands, in every column of FOLLOW(head),
      the reduce by the first production of `G` it matches. */
  lemma ReduceDemanded(st: Setting, I: ItemSet, k: Symbol, b: Dotted, f: Symbol)
    requires k in I && b in I[k] && Completed(st, k, b)
    requires FirstMatch(st.G, k, b).Some? && f in Of(st.follow, k)
    ensures Reduce(FirstMatch(st.G, k, b).value) in Demand(st, I, f)
  {
    assert ItemWrites(st, I, k, b)[f] == Reduce(FirstMatch(st.G, k, b).value);
  }

  /** Conversely, a reduce by `G[j]` is demanded only by a completed item
      of the head of `G[j]` that `G[j]` matches, and no earlier production
      of `G` matches, in a column of FOLLOW of that head. */
  lemma ReduceDemandedOnly(st: Setting, I: ItemSet, c: Symbol, j: nat)
    requires Reduce(j) in Demand(st, I, c)
    ensures j < |st.G| && st.G[j].0 in I && c in Of(st.follow, st.G[j].0)
    ensures exists b :: b in I[st.G[j].0] && Completed(st, st.G[j].0, b) && FirstMatch(st.G, st.G[j].0, b) == Some(j)
    ensures forall b :: b in I[st.G[j].0] && FirstMatch(st.G, st.G[j].0, b) == Some(j) ==>
      Matches(st.G[j], st.G[j].0, b) && forall i :: 0 <= i < j ==> !Matches(st.G[i], st.G[j].0, b)
  {
    var k, b :| k in I && b in I[k] && c in ItemWrites(st, I, k, b) && ItemWrites(st, I, k, b)[c] == Reduce(j);
    FirstMatchIs(st.G, k, b);
    assert st.G[j].0 == k;
    forall b' | b' in I[k] && FirstMatch(st.G, k, b') == Some(j)
      ensures Matches(st.G[j], k, b') && forall i :: 0 <= i < j ==> !Matches(st.G[i], k, b')
    {
      FirstMatchIs(st.G, k, b');
    }
  }

  /** CASE 2c: accept is demanded, in column "$" only, exactly by the items
      with no symbol after the dot that are not completed items, as the
      start item `S' -> S .` is. */
  lemma AcceptDemanded(st: Setting, I: ItemSet, c: Symbol)
    ensures Accept in Demand(st, I, c) <==>
      c == EndMarker && exists k, b :: k in I && b in I[k] && AfterDot(b).None? && !Completed(st, k, b)
  {
    if c == EndMarker && exists k, b :: k in I && b in I[k] && AfterDot(b).None? && !Completed(st, k, b) {
      var k, b :| k in I && b in I[k] && AfterDot(b).None? && !Completed(st, k, b);
      assert ItemWrites(st, I, k, b)[c] == Accept;
    }
  }

  /** Every production of the grammar has a position in `G`. */
  ghost predicate Indexes(G: seq<Production>, g: Grammar) {
    forall k, body :: k in g.prods && body in g.prods[k] ==> (k, body) in G
  }

  /** In a state whose items come from the grammar's productions, every
      completed item matches a production of `G`, so CASE 2b always finds
      one. */
  lemma CompletedMatches(st: Setting, I: ItemSet, k: Symbol, b: Dotted)
    requires st.g.start.Some? && Collection.Bounded(st.g, st.g.start.value, I) && Indexes(st.G, st.g)
    requires k in I && b in I[k] && AfterDot(b).None? && Some(k) != st.g.start
    ensures Completed(st, k, b) && FirstMatch(st.G, k, b).Some?
  {
    var s := st.g.start.value;
    assert (k, b) in Collection.Dottings(st.g, s);
    var q, d :| q in Collection.Bases(st.g, s) && 0 <= d <= |q.1| && Dot !in q.1[..d]
      && (k, b) == (q.0, Collection.Insert(q.1, d));
    var body :| body in st.g.prods[k] && q.1 == BodySymbols(body);
    AfterDotAt(b);
    assert b[d] == Dot;
    assert forall i :: 0 <= i < |b| - 1 ==> b[..|b| - 1][i] == b[i];
    assert d == |q.1|;
    assert b[..|b| - 1] == q.1;
    var j :| 0 <= j < |st.G| && st.G[j] == (k, body);
    assert Matches(st.G[j], k, b);
    FirstMatchIs(st.G, k, b);
  }

  /** A state of the augmented grammar holds no item `("^", ".")`: every
      item comes from a body other than `("^",)` or from the start item. */
  lemma BoundedNoNullItem(g: Grammar, s: Symbol, I: ItemSet)
    requires Collection.Bounded(g, s, I) && Collection.DropLast(s) != Null
    ensures NoNullItem(I)
  {
    forall q, d | q in Collection.Bases(g, s) && 0 <= d <= |q.1|
      ensures Collection.Insert(q.1, d) != [Null, Dot]
    {
      BasesNoNull(g, s, q);
      var b := Collection.Insert(q.1, d);
      assert |b| == |q.1| + 1;
      if |q.1| == 1 {
        if d == 0 {
          assert b[0] == Dot;
        } else {
          assert b[0] == q.1[0];
        }
      }
    }
  }

  lemma BasesNoNull(g: Grammar, s: Symbol, q: (Symbol, seq<Symbol>))
    requires q in Collection.Bases(g, s) && Collection.DropLast(s) != Null
    ensures q.1 != [Null]
  {
    if q != (s, [Collection.DropLast(s)]) {
      var k, body :| k in g.prods && body in g.prods[k] && q == (k, BodySymbols(body));
    }
  }

  // ---------------------------------------------------------------------
  // The goto cells of a row.

  /** Only terminals and "$" are written by CASE 2. */
  lemma NoDemandOn(st: Setting, I: ItemSet, A: Symbol)
    requires A !in st.g.terminals && A != EndMarker
    requires forall n :: n in st.follow ==> st.follow[n] <= st.g.terminals + {EndMarker}
    ensures Demand(st, I, A) == {}
  {
    forall k, b | k in I && b in I[k] ensures A !in ItemWrites(st, I, k, b) {
      assert A !in Of(st.follow, k);
    }
  }

  lemma FirstWritten(acts: seq<Action>)
    ensures acts == [] || acts[0] in acts
  {
  }

  /** CASE 2 adds no column. */
  lemma {:induction false} RowAfterKeys(st: Setting, I: ItemSet, row: Row, order: seq<Source>)
    ensures RowAfter(st, I, row, order).Keys == row.Keys
    decreases |order|
  {
    if order != [] {
      RowAfterKeys(st, I, row, order[..|order| - 1]);
    }
  }

  /** CASE 3: the column of a nonterminal holds the number of the state
      `GOTO(I, A)` when that state is listed; otherwise it stays empty,
      and the start symbol, which has no column, gets none. */
  lemma GotoCell(st: Setting, I: ItemSet, order: seq<Source>, A: Symbol)
    requires Enumerates(order, I) && A in st.g.nonterminals && A !in st.g.terminals && A != EndMarker
    requires forall n :: n in st.follow ==> st.follow[n] <= st.g.terminals + {EndMarker}
    ensures GotoOf(st.g, I, A) in st.C ==>
      A in RowOf(st, I, order) && RowOf(st, I, order)[A] == Number(IndexOf(st.C, GotoOf(st.g, I, A)))
    ensures GotoOf(st.g, I, A) !in st.C ==> (A in RowOf(st, I, order) <==> Some(A) != st.g.start)
    ensures GotoOf(st.g, I, A) !in st.C && A in RowOf(st, I, order) ==> RowOf(st, I, order)[A] == Text("")
  {
    var init := InitialRow(st.g);
    RowAfterKeys(st, I, init, order);
    if GotoOf(st.g, I, A) !in st.C && A in Columns(st.g) {
      RowAfterCell(st, I, init, order, A);
      ActsAreDemand(st, I, order, A);
      NoDemandOn(st, I, A);
      var acts := ColumnActs(st, I, order, A);
      FirstWritten(acts);
      RenderEmpty(acts);
    }
  }
}
