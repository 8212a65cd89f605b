/** `items`: the canonical collection of sets of LR(0) items of the
    augmented grammar, as a list of states numbered in order of discovery. */
module Collection {
  import opened Wrappers
  import opened GrammarModel
  import opened Automaton
  import opened Transitions

  /** `s[:-1]`: the string without its last character. */
  function DropLast(s: string): string {
    if |s| == 0 then s else s[..|s| - 1]
  }

  /** The kernel of state 0, `{S': {('.', S)}}`: `S'` is the start symbol
      of the augmented grammar and `S` is `S'` without its last character. */
  function Kernel0(s: Symbol): ItemSet {
    map[s := {[Dot, DropLast(s)]}]
  }

  /** State 0. */
  function State0(g: Grammar, s: Symbol): ItemSet {
    ClosureOf(g, Kernel0(s), [s])
  }

  /** The `GOTO` of an earlier state on a symbol of the grammar, and not
      empty: how every state after the first is found. */
  ghost predicate NewFrom(g: Grammar, C: seq<ItemSet>, n: int, J: ItemSet) {
    J != map[] &&
    exists j, X :: 0 <= j < n && j < |C| && X in g.Symbols() && J == GotoOf(g, C[j], X)
  }

  /** No state is listed twice (`goto not in C`). */
  predicate Distinct(C: seq<ItemSet>) {
    forall i, j :: 0 <= i < j < |C| ==> C[i] != C[j]
  }

  /** Every non-empty `GOTO(I, X)` on a symbol in `Xs` is listed in `C`. */
  ghost predicate Closed(g: Grammar, C: seq<ItemSet>, I: ItemSet, Xs: set<Symbol>) {
    forall X :: X in Xs ==> GotoOf(g, I, X) == map[] || GotoOf(g, I, X) in C
  }

  /** What `items` returns: state 0 first, no state twice, no empty state,
      every later state the `GOTO` of an earlier one, and every non-empty
      `GOTO` of a state listed. */
  ghost predicate Canonical(g: Grammar, s: Symbol, C: seq<ItemSet>) {
    && |C| > 0
    && C[0] == State0(g, s)
    && C[0] != map[]
    && Distinct(C)
    && (forall i :: 0 < i < |C| ==> NewFrom(g, C, i, C[i]))
    && (forall i :: 0 <= i < |C| ==> Closed(g, C, C[i], g.Symbols()))
  }

  /** `C'` is `C` with states appended, each new and found from a state of
      `C`. */
  ghost predicate Grows(g: Grammar, C: seq<ItemSet>, C': seq<ItemSet>) {
    && |C| <= |C'|
    && C'[..|C|] == C
    && Distinct(C')
    && (forall i :: |C| <= i < |C'| ==> NewFrom(g, C, |C|, C'[i]))
  }

  // ---------------------------------------------------------------------
  // items as the source computes it.

  /** `items(G')`: start from the closure of `{S': {('.', S)}}` and, pass
      after pass, append every non-empty `GOTO` of a listed state that is not
      listed yet, until a pass appends nothing. */
  method Items(g: Grammar) returns (C: seq<ItemSet>)
    requires Complete(g) && g.start.Some?
    ensures Canonical(g, g.start.value, C)
    ensures forall i :: 0 <= i < |C| ==> Bounded(g, g.start.value, C[i])
  {
    var s := g.start.value;
    var c0 := Closure(g, [s], Kernel0(s));
    ClosureKeeps(g, Kernel0(s), [s]);
    State0Bounded(g, s);
    C := [c0];
    while true
      invariant |C| > 0 && C[0] == State0(g, s) && C[0] != map[] && Distinct(C)
      invariant forall i :: 0 < i < |C| ==> NewFrom(g, C, i, C[i])
      invariant forall i :: 0 <= i < |C| ==> Bounded(g, s, C[i])
      decreases |Codes(g, s)| - |C|
    {
      CountBounded(g, s, C);
      var itemLen := |C|;
      ghost var C0 := C;
      C := ItemsPass(g, C);
      GrowsKeeps(g, s, C0, C);
      if itemLen == |C| {
        assert C == C0;
        return;
      }
    }
  }

  /** One pass: every state listed when the pass starts, on every symbol. */
  method ItemsPass(g: Grammar, C: seq<ItemSet>) returns (C': seq<ItemSet>)
    requires Complete(g) && Distinct(C)
    ensures Grows(g, C, C')
    ensures forall j :: 0 <= j < |C| ==> Closed(g, C', C[j], g.Symbols())
  {
    C' := C;
    var i := 0;
    while i < |C|
      invariant 0 <= i <= |C| && Grows(g, C, C')
      invariant forall j :: 0 <= j < i ==> Closed(g, C', C[j], g.Symbols())
    {
      ghost var C0 := C';
      C' := ItemsState(g, C, i, C');
      ClosedAllGrow(g, C, C0, C', i);
      i := i + 1;
    }
  }

  /** All symbols for one state `C[i]`. */
  method ItemsState(g: Grammar, C: seq<ItemSet>, i: nat, C0: seq<ItemSet>) returns (C': seq<ItemSet>)
    requires Complete(g) && i < |C| && Grows(g, C, C0)
    ensures Grows(g, C, C') && C0 <= C' && Closed(g, C', C[i], g.Symbols())
  {
    C' := C0;
    var todo := g.Symbols();
    while todo != {}
      invariant todo <= g.Symbols()
      invariant Grows(g, C, C') && C0 <= C' && Closed(g, C', C[i], g.Symbols() - todo)
      decreases todo
    {
      var X :| X in todo;
      ghost var C1 := C';
      C' := ItemsSymbol(g, C, i, X, C');
      ClosedGrows(g, C1, C', C[i], g.Symbols() - todo);
      todo := todo - {X};
    }
  }

  /** One state and one symbol: `goto = GOTO(I, X)`, appended when it is
      non-empty and not listed yet. */
  method ItemsSymbol(g: Grammar, C: seq<ItemSet>, i: nat, X: Symbol, C0: seq<ItemSet>)
    returns (C': seq<ItemSet>)
    requires Complete(g) && i < |C| && X in g.Symbols() && Grows(g, C, C0)
    ensures Grows(g, C, C') && C0 <= C'
    ensures GotoOf(g, C[i], X) == map[] || GotoOf(g, C[i], X) in C'
  {
    var goto := Goto(g, C[i], X);
    if goto != map[] && goto !in C0 {
      AppendGrows(g, C, C0, i, X);
      C' := C0 + [goto];
    } else {
      C' := C0;
    }
  }

  lemma AppendGrows(g: Grammar, C: seq<ItemSet>, C0: seq<ItemSet>, i: nat, X: Symbol)
    requires i < |C| && X in g.Symbols() && Grows(g, C, C0)
    requires GotoOf(g, C[i], X) != map[] && GotoOf(g, C[i], X) !in C0
    ensures var C' := C0 + [GotoOf(g, C[i], X)];
      Grows(g, C, C') && C0 <= C' && GotoOf(g, C[i], X) in C'
  {
    var J := GotoOf(g, C[i], X);
    var C' := C0 + [J];
    assert C'[..|C|] == C0[..|C|];
    assert NewFrom(g, C, |C|, J);
    assert C'[|C0|] == J;
  }

  lemma ClosedAllGrow(g: Grammar, C: seq<ItemSet>, C0: seq<ItemSet>, C': seq<ItemSet>, i: nat)
    requires i < |C| && C0 <= C' && Closed(g, C', C[i], g.Symbols())
    requires forall j :: 0 <= j < i ==> Closed(g, C0, C[j], g.Symbols())
    ensures forall j :: 0 <= j < i + 1 ==> Closed(g, C', C[j], g.Symbols())
  {
    forall j | 0 <= j < i ensures Closed(g, C', C[j], g.Symbols()) {
      ClosedGrows(g, C0, C', C[j], g.Symbols());
    }
  }

  lemma ClosedGrows(g: Grammar, C: seq<ItemSet>, C': seq<ItemSet>, I: ItemSet, Xs: set<Symbol>)
    requires C <= C' && Closed(g, C, I, Xs)
    ensures Closed(g, C', I, Xs)
  {
    forall X | X in Xs && GotoOf(g, I, X) in C ensures GotoOf(g, I, X) in C' {
      var j :| 0 <= j < |C| && C[j] == GotoOf(g, I, X);
      assert C'[j] == C[j];
    }
  }

  // ---------------------------------------------------------------------
  // Why the loop ends: every state is drawn from a finite universe.

  /** `s` with the dot inserted before position `d`. */
  function Insert(s: seq<Symbol>, d: nat): Dotted
    requires d <= |s|
  {
    s[..d] + [Dot] + s[d..]
  }

  /** The symbol strings items are made of: the productions' bodies and the
      body of the kernel of state 0. */
  function Bases(g: Grammar, s: Symbol): set<(Symbol, seq<Symbol>)> {
    (set k, body | k in g.prods && body in g.prods[k] :: (k, BodySymbols(body)))
      + {(s, [DropLast(s)])}
  }

  /** Every item a state can hold: a base with a dot inserted, no dot before
      it. */
  function Dottings(g: Grammar, s: Symbol): set<Source> {
    set q, d | q in Bases(g, s) && 0 <= d <= |q.1| && Dot !in q.1[..d] :: (q.0, Insert(q.1, d))
  }

  function KeyRange(g: Grammar, s: Symbol): set<Symbol> {
    g.prods.Keys + g.nonterminals + {s}
  }

  ghost predicate Bounded(g: Grammar, s: Symbol, I: ItemSet) {
    && I.Keys <= KeyRange(g, s)
    && forall k, b :: k in I && b in I[k] ==> (k, b) in Dottings(g, s)
  }

  /** A state as a pair of finite sets: its keys and its items. */
  function Code(I: ItemSet): (set<Symbol>, set<Source>) {
    (I.Keys, set k, b | k in I && b in I[k] :: (k, b))
  }

  function Codes(g: Grammar, s: Symbol): set<(set<Symbol>, set<Source>)> {
    set ks, F | ks <= KeyRange(g, s) && F <= Dottings(g, s) :: (ks, F)
  }

  function CodesOf(C: seq<ItemSet>): set<(set<Symbol>, set<Source>)> {
    set i | 0 <= i < |C| :: Code(C[i])
  }

  /** A start item `N -> . β` is a dotting. */
  lemma StartBounded(g: Grammar, s: Symbol, n: Symbol, b: Dotted)
    requires b in Start(g, n)
    ensures (n, b) in Dottings(g, s)
  {
    var body :| body in g.prods[n] && b == StartBody(body);
    assert (n, BodySymbols(body)) in Bases(g, s);
    assert b == Insert(BodySymbols(body), 0);
  }

  /** Moving the dot of a dotting keeps it a dotting. */
  lemma AdvanceBounded(g: Grammar, s: Symbol, k: Symbol, b: Dotted)
    requires (k, b) in Dottings(g, s) && DotBeforeLast(b)
    ensures (k, Advance(b)) in Dottings(g, s)
  {
    var q, d :| q in Bases(g, s) && 0 <= d <= |q.1| && Dot !in q.1[..d] && (k, b) == (q.0, Insert(q.1, d));
    AdvanceInsert(q.1, d);
  }

  /** The dot inserted at `d` is the first one, and moving it gives the
      dot inserted at `d + 1`, or, when the next symbol is itself a dot
      symbol, the same sequence. */
  lemma AdvanceInsert(w: seq<Symbol>, d: nat)
    requires d <= |w| && Dot !in w[..d] && DotBeforeLast(Insert(w, d))
    ensures d < |w|
    ensures w[d] == Dot ==> Advance(Insert(w, d)) == Insert(w, d)
    ensures w[d] != Dot ==> Dot !in w[..d + 1] && Advance(Insert(w, d)) == Insert(w, d + 1)
  {
    AdvanceInserted(w, d);
    assert w[..d + 1] == w[..d] + [w[d]];
    if w[d] == Dot {
      assert Insert(w, d) == w[..d] + [Dot, w[d]] + w[d + 1..];
    } else {
      assert Insert(w, d + 1) == w[..d] + [w[d], Dot] + w[d + 1..];
    }
  }

  /** The dot inserted at `d` is the one `Advance` moves past `w[d]`. */
  lemma AdvanceInserted(w: seq<Symbol>, d: nat)
    requires d <= |w| && Dot !in w[..d] && DotBeforeLast(Insert(w, d))
    ensures d < |w| && Advance(Insert(w, d)) == w[..d] + [w[d], Dot] + w[d + 1..]
  {
    var b := Insert(w, d);
    assert b[..d] == w[..d] && b[d] == Dot;
    assert DotPos(b) == d;
    assert b[d + 1] == w[d] && b[d + 2..] == w[d + 1..];
  }

  lemma ClosureBounded(g: Grammar, s: Symbol, I: ItemSet, ks: seq<Symbol>)
    requires Bounded(g, s, I)
    ensures Bounded(g, s, ClosureOf(g, I, ks))
  {
    ClosureKeys(g, I, ks);
    ClosureAddsStartItems(g, I, ks);
    var C := ClosureOf(g, I, ks);
    forall k, b | k in C && b in C[k] ensures (k, b) in Dottings(g, s) {
      if !(k in I && b in I[k]) {
        StartBounded(g, s, k, b);
      }
    }
  }

  lemma State0Bounded(g: Grammar, s: Symbol)
    ensures Bounded(g, s, State0(g, s))
  {
    assert (s, [DropLast(s)]) in Bases(g, s);
    assert [Dot, DropLast(s)] == Insert([DropLast(s)], 0);
    ClosureBounded(g, s, Kernel0(s), [s]);
  }

  lemma GotoBounded(g: Grammar, s: Symbol, I: ItemSet, X: Symbol)
    requires Bounded(g, s, I)
    ensures Bounded(g, s, GotoOf(g, I, X))
  {
    GotoKeys(g, I, X);
    var G := GotoOf(g, I, X);
    forall h, c | h in G && c in G[h] ensures (h, c) in Dottings(g, s) {
      GotoItems(g, I, X, h, c);
      if h in g.nonterminals && c in Start(g, h) {
        StartBounded(g, s, h, c);
      } else {
        var b :| b in Lookup(I, h) && AfterDot(b) == Some(X) && c == Advance(b);
        AfterDotAt(b);
        AdvanceBounded(g, s, h, b);
      }
    }
  }

  lemma GrowsKeeps(g: Grammar, s: Symbol, C: seq<ItemSet>, C': seq<ItemSet>)
    requires Grows(g, C, C') && forall i :: 0 <= i < |C| ==> Bounded(g, s, C[i])
    requires forall i :: 0 < i < |C| ==> NewFrom(g, C, i, C[i])
    ensures forall i :: 0 <= i < |C'| ==> Bounded(g, s, C'[i])
    ensures forall i :: 0 < i < |C'| ==> NewFrom(g, C', i, C'[i])
  {
    forall i | 0 <= i < |C'| ensures Bounded(g, s, C'[i]) && (0 < i ==> NewFrom(g, C', i, C'[i])) {
      if i < |C| {
        GrowsKeepsOld(g, s, C, C', i);
      } else {
        GrowsKeepsNew(g, s, C, C', i);
      }
    }
  }

  lemma GrowsKeepsOld(g: Grammar, s: Symbol, C: seq<ItemSet>, C': seq<ItemSet>, i: nat)
    requires Grows(g, C, C') && i < |C| && Bounded(g, s, C[i]) && (0 < i ==> NewFrom(g, C, i, C[i]))
    ensures Bounded(g, s, C'[i]) && (0 < i ==> NewFrom(g, C', i, C'[i]))
  {
    assert C'[i] == C'[..|C|][i] == C[i];
    if 0 < i {
      var j, X :| 0 <= j < i && j < |C| && X in g.Symbols() && C[i] == GotoOf(g, C[j], X);
      assert C'[j] == C'[..|C|][j] == C[j];
      assert 0 <= j < i && j < |C'| && X in g.Symbols() && C'[i] == GotoOf(g, C'[j], X);
    }
  }

  lemma GrowsKeepsNew(g: Grammar, s: Symbol, C: seq<ItemSet>, C': seq<ItemSet>, i: nat)
    requires Grows(g, C, C') && |C| <= i < |C'| && forall k :: 0 <= k < |C| ==> Bounded(g, s, C[k])
    ensures Bounded(g, s, C'[i]) && NewFrom(g, C', i, C'[i])
  {
    var j, X :| 0 <= j < |C| && j < |C| && X in g.Symbols() && C'[i] == GotoOf(g, C[j], X);
    GotoBounded(g, s, C[j], X);
    assert C'[j] == C'[..|C|][j] == C[j];
    assert 0 <= j < i && j < |C'| && X in g.Symbols() && C'[i] == GotoOf(g, C'[j], X);
  }

  lemma CodeInjective(I: ItemSet, J: ItemSet)
    requires Code(I) == Code(J)
    ensures I == J
  {
    assert I.Keys == J.Keys;
    forall k | k in I ensures I[k] == J[k] {
      forall b ensures b in I[k] <==> b in J[k] {
        assert b in I[k] <==> (k, b) in Code(I).1;
        assert b in J[k] <==> (k, b) in Code(J).1;
      }
    }
  }

  lemma {:induction false} CodesOfCard(C: seq<ItemSet>)
    requires Distinct(C)
    ensures |CodesOf(C)| == |C|
  {
    if |C| > 0 {
      var n := |C| - 1;
      assert Distinct(C[..n]);
      CodesOfCard(C[..n]);
      CodesOfSnoc(C);
      CodeNew(C);
    }
  }

  lemma CodesOfSnoc(C: seq<ItemSet>)
    requires |C| > 0
    ensures CodesOf(C) == CodesOf(C[..|C| - 1]) + {Code(C[|C| - 1])}
  {
    var n := |C| - 1;
    forall c | c in CodesOf(C) ensures c in CodesOf(C[..n]) + {Code(C[n])} {
      var i :| 0 <= i < |C| && c == Code(C[i]);
      if i < n {
        assert C[..n][i] == C[i];
      }
    }
  }

  lemma CodeNew(C: seq<ItemSet>)
    requires Distinct(C) && |C| > 0
    ensures Code(C[|C| - 1]) !in CodesOf(C[..|C| - 1])
  {
    var n := |C| - 1;
    forall i | 0 <= i < n ensures Code(C[..n][i]) != Code(C[n]) {
      if Code(C[..n][i]) == Code(C[n]) {
        CodeInjective(C[i], C[n]);
      }
    }
  }

  /** Distinct states from the universe are no more than its size. */
  lemma CountBounded(g: Grammar, s: Symbol, C: seq<ItemSet>)
    requires Distinct(C) && forall i :: 0 <= i < |C| ==> Bounded(g, s, C[i])
    ensures |C| <= |Codes(g, s)|
  {
    CodesOfCard(C);
    forall c | c in CodesOf(C) ensures c in Codes(g, s) {
      var i :| 0 <= i < |C| && c == Code(C[i]);
      assert Bounded(g, s, C[i]);
    }
    SubsetCard(CodesOf(C), Codes(g, s));
  }

  // ---------------------------------------------------------------------
  // What the collection is: exactly the non-empty states reachable from
  // state 0.

  /** The state reached from `I` along the symbols `xs`. */
  ghost function Walk(g: Grammar, I: ItemSet, xs: seq<Symbol>): ItemSet
    decreases |xs|
  {
    if xs == [] then I else GotoOf(g, Walk(g, I, xs[..|xs| - 1]), xs[|xs| - 1])
  }

  ghost predicate OverSymbols(g: Grammar, xs: seq<Symbol>) {
    forall i :: 0 <= i < |xs| ==> xs[i] in g.Symbols()
  }

  lemma GotoOfNothing(g: Grammar, X: Symbol)
    ensures GotoOf(g, map[], X) == map[]
  {
    GotoEmpty(g, map[], X);
  }

  /** Every non-empty state reachable from state 0 is listed. */
  lemma {:induction false} WalkListed(g: Grammar, s: Symbol, C: seq<ItemSet>, xs: seq<Symbol>)
    requires Canonical(g, s, C) && OverSymbols(g, xs)
    requires Walk(g, C[0], xs) != map[]
    ensures Walk(g, C[0], xs) in C
    decreases |xs|
  {
    if xs != [] {
      var ys := xs[..|xs| - 1];
      var x := xs[|xs| - 1];
      assert OverSymbols(g, ys);
      if Walk(g, C[0], ys) == map[] {
        GotoOfNothing(g, x);
      } else {
        WalkListed(g, s, C, ys);
        var j :| 0 <= j < |C| && C[j] == Walk(g, C[0], ys);
        assert Closed(g, C, C[j], g.Symbols());
      }
    }
  }

  /** Every listed state is reachable from state 0. */
  lemma {:induction false} ListedWalk(g: Grammar, s: Symbol, C: seq<ItemSet>, i: nat)
    requires Canonical(g, s, C) && i < |C|
    ensures exists xs :: OverSymbols(g, xs) && Walk(g, C[0], xs) == C[i]
  {
    if i == 0 {
      assert OverSymbols(g, []) && Walk(g, C[0], []) == C[0];
    } else {
      var j, X := Earlier(g, s, C, i);
      ListedWalk(g, s, C, j);
      var ys :| OverSymbols(g, ys) && Walk(g, C[0], ys) == C[j];
      WalkSnoc(g, C[0], ys, X);
    }
  }

  lemma Earlier(g: Grammar, s: Symbol, C: seq<ItemSet>, i: nat) returns (j: nat, X: Symbol)
    requires Canonical(g, s, C) && 0 < i < |C|
    ensures j < i && X in g.Symbols() && C[i] == GotoOf(g, C[j], X)
  {
    assert NewFrom(g, C, i, C[i]);
    j, X :| 0 <= j < i && j < |C| && X in g.Symbols() && C[i] == GotoOf(g, C[j], X);
  }

  lemma WalkSnoc(g: Grammar, I: ItemSet, ys: seq<Symbol>, X: Symbol)
    requires OverSymbols(g, ys) && X in g.Symbols()
    ensures OverSymbols(g, ys + [X]) && Walk(g, I, ys + [X]) == GotoOf(g, Walk(g, I, ys), X)
  {
    var xs := ys + [X];
    assert xs[..|xs| - 1] == ys;
  }
}
