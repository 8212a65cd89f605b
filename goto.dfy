/** `GOTO(I, X)`: the items of `I` with `X` after the dot, the dot moved
    past `X`, each closed on its own and all merged. */
module Transitions {
  import opened Wrappers
  import opened GrammarModel
  import opened Automaton

  /** `body[:d] + (X, '.') + body[d + 2:]` where `d` is the dot's position and
      `X` the symbol after it: the dot moves one place to the right. */
  function Advance(b: Dotted): (r: Dotted)
    ensures |r| == |b|
  {
    if DotBeforeLast(b) then
      var d := DotPos(b);
      b[..d] + [b[d + 1], Dot] + b[d + 2..]
    else b
  }

  /** A kernel of `GOTO(I, X)`: the head and the body of an item of `I`
      with `X` after the dot. */
  type Source = (Symbol, Dotted)

  /** The kernels of `GOTO(I, X)`. */
  function Sources(I: ItemSet, X: Symbol): set<Source> {
    set k, b | k in I && b in I[k] && AfterDot(b) == Some(X) :: (k, b)
  }

  /** `CLOSURE({head: {advanced body}})` for one kernel. */
  function Step(g: Grammar, p: Source): ItemSet {
    ClosureOf(g, map[p.0 := {Advance(p.1)}], [p.0])
  }

  /** `Step` as a value, so that the merging below is stated for any
      closure function. */
  function StepOf(g: Grammar): Source -> ItemSet {
    p => Step(g, p)
  }

  /** The keys of the closures `cl(p)` of the kernels `p` in `P`. */
  function HeadsFrom(cl: Source -> ItemSet, P: set<Source>): set<Symbol> {
    set p, h | p in P && h in cl(p) :: h
  }

  /** The items under `h` in those closures. */
  function ItemsFrom(cl: Source -> ItemSet, P: set<Source>, h: Symbol): set<Dotted> {
    set p, c | p in P && h in cl(p) && c in cl(p)[h] :: c
  }

  /** The union of those closures, key by key. */
  function GotoFrom(cl: Source -> ItemSet, P: set<Source>): ItemSet {
    map h | h in HeadsFrom(cl, P) :: ItemsFrom(cl, P, h)
  }

  /** `GOTO(I, X)`. */
  function GotoOf(g: Grammar, I: ItemSet, X: Symbol): ItemSet {
    GotoFrom(StepOf(g), Sources(I, X))
  }

  /** What `dict.setdefault(k, set()).update(C[k])` does for every key `k`
      of `C`. */
  function Merge(A: ItemSet, C: ItemSet): ItemSet {
    MergeOn(A, C, C.Keys)
  }

  /** The same, for the keys of `C` in `K` only. */
  function MergeOn(A: ItemSet, C: ItemSet, K: set<Symbol>): ItemSet {
    map k | k in A.Keys + C.Keys * K :: Lookup(A, k) + (if k in K then Lookup(C, k) else {})
  }

  // ---------------------------------------------------------------------
  // GOTO as the source computes it.

  /** `GOTO(I, X)`: every item of `I` with `X` after the dot contributes the
      closure of the item with the dot moved past `X`. */
  method Goto(g: Grammar, I: ItemSet, X: Symbol) returns (goto: ItemSet)
    requires Complete(g)
    ensures goto == GotoOf(g, I, X)
  {
    goto := map[];
    var todo := I.Keys;
    GotoFromNone(StepOf(g));
    while todo != {}
      invariant todo <= I.Keys
      invariant goto == GotoFrom(StepOf(g), SourcesIn(I, X, I.Keys - todo))
      decreases todo
    {
      var head :| head in todo;
      ghost var done := I.Keys - todo;
      goto := GotoHead(g, I, X, head, goto, SourcesIn(I, X, done));
      SourcesInAdd(I, X, done, head);
      assert I.Keys - (todo - {head}) == done + {head};
      todo := todo - {head};
    }
    SourcesInAll(I, X);
  }

  /** The kernels under the keys in `K`. */
  function SourcesIn(I: ItemSet, X: Symbol, K: set<Symbol>): set<Source> {
    set k, b | k in K && k in I && b in I[k] && AfterDot(b) == Some(X) :: (k, b)
  }

  /** The kernels under one key, among `bodies`. */
  function HeadSources(head: Symbol, bodies: set<Dotted>, X: Symbol): set<Source> {
    set b | b in bodies && AfterDot(b) == Some(X) :: (head, b)
  }

  lemma SourcesInAdd(I: ItemSet, X: Symbol, K: set<Symbol>, head: Symbol)
    requires head in I
    ensures SourcesIn(I, X, K) + HeadSources(head, I[head], X) == SourcesIn(I, X, K + {head})
  {
  }

  lemma SourcesInAll(I: ItemSet, X: Symbol)
    ensures SourcesIn(I, X, I.Keys - {}) == Sources(I, X)
  {
  }

  lemma GotoFromNone(cl: Source -> ItemSet)
    ensures GotoFrom(cl, {}) == map[]
  {
  }

  /** One key of `I`: its bodies in turn. */
  method GotoHead(g: Grammar, I: ItemSet, X: Symbol, head: Symbol, goto: ItemSet, ghost P: set<Source>)
    returns (goto': ItemSet)
    requires Complete(g) && head in I && goto == GotoFrom(StepOf(g), P)
    ensures goto' == GotoFrom(StepOf(g), P + HeadSources(head, I[head], X))
  {
    var bodies := I[head];
    var todo := bodies;
    goto' := goto;
    assert P + HeadSources(head, bodies - todo, X) == P;
    while todo != {}
      invariant todo <= bodies
      invariant goto' == GotoFrom(StepOf(g), P + HeadSources(head, bodies - todo, X))
      decreases todo
    {
      var body :| body in todo;
      ghost var done := bodies - todo;
      goto' := GotoHeadStep(g, X, head, body, goto', P, done);
      assert bodies - (todo - {body}) == done + {body};
      todo := todo - {body};
    }
    assert bodies - todo == bodies;
  }

  /** One iteration of the loop over the bodies of `head`. */
  method GotoHeadStep(g: Grammar, X: Symbol, head: Symbol, body: Dotted, goto: ItemSet,
                      ghost P: set<Source>, ghost done: set<Dotted>)
    returns (goto': ItemSet)
    requires Complete(g) && goto == GotoFrom(StepOf(g), P + HeadSources(head, done, X))
    ensures goto' == GotoFrom(StepOf(g), P + HeadSources(head, done + {body}, X))
  {
    HeadSourcesAdd(P, head, done, body, X);
    goto' := GotoBody(g, X, head, body, goto, P + HeadSources(head, done, X));
  }

  lemma HeadSourcesAdd(P: set<Source>, head: Symbol, done: set<Dotted>, b: Dotted, X: Symbol)
    ensures P + HeadSources(head, done + {b}, X) ==
      var Q := P + HeadSources(head, done, X); if AfterDot(b) == Some(X) then Q + {(head, b)} else Q
  {
  }

  /** One body: when `X` follows its dot, the closure of the advanced item
      is merged in. */
  method GotoBody(g: Grammar, X: Symbol, head: Symbol, body: Dotted, goto: ItemSet, ghost P: set<Source>)
    returns (goto': ItemSet)
    requires Complete(g) && goto == GotoFrom(StepOf(g), P)
    ensures goto' == GotoFrom(StepOf(g), if AfterDot(body) == Some(X) then P + {(head, body)} else P)
  {
    goto' := goto;
    AfterDotAt(body);
    if DotBeforeLast(body) {
      var d := DotPos(body);
      if body[d + 1] == X {
        var closed := AdvanceClose(g, head, body);
        goto' := MergeInto(goto, closed);
        GotoFromAdd(StepOf(g), P, (head, body));
      }
    }
  }

  /** `CLOSURE({head: {body with the dot advanced}})`. */
  method AdvanceClose(g: Grammar, head: Symbol, body: Dotted) returns (closed: ItemSet)
    requires Complete(g) && DotBeforeLast(body)
    ensures closed == StepOf(g)((head, body))
  {
    var d := DotPos(body);
    var advanced := body[..d] + [body[d + 1], Dot] + body[d + 2..];
    closed := Closure(g, [head], map[head := {advanced}]);
  }

  /** Adding a kernel merges its closure in. */
  lemma GotoFromAdd(cl: Source -> ItemSet, P: set<Source>, p: Source)
    ensures Merge(GotoFrom(cl, P), cl(p)) == GotoFrom(cl, P + {p})
  {
    var A := GotoFrom(cl, P);
    var M := Merge(A, cl(p));
    var G := GotoFrom(cl, P + {p});
    HeadsFromAdd(cl, P, p);
    assert M.Keys == G.Keys;
    forall h | h in G ensures M[h] == G[h] {
      ItemsFromAdd(cl, P, p, h);
      ItemsFromOutside(cl, P, h);
      assert Lookup(A, h) == ItemsFrom(cl, P, h);
    }
  }

  lemma HeadsFromAdd(cl: Source -> ItemSet, P: set<Source>, p: Source)
    ensures HeadsFrom(cl, P + {p}) == HeadsFrom(cl, P) + cl(p).Keys
  {
  }

  lemma ItemsFromAdd(cl: Source -> ItemSet, P: set<Source>, p: Source, h: Symbol)
    ensures ItemsFrom(cl, P + {p}, h) == ItemsFrom(cl, P, h) + Lookup(cl(p), h)
  {
    forall c | c in ItemsFrom(cl, P + {p}, h) ensures c in ItemsFrom(cl, P, h) + Lookup(cl(p), h) {
      var q :| q in P + {p} && h in cl(q) && c in cl(q)[h];
    }
  }

  lemma ItemsFromOutside(cl: Source -> ItemSet, P: set<Source>, h: Symbol)
    ensures h !in HeadsFrom(cl, P) ==> ItemsFrom(cl, P, h) == {}
  {
  }

  /** The source's loop over the closure's items, each set merged with
      `setdefault(...).update(...)`. */
  method MergeInto(goto: ItemSet, C: ItemSet) returns (goto': ItemSet)
    ensures goto' == Merge(goto, C)
  {
    goto' := goto;
    var todo := C.Keys;
    MergeNone(goto, C);
    while todo != {}
      invariant todo <= C.Keys
      invariant goto' == MergeOn(goto, C, C.Keys - todo)
      decreases todo
    {
      var k :| k in todo;
      ghost var done := C.Keys - todo;
      goto' := goto'[k := Lookup(goto', k) + C[k]];
      MergeAdd(goto, C, done, k);
      assert C.Keys - (todo - {k}) == done + {k};
      todo := todo - {k};
    }
    assert C.Keys - todo == C.Keys;
  }

  lemma MergeNone(A: ItemSet, C: ItemSet)
    ensures MergeOn(A, C, C.Keys - C.Keys) == A
  {
    var M := MergeOn(A, C, C.Keys - C.Keys);
    assert M.Keys == A.Keys;
    assert forall k | k in A :: M[k] == A[k];
  }

  lemma MergeAdd(A: ItemSet, C: ItemSet, K: set<Symbol>, k: Symbol)
    requires k in C
    ensures var M := MergeOn(A, C, K);
      M[k := Lookup(M, k) + C[k]] == MergeOn(A, C, K + {k})
  {
    var M := MergeOn(A, C, K);
    var M' := M[k := Lookup(M, k) + C[k]];
    var N := MergeOn(A, C, K + {k});
    assert M'.Keys == N.Keys;
    assert forall j | j in N :: M'[j] == N[j];
  }

  // ---------------------------------------------------------------------
  // What GOTO promises.

  /** `GOTO(I, X)` is empty exactly when no item of `I` has `X` after its
      dot. */
  lemma GotoEmpty(g: Grammar, I: ItemSet, X: Symbol)
    ensures GotoOf(g, I, X) == map[] <==> Sources(I, X) == {}
  {
    var P := Sources(I, X);
    if P != {} {
      var p :| p in P;
      StepKeepsKernel(g, p);
      assert p.0 in HeadsFrom(StepOf(g), P);
    } else {
      GotoFromNone(StepOf(g));
    }
  }

  /** The kernel item is in its own closure. */
  lemma StepKeepsKernel(g: Grammar, p: Source)
    ensures p.0 in StepOf(g)(p) && Advance(p.1) in StepOf(g)(p)[p.0]
  {
    ClosureKeeps(g, map[p.0 := {Advance(p.1)}], [p.0]);
  }

  /** Every item with `X` after its dot, the dot moved past `X`, is in
      `GOTO(I, X)` under the same head. */
  lemma GotoAdvances(g: Grammar, I: ItemSet, X: Symbol, k: Symbol, b: Dotted)
    requires k in I && b in I[k] && AfterDot(b) == Some(X)
    ensures k in GotoOf(g, I, X) && Advance(b) in GotoOf(g, I, X)[k]
  {
    var P := Sources(I, X);
    assert (k, b) in P;
    StepKeepsKernel(g, (k, b));
    assert k in HeadsFrom(StepOf(g), P);
    assert Advance(b) in ItemsFrom(StepOf(g), P, k);
  }

  /** And nothing else is in it but start items `N -> . β` of the
      nonterminals the closures reached. */
  lemma GotoItems(g: Grammar, I: ItemSet, X: Symbol, h: Symbol, c: Dotted)
    requires h in GotoOf(g, I, X) && c in GotoOf(g, I, X)[h]
    ensures (exists b :: b in Lookup(I, h) && AfterDot(b) == Some(X) && c == Advance(b))
      || (h in g.nonterminals && c in Start(g, h))
  {
    var p := ItemsFromHas(StepOf(g), Sources(I, X), h, c);
    StepItems(g, p, h, c);
  }

  /** Its keys are the heads of `I` and nonterminals. */
  lemma GotoKeys(g: Grammar, I: ItemSet, X: Symbol)
    ensures GotoOf(g, I, X).Keys <= I.Keys + g.nonterminals
  {
    forall h | h in GotoOf(g, I, X) ensures h in I.Keys + g.nonterminals {
      var p := HeadsFromHas(StepOf(g), Sources(I, X), h);
      ClosureKeys(g, map[p.0 := {Advance(p.1)}], [p.0]);
    }
  }

  lemma HeadsFromHas(cl: Source -> ItemSet, P: set<Source>, h: Symbol) returns (p: Source)
    requires h in HeadsFrom(cl, P)
    ensures p in P && h in cl(p)
  {
    p :| p in P && h in cl(p);
  }

  lemma ItemsFromHas(cl: Source -> ItemSet, P: set<Source>, h: Symbol, c: Dotted) returns (p: Source)
    requires c in ItemsFrom(cl, P, h)
    ensures p in P && h in cl(p) && c in cl(p)[h]
  {
    p :| p in P && h in cl(p) && c in cl(p)[h];
  }

  lemma StepItems(g: Grammar, p: Source, h: Symbol, c: Dotted)
    requires h in StepOf(g)(p) && c in StepOf(g)(p)[h]
    ensures (h == p.0 && c == Advance(p.1)) || (h in g.nonterminals && c in Start(g, h))
  {
    ClosureAddsStartItems(g, map[p.0 := {Advance(p.1)}], [p.0]);
  }
}
