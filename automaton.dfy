/** The LR(0) automaton of the augmented grammar: dotted items, `CLOSURE`,
    `GOTO` and the canonical collection built by `items`. */
module Automaton {
  import opened Wrappers
  import opened GrammarModel
  import opened GrammarFacts

  /** The marker inserted into a body to make an item. */
  const Dot: Symbol := "."

  /** A body with the dot inserted, as the item dictionaries store it. */
  type Dotted = seq<Symbol>

  /** An item set: head -> dotted bodies. Two of them are compared by dict
      equality, which ignores the order of keys; only `CLOSURE` depends on
      that order, and it keeps it beside the map. */
  type ItemSet = map<Symbol, set<Dotted>>

  /** Every nonterminal has productions: looking up one that has none
      raises KeyError in `CLOSURE`. (A head read from a line always has at
      least one body.) */
  predicate Complete(g: Grammar) {
    forall n :: n in g.nonterminals ==> n in g.prods && g.prods[n] != {}
  }

  /** `list.index`: the position of the first occurrence. */
  function IndexOf<T(==)>(s: seq<T>, x: T): (r: nat)
    requires x in s
    ensures r < |s| && s[r] == x && x !in s[..r]
  {
    if s[0] == x then 0 else
      var r := 1 + IndexOf(s[1..], x);
      assert s[..r] == [s[0]] + s[1..][..r - 1];
      r
  }

  /** The dot stands before the last position: `'.' in body[:-1]`. */
  predicate DotBeforeLast(b: Dotted) {
    |b| > 0 && Dot in b[..|b| - 1]
  }

  /** `body.index('.')` for a body whose dot is not last. */
  function DotPos(b: Dotted): (d: nat)
    requires DotBeforeLast(b)
    ensures d + 1 < |b| && b[d] == Dot && Dot !in b[..d]
  {
    var d := IndexOf(b[..|b| - 1], Dot);
    assert b[..d] == b[..|b| - 1][..d];
    d
  }

  /** The symbol after the first dot, when that dot is not last. */
  function AfterDot(b: Dotted): Option<Symbol> {
    if |b| < 2 then None
    else if b[0] == Dot then Some(b[1])
    else AfterDot(b[1..])
  }

  /** `body[body.index('.') + 1]` is the symbol after the dot. */
  lemma {:induction false} AfterDotAt(b: Dotted)
    ensures DotBeforeLast(b) <==> AfterDot(b).Some?
    ensures DotBeforeLast(b) ==> AfterDot(b) == Some(b[DotPos(b) + 1])
  {
    if |b| >= 2 && b[0] != Dot {
      AfterDotAt(b[1..]);
      assert b[1..][..|b[1..]| - 1] == b[..|b| - 1][1..];
      if DotBeforeLast(b) {
        assert DotPos(b) == DotPos(b[1..]) + 1;
      }
    }
  }

  /** The item body `N -> . β` of a body β; the empty body `("^",)` becomes
      the lone dot. */
  function StartBody(body: Body): Dotted {
    [Dot] + BodySymbols(body)
  }

  /** The symbols of a body: none for the empty body `("^",)`. */
  function BodySymbols(body: Body): seq<Symbol> {
    if body == [Null] then [] else body
  }

  function StartOf(bodies: set<Body>): set<Dotted> {
    set body {:trigger StartBody(body)} | body in bodies :: StartBody(body)
  }

  /** The start items of a nonterminal (none for a symbol without
      productions). */
  function Start(g: Grammar, n: Symbol): set<Dotted> {
    if n in g.prods then StartOf(g.prods[n]) else {}
  }

  /** The bodies under a key, none when the key is absent. */
  function Lookup(I: ItemSet, k: Symbol): set<Dotted> {
    if k in I then I[k] else {}
  }

  /** The nonterminals that stand right after the dot in some of `bodies`. */
  function Triggered(g: Grammar, bodies: set<Dotted>): set<Symbol> {
    set n | n in g.nonterminals && exists b {:trigger TriggerOf(g, b)} :: b in bodies && n in TriggerOf(g, b)
  }

  /** The nonterminal after the dot of one body, if any. */
  function TriggerOf(g: Grammar, b: Dotted): (r: set<Symbol>)
    ensures r <= g.nonterminals
  {
    if AfterDot(b).Some? && AfterDot(b).value in g.nonterminals then {AfterDot(b).value} else {}
  }

  // ---------------------------------------------------------------------
  // CLOSURE as a specification: everything it adds is the start items of
  // some nonterminals, so its state is the set `t` of nonterminals whose
  // start items have been added.

  /** The bodies under key `k` once the nonterminals in `t` have had their
      start items added to the argument `I`. */
  function At(g: Grammar, I: ItemSet, t: set<Symbol>, k: Symbol): set<Dotted> {
    if k in t then Lookup(I, k) + Start(g, k) else Lookup(I, k)
  }

  /** The whole dictionary in that state. */
  function Fill(g: Grammar, I: ItemSet, t: set<Symbol>): ItemSet {
    map k | k in I.Keys + t :: At(g, I, t, k)
  }

  /** What a pass has triggered after visiting the argument's first `i` keys,
      starting from `t`. A key is visited with its bodies as they stand when
      the pass reaches it, so it sees what earlier keys added to it. */
  function VisitKeys(g: Grammar, I: ItemSet, ks: seq<Symbol>, i: nat, t: set<Symbol>): set<Symbol>
    requires i <= |ks|
  {
    if i == 0 then t else
      var r := VisitKeys(g, I, ks, i - 1, t);
      r + Triggered(g, At(g, I, r, ks[i - 1]))
  }

  /** What the keys added by earlier passes trigger: each holds exactly the
      start items of its nonterminal. */
  function NewTriggers(g: Grammar, added: set<Symbol>): set<Symbol> {
    set n | n in g.nonterminals && exists m {:trigger Start(g, m)} :: m in added && n in Triggered(g, Start(g, m))
  }

  /** One pass: the argument's keys in their order, then the added keys. */
  function PassT(g: Grammar, I: ItemSet, ks: seq<Symbol>, t: set<Symbol>): set<Symbol> {
    VisitKeys(g, I, ks, |ks|, t) + NewTriggers(g, t - I.Keys)
  }

  /** A pass only adds nonterminals. */
  lemma {:induction false} VisitKeysGrows(g: Grammar, I: ItemSet, ks: seq<Symbol>, i: nat, t: set<Symbol>)
    requires i <= |ks|
    ensures t <= VisitKeys(g, I, ks, i, t) <= t + g.nonterminals
  {
    if i > 0 {
      VisitKeysGrows(g, I, ks, i - 1, t);
    }
  }

  lemma VisitKeysNext(g: Grammar, I: ItemSet, ks: seq<Symbol>, i: nat, t: set<Symbol>)
    requires i < |ks|
    ensures var r := VisitKeys(g, I, ks, i, t);
      VisitKeys(g, I, ks, i + 1, t) == r + Triggered(g, At(g, I, r, ks[i]))
  {
  }

  lemma PassGrows(g: Grammar, I: ItemSet, ks: seq<Symbol>, t: set<Symbol>)
    ensures t <= PassT(g, I, ks, t) <= t + g.nonterminals
  {
    VisitKeysGrows(g, I, ks, |ks|, t);
  }

  /** Passes until the set of keys, and so their number, stops changing. */
  function ClosureT(g: Grammar, I: ItemSet, ks: seq<Symbol>, t: set<Symbol>): set<Symbol>
    decreases g.nonterminals - t
  {
    var t' := PassT(g, I, ks, t);
    if I.Keys + t' == I.Keys + t then t'
    else
      PassGrows(g, I, ks, t);
      assert exists x :: x in t' && x !in t;
      ClosureT(g, I, ks, t')
  }

  /** `CLOSURE(I)` for an argument whose keys are `ks` in that order. */
  function ClosureOf(g: Grammar, I: ItemSet, ks: seq<Symbol>): ItemSet {
    Fill(g, I, ClosureT(g, I, ks, {}))
  }

  // ---------------------------------------------------------------------
  // CLOSURE as the source computes it.

  /** `CLOSURE(I)`: passes over a snapshot of J, each adding the start items
      of every nonterminal after a dot, until a pass leaves the number of
      keys unchanged. `ks` lists the argument's keys in their order. */
  method Closure(g: Grammar, ks: seq<Symbol>, I: ItemSet) returns (J: ItemSet)
    requires Complete(g)
    requires forall k :: k in I <==> k in ks
    ensures J == ClosureOf(g, I, ks)
  {
    J := I;
    ghost var t: set<Symbol> := {};
    FillNone(g, I);
    while true
      invariant J == Fill(g, I, t)
      invariant ClosureT(g, I, ks, t) == ClosureT(g, I, ks, {})
      decreases g.nonterminals - t
    {
      var itemLen := |J|;
      ghost var t0 := t;
      J := ClosurePass(g, ks, I, J, t);
      t := PassT(g, I, ks, t);
      PassStep(g, I, ks, t0);
      if itemLen == |J| {
        return;
      }
      FillCard(g, I, t0);
      FillCard(g, I, t);
      PassDecreases(g, I, ks, t0);
    }
  }

  /** The dictionary before any start item is added is the argument. */
  lemma FillNone(g: Grammar, I: ItemSet)
    ensures Fill(g, I, {}) == I
  {
    assert forall k | k in I :: Fill(g, I, {})[k] == I[k];
  }

  /** After a pass from `t`, the number of keys is unchanged exactly when the
      pass added no key, and the closure then stops at the pass's result;
      otherwise it goes on from there. */
  lemma PassStep(g: Grammar, I: ItemSet, ks: seq<Symbol>, t: set<Symbol>)
    ensures var t' := PassT(g, I, ks, t);
      (|Fill(g, I, t)| == |Fill(g, I, t')| ==> ClosureT(g, I, ks, t) == t') &&
      (|Fill(g, I, t)| != |Fill(g, I, t')| ==> ClosureT(g, I, ks, t) == ClosureT(g, I, ks, t'))
  {
    var t' := PassT(g, I, ks, t);
    PassGrows(g, I, ks, t);
    FillCard(g, I, t);
    FillCard(g, I, t');
    SameCard(I.Keys + t, I.Keys + t');
  }

  lemma FillCard(g: Grammar, I: ItemSet, t: set<Symbol>)
    ensures |Fill(g, I, t)| == |I.Keys + t|
  {
    assert Fill(g, I, t).Keys == I.Keys + t;
  }

  /** A set inside another of the same size is that set: the key count
      stays the same exactly when no key was added. */
  lemma SameCard<T>(s0: set<T>, s: set<T>)
    requires s0 <= s
    ensures |s0| == |s| <==> s0 == s
  {
    if |s0| == |s| && s0 != s {
      var x :| x in s && x !in s0;
      SubsetCard(s0, s - {x});
    }
  }

  lemma {:induction false} SubsetCard<T>(a: set<T>, b: set<T>)
    requires a <= b
    ensures |a| <= |b|
    decreases b
  {
    if a != {} {
      var x :| x in a;
      SubsetCard(a - {x}, b - {x});
    }
  }

  /** One pass of `CLOSURE`'s loop over the keys present when it starts:
      the argument's keys in their order, then the keys earlier passes added.
      The source visits the latter in the order they were added; they hold
      only start items, so any order gives the same dictionary, and the
      model takes them in an arbitrary one. */
  method ClosurePass(g: Grammar, ks: seq<Symbol>, I: ItemSet, J: ItemSet, ghost t: set<Symbol>)
    returns (J': ItemSet)
    requires Complete(g) && J == Fill(g, I, t)
    requires forall k :: k in I <==> k in ks
    ensures J' == Fill(g, I, PassT(g, I, ks, t))
  {
    var added := J.Keys - I.Keys;
    assert added == t - I.Keys;
    J' := VisitArgKeys(g, ks, I, J, t);
    VisitKeysGrows(g, I, ks, |ks|, t);
    J' := VisitAddedKeys(g, I, J', added, VisitKeys(g, I, ks, |ks|, t));
  }

  /** The first part of a pass: the argument's keys, in their order. */
  method VisitArgKeys(g: Grammar, ks: seq<Symbol>, ghost I: ItemSet, J: ItemSet, ghost t: set<Symbol>)
    returns (J': ItemSet)
    requires Complete(g) && J == Fill(g, I, t)
    requires forall k :: k in ks ==> k in I
    ensures J' == Fill(g, I, VisitKeys(g, I, ks, |ks|, t))
  {
    J' := J;
    var i := 0;
    while i < |ks|
      invariant i <= |ks|
      invariant J' == Fill(g, I, VisitKeys(g, I, ks, i, t))
    {
      J' := VisitArgKey(g, ks, I, J', i, t);
      i := i + 1;
    }
  }

  /** The argument's key at position `i`. */
  method VisitArgKey(g: Grammar, ks: seq<Symbol>, ghost I: ItemSet, J: ItemSet, i: nat, ghost t: set<Symbol>)
    returns (J': ItemSet)
    requires Complete(g) && i < |ks|
    requires forall k :: k in ks ==> k in I
    requires J == Fill(g, I, VisitKeys(g, I, ks, i, t))
    ensures J' == Fill(g, I, VisitKeys(g, I, ks, i + 1, t))
  {
    ghost var r := VisitKeys(g, I, ks, i, t);
    assert ks[i] in I;
    J' := VisitHead(g, I, J, ks[i], r);
    VisitKeysNext(g, I, ks, i, t);
  }

  /** The second part of a pass: the keys earlier passes added, which hold
      only the start items of their nonterminal. */
  method VisitAddedKeys(g: Grammar, ghost I: ItemSet, J: ItemSet, added: set<Symbol>, ghost t: set<Symbol>)
    returns (J': ItemSet)
    requires Complete(g) && J == Fill(g, I, t)
    requires added <= t && added !! I.Keys
    ensures J' == Fill(g, I, t + NewTriggers(g, added))
  {
    J' := J;
    var todo := added;
    assert t + NewTriggers(g, added - todo) == t;
    while todo != {}
      invariant todo <= added
      invariant J' == Fill(g, I, t + NewTriggers(g, added - todo))
      decreases todo
    {
      var head :| head in todo;
      ghost var seen := added - todo;
      J' := VisitAddedKey(g, I, J', head, t + NewTriggers(g, seen));
      NewTriggersAdd(g, t, seen, head);
      assert added - (todo - {head}) == seen + {head};
      todo := todo - {head};
    }
    assert added - todo == added;
  }

  /** A key added by an earlier pass: its bodies are its start items. */
  method VisitAddedKey(g: Grammar, ghost I: ItemSet, J: ItemSet, head: Symbol, ghost t: set<Symbol>)
    returns (J': ItemSet)
    requires Complete(g) && J == Fill(g, I, t)
    requires head in t && head !in I
    ensures J' == Fill(g, I, t + Triggered(g, Start(g, head)))
  {
    assert At(g, I, t, head) == Start(g, head);
    J' := VisitHead(g, I, J, head, t);
  }

  lemma NewTriggersAdd(g: Grammar, t: set<Symbol>, seen: set<Symbol>, m: Symbol)
    ensures t + NewTriggers(g, seen) + Triggered(g, Start(g, m)) == t + NewTriggers(g, seen + {m})
  {
  }

  /** One key of a pass: its bodies as they stand now, each adding the
      start items of the nonterminal after its dot. */
  method VisitHead(g: Grammar, ghost I: ItemSet, J: ItemSet, head: Symbol, ghost t: set<Symbol>)
    returns (J': ItemSet)
    requires Complete(g) && J == Fill(g, I, t)
    requires head in I.Keys + t
    ensures J' == Fill(g, I, t + Triggered(g, At(g, I, t, head)))
  {
    var bodies := J[head];
    assert bodies == At(g, I, t, head);
    var todo := bodies;
    J' := J;
    assert t + Triggered(g, bodies - todo) == t;
    while todo != {}
      invariant todo <= bodies
      invariant J' == Fill(g, I, t + Triggered(g, bodies - todo))
      decreases todo
    {
      var body :| body in todo;
      ghost var done := bodies - todo;
      J' := VisitBody(g, I, J', body, t + Triggered(g, done));
      TriggeredAdd(g, t, done, body);
      assert bodies - (todo - {body}) == done + {body};
      todo := todo - {body};
    }
    assert bodies - todo == bodies;
  }

  lemma TriggeredAdd(g: Grammar, t: set<Symbol>, done: set<Dotted>, b: Dotted)
    ensures t + Triggered(g, done) + TriggerOf(g, b) == t + Triggered(g, done + {b})
  {
  }

  /** One body of a key: when a nonterminal follows its dot, that
      nonterminal's start items join J. */
  method VisitBody(g: Grammar, ghost I: ItemSet, J: ItemSet, body: Dotted, ghost t: set<Symbol>)
    returns (J': ItemSet)
    requires Complete(g) && J == Fill(g, I, t)
    ensures J' == Fill(g, I, t + TriggerOf(g, body))
  {
    J' := J;
    AfterDotAt(body);
    if DotBeforeLast(body) {
      var after := body[DotPos(body) + 1];
      if after in g.nonterminals {
        assert g.prods[after] != {};
        J' := AddStart(g, J, after);
        FillAdd(g, I, t, after);
      }
    }
  }

  /** Adding the start items of `n` moves the state from `t` to `t + {n}`. */
  lemma FillAdd(g: Grammar, I: ItemSet, t: set<Symbol>, n: Symbol)
    ensures var J := Fill(g, I, t);
      J[n := Lookup(J, n) + Start(g, n)] == Fill(g, I, t + {n})
  {
    var J := Fill(g, I, t);
    var J' := J[n := Lookup(J, n) + Start(g, n)];
    var F := Fill(g, I, t + {n});
    assert J'[n] == F[n] by {
      assert Lookup(J, n) == At(g, I, t, n);
    }
    assert forall k | k in F && k != n :: J'[k] == F[k] by {
      forall k | k in F && k != n ensures At(g, I, t, k) == At(g, I, t + {n}, k) { }
    }
  }

  /** The source's loop over the bodies of `n`, each added as a start item
      with `setdefault`. */
  method AddStart(g: Grammar, J: ItemSet, n: Symbol) returns (J': ItemSet)
    requires n in g.prods && g.prods[n] != {}
    ensures J' == J[n := Lookup(J, n) + Start(g, n)]
  {
    var todo := g.prods[n];
    J' := J;
    ghost var before := if n in J then J[n] else {};
    while todo != {}
      invariant todo <= g.prods[n]
      invariant todo == g.prods[n] && n !in J ==> J' == J
      invariant todo != g.prods[n] || n in J ==>
        n in J' && J' == J[n := J'[n]] && J'[n] == before + StartOf(g.prods[n] - todo)
      decreases todo
    {
      var body :| body in todo;
      if n !in J' {
        J' := J'[n := {}];
      }
      assert StartOf(g.prods[n] - (todo - {body})) == StartOf(g.prods[n] - todo) + {StartBody(body)};
      J' := J'[n := J'[n] + {StartBody(body)}];
      todo := todo - {body};
    }
    assert g.prods[n] - todo == g.prods[n];
  }

  // ---------------------------------------------------------------------
  // What `CLOSURE` guarantees, and what it does not.

  lemma TriggeredHas(g: Grammar, bodies: set<Dotted>, b: Dotted, n: Symbol)
    requires b in bodies && n in TriggerOf(g, b)
    ensures n in Triggered(g, bodies)
  {
  }

  lemma TriggeredMono(g: Grammar, A: set<Dotted>, B: set<Dotted>)
    requires A <= B
    ensures Triggered(g, A) <= Triggered(g, B)
  {
    forall n | n in Triggered(g, A) ensures n in Triggered(g, B) {
      var b :| b in A && n in TriggerOf(g, b);
      TriggeredHas(g, B, b, n);
    }
  }

  /** After `i` keys of a pass, what every one of them triggers in the
      argument has been triggered. */
  lemma {:induction false} VisitKeysCovers(g: Grammar, I: ItemSet, ks: seq<Symbol>, i: nat, t: set<Symbol>, j: nat)
    requires j < i <= |ks|
    ensures Triggered(g, Lookup(I, ks[j])) <= VisitKeys(g, I, ks, i, t)
  {
    if j < i - 1 {
      VisitKeysCovers(g, I, ks, i - 1, t, j);
      VisitKeysStep(g, I, ks, i - 1, t);
    } else {
      VisitKeysCoversNext(g, I, ks, j, t);
    }
  }

  lemma VisitKeysStep(g: Grammar, I: ItemSet, ks: seq<Symbol>, i: nat, t: set<Symbol>)
    requires i < |ks|
    ensures VisitKeys(g, I, ks, i, t) <= VisitKeys(g, I, ks, i + 1, t)
  {
    VisitKeysNext(g, I, ks, i, t);
  }

  lemma VisitKeysCoversNext(g: Grammar, I: ItemSet, ks: seq<Symbol>, i: nat, t: set<Symbol>)
    requires i < |ks|
    ensures Triggered(g, Lookup(I, ks[i])) <= VisitKeys(g, I, ks, i + 1, t)
  {
    var r := VisitKeys(g, I, ks, i, t);
    VisitKeysNext(g, I, ks, i, t);
    TriggeredMono(g, Lookup(I, ks[i]), At(g, I, r, ks[i]));
  }

  lemma NewTriggersHas(g: Grammar, added: set<Symbol>, m: Symbol)
    requires m in added
    ensures Triggered(g, Start(g, m)) <= NewTriggers(g, added)
  {
    forall n | n in Triggered(g, Start(g, m)) ensures n in NewTriggers(g, added) {
      var b :| b in Start(g, m) && n in TriggerOf(g, b);
    }
  }

  /** The passes only add, and only nonterminals. */
  lemma {:induction false} ClosureTGrows(g: Grammar, I: ItemSet, ks: seq<Symbol>, t: set<Symbol>)
    ensures PassT(g, I, ks, t) <= ClosureT(g, I, ks, t) <= t + g.nonterminals
    decreases g.nonterminals - t
  {
    var t' := PassT(g, I, ks, t);
    PassGrows(g, I, ks, t);
    if I.Keys + t' != I.Keys + t {
      PassDecreases(g, I, ks, t);
      ClosureTGrows(g, I, ks, t');
      PassGrows(g, I, ks, t');
    }
  }

  /** A pass that adds a key triggers a nonterminal not triggered before. */
  lemma PassDecreases(g: Grammar, I: ItemSet, ks: seq<Symbol>, t: set<Symbol>)
    requires I.Keys + PassT(g, I, ks, t) != I.Keys + t
    ensures g.nonterminals - PassT(g, I, ks, t) < g.nonterminals - t
  {
    var t' := PassT(g, I, ks, t);
    PassGrows(g, I, ks, t);
    var x :| x in t' && x !in t;
    assert x in g.nonterminals - t;
  }

  /** A nonterminal that is not a key of the argument and has been triggered
      had its start items visited by a later pass. */
  lemma {:induction false} ClosureTClosedOutside(g: Grammar, I: ItemSet, ks: seq<Symbol>, t: set<Symbol>, n: Symbol)
    requires n in ClosureT(g, I, ks, t) && n !in I
    ensures Triggered(g, Start(g, n)) <= ClosureT(g, I, ks, t)
    decreases g.nonterminals - t
  {
    var t' := PassT(g, I, ks, t);
    if I.Keys + t' == I.Keys + t {
      assert n in t - I.Keys;
      NewTriggersHas(g, t - I.Keys, n);
    } else {
      PassDecreases(g, I, ks, t);
      ClosureTClosedOutside(g, I, ks, t', n);
    }
  }

  /** `CLOSURE` keeps every item of its argument. */
  lemma ClosureKeeps(g: Grammar, I: ItemSet, ks: seq<Symbol>)
    ensures forall k :: k in I ==> k in ClosureOf(g, I, ks) && I[k] <= ClosureOf(g, I, ks)[k]
  {
  }

  /** Every item `CLOSURE` adds is a start item `N -> . β` of a nonterminal. */
  lemma ClosureAddsStartItems(g: Grammar, I: ItemSet, ks: seq<Symbol>)
    ensures var C := ClosureOf(g, I, ks);
      forall k, b :: k in C && b in C[k] ==>
        (k in I && b in I[k]) || (k in g.nonterminals && b in Start(g, k))
  {
    ClosureTGrows(g, I, ks, {});
  }

  /** The closure's keys are the argument's and nonterminals. */
  lemma ClosureKeys(g: Grammar, I: ItemSet, ks: seq<Symbol>)
    ensures ClosureOf(g, I, ks).Keys <= I.Keys + g.nonterminals
  {
    ClosureTGrows(g, I, ks, {});
  }

  /** For every item of the argument with a nonterminal after the dot, the
      start items of that nonterminal are in the closure. */
  lemma ClosureExpandsArgument(g: Grammar, I: ItemSet, ks: seq<Symbol>, k: Symbol, b: Dotted, n: Symbol)
    requires forall k :: k in I <==> k in ks
    requires k in I && b in I[k] && n in TriggerOf(g, b)
    ensures n in ClosureOf(g, I, ks) && Start(g, n) <= ClosureOf(g, I, ks)[n]
  {
    var j :| 0 <= j < |ks| && ks[j] == k;
    VisitKeysCovers(g, I, ks, |ks|, {}, j);
    TriggeredHas(g, Lookup(I, k), b, n);
    ClosureTGrows(g, I, ks, {});
  }

  /** Under a key the argument does not have, every item with a nonterminal
      after the dot has that nonterminal's start items in the closure too. */
  lemma ClosureExpandsAdded(g: Grammar, I: ItemSet, ks: seq<Symbol>, k: Symbol, b: Dotted, n: Symbol)
    requires k in ClosureOf(g, I, ks) && k !in I && b in ClosureOf(g, I, ks)[k]
    requires n in TriggerOf(g, b)
    ensures n in ClosureOf(g, I, ks) && Start(g, n) <= ClosureOf(g, I, ks)[n]
  {
    var t := ClosureT(g, I, ks, {});
    ClosureTClosedOutside(g, I, ks, {}, k);
    TriggeredHas(g, Start(g, k), b, n);
  }

  /** The grammar `A -> x B | D`, `B -> A`, `D -> d`. */
  function LoopGrammar(): Grammar {
    Grammar(["A -> x B | D", "B -> A", "D -> d"], Some("A"), ["A", "B", "D"],
      map["A" := {["x", "B"], ["D"]}, "B" := {["A"]}, "D" := {["d"]}],
      {"x", "d"}, {"A", "B", "D"})
  }

  lemma LoopTriggers()
    ensures Triggered(LoopGrammar(), {["x", Dot, "B"]}) == {"B"}
    ensures Start(LoopGrammar(), "B") == {[Dot, "A"]}
    ensures Triggered(LoopGrammar(), {[Dot, "A"]}) == {"A"}
  {
    var g := LoopGrammar();
    assert AfterDot([Dot, "B"]) == Some("B");
    assert ["x", Dot, "B"][1..] == [Dot, "B"];
    assert AfterDot(["x", Dot, "B"]) == Some("B");
    assert TriggerOf(g, ["x", Dot, "B"]) == {"B"};
    assert TriggerOf(g, [Dot, "A"]) == {"A"};
    assert StartBody(["A"]) == [Dot, "A"];
  }

  /** The first pass triggers `B`, a new key. */
  lemma LoopFirstPass()
    ensures PassT(LoopGrammar(), map["A" := {["x", Dot, "B"]}], ["A"], {}) == {"B"}
  {
    var g := LoopGrammar();
    var I := map["A" := {["x", Dot, "B"]}];
    LoopTriggers();
    assert VisitKeys(g, I, ["A"], 1, {}) == {"B"};
    assert NewTriggers(g, {}) == {};
  }

  /** The second pass triggers `A`, already a key. */
  lemma LoopSecondPass()
    ensures PassT(LoopGrammar(), map["A" := {["x", Dot, "B"]}], ["A"], {"B"}) == {"A", "B"}
  {
    var g := LoopGrammar();
    var I := map["A" := {["x", Dot, "B"]}];
    LoopTriggers();
    assert VisitKeys(g, I, ["A"], 1, {"B"}) == {"B"};
    NewTriggersHas(g, {"B"}, "B");
    assert {"B"} - I.Keys == {"B"};
    assert NewTriggers(g, {"B"}) == {"A"};
  }

  /** `CLOSURE({A: {x . B}})` in that grammar: the second pass adds the start
      items of `A`, among them `A -> . D`, but adds no key, so the loop stops
      before `D -> . d` is added. */
  lemma ClosureCanStopEarly()
    ensures var C := ClosureOf(LoopGrammar(), map["A" := {["x", Dot, "B"]}], ["A"]);
      "A" in C && [Dot, "D"] in C["A"] && "D" !in C
  {
    var g := LoopGrammar();
    var I := map["A" := {["x", Dot, "B"]}];
    var ks := ["A"];
    LoopFirstPass();
    LoopSecondPass();
    assert ClosureT(g, I, ks, {"B"}) == {"A", "B"};
    assert ClosureT(g, I, ks, {}) == {"A", "B"};
    assert StartBody(["D"]) == [Dot, "D"];
    assert [Dot, "D"] in Start(g, "A");
  }
}
