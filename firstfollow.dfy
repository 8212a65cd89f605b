/** FIRST and FOLLOW sets, computed as app.py's `first_follow` does: passes
    over every production, each growing the sets in place, until a whole
    pass grows none. The result is the least pair of dictionaries that
    contains the starting sets and satisfies every production's FIRST and
    FOLLOW rule. */
module FirstFollow {
  import opened Wrappers
  import opened Text
  import opened GrammarModel
  import opened GrammarFacts

  /** A dictionary from symbols to sets of symbols. */
  type Sets = map<Symbol, set<Symbol>>

  const EndMarker: Symbol := "$"

  /** The set stored under `k`, or the empty set. */
  function Of(m: Sets, k: Symbol): set<Symbol> {
    if k in m then m[k] else {}
  }

  /** `union(set_1, set_2)`: `set_1` becomes `set_1 | set_2`, and the flag
      says whether its size changed. */
  function Union(a: set<Symbol>, b: set<Symbol>): (r: (set<Symbol>, bool))
    ensures r.0 == a + b
    ensures r.1 <==> !(b <= a)
  {
    if b <= a then assert a + b == a; (a + b, |a + b| != |a|)
    else
      var x :| x in b && x !in a;
      assert a + b == a + (b - a) && a * (b - a) == {};
      assert x in b - a;
      (a + b, |a + b| != |a|)
  }

  // ---------------------------------------------------------------------
  // The rules a finished computation satisfies, one production at a time.

  /** A symbol that can vanish: "^" itself, or one whose FIRST set holds "^". */
  ghost predicate Nullable(first: Sets, s: Symbol) {
    s == Null || Null in Of(first, s)
  }

  ghost predicate NullablePrefix(first: Sets, body: Body, i: nat)
    requires i <= |body|
  {
    forall j :: 0 <= j < i ==> Nullable(first, body[j])
  }

  /** What position `j` of a body gives the FIRST set of its head. */
  ghost function Contribution(first: Sets, body: Body, j: nat): set<Symbol>
    requires j < |body|
  {
    if body[j] == Null then {Null} else Of(first, body[j]) - {Null}
  }

  /** The FIRST rule of `head -> body`: every symbol up to and including the
      first one that cannot vanish gives its FIRST set minus "^", and "^"
      belongs to FIRST(head) when the whole body can vanish. */
  ghost predicate FirstRule(first: Sets, head: Symbol, body: Body) {
    && (forall i :: 0 <= i < |body| && NullablePrefix(first, body, i) ==> Contribution(first, body, i) <= Of(first, head))
    && (NullablePrefix(first, body, |body|) ==> Null in Of(first, head))
  }

  /** The trailing set of the right-to-left FOLLOW walk once it has passed
      positions `i` to the end: it starts as FOLLOW(head), grows by the FIRST
      set of a symbol that can vanish and restarts at the FIRST set of one
      that cannot. */
  ghost function Trailer(first: Sets, followHead: set<Symbol>, body: Body, i: nat): set<Symbol>
    requires i <= |body|
    decreases |body| - i
  {
    if i == |body| then followHead
    else
      var t := Trailer(first, followHead, body, i + 1);
      if body[i] == Null then t
      else if Null in Of(first, body[i]) then t + Of(first, body[i])
      else Of(first, body[i])
  }

  /** The FOLLOW rule of `head -> body` from position `i` on: each
      nonterminal there is followed by what trails it, minus "^". */
  ghost predicate FollowRuleFrom(first: Sets, follow: Sets, head: Symbol, body: Body, i: nat)
    requires i <= |body|
  {
    forall j :: i <= j < |body| && body[j] != Null && body[j] in follow ==>
      Trailer(first, Of(follow, head), body, j + 1) - {Null} <= follow[body[j]]
  }

  ghost predicate FollowRule(first: Sets, follow: Sets, head: Symbol, body: Body) {
    FollowRuleFrom(first, follow, head, body, 0)
  }

  /** Every production satisfies both rules. */
  ghost predicate Closed(g: Grammar, first: Sets, follow: Sets) {
    forall h, b :: h in g.prods && b in g.prods[h] ==> FirstRule(first, h, b) && FollowRule(first, follow, h, b)
  }

  /** The dictionaries `first_follow` starts from: FIRST(t) = {t} for a
      terminal, FIRST(N) empty for a nonterminal, FOLLOW(start) = {"$"} and
      every other FOLLOW set empty. */
  function InitialFirst(g: Grammar): Sets {
    map s | s in g.Symbols() :: if s in g.terminals then {s} else {}
  }

  function InitialFollow(g: Grammar): Sets
    requires g.start.Some?
  {
    map n | n in g.nonterminals :: if n == g.start.value then {EndMarker} else {}
  }

  /** Every set of `m` is contained in the set of `m'` under the same key. */
  ghost predicate Below(m: Sets, m': Sets) {
    forall k :: k in m ==> k in m' && m[k] <= m'[k]
  }

  /** Every set of `m'` contains the set of `m` under the same key. */
  ghost predicate Grows(m: Sets, m': Sets) {
    m'.Keys == m.Keys && Below(m, m')
  }

  /** The symbols the sets may hold. */
  function Universe(g: Grammar): set<Symbol> {
    g.terminals + {Null, EndMarker}
  }

  /** The shape of the two dictionaries throughout the computation: FIRST is
      keyed by every symbol and FIRST(t) = {t} for a terminal t, FOLLOW is
      keyed by the nonterminals, FIRST sets hold terminals and "^", FOLLOW
      sets hold terminals and "$", never "^". */
  ghost predicate Shape(g: Grammar, first: Sets, follow: Sets) {
    && first.Keys == g.Symbols()
    && follow.Keys == g.nonterminals
    && (forall t :: t in g.terminals ==> first[t] == {t})
    && (forall k :: k in first ==> first[k] <= g.terminals + {Null})
    && (forall k :: k in follow ==> follow[k] <= g.terminals + {EndMarker})
  }

  // ---------------------------------------------------------------------
  // What one production demands of the sets.

  /** Everything the FIRST rule of a production requires in FIRST(head). */
  ghost function FirstDemand(first: Sets, body: Body): set<Symbol> {
    (set j, x | 0 <= j < |body| && NullablePrefix(first, body, j) && x in Contribution(first, body, j) :: x)
    + (if NullablePrefix(first, body, |body|) then {Null} else {})
  }

  lemma FirstRuleIsDemand(first: Sets, head: Symbol, body: Body)
    ensures FirstRule(first, head, body) <==> FirstDemand(first, body) <= Of(first, head)
  {
    if FirstDemand(first, body) <= Of(first, head) {
      forall i | 0 <= i < |body| && NullablePrefix(first, body, i)
        ensures Contribution(first, body, i) <= Of(first, head)
      {
        forall x | x in Contribution(first, body, i) ensures x in FirstDemand(first, body) { }
      }
    }
  }

  /** Everything the FOLLOW rule, from position `i` on, requires in FOLLOW(k). */
  ghost function FollowFrom(first: Sets, followHead: set<Symbol>, body: Body, i: nat, k: Symbol): set<Symbol>
    requires i <= |body|
    decreases |body| - i
  {
    if i == |body| then {}
    else
      FollowFrom(first, followHead, body, i + 1, k)
      + (if body[i] == k && k != Null then Trailer(first, followHead, body, i + 1) - {Null} else {})
  }

  ghost predicate FollowDemandsMet(first: Sets, follow: Sets, followHead: set<Symbol>, body: Body, i: nat)
    requires i <= |body|
  {
    forall k :: k in follow ==> FollowFrom(first, followHead, body, i, k) <= follow[k]
  }

  lemma FollowDemandsStep(first: Sets, follow: Sets, followHead: set<Symbol>, body: Body, i: nat)
    requires i < |body|
    ensures FollowDemandsMet(first, follow, followHead, body, i)
        <==> FollowDemandsMet(first, follow, followHead, body, i + 1)
             && (body[i] != Null && body[i] in follow ==> Trailer(first, followHead, body, i + 1) - {Null} <= follow[body[i]])
  {
    if FollowDemandsMet(first, follow, followHead, body, i) {
      forall k | k in follow ensures FollowFrom(first, followHead, body, i + 1, k) <= follow[k] {
        assert FollowFrom(first, followHead, body, i + 1, k) <= FollowFrom(first, followHead, body, i, k);
      }
      if body[i] != Null && body[i] in follow {
        assert FollowFrom(first, followHead, body, i, body[i]) <= follow[body[i]];
      }
    }
  }

  lemma {:induction false} FollowRuleIsDemand(first: Sets, follow: Sets, head: Symbol, body: Body, i: nat)
    requires i <= |body|
    ensures FollowRuleFrom(first, follow, head, body, i) <==> FollowDemandsMet(first, follow, Of(follow, head), body, i)
    decreases |body| - i
  {
    if i < |body| {
      FollowRuleIsDemand(first, follow, head, body, i + 1);
      FollowDemandsStep(first, follow, Of(follow, head), body, i);
      FollowRuleFromStep(first, follow, head, body, i);
    }
  }

  /** The FOLLOW rule from `i` is the rule at `i` and the rule after it. */
  lemma FollowRuleFromStep(first: Sets, follow: Sets, head: Symbol, body: Body, i: nat)
    requires i < |body|
    ensures FollowRuleFrom(first, follow, head, body, i)
        <==> (body[i] != Null && body[i] in follow ==> Trailer(first, Of(follow, head), body, i + 1) - {Null} <= follow[body[i]])
             && FollowRuleFrom(first, follow, head, body, i + 1)
  {
  }

  // ---------------------------------------------------------------------
  // One production: adding to FIRST(head), then to the FOLLOW sets.

  /** What the first `i` positions of a body contribute. */
  ghost function Acc(first: Sets, body: Body, i: nat): set<Symbol>
    requires i <= |body|
  {
    if i == 0 then {} else Acc(first, body, i - 1) + Contribution(first, body, i - 1)
  }

  lemma {:induction false} AccMembers(first: Sets, body: Body, i: nat, x: Symbol)
    requires i <= |body|
    ensures x in Acc(first, body, i) <==> exists j :: 0 <= j < i && x in Contribution(first, body, j)
  {
    if i > 0 {
      AccMembers(first, body, i - 1, x);
    }
  }

  /** The left-to-right walk over one body (app.py's first inner `for`, with
      its `break` and its `else`): FIRST(head) grows by exactly what the
      production's FIRST rule demands, and the walk reports growth exactly
      when the rule did not hold yet. */
  method FirstOfBody(first: Sets, head: Symbol, body: Body) returns (first': Sets, grew: bool)
    requires head in first && !MisusesNull(body)
    ensures first' == first[head := first[head] + FirstDemand(first, body)]
    ensures grew <==> first' != first
    ensures grew <==> !FirstRule(first, head, body)
  {
    // `cur` is `first[head]` as the walk grows it in place.
    var cur := first[head];
    grew := false;
    var i, broke := 0, false;
    while i < |body| && !broke
      invariant 0 <= i <= |body|
      invariant cur == first[head] + Acc(first, body, i)
      invariant !broke ==> NullablePrefix(first, body, i)
      invariant broke ==> 0 < i && NullablePrefix(first, body, i - 1) && !Nullable(first, body[i - 1])
      invariant grew <==> !(Acc(first, body, i) <= first[head])
    {
      var g1;
      WalkGrew(first, head, body, i, cur);
      cur, g1, broke := FirstAt(first, head, body, i, cur);
      grew := grew || g1;
      NullablePrefixNext(first, body, i);
      i := i + 1;
    }
    if !broke {
      var u := Union(cur, {Null});
      cur, grew := u.0, grew || u.1;
    }
    WalkDemand(first, body, i, broke);
    assert cur == first[head] + FirstDemand(first, body);
    first' := first[head := cur];
    FirstRuleIsDemand(first, head, body);
    UpdateSelf(first, head, cur);
  }

  /** One iteration of the walk, at position `i` of the body: the new
      `first[head]`, whether it grew, and whether the walk stops here. */
  method FirstAt(first: Sets, head: Symbol, body: Body, i: nat, cur: set<Symbol>)
    returns (cur': set<Symbol>, grew: bool, stop: bool)
    requires head in first && i < |body| && !MisusesNull(body)
    requires cur == first[head] + Acc(first, body, i)
    ensures cur' == first[head] + Acc(first, body, i + 1)
    ensures grew <==> !(Contribution(first, body, i) <= cur)
    ensures stop <==> !Nullable(first, body[i])
  {
    var symbol := body[i];
    stop := false;
    if symbol != Null {
      var read := Of(first[head := cur], symbol) - {Null};
      ReadDuringWalk(first, head, body, i, cur);
      var u := Union(cur, read);
      cur', grew := u.0, u.1;
      NullReadBack(first, head, body, i, cur');
      if Null !in Of(first[head := cur'], symbol) {
        stop := true;
      }
    } else {
      var u := Union(cur, {Null});
      cur', grew := u.0, u.1;
    }
  }

  lemma WalkGrew(first: Sets, head: Symbol, body: Body, i: nat, cur: set<Symbol>)
    requires head in first && i < |body|
    requires cur == first[head] + Acc(first, body, i)
    ensures (!(Acc(first, body, i) <= first[head]) || !(Contribution(first, body, i) <= cur))
        <==> !(Acc(first, body, i + 1) <= first[head])
  {
  }

  /** A walk that has reached the real symbol at position `i` reads
      `first[symbol]` as it was before the walk, up to the part the walk has
      already added to FIRST(head). */
  lemma ReadDuringWalk(first: Sets, head: Symbol, body: Body, i: nat, cur: set<Symbol>)
    requires head in first && i < |body| && body[i] != Null
    requires cur == first[head] + Acc(first, body, i)
    ensures cur + (Of(first[head := cur], body[i]) - {Null}) == cur + Contribution(first, body, i)
  {
  }

  /** After adding position `i`'s contribution no "^" has been added, so the
      walk's test on `first[symbol]` agrees with the one before the walk. */
  lemma NullReadBack(first: Sets, head: Symbol, body: Body, i: nat, cur: set<Symbol>)
    requires head in first && i < |body| && body[i] != Null && !MisusesNull(body)
    requires cur == first[head] + Acc(first, body, i + 1)
    ensures Null in Of(first[head := cur], body[i]) <==> Nullable(first, body[i])
  {
    NoNullBefore(first, body, i);
  }

  lemma NullablePrefixNext(first: Sets, body: Body, i: nat)
    requires i < |body|
    ensures NullablePrefix(first, body, i + 1) <==> NullablePrefix(first, body, i) && Nullable(first, body[i])
  {
  }

  lemma UpdateSelf(m: Sets, k: Symbol, v: set<Symbol>)
    requires k in m
    ensures m[k := v] == m <==> v == m[k]
  {
    if v == m[k] {
      assert m[k := v] == m;
    }
  }

  /** Up to a position holding a real symbol nothing adds "^". */
  lemma NoNullBefore(first: Sets, body: Body, i: nat)
    requires i < |body| && body[i] != Null && !MisusesNull(body)
    ensures Null !in Acc(first, body, i + 1)
  {
    assert Null !in body;
    forall j | 0 <= j < i + 1 ensures Null !in Contribution(first, body, j) { }
    AccMembers(first, body, i + 1, Null);
  }

  /** The walk, stopped at `i`, has added exactly the production's demand. */
  lemma WalkDemand(first: Sets, body: Body, i: nat, broke: bool)
    requires i <= |body|
    requires !broke ==> i == |body| && NullablePrefix(first, body, i)
    requires broke ==> 0 < i && NullablePrefix(first, body, i - 1) && !Nullable(first, body[i - 1])
    ensures Acc(first, body, i) + (if broke then {} else {Null}) == FirstDemand(first, body)
  {
    var walked := Acc(first, body, i) + (if broke then {} else {Null});
    if broke { assert !NullablePrefix(first, body, |body|); }
    forall x | x in FirstDemand(first, body) ensures x in walked {
      AccMembers(first, body, i, x);
      if broke || x != Null {
        var j :| 0 <= j < |body| && NullablePrefix(first, body, j) && x in Contribution(first, body, j);
        if broke && j >= i { assert i - 1 < j; }
      }
    }
    forall x | x in walked ensures x in FirstDemand(first, body) {
      AccMembers(first, body, i, x);
      if x in Acc(first, body, i) {
        var j :| 0 <= j < i && x in Contribution(first, body, j);
        assert NullablePrefix(first, body, j);
      }
    }
  }

  /** `if symbol in follow: union(follow[symbol], aux - {"^"})`: the new
      dictionary and whether it grew. */
  function AddFollow(follow: Sets, symbol: Symbol, aux: set<Symbol>): (r: (Sets, bool))
    ensures r.0.Keys == follow.Keys
  {
    if symbol in follow then
      var (s, grew) := Union(follow[symbol], aux - {Null});
      (follow[symbol := s], grew)
    else (follow, false)
  }

  /** What the FOLLOW walk has established once it has passed positions `i`
      to the end: each FOLLOW set holds what it held plus what those
      positions demand of it, and growth is reported iff some demand was new. */
  ghost predicate FollowWalk(first: Sets, follow: Sets, followHead: set<Symbol>, body: Body, i: nat,
                             follow': Sets, grew: bool)
    requires i <= |body|
  {
    && follow'.Keys == follow.Keys
    && (forall k :: k in follow ==> follow'[k] == follow[k] + FollowFrom(first, followHead, body, i, k))
    && (grew <==> !FollowDemandsMet(first, follow, followHead, body, i))
  }

  /** The right-to-left walk over one body with its trailing set (app.py's
      second inner `for`): each FOLLOW set grows by exactly what the
      production's FOLLOW rule demands of it, and the walk reports growth
      exactly when the rule did not hold yet. */
  method FollowOfBody(first: Sets, follow: Sets, head: Symbol, body: Body) returns (follow': Sets, grew: bool)
    ensures follow'.Keys == follow.Keys
    ensures forall k :: k in follow ==> follow'[k] == follow[k] + FollowFrom(first, Of(follow, head), body, 0, k)
    ensures grew <==> follow' != follow
    ensures grew <==> !FollowRule(first, follow, head, body)
  {
    follow', grew := follow, false;
    var aux := Of(follow, head);
    ghost var followHead := aux;
    var i := |body|;
    while i > 0
      invariant 0 <= i <= |body|
      invariant aux == Trailer(first, followHead, body, i)
      invariant FollowWalk(first, follow, followHead, body, i, follow', grew)
    {
      i := i - 1;
      follow', grew, aux := FollowAt(first, follow, followHead, body, i, follow', grew, aux);
    }
    FollowRuleIsDemand(first, follow, head, body, 0);
    FollowChanged(first, follow, followHead, body, follow');
  }

  /** One iteration of the FOLLOW walk, at position `i`: "^" is skipped, a
      key of the dictionary takes the trailing set minus "^", and the
      trailing set moves past the symbol. */
  method FollowAt(first: Sets, ghost follow: Sets, ghost followHead: set<Symbol>, body: Body, i: nat,
                  follow': Sets, grew: bool, aux: set<Symbol>)
    returns (follow'': Sets, grew': bool, aux': set<Symbol>)
    requires i < |body|
    requires aux == Trailer(first, followHead, body, i + 1)
    requires FollowWalk(first, follow, followHead, body, i + 1, follow', grew)
    ensures aux' == Trailer(first, followHead, body, i)
    ensures FollowWalk(first, follow, followHead, body, i, follow'', grew')
  {
    var symbol := body[i];
    if symbol == Null {
      FollowWalkNull(first, follow, followHead, body, i, follow', grew);
      return follow', grew, aux;
    }
    var added := AddFollow(follow', symbol, aux);
    FollowWalkStep(first, follow, followHead, body, i, follow', grew, added);
    follow'', grew' := added.0, grew || added.1;
    aux' := if Null in Of(first, symbol) then aux + Of(first, symbol) else Of(first, symbol);
  }

  lemma FollowWalkNull(first: Sets, follow: Sets, followHead: set<Symbol>, body: Body, i: nat,
                       follow': Sets, grew: bool)
    requires i < |body| && body[i] == Null
    requires FollowWalk(first, follow, followHead, body, i + 1, follow', grew)
    ensures FollowWalk(first, follow, followHead, body, i, follow', grew)
  {
    FollowDemandsStep(first, follow, followHead, body, i);
  }

  /** One position of the FOLLOW walk keeps what the walk has established. */
  lemma FollowWalkStep(first: Sets, follow: Sets, followHead: set<Symbol>, body: Body, i: nat,
                       follow': Sets, grew: bool, added: (Sets, bool))
    requires i < |body| && body[i] != Null
    requires FollowWalk(first, follow, followHead, body, i + 1, follow', grew)
    requires added == AddFollow(follow', body[i], Trailer(first, followHead, body, i + 1))
    ensures FollowWalk(first, follow, followHead, body, i, added.0, grew || added.1)
  {
    FollowDemandsStep(first, follow, followHead, body, i);
    if body[i] in follow {
      FollowWalkAdd(first, follow, followHead, body, i, follow', grew);
    } else {
      forall k | k in follow
        ensures FollowFrom(first, followHead, body, i, k) == FollowFrom(first, followHead, body, i + 1, k)
      {
      }
    }
  }

  /** The step at a position holding a key of the FOLLOW dictionary. */
  lemma FollowWalkAdd(first: Sets, follow: Sets, followHead: set<Symbol>, body: Body, i: nat,
                      follow': Sets, grew: bool)
    requires i < |body| && body[i] != Null && body[i] in follow
    requires FollowWalk(first, follow, followHead, body, i + 1, follow', grew)
    requires FollowDemandsMet(first, follow, followHead, body, i)
        <==> FollowDemandsMet(first, follow, followHead, body, i + 1)
             && Trailer(first, followHead, body, i + 1) - {Null} <= follow[body[i]]
    ensures var add := Trailer(first, followHead, body, i + 1) - {Null};
            FollowWalk(first, follow, followHead, body, i,
                       follow'[body[i] := follow'[body[i]] + add], grew || !(add <= follow'[body[i]]))
  {
    var symbol := body[i];
    var add := Trailer(first, followHead, body, i + 1) - {Null};
    var f := follow'[symbol := follow'[symbol] + add];
    forall k | k in follow
      ensures f[k] == follow[k] + FollowFrom(first, followHead, body, i, k)
    {
      if k == symbol {
        assert FollowFrom(first, followHead, body, i, k) == FollowFrom(first, followHead, body, i + 1, k) + add;
      } else {
        assert FollowFrom(first, followHead, body, i, k) == FollowFrom(first, followHead, body, i + 1, k);
      }
    }
    if FollowDemandsMet(first, follow, followHead, body, i + 1) {
      assert FollowFrom(first, followHead, body, i + 1, symbol) <= follow[symbol];
      assert follow'[symbol] == follow[symbol];
    }
  }

  /** The walk changed the dictionary iff some demand was new. */
  lemma FollowChanged(first: Sets, follow: Sets, followHead: set<Symbol>, body: Body, follow': Sets)
    requires follow'.Keys == follow.Keys
    requires forall k :: k in follow ==> follow'[k] == follow[k] + FollowFrom(first, followHead, body, 0, k)
    ensures follow' != follow <==> !FollowDemandsMet(first, follow, followHead, body, 0)
  {
    if FollowDemandsMet(first, follow, followHead, body, 0) {
      forall k | k in follow ensures follow'[k] == follow[k] {
        assert FollowFrom(first, followHead, body, 0, k) <= follow[k];
      }
      assert follow' == follow;
    } else {
      var k :| k in follow && !(FollowFrom(first, followHead, body, 0, k) <= follow[k]);
      assert follow'[k] != follow[k];
    }
  }

  // ---------------------------------------------------------------------
  // Bounds and monotonicity of the demands.

  /** The FIRST sets of the symbols of a body. */
  ghost function BodyFirsts(first: Sets, body: Body): set<Symbol> {
    set j, x | 0 <= j < |body| && x in Of(first, body[j]) :: x
  }

  lemma BodyFirstsWithin(first: Sets, body: Body, bound: set<Symbol>)
    requires forall k :: k in first ==> first[k] <= bound
    ensures BodyFirsts(first, body) <= bound
  {
  }

  lemma FirstDemandWithin(first: Sets, body: Body)
    ensures FirstDemand(first, body) <= {Null} + BodyFirsts(first, body)
  {
    forall x | x in FirstDemand(first, body) ensures x in {Null} + BodyFirsts(first, body) {
      if x != Null {
        var j :| 0 <= j < |body| && NullablePrefix(first, body, j) && x in Contribution(first, body, j);
        assert x in Of(first, body[j]);
      }
    }
  }

  /** The trailing set holds only FOLLOW(head) and FIRST sets of the body. */
  lemma {:induction false} TrailerWithin(first: Sets, followHead: set<Symbol>, body: Body, i: nat)
    requires i <= |body|
    ensures Trailer(first, followHead, body, i) <= followHead + BodyFirsts(first, body)
    decreases |body| - i
  {
    if i < |body| {
      TrailerWithin(first, followHead, body, i + 1);
      forall x | x in Of(first, body[i]) ensures x in BodyFirsts(first, body) { }
    }
  }

  lemma {:induction false} FollowFromWithin(first: Sets, followHead: set<Symbol>, body: Body, i: nat, k: Symbol)
    requires i <= |body|
    ensures FollowFrom(first, followHead, body, i, k) <= (followHead + BodyFirsts(first, body)) - {Null}
    decreases |body| - i
  {
    if i < |body| {
      FollowFromWithin(first, followHead, body, i + 1, k);
      TrailerWithin(first, followHead, body, i + 1);
    }
  }

  lemma FirstDemandMono(first: Sets, first': Sets, body: Body)
    requires Below(first, first')
    ensures FirstDemand(first, body) <= FirstDemand(first', body)
  {
    forall x | x in FirstDemand(first, body) ensures x in FirstDemand(first', body) {
      if NullablePrefix(first, body, |body|) {
        assert NullablePrefix(first', body, |body|);
      }
      if x != Null || !NullablePrefix(first, body, |body|) {
        var j :| 0 <= j < |body| && NullablePrefix(first, body, j) && x in Contribution(first, body, j);
        assert NullablePrefix(first', body, j);
        assert x in Contribution(first', body, j);
      }
    }
  }

  lemma {:induction false} TrailerMono(first: Sets, first': Sets, followHead: set<Symbol>, followHead': set<Symbol>, body: Body, i: nat)
    requires Below(first, first') && followHead <= followHead' && i <= |body|
    ensures Trailer(first, followHead, body, i) <= Trailer(first', followHead', body, i)
    decreases |body| - i
  {
    if i < |body| {
      TrailerMono(first, first', followHead, followHead', body, i + 1);
      assert Of(first, body[i]) <= Of(first', body[i]);
    }
  }

  lemma {:induction false} FollowFromMono(first: Sets, first': Sets, followHead: set<Symbol>, followHead': set<Symbol>, body: Body, i: nat, k: Symbol)
    requires Below(first, first') && followHead <= followHead' && i <= |body|
    ensures FollowFrom(first, followHead, body, i, k) <= FollowFrom(first', followHead', body, i, k)
    decreases |body| - i
  {
    if i < |body| {
      FollowFromMono(first, first', followHead, followHead', body, i + 1, k);
      TrailerMono(first, first', followHead, followHead', body, i + 1);
    }
  }

  // ---------------------------------------------------------------------
  // One production inside a pass.

  /** Both rules of `h -> b` hold. */
  ghost predicate RulesHold(first: Sets, follow: Sets, h: Symbol, b: Body) {
    FirstRule(first, h, b) && FollowRule(first, follow, h, b)
  }

  /** Every closed pair of dictionaries above `first0`, `follow0` is above
      `first`, `follow` as well. */
  ghost predicate BelowEveryClosed(g: Grammar, first0: Sets, follow0: Sets, first: Sets, follow: Sets) {
    forall F, W :: Closed(g, F, W) && Below(first0, F) && Below(follow0, W) ==> Below(first, F) && Below(follow, W)
  }

  /** What a pass that started from `first0`, `follow0` has established
      after visiting the productions in `done`. */
  ghost predicate Progress(g: Grammar, first0: Sets, follow0: Sets, first: Sets, follow: Sets, updated: bool,
                           done: set<(Symbol, Body)>) {
    && Shape(g, first, follow)
    && Grows(first0, first) && Grows(follow0, follow)
    && (!updated ==> first == first0 && follow == follow0 && forall p :: p in done ==> RulesHold(first0, follow0, p.0, p.1))
    && (updated ==> !Closed(g, first0, follow0) && (first != first0 || follow != follow0))
    && BelowEveryClosed(g, first0, follow0, first, follow)
  }

  /** The dictionaries after one production: FIRST(h) grew by its demand
      and then every FOLLOW set by what the production demands of it, read
      with the new FIRST sets. */
  ghost predicate AfterProduction(first: Sets, follow: Sets, h: Symbol, body: Body, first': Sets, follow': Sets)
    requires h in first
  {
    && first' == first[h := first[h] + FirstDemand(first, body)]
    && follow'.Keys == follow.Keys
    && (forall k :: k in follow ==> follow'[k] == follow[k] + FollowFrom(first', Of(follow, h), body, 0, k))
  }

  /** Visiting one production keeps the shape of the dictionaries. */
  lemma ProductionShape(g: Grammar, first: Sets, follow: Sets, h: Symbol, body: Body, first': Sets, follow': Sets)
    requires WellFormed(g) && Shape(g, first, follow)
    requires h in g.prods && body in g.prods[h] && h in first
    requires AfterProduction(first, follow, h, body, first', follow')
    ensures Shape(g, first', follow')
  {
    SymbolKindsDisjoint(g);
    FirstDemandWithin(first, body);
    BodyFirstsWithin(first, body, g.terminals + {Null});
    assert forall k :: k in first' ==> first'[k] <= g.terminals + {Null};
    BodyFirstsWithin(first', body, g.terminals + {Null});
    forall k | k in follow' ensures follow'[k] <= g.terminals + {EndMarker} {
      FollowFromWithin(first', Of(follow, h), body, 0, k);
    }
  }

  /** Visiting one production never goes beyond a closed pair above the
      dictionaries. */
  lemma ProductionBelowClosed(g: Grammar, F: Sets, W: Sets, first: Sets, follow: Sets, h: Symbol, body: Body,
                              first': Sets, follow': Sets)
    requires Closed(g, F, W) && Below(first, F) && Below(follow, W)
    requires h in g.prods && body in g.prods[h] && h in first
    requires AfterProduction(first, follow, h, body, first', follow')
    ensures Below(first', F) && Below(follow', W)
  {
    assert RulesHold(F, W, h, body);
    FirstRuleIsDemand(F, h, body);
    FirstDemandMono(first, F, body);
    assert Below(first', F);
    FollowRuleIsDemand(F, W, h, body, 0);
    forall k | k in follow' ensures k in W && follow'[k] <= W[k] {
      FollowFromMono(first', F, Of(follow, h), Of(W, h), body, 0, k);
    }
  }

  /** Growth that has once made a dictionary differ keeps it different. */
  lemma StillDiffers(m0: Sets, m1: Sets, m2: Sets)
    requires Grows(m0, m1) && Grows(m1, m2)
    ensures Grows(m0, m2)
    ensures m1 != m0 ==> m2 != m0
  {
    if m1 != m0 {
      var k :| k in m0 && m1[k] != m0[k];
      var x :| x in m1[k] && x !in m0[k];
      assert x in m2[k];
    }
  }

  /** Visiting one production keeps what the pass has established. */
  /** One production keeps the dictionaries below every closed pair above
      the pass's start. */
  lemma ProductionBelowEvery(g: Grammar, first0: Sets, follow0: Sets, first: Sets, follow: Sets, h: Symbol, body: Body,
                             first': Sets, follow': Sets)
    requires BelowEveryClosed(g, first0, follow0, first, follow)
    requires h in g.prods && body in g.prods[h] && h in first
    requires AfterProduction(first, follow, h, body, first', follow')
    ensures BelowEveryClosed(g, first0, follow0, first', follow')
  {
    forall F, W | Closed(g, F, W) && Below(first0, F) && Below(follow0, W)
      ensures Below(first', F) && Below(follow', W)
    {
      ProductionBelowClosed(g, F, W, first, follow, h, body, first', follow');
    }
  }

  lemma ProductionProgress(g: Grammar, first0: Sets, follow0: Sets, first: Sets, follow: Sets, updated: bool,
                           done: set<(Symbol, Body)>, h: Symbol, body: Body,
                           first': Sets, g1: bool, follow': Sets, g2: bool)
    requires WellFormed(g) && Progress(g, first0, follow0, first, follow, updated, done)
    requires h in g.prods && body in g.prods[h] && h in first
    requires AfterProduction(first, follow, h, body, first', follow')
    requires g1 <==> first' != first
    requires g1 <==> !FirstRule(first, h, body)
    requires g2 <==> follow' != follow
    requires g2 <==> !FollowRule(first', follow, h, body)
    ensures Progress(g, first0, follow0, first', follow', updated || g1 || g2, done + {(h, body)})
  {
    ProductionShape(g, first, follow, h, body, first', follow');
    assert Grows(first, first') && Grows(follow, follow');
    StillDiffers(first0, first, first');
    StillDiffers(follow0, follow, follow');
    ProductionBelowEvery(g, first0, follow0, first, follow, h, body, first', follow');
    if !updated {
      if g1 || g2 {
        assert !RulesHold(first0, follow0, h, body);
      } else {
        ProductionHolds(first0, follow0, h, body, done);
      }
    }
  }

  /** A production whose rules held at the start of the pass joins the
      productions visited without an update. */
  lemma ProductionHolds(first0: Sets, follow0: Sets, h: Symbol, body: Body, done: set<(Symbol, Body)>)
    requires RulesHold(first0, follow0, h, body)
    requires forall p :: p in done ==> RulesHold(first0, follow0, p.0, p.1)
    ensures forall p :: p in done + {(h, body)} ==> RulesHold(first0, follow0, p.0, p.1)
  {
  }

  // ---------------------------------------------------------------------
  // A pass and the whole computation.

  /** One pass of `first_follow`'s `while True` loop: every production, heads
      in the order they were read, each head's bodies in any order. The
      pass reports an update exactly when some production's rule did not
      hold at its start, and otherwise leaves both dictionaries unchanged. */
  method Pass(g: Grammar, first: Sets, follow: Sets) returns (first': Sets, follow': Sets, updated: bool)
    requires WellFormed(g) && Shape(g, first, follow)
    ensures Shape(g, first', follow')
    ensures Grows(first, first') && Grows(follow, follow')
    ensures updated <==> !Closed(g, first, follow)
    ensures !updated ==> first' == first && follow' == follow
    ensures updated ==> first' != first || follow' != follow
    ensures BelowEveryClosed(g, first, follow, first', follow')
  {
    first', follow', updated := first, follow, false;
    ghost var done: set<(Symbol, Body)> := {};
    var i := 0;
    while i < |g.heads|
      invariant 0 <= i <= |g.heads|
      invariant Progress(g, first, follow, first', follow', updated, done)
      invariant Visited(g, done, i)
    {
      first', follow', updated, done := PassHead(g, first, follow, i, first', follow', updated, done);
      i := i + 1;
    }
    if !updated {
      forall h, b | h in g.prods && b in g.prods[h] ensures RulesHold(first, follow, h, b) {
        var j :| 0 <= j < |g.heads| && g.heads[j] == h;
      }
    }
  }

  /** Every production of the first `i` heads was visited. */
  ghost predicate Visited(g: Grammar, done: set<(Symbol, Body)>, i: nat) {
    forall j, b :: 0 <= j < i && j < |g.heads| && g.heads[j] in g.prods && b in g.prods[g.heads[j]] ==> (g.heads[j], b) in done
  }

  /** The bodies of one head inside a pass, in any order. */
  method PassHead(g: Grammar, ghost first0: Sets, ghost follow0: Sets, i: nat,
                  first: Sets, follow: Sets, updated: bool, ghost done: set<(Symbol, Body)>)
    returns (first': Sets, follow': Sets, updated': bool, ghost done': set<(Symbol, Body)>)
    requires WellFormed(g) && i < |g.heads|
    requires Progress(g, first0, follow0, first, follow, updated, done) && Visited(g, done, i)
    ensures Progress(g, first0, follow0, first', follow', updated', done') && Visited(g, done', i + 1)
  {
    var head := g.heads[i];
    var todo := g.prods[head];
    first', follow', updated', done' := first, follow, updated, done;
    while todo != {}
      invariant todo <= g.prods[head]
      invariant Progress(g, first0, follow0, first', follow', updated', done') && Visited(g, done', i)
      invariant forall b :: b in g.prods[head] - todo ==> (head, b) in done'
      decreases todo
    {
      var body :| body in todo;
      first', follow', updated' := VisitProduction(g, first0, follow0, head, body, first', follow', updated', done');
      done' := done' + {(head, body)};
      todo := todo - {body};
    }
  }

  /** The FIRST walk and then the FOLLOW walk of one production. */
  method VisitProduction(g: Grammar, ghost first0: Sets, ghost follow0: Sets, head: Symbol, body: Body,
                         first: Sets, follow: Sets, updated: bool, ghost done: set<(Symbol, Body)>)
    returns (first': Sets, follow': Sets, updated': bool)
    requires WellFormed(g) && head in g.prods && body in g.prods[head]
    requires Progress(g, first0, follow0, first, follow, updated, done)
    ensures Progress(g, first0, follow0, first', follow', updated', done + {(head, body)})
  {
    assert BodyClassified(g, body);
    var f1, g1 := FirstOfBody(first, head, body);
    var f2, g2 := FollowOfBody(f1, follow, head, body);
    ProductionProgress(g, first0, follow0, first, follow, updated, done, head, body, f1, g1, f2, g2);
    first', follow', updated' := f1, f2, updated || g1 || g2;
  }

  /** The facts the two dictionaries record, one per (dictionary, key, element). */
  ghost function Facts(first: Sets, follow: Sets): set<(bool, Symbol, Symbol)> {
    (set k, x | k in first && x in first[k] :: (true, k, x)) + (set k, x | k in follow && x in follow[k] :: (false, k, x))
  }

  /** Every fact a computation in shape can record. */
  ghost function Bound(g: Grammar): set<(bool, Symbol, Symbol)> {
    set b: bool, k, x | k in g.Symbols() && x in Universe(g) :: (b, k, x)
  }

  /** A pass that updates records a new fact, and no fact beyond the bound:
      the loop of passes ends. */
  lemma FactsGrow(g: Grammar, first: Sets, follow: Sets, first': Sets, follow': Sets)
    requires Shape(g, first', follow')
    requires Grows(first, first') && Grows(follow, follow')
    requires first' != first || follow' != follow
    ensures Bound(g) - Facts(first', follow') < Bound(g) - Facts(first, follow)
  {
    assert Facts(first, follow) <= Facts(first', follow');
    assert Facts(first', follow') <= Bound(g);
    var e: (bool, Symbol, Symbol);
    if first' != first {
      var k :| k in first && first'[k] != first[k];
      var x :| x in first'[k] && x !in first[k];
      e := (true, k, x);
    } else {
      var k :| k in follow && follow'[k] != follow[k];
      var x :| x in follow'[k] && x !in follow[k];
      e := (false, k, x);
    }
    assert e in Bound(g) - Facts(first, follow);
    assert e !in Bound(g) - Facts(first', follow');
  }

  lemma InitialShape(g: Grammar)
    requires WellFormed(g) && g.start.Some?
    ensures Shape(g, InitialFirst(g), InitialFollow(g))
    ensures g.start.value in g.nonterminals
  {
    assert g.heads[0] in g.prods;
  }

  /** `first_follow(G)`: passes until one updates nothing. The result has the
      shape above, satisfies every production's FIRST and FOLLOW rule,
      contains the starting sets, and is contained in every other pair of
      dictionaries that does both: it is the least such pair, whatever order
      each pass visits the bodies of a head in. */
  method FirstFollow(g: Grammar) returns (first: Sets, follow: Sets)
    requires WellFormed(g) && g.start.Some?
    ensures Shape(g, first, follow)
    ensures Closed(g, first, follow)
    ensures Below(InitialFirst(g), first) && Below(InitialFollow(g), follow)
    ensures BelowEveryClosed(g, InitialFirst(g), InitialFollow(g), first, follow)
    ensures EndMarker in follow[g.start.value]
    ensures forall n :: n in follow ==> Null !in follow[n]
  {
    first := InitialFirst(g);
    follow := InitialFollow(g);
    InitialShape(g);
    SymbolKindsDisjoint(g);
    while true
      invariant Shape(g, first, follow)
      invariant Below(InitialFirst(g), first) && Below(InitialFollow(g), follow)
      invariant BelowEveryClosed(g, InitialFirst(g), InitialFollow(g), first, follow)
      decreases Bound(g) - Facts(first, follow)
    {
      var first', follow', updated := Pass(g, first, follow);
      if updated {
        FactsGrow(g, first, follow, first', follow');
      }
      first, follow := first', follow';
      if !updated {
        return;
      }
    }
  }

  /** The least closed pair above the starting sets is unique: two results
      of `FirstFollow` are equal. */
  lemma LeastIsUnique(g: Grammar, first1: Sets, follow1: Sets, first2: Sets, follow2: Sets)
    requires g.start.Some?
    requires Closed(g, first1, follow1) && Below(InitialFirst(g), first1) && Below(InitialFollow(g), follow1)
    requires Closed(g, first2, follow2) && Below(InitialFirst(g), first2) && Below(InitialFollow(g), follow2)
    requires BelowEveryClosed(g, InitialFirst(g), InitialFollow(g), first1, follow1)
    requires BelowEveryClosed(g, InitialFirst(g), InitialFollow(g), first2, follow2)
    requires first1.Keys == first2.Keys && follow1.Keys == follow2.Keys
    ensures first1 == first2 && follow1 == follow2
  {
    assert Below(first1, first2) && Below(follow1, follow2);
    assert Below(first2, first1) && Below(follow2, follow1);
    assert forall k :: k in first1 ==> first1[k] == first2[k];
    assert forall k :: k in follow1 ==> follow1[k] == follow2[k];
  }
}
