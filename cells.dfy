/** The cells of the parsing table. An action cell is a string that CASE 2
    of `construct_table` appends to: `s3` for a shift, `r2` for a reduce,
    joined by "/" when a cell receives several, and `acc`, which replaces
    whatever the cell held. A goto cell holds a state number. */
module Cells {
  import opened Text

  datatype Action = Shift(target: nat) | Reduce(prod: nat) | Accept

  /** How an action is written: `f's{n}'`, `f'r{j}'`, `'acc'`. */
  function ActionText(a: Action): string {
    match a
    case Shift(n) => "s" + Decimal(n)
    case Reduce(j) => "r" + Decimal(j)
    case Accept => "acc"
  }

  /** A cell of the table: a string, or the state number CASE 3 stores. */
  datatype Cell = Text(text: string) | Number(n: nat)

  /** Python's `t in s` on strings. */
  predicate Contains(s: string, t: string) {
    exists i: nat :: i <= |s| && OccursAt(s, t, i)
  }

  /** One write of CASE 2 into a cell holding `text`: a shift is added once,
      after a "/" when the cell already holds a reduce; a reduce is added
      after a "/" when the cell is not empty; an accept replaces the cell. */
  function Put(text: string, a: Action): string {
    match a
    case Shift(_) =>
      if Contains(text, ActionText(a)) then text
      else (if 'r' in text then text + "/" else text) + ActionText(a)
    case Reduce(_) => (if text != "" then text + "/" else text) + ActionText(a)
    case Accept => "acc"
  }

  /** The cell after the writes `acts`, in order, starting from "". */
  function Render(acts: seq<Action>): string
    decreases |acts|
  {
    if acts == [] then "" else Put(Render(acts[..|acts| - 1]), acts[|acts| - 1])
  }

  /** `s.count(c)`. */
  function Count(s: string, c: char): nat
    decreases |s|
  {
    if s == [] then 0 else (if s[0] == c then 1 else 0) + Count(s[1..], c)
  }

  // ---------------------------------------------------------------------
  // Which writes a cell received, read back from its text.

  /** The writes of a cell whose text can be read back: no accept, every
      shift to the same state (a cell's shifts all come from one `GOTO`),
      and no reduce twice. */
  predicate Tidy(acts: seq<Action>) {
    && (forall k :: 0 <= k < |acts| ==> acts[k] != Accept)
    && (forall k, l :: 0 <= k < |acts| && 0 <= l < |acts| && acts[k].Shift? && acts[l].Shift? ==> acts[k] == acts[l])
    && (forall k, l :: 0 <= k < l < |acts| && acts[k].Reduce? ==> acts[k] != acts[l])
  }

  /** Two different actions were written. */
  predicate TwoKinds(acts: seq<Action>) {
    exists k, l :: 0 <= k < |acts| && 0 <= l < |acts| && acts[k] != acts[l]
  }

  /** The number of reduces written. */
  function Reduces(acts: seq<Action>): nat
    decreases |acts|
  {
    if acts == [] then 0 else Reduces(acts[..|acts| - 1]) + (if acts[|acts| - 1].Reduce? then 1 else 0)
  }

  /** A cell is empty exactly when nothing was written to it. */
  lemma {:induction false} RenderEmpty(acts: seq<Action>)
    ensures Render(acts) == "" <==> acts == []
  {
    if acts != [] {
      var t := Render(acts[..|acts| - 1]);
      var a := acts[|acts| - 1];
      if a.Shift? && Contains(t, ActionText(a)) {
        var i: nat :| i <= |t| && OccursAt(t, ActionText(a), i);
      }
    }
  }

  /** After an accept the cell starts with `acc`. */
  lemma {:induction false} RenderAccept(acts: seq<Action>)
    requires Accept in acts
    ensures |Render(acts)| >= 3 && Render(acts)[..3] == "acc"
    decreases |acts|
  {
    var init := acts[..|acts| - 1];
    var a := acts[|acts| - 1];
    if a != Accept {
      assert Accept in init;
      RenderAccept(init);
      var t := Render(init);
      assert (t + "/")[..3] == t[..3];
    }
  }

  /** Without an accept, a cell is empty or starts with the `s` or `r` of
      its first write. */
  lemma {:induction false} RenderFirst(acts: seq<Action>)
    requires Accept !in acts
    ensures Render(acts) == "" || Render(acts)[0] == 's' || Render(acts)[0] == 'r'
    decreases |acts|
  {
    if acts != [] {
      var init := acts[..|acts| - 1];
      var a := acts[|acts| - 1];
      assert Accept !in init by {
        forall k | 0 <= k < |init| ensures init[k] != Accept { assert init[k] == acts[k]; }
      }
      RenderFirst(init);
      var t := Render(init);
      if t != "" {
        assert a.Shift? || a.Reduce?;
        assert Put(t, a)[0] == t[0];
      } else {
        assert Put(t, a) == ActionText(a);
      }
    }
  }

  /** Without shifts, a cell that received an accept is `acc`, or holds a
      "/" before a reduce written after the accept. */
  lemma {:induction false} RenderAccepted(acts: seq<Action>)
    requires Accept in acts && forall k :: 0 <= k < |acts| ==> !acts[k].Shift?
    ensures Render(acts) == "acc" || '/' in Render(acts)
    decreases |acts|
  {
    var init := acts[..|acts| - 1];
    var a := acts[|acts| - 1];
    if a != Accept {
      assert Accept in init;
      RenderAccepted(init);
      var t := Render(init);
      assert a.Reduce?;
      assert Render(acts) == t + "/" + ActionText(a);
      assert (t + "/" + ActionText(a))[|t|] == '/';
    }
  }

  /** A cell written by one action, any number of times (a reduce only
      once), holds exactly that action's text. */
  lemma {:induction false} RenderSingle(acts: seq<Action>, a: Action)
    requires acts != [] && Tidy(acts) && forall k :: 0 <= k < |acts| ==> acts[k] == a
    ensures Render(acts) == ActionText(a)
    decreases |acts|
  {
    var init := acts[..|acts| - 1];
    if init != [] {
      assert Tidy(init);
      RenderSingle(init, a);
      assert acts[0] == a && acts[|acts| - 1] == a;
      assert !a.Reduce?;
      assert OccursAt(ActionText(a), ActionText(a), 0);
    }
  }

  /** The text of a tidy cell holds a "/" exactly when two different actions
      were written to it, and as many `r` as reduces were written. */
  lemma {:induction false} RenderTidy(acts: seq<Action>)
    requires Tidy(acts)
    ensures '/' in Render(acts) <==> TwoKinds(acts)
    ensures Count(Render(acts), 'r') == Reduces(acts)
    ensures ('s' in Render(acts)) <==> (exists k :: 0 <= k < |acts| && acts[k].Shift?)
    ensures forall n: nat :: Shift(n) in acts ==> Contains(Render(acts), ActionText(Shift(n)))
    decreases |acts|
  {
    if acts != [] {
      var init := acts[..|acts| - 1];
      var a := acts[|acts| - 1];
      assert Tidy(init);
      RenderTidy(init);
      var t := Render(init);
      RenderEmpty(init);
      var v := Put(t, a);
      assert Render(acts) == v;
      match a {
        case Accept =>
          assert false;
        case Shift(n) =>
          if Shift(n) in init {
            PutSeen(t, a);
            ShiftSeen(acts, init, t, n);
          } else {
            ShiftNew(acts, init, t, v, n);
          }
        case Reduce(j) =>
          ReduceNew(acts, init, t, v, j);
      }
    }
  }

  /** A shift written again leaves the cell as it was. */
  lemma {:induction false} ShiftSeen(acts: seq<Action>, init: seq<Action>, t: string, n: nat)
    requires acts != [] && init == acts[..|acts| - 1] && acts[|acts| - 1] == Shift(n) && Shift(n) in init
    requires '/' in t <==> TwoKinds(init)
    requires Count(t, 'r') == Reduces(init)
    requires ('s' in t) <==> (exists k :: 0 <= k < |init| && init[k].Shift?)
    requires forall m: nat :: Shift(m) in init ==> Contains(t, ActionText(Shift(m)))
    ensures '/' in t <==> TwoKinds(acts)
    ensures Count(t, 'r') == Reduces(acts)
    ensures ('s' in t) <==> (exists k :: 0 <= k < |acts| && acts[k].Shift?)
    ensures forall m: nat :: Shift(m) in acts ==> Contains(t, ActionText(Shift(m)))
  {
    var k :| 0 <= k < |init| && init[k] == Shift(n);
    TwoKindsRepeat(acts, init, k);
    ReducesOfShift(acts);
    RepeatAddsNothing(acts, init, k);
    assert acts[k].Shift?;
  }

  /** Writing again an action already written adds no new action. */
  lemma {:induction false} RepeatAddsNothing(acts: seq<Action>, init: seq<Action>, k: nat)
    requires acts != [] && init == acts[..|acts| - 1] && k < |init| && init[k] == acts[|acts| - 1]
    ensures forall x :: x in acts ==> x in init
  {
    forall x | x in acts ensures x in init {
      var l :| 0 <= l < |acts| && acts[l] == x;
      if l < |init| {
        assert init[l] == x;
      } else {
        assert init[k] == x;
      }
    }
  }

  /** A shift already in the cell's text leaves it unchanged. */
  lemma {:induction false} PutSeen(t: string, a: Action)
    requires a.Shift? && Contains(t, ActionText(a))
    ensures Put(t, a) == t
  {
  }

  /** Writing again an action already written makes no new kind. */
  lemma {:induction false} TwoKindsRepeat(acts: seq<Action>, init: seq<Action>, k: nat)
    requires acts != [] && init == acts[..|acts| - 1] && k < |init| && init[k] == acts[|acts| - 1]
    ensures TwoKinds(acts) <==> TwoKinds(init)
  {
    if TwoKinds(acts) {
      var p, q :| 0 <= p < |acts| && 0 <= q < |acts| && acts[p] != acts[q];
      var p' := if p == |acts| - 1 then k else p;
      var q' := if q == |acts| - 1 then k else q;
      assert init[p'] != init[q'];
    }
    if TwoKinds(init) {
      var p, q :| 0 <= p < |init| && 0 <= q < |init| && init[p] != init[q];
      assert acts[p] != acts[q];
    }
  }

  /** `c in s + t` splits over the two parts. */
  lemma {:induction false} InAppend(s: string, t: string, c: char)
    ensures c in s + t <==> c in s || c in t
  {
    if c in s + t {
      var i :| 0 <= i < |s + t| && (s + t)[i] == c;
      if i >= |s| {
        assert t[i - |s|] == c;
      }
    }
    if c in s {
      var i :| 0 <= i < |s| && s[i] == c;
      assert (s + t)[i] == c;
    }
    if c in t {
      var i :| 0 <= i < |t| && t[i] == c;
      assert (s + t)[|s| + i] == c;
    }
  }

  /** A first shift is appended, after a "/" when a reduce is there. */
  lemma {:induction false} ShiftNew(acts: seq<Action>, init: seq<Action>, t: string, v: string, n: nat)
    requires acts != [] && init == acts[..|acts| - 1] && acts[|acts| - 1] == Shift(n) && Shift(n) !in init
    requires Tidy(acts) && v == Put(t, Shift(n)) && (t == "" <==> init == [])
    requires '/' in t <==> TwoKinds(init)
    requires Count(t, 'r') == Reduces(init)
    requires ('s' in t) <==> (exists k :: 0 <= k < |init| && init[k].Shift?)
    ensures '/' in v <==> TwoKinds(acts)
    ensures Count(v, 'r') == Reduces(acts)
    ensures ('s' in v) <==> (exists k :: 0 <= k < |acts| && acts[k].Shift?)
    ensures forall m: nat :: Shift(m) in acts ==> Contains(v, ActionText(Shift(m)))
  {
    OnlyReduces(acts, init, n);
    assert 's' !in t;
    ShiftText(t, n);
    ReducesOfShift(acts);
    if 'r' in t {
      NonEmptyTwoKinds(acts, init);
    } else {
      if t != "" {
        CountPositive(t, init);
      }
      NoTwoKinds(acts);
    }
    forall m: nat | Shift(m) in acts ensures m == n {
      var l :| 0 <= l < |acts| && acts[l] == Shift(m);
      assert acts[l] == acts[|acts| - 1];
    }
    assert acts[|acts| - 1].Shift?;
  }

  /** What a first shift adds to a text holding no shift. */
  lemma {:induction false} ShiftText(t: string, n: nat)
    requires 's' !in t
    ensures '/' in Put(t, Shift(n)) <==> ('/' in t || 'r' in t)
    ensures Count(Put(t, Shift(n)), 'r') == Count(t, 'r')
    ensures 's' in Put(t, Shift(n))
    ensures Contains(Put(t, Shift(n)), ActionText(Shift(n)))
  {
    var s := ActionText(Shift(n));
    TextOfAction(Shift(n));
    NotContained(t, s);
    var u := if 'r' in t then t + "/" else t;
    assert Put(t, Shift(n)) == u + s;
    AppendText(t, u, s);
  }

  /** The characters appending a shift's text `s` after `u` adds. */
  lemma {:induction false} AppendText(t: string, u: string, s: string)
    requires u == if 'r' in t then t + "/" else t
    requires |s| > 0 && s[0] == 's' && '/' !in s && 'r' !in s
    ensures '/' in u + s <==> ('/' in t || 'r' in t)
    ensures Count(u + s, 'r') == Count(t, 'r')
    ensures 's' in u + s
    ensures Contains(u + s, s)
  {
    InAppend(u, s, '/');
    InAppend(t, "/", '/');
    assert (u + s)[|u|] == 's';
    AppendCount(t, u, s);
    assert (u + s)[|u|..|u| + |s|] == s;
    assert OccursAt(u + s, s, |u|);
  }

  lemma {:induction false} AppendCount(t: string, u: string, s: string)
    requires u == if 'r' in t then t + "/" else t
    requires 'r' !in s
    ensures Count(u + s, 'r') == Count(t, 'r')
  {
    CountAppend(u, s, 'r');
    CountAppend(t, "/", 'r');
    CountZero(s, 'r');
    CountZero("/", 'r');
  }

  /** Before the first shift of a tidy cell, only reduces were written. */
  lemma {:induction false} OnlyReduces(acts: seq<Action>, init: seq<Action>, n: nat)
    requires acts != [] && init == acts[..|acts| - 1] && acts[|acts| - 1] == Shift(n) && Shift(n) !in init
    requires Tidy(acts)
    ensures forall k :: 0 <= k < |init| ==> init[k].Reduce?
  {
    forall k | 0 <= k < |init| ensures init[k].Reduce? {
      assert acts[k] == init[k] && init[k] in init;
      assert acts[k] != Accept;
      assert acts[|acts| - 1] == Shift(n);
      assert !init[k].Shift?;
    }
  }

  /** A text without an `s` holds no shift's text. */
  lemma {:induction false} NotContained(t: string, s: string)
    requires 's' !in t && |s| > 0 && s[0] == 's'
    ensures !Contains(t, s)
  {
    forall i: nat | i <= |t| ensures !OccursAt(t, s, i) {
      if i + |s| <= |t| {
        assert t[i] == t[i..i + |s|][0];
      }
    }
  }

  /** A reduce is appended, after a "/" when the cell is not empty. */
  lemma {:induction false} ReduceNew(acts: seq<Action>, init: seq<Action>, t: string, v: string, j: nat)
    requires acts != [] && init == acts[..|acts| - 1] && acts[|acts| - 1] == Reduce(j)
    requires Tidy(acts) && v == Put(t, Reduce(j)) && (t == "" <==> init == [])
    requires '/' in t <==> TwoKinds(init)
    requires Count(t, 'r') == Reduces(init)
    requires ('s' in t) <==> (exists k :: 0 <= k < |init| && init[k].Shift?)
    requires forall m: nat :: Shift(m) in init ==> Contains(t, ActionText(Shift(m)))
    ensures '/' in v <==> TwoKinds(acts)
    ensures Count(v, 'r') == Reduces(acts)
    ensures ('s' in v) <==> (exists k :: 0 <= k < |acts| && acts[k].Shift?)
    ensures forall m: nat :: Shift(m) in acts ==> Contains(v, ActionText(Shift(m)))
  {
    var r := ActionText(Reduce(j));
    var w := (if t != "" then "/" else "") + r;
    assert v == t + w;
    ReduceCounts(t, j);
    ReduceKinds(acts, init, t);
    ReduceShifts(acts, init);
    forall m: nat | Shift(m) in acts ensures Contains(v, ActionText(Shift(m))) {
      assert Shift(m) in init;
      ContainsAppend(t, ActionText(Shift(m)), w);
    }
  }

  /** The characters a reduce's text adds to a cell. */
  lemma {:induction false} ReduceCounts(t: string, j: nat)
    ensures Count(Put(t, Reduce(j)), 'r') == Count(t, 'r') + 1
    ensures '/' in Put(t, Reduce(j)) <==> ('/' in t || t != "")
    ensures 's' in Put(t, Reduce(j)) <==> 's' in t
  {
    var r := ActionText(Reduce(j));
    var u := if t != "" then t + "/" else t;
    assert Put(t, Reduce(j)) == u + r;
    TextOfAction(Reduce(j));
    CountAppend(u, r, 'r');
    CountAppend(t, "/", 'r');
    CountZero("/", 'r');
    assert Count(r, 'r') == 1 by {
      assert r == "r" + Decimal(j);
      CountAppend("r", Decimal(j), 'r');
      CountZero(Decimal(j), 'r');
    }
    InAppend(u, r, '/');
    InAppend(t, "/", '/');
    InAppend(u, r, 's');
    InAppend(t, "/", 's');
  }

  /** A reduce written to a tidy cell makes two kinds exactly when the cell
      already held something. */
  lemma {:induction false} ReduceKinds(acts: seq<Action>, init: seq<Action>, t: string)
    requires acts != [] && init == acts[..|acts| - 1] && acts[|acts| - 1].Reduce?
    requires Tidy(acts) && (t == "" <==> init == [])
    requires '/' in t <==> TwoKinds(init)
    ensures TwoKinds(acts) <==> ('/' in t || t != "")
  {
    if t != "" {
      assert acts[|acts| - 1] !in init;
      NonEmptyTwoKinds(acts, init);
    } else {
      NoTwoKinds(acts);
    }
  }

  /** A reduce adds no shift. */
  lemma {:induction false} ReduceShifts(acts: seq<Action>, init: seq<Action>)
    requires acts != [] && init == acts[..|acts| - 1] && acts[|acts| - 1].Reduce?
    ensures (exists k :: 0 <= k < |acts| && acts[k].Shift?) <==> (exists k :: 0 <= k < |init| && init[k].Shift?)
    ensures Reduces(acts) == Reduces(init) + 1
  {
    if exists k :: 0 <= k < |acts| && acts[k].Shift? {
      var k :| 0 <= k < |acts| && acts[k].Shift?;
      assert init[k].Shift?;
    }
    if exists k :: 0 <= k < |init| && init[k].Shift? {
      var k :| 0 <= k < |init| && init[k].Shift?;
      assert acts[k].Shift?;
    }
  }

  /** The non-digit characters of an action's text. */
  lemma {:induction false} TextOfAction(a: Action)
    ensures a.Shift? ==> |ActionText(a)| >= 2 && ActionText(a)[0] == 's'
    ensures a.Reduce? ==> ActionText(a)[0] == 'r'
    ensures a != Accept ==> forall k :: 1 <= k < |ActionText(a)| ==> '0' <= ActionText(a)[k] <= '9'
    ensures a != Accept ==> '/' !in ActionText(a)
    ensures a.Shift? ==> 'r' !in ActionText(a)
    ensures a.Reduce? ==> 's' !in ActionText(a)
  {
    var t := ActionText(a);
    if a != Accept {
      var d := if a.Shift? then Decimal(a.target) else Decimal(a.prod);
      assert t == [t[0]] + d;
      assert forall k :: 1 <= k < |t| ==> t[k] == d[k - 1];
    }
  }

  lemma {:induction false} CountAppend(s: string, t: string, c: char)
    ensures Count(s + t, c) == Count(s, c) + Count(t, c)
    decreases |s|
  {
    if s != [] {
      assert (s + t)[0] == s[0];
      assert (s + t)[1..] == s[1..] + t;
      CountAppend(s[1..], t, c);
    } else {
      assert s + t == t;
    }
  }

  lemma {:induction false} CountZero(s: string, c: char)
    ensures Count(s, c) == 0 <==> c !in s
    decreases |s|
  {
    if s != [] {
      CountZero(s[1..], c);
      assert s == [s[0]] + s[1..];
    }
  }

  lemma {:induction false} ContainsAppend(s: string, t: string, u: string)
    requires Contains(s, t)
    ensures Contains(s + u, t)
  {
    var i: nat :| i <= |s| && OccursAt(s, t, i);
    assert (s + u)[i..i + |t|] == s[i..i + |t|];
    assert OccursAt(s + u, t, i);
  }

  /** A cell holding only reduces holds an `r` once something is written. */
  lemma {:induction false} CountPositive(t: string, init: seq<Action>)
    requires t != "" && Count(t, 'r') == Reduces(init)
    requires forall k :: 0 <= k < |init| ==> init[k].Reduce?
    requires t == "" <==> init == []
    ensures 'r' in t
  {
    assert init[|init| - 1].Reduce?;
    assert Reduces(init) > 0;
    CountZero(t, 'r');
  }

  lemma {:induction false} ReducesOfShift(acts: seq<Action>)
    requires acts != [] && acts[|acts| - 1].Shift?
    ensures Reduces(acts) == Reduces(acts[..|acts| - 1])
  {
  }

  /** Appending to a non-empty cell an action not in it makes two kinds. */
  lemma {:induction false} NonEmptyTwoKinds(acts: seq<Action>, init: seq<Action>)
    requires acts != [] && init == acts[..|acts| - 1] && init != []
    requires Tidy(acts) && acts[|acts| - 1] !in init
    ensures TwoKinds(acts)
  {
    assert acts[0] != acts[|acts| - 1];
  }

  lemma {:induction false} NoTwoKinds(acts: seq<Action>)
    requires |acts| == 1
    ensures !TwoKinds(acts)
  {
  }
}
