/** The string primitives the grammar reader relies on: Python's
    `str.splitlines`, `str.split()`, `str.split(sep)`, `str.partition`,
    `str.join` and `str.isupper`, written out on `seq<char>`. */
module Text {

  /** Characters for which Python's `str.isspace` holds. */
  predicate IsSpace(c: char) {
    || c == ' ' || c == '\t' || c == '\n' || c == '\r' || c == '\U{B}' || c == '\U{C}'
    || ('\U{1C}' <= c <= '\U{1F}') || c == '\U{85}' || c == '\U{A0}' || c == '\U{1680}'
    || ('\U{2000}' <= c <= '\U{200A}') || c == '\U{2028}' || c == '\U{2029}'
    || c == '\U{202F}' || c == '\U{205F}' || c == '\U{3000}'
  }

  /** Characters at which Python's `str.splitlines` breaks a line. The
      two-character break "\r\n" is two breaks here; the empty line between
      them is dropped, since the grammar reader drops empty lines anyway. */
  predicate IsLineBreak(c: char) {
    || c == '\n' || c == '\r' || c == '\U{B}' || c == '\U{C}'
    || ('\U{1C}' <= c <= '\U{1E}') || c == '\U{85}' || c == '\U{2028}' || c == '\U{2029}'
  }

  /** Length of the longest prefix of `s` free of separators. */
  function RunLength(s: string, isSep: char -> bool): (n: nat)
    ensures n <= |s|
    ensures forall i :: 0 <= i < n ==> !isSep(s[i])
    ensures n < |s| ==> isSep(s[n])
  {
    if s == [] || isSep(s[0]) then 0 else 1 + RunLength(s[1..], isSep)
  }

  /** The maximal non-empty runs of non-separators of `s`, in order: Python's
      `s.split()` when the separators are the white-space characters. */
  function Fields(s: string, isSep: char -> bool): (r: seq<string>)
    ensures forall k :: 0 <= k < |r| ==> r[k] != []
    ensures forall k, i :: 0 <= k < |r| && 0 <= i < |r[k]| ==> !isSep(r[k][i])
    decreases |s|
  {
    if s == [] then []
    else if isSep(s[0]) then Fields(s[1..], isSep)
    else
      var n := RunLength(s, isSep);
      [s[..n]] + Fields(s[n..], isSep)
  }

  /** `s.split()`. */
  function Words(s: string): seq<string> {
    Fields(s, IsSpace)
  }

  /** `filter(None, s.splitlines())`: the non-empty lines of `s`. */
  function Lines(s: string): seq<string> {
    Fields(s, IsLineBreak)
  }

  /** The characters of `s` that are not separators. */
  function Kept(s: string, isSep: char -> bool): string {
    if s == [] then [] else (if isSep(s[0]) then [] else [s[0]]) + Kept(s[1..], isSep)
  }

  function Concat(parts: seq<string>): string {
    if parts == [] then [] else parts[0] + Concat(parts[1..])
  }

  /** `sep.join(parts)`. */
  function Join(parts: seq<string>, sep: string): string {
    if parts == [] then []
    else if |parts| == 1 then parts[0]
    else parts[0] + sep + Join(parts[1..], sep)
  }

  lemma {:induction false} KeptAppend(s: string, t: string, isSep: char -> bool)
    ensures Kept(s + t, isSep) == Kept(s, isSep) + Kept(t, isSep)
  {
    if s != [] {
      assert (s + t)[1..] == s[1..] + t;
      KeptAppend(s[1..], t, isSep);
    } else {
      assert s + t == t;
    }
  }

  lemma {:induction false} KeptRun(s: string, n: nat, isSep: char -> bool)
    requires n <= |s|
    requires forall i :: 0 <= i < n ==> !isSep(s[i])
    ensures Kept(s[..n], isSep) == s[..n]
  {
    if n > 0 {
      assert s[..n][1..] == s[1..][..n - 1];
      KeptRun(s[1..], n - 1, isSep);
    }
  }

  /** Splitting into fields loses exactly the separators. */
  lemma {:induction false} FieldsKeepEverythingElse(s: string, isSep: char -> bool)
    ensures Concat(Fields(s, isSep)) == Kept(s, isSep)
    decreases |s|
  {
    if s == [] {
    } else if isSep(s[0]) {
      FieldsKeepEverythingElse(s[1..], isSep);
    } else {
      var n := RunLength(s, isSep);
      var r := Fields(s, isSep);
      assert r == [s[..n]] + Fields(s[n..], isSep);
      assert r[1..] == Fields(s[n..], isSep);
      FieldsKeepEverythingElse(s[n..], isSep);
      KeptRun(s, n, isSep);
      assert s == s[..n] + s[n..];
      KeptAppend(s[..n], s[n..], isSep);
    }
  }

  lemma {:induction false} RunLengthStopsAtSeparator(s: string, c: char, t: string, isSep: char -> bool)
    requires isSep(c)
    ensures RunLength(s + [c] + t, isSep) == RunLength(s, isSep)
  {
    if s != [] && !isSep(s[0]) {
      assert (s + [c] + t)[1..] == s[1..] + [c] + t;
      RunLengthStopsAtSeparator(s[1..], c, t, isSep);
    }
  }

  /** A separator cuts the fields of a string in two. */
  lemma {:induction false} FieldsAroundSeparator(s: string, c: char, t: string, isSep: char -> bool)
    requires isSep(c)
    ensures Fields(s + [c] + t, isSep) == Fields(s, isSep) + Fields(t, isSep)
    decreases |s|
  {
    var u := s + [c] + t;
    if s == [] {
      assert u[1..] == t;
    } else if isSep(s[0]) {
      SplitAround(s, c, t, 1);
      FieldsAroundSeparator(s[1..], c, t, isSep);
    } else {
      var n := RunLength(s, isSep);
      RunLengthStopsAtSeparator(s, c, t, isSep);
      SplitAround(s, c, t, n);
      FieldsAroundSeparator(s[n..], c, t, isSep);
    }
  }

  lemma SplitAround(s: string, c: char, t: string, n: nat)
    requires n <= |s|
    ensures (s + [c] + t)[..n] == s[..n] && (s + [c] + t)[n..] == s[n..] + [c] + t
  {
    assert (s + [c] + t)[n..] == s[n..] + [c] + t;
  }

  /** A word made of non-space characters is split into itself. */
  lemma {:induction false} FieldsOfRun(s: string, isSep: char -> bool)
    requires s != []
    requires forall i :: 0 <= i < |s| ==> !isSep(s[i])
    ensures Fields(s, isSep) == [s]
  {
    var n := RunLength(s, isSep);
    assert n == |s|;
    assert s[n..] == [];
    assert s[..n] == s;
  }

  /** `(w + " $").split()` is the words of `w` followed by "$": the parser's
      input buffer always ends in the end marker. */
  lemma WordsWithEndMarker(w: string)
    ensures Words(w + " $") == Words(w) + ["$"]
  {
    assert w + " $" == w + [' '] + "$";
    FieldsAroundSeparator(w, ' ', "$", IsSpace);
    FieldsOfRun("$", IsSpace);
  }

  /** Splitting a join of non-empty, separator-free pieces into fields gives
      the pieces back: the non-empty lines of `'\n'.join(lines)` are
      `lines`. */
  lemma {:induction false} FieldsOfJoin(parts: seq<string>, c: char, isSep: char -> bool)
    requires isSep(c)
    requires forall k :: 0 <= k < |parts| ==> parts[k] != []
    requires forall k, i :: 0 <= k < |parts| && 0 <= i < |parts[k]| ==> !isSep(parts[k][i])
    ensures Fields(Join(parts, [c]), isSep) == parts
    decreases |parts|
  {
    if |parts| == 1 {
      FieldsOfRun(parts[0], isSep);
    } else if |parts| > 1 {
      var t := Join(parts[1..], [c]);
      assert Join(parts, [c]) == parts[0] + [c] + t;
      FieldsAroundSeparator(parts[0], c, t, isSep);
      FieldsOfRun(parts[0], isSep);
      FieldsOfJoin(parts[1..], c, isSep);
      assert parts == [parts[0]] + parts[1..];
    }
  }

  /** The separator test of `s.split(c)`. */
  function IsChar(c: char): char -> bool {
    x => x == c
  }

  /** `s.split(c)`: the pieces of `s` between occurrences of `c`, empty ones
      included; there is always at least one. */
  function SplitOn(s: string, c: char): (r: seq<string>)
    ensures |r| >= 1
    ensures forall k :: 0 <= k < |r| ==> c !in r[k]
    decreases |s|
  {
    var n := RunLength(s, IsChar(c));
    if n == |s| then [s] else [s[..n]] + SplitOn(s[n + 1..], c)
  }

  /** Joining the pieces with the separator gives the string back. */
  lemma {:induction false} JoinSplitOn(s: string, c: char)
    ensures Join(SplitOn(s, c), [c]) == s
    decreases |s|
  {
    var n := RunLength(s, IsChar(c));
    if n < |s| {
      var rest := SplitOn(s[n + 1..], c);
      assert SplitOn(s, c) == [s[..n]] + rest;
      assert (SplitOn(s, c))[1..] == rest;
      assert Join(SplitOn(s, c), [c]) == s[..n] + [c] + Join(rest, [c]);
      JoinSplitOn(s[n + 1..], c);
      assert s == s[..n] + [c] + s[n + 1..];
    }
  }

  /** Splitting a join recovers the pieces, when no piece holds the separator. */
  lemma {:induction false} SplitOnJoin(parts: seq<string>, c: char)
    requires |parts| >= 1
    requires forall k :: 0 <= k < |parts| ==> c !in parts[k]
    ensures SplitOn(Join(parts, [c]), c) == parts
  {
    var s := Join(parts, [c]);
    var p := parts[0];
    if |parts| == 1 {
      RunLengthOfFree(p, c, []);
    } else {
      var t := Join(parts[1..], [c]);
      assert s == p + ([c] + t);
      RunLengthOfFree(p, c, [c] + t);
      var n := RunLength(s, IsChar(c));
      assert n == |p|;
      assert s[..n] == p;
      assert s[n + 1..] == t;
      SplitOnJoin(parts[1..], c);
    }
  }

  lemma {:induction false} RunLengthOfFree(p: string, c: char, t: string)
    requires c !in p
    requires t != [] ==> t[0] == c
    ensures RunLength(p + t, IsChar(c)) == |p|
  {
    if p != [] {
      assert (p + t)[0] == p[0];
      assert (p + t)[1..] == p[1..] + t;
      RunLengthOfFree(p[1..], c, t);
    } else {
      assert p + t == t;
    }
  }

  /** `sep` occurs in `s` at position `i`. */
  predicate OccursAt(s: string, sep: string, i: nat) {
    i + |sep| <= |s| && s[i..i + |sep|] == sep
  }

  /** The result of `s.partition(sep)`. */
  datatype Parted = Parted(before: string, found: bool, after: string)

  /** `s.partition(sep)`: split at the first occurrence of `sep`, or return
      the whole string and an empty remainder when there is none. */
  function Partition(s: string, sep: string): (r: Parted)
    requires sep != []
    ensures r.found ==> s == r.before + sep + r.after
    ensures !r.found ==> r.before == s && r.after == []
    decreases |s|
  {
    if |s| < |sep| then Parted(s, false, [])
    else if s[..|sep|] == sep then Parted([], true, s[|sep|..])
    else
      var p := Partition(s[1..], sep);
      ConsParted(s, p, sep);
      Parted([s[0]] + p.before, p.found, p.after)
  }

  /** Putting back the first character in front of a split of the rest. */
  lemma ConsParted(s: string, p: Parted, sep: string)
    requires s != []
    requires p.found ==> s[1..] == p.before + sep + p.after
    requires !p.found ==> p.before == s[1..]
    ensures p.found ==> s == [s[0]] + p.before + sep + p.after
    ensures !p.found ==> [s[0]] + p.before == s
  {
    assert s == [s[0]] + s[1..];
  }

  /** The split is at the first occurrence, and there is none when nothing
      was found. */
  lemma {:induction false} PartitionAtFirst(s: string, sep: string)
    requires sep != []
    ensures var r := Partition(s, sep);
            && (r.found ==> OccursAt(s, sep, |r.before|) && forall i :: 0 <= i < |r.before| ==> !OccursAt(s, sep, i))
            && (!r.found ==> forall i :: 0 <= i <= |s| ==> !OccursAt(s, sep, i))
    decreases |s|
  {
    if |s| >= |sep| && s[..|sep|] != sep {
      PartitionAtFirst(s[1..], sep);
      OccursInTail(s, sep);
    }
  }

  /** A split at the first occurrence, given as a position. */
  lemma PartitionAt(s: string, sep: string, n: nat)
    requires sep != [] && OccursAt(s, sep, n)
    requires forall i :: 0 <= i < n ==> !OccursAt(s, sep, i)
    ensures Partition(s, sep) == Parted(s[..n], true, s[n + |sep|..])
  {
    var r := Partition(s, sep);
    PartitionAtFirst(s, sep);
    assert r.found;
    assert |r.before| == n;
    assert s == r.before + sep + r.after;
    assert s[..n] == r.before;
    assert s[n + |sep|..] == r.after;
  }

  /** `(u + q + sep + t).partition(sep)` splits after `u + q` when `sep`
      does not occur in `u` and `q` is not a character of `sep`. */
  lemma PartitionAfter(u: string, q: char, sep: string, t: string)
    requires sep != [] && q !in sep
    requires forall i :: 0 <= i <= |u| ==> !OccursAt(u, sep, i)
    ensures Partition(u + [q] + sep + t, sep) == Parted(u + [q], true, t)
  {
    var s := u + [q] + sep + t;
    forall i | 0 <= i <= |u| ensures !OccursAt(s, sep, i) {
      if i + |sep| <= |u| {
        assert s[i..i + |sep|] == u[i..i + |sep|];
        assert !OccursAt(u, sep, i);
      } else if i + |sep| <= |s| {
        assert s[i..i + |sep|][|u| - i] == q;
        assert sep[|u| - i] != q;
      }
    }
    assert s[|u| + 1..|u| + 1 + |sep|] == sep;
    PartitionAt(s, sep, |u| + 1);
    assert s[..|u| + 1] == u + [q];
    assert s[|u| + 1 + |sep|..] == t;
  }

  /** The part before the separator is a prefix of the string, and the
      separator does not occur in it. */
  lemma PartitionBefore(s: string, sep: string)
    requires sep != []
    ensures Partition(s, sep).before <= s
    ensures forall i :: 0 <= i <= |Partition(s, sep).before| ==> !OccursAt(Partition(s, sep).before, sep, i)
  {
    var r := Partition(s, sep);
    PartitionAtFirst(s, sep);
    assert r.before == s[..|r.before|];
    forall i | 0 <= i <= |r.before| ensures !OccursAt(r.before, sep, i) {
      if i + |sep| <= |r.before| {
        assert r.before[i..i + |sep|] == s[i..i + |sep|];
        assert i < |r.before| && !OccursAt(s, sep, i);
      }
    }
  }

  lemma OccursInTail(s: string, sep: string)
    requires s != []
    ensures forall i :: 1 <= i <= |s| ==> (OccursAt(s, sep, i) <==> OccursAt(s[1..], sep, i - 1))
  {
    forall i | 1 <= i <= |s| ensures OccursAt(s, sep, i) <==> OccursAt(s[1..], sep, i - 1) {
      if i + |sep| <= |s| {
        var t := s[1..];
        assert t[i - 1..] == s[i..];
        assert t[i - 1..i - 1 + |sep|] == t[i - 1..][..|sep|];
        assert s[i..i + |sep|] == s[i..][..|sep|];
        assert s[i..i + |sep|] == t[i - 1..i - 1 + |sep|];
      }
    }
  }

  predicate IsUpperLetter(c: char) { 'A' <= c <= 'Z' }

  predicate IsLowerLetter(c: char) { 'a' <= c <= 'z' }

  /** Python's `str.isupper` with ASCII letters as the cased characters: at
      least one upper-case letter and no lower-case one. */
  predicate IsUpper(s: string) {
    && (exists i :: 0 <= i < |s| && IsUpperLetter(s[i]))
    && (forall i :: 0 <= i < |s| ==> !IsLowerLetter(s[i]))
  }

  /** Appending a non-letter such as the prime of "S'" keeps a string upper case. */
  lemma UpperWithSuffix(s: string, t: string)
    requires IsUpper(s)
    requires forall i :: 0 <= i < |t| ==> !IsLowerLetter(t[i])
    ensures IsUpper(s + t)
  {
    var i :| 0 <= i < |s| && IsUpperLetter(s[i]);
    assert (s + t)[i] == s[i];
    forall j | 0 <= j < |s + t| ensures !IsLowerLetter((s + t)[j]) {
      if j < |s| { assert (s + t)[j] == s[j]; } else { assert (s + t)[j] == t[j - |s|]; }
    }
  }

  /** Decimal digits of a natural number, as `str(n)` writes it. */
  function Decimal(n: nat): (r: string)
    ensures |r| >= 1
    ensures forall i :: 0 <= i < |r| ==> '0' <= r[i] <= '9'
  {
    var d := ['0' + (n % 10) as char];
    if n < 10 then d else Decimal(n / 10) + d
  }
}
