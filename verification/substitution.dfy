/** Token substitution in text: what joke_create of webservice/session.c computes, as functions. */
module Substitution {
  import opened Memory

  predicate OccursAt(s: string, t: string, q: nat) {
    q + |t| <= |s| && s[q..q + |t|] == t
  }

  // The C library's strstr(s + from, t), as an offset into s.
  function StrStr(s: string, t: string, from: nat): (r: Option<nat>)
    requires from <= |s|
    ensures r.None? ==> forall q :: from <= q ==> !OccursAt(s, t, q)
    ensures r.Some? ==> from <= r.value && OccursAt(s, t, r.value)
                        && forall q :: from <= q < r.value ==> !OccursAt(s, t, q)
    decreases |s| - from
  {
    if OccursAt(s, t, from) then Some(from)
    else if from == |s| then None
    else StrStr(s, t, from + 1)
  }

  // One scan from the left: a token found is replaced and skipped, anything else is kept.
  function ReplaceAll(s: string, t: string, r: string): string
    requires t != []
    decreases |s|
  {
    if s == [] then []
    else if t <= s then r + ReplaceAll(s[|t|..], t, r)
    else [s[0]] + ReplaceAll(s[1..], t, r)
  }

  lemma Assoc(a: string, b: string, c: string)
    ensures a + b + c == a + (b + c)
  {
  }

  lemma PrefixExtends(t: string, a: string, b: string)
    ensures t <= a ==> t <= a + b
  {
  }

  lemma OccursIsPrefix(s: string, t: string, p: nat)
    requires p <= |s|
    ensures OccursAt(s, t, p) <==> t <= s[p..]
  {
    if p + |t| <= |s| {
      assert s[p..][..|t|] == s[p..p + |t|];
    }
  }

  lemma ReplaceStep(s: string, t: string, r: string, p: nat)
    requires t != [] && p <= |s|
    ensures OccursAt(s, t, p) ==> ReplaceAll(s[p..], t, r) == r + ReplaceAll(s[p + |t|..], t, r)
    ensures p < |s| && !OccursAt(s, t, p) ==> ReplaceAll(s[p..], t, r) == [s[p]] + ReplaceAll(s[p + 1..], t, r)
  {
    OccursIsPrefix(s, t, p);
    if OccursAt(s, t, p) {
      assert s[p..][|t|..] == s[p + |t|..];
    } else if p < |s| {
      assert s[p..][1..] == s[p + 1..];
    }
  }

  lemma {:induction false} ReplaceKeeps(s: string, t: string, r: string, p: nat, n: nat)
    requires t != [] && p <= n <= |s|
    requires forall q :: p <= q < n ==> !OccursAt(s, t, q)
    ensures ReplaceAll(s[p..], t, r) == s[p..n] + ReplaceAll(s[n..], t, r)
    decreases n - p
  {
    if p < n {
      ReplaceStep(s, t, r, p);
      ReplaceKeeps(s, t, r, p + 1, n);
      Assoc([s[p]], s[p + 1..n], ReplaceAll(s[n..], t, r));
      assert [s[p]] + s[p + 1..n] == s[p..n];
    }
  }

  // What is found next decides how the rest is replaced.
  lemma ReplaceLast(s: string, t: string, r: string, p: nat)
    requires t != [] && p <= |s| && StrStr(s, t, p).None?
    ensures ReplaceAll(s[p..], t, r) == s[p..]
  {
    ReplaceKeeps(s, t, r, p, |s|);
    var rest := s[|s|..];
    assert rest == [] && s[p..|s|] == s[p..];
    assert ReplaceAll(rest, t, r) == [];
  }

  lemma ReplaceNext(s: string, t: string, r: string, p: nat)
    requires t != [] && p <= |s| && StrStr(s, t, p).Some?
    ensures var n := StrStr(s, t, p).value;
            ReplaceAll(s[p..], t, r) == s[p..n] + (r + ReplaceAll(s[n + |t|..], t, r))
  {
    var n := StrStr(s, t, p).value;
    ReplaceKeeps(s, t, r, p, n);
    ReplaceStep(s, t, r, n);
  }

  // The text between the tokens.
  function Split(s: string, t: string): (ps: seq<string>)
    requires t != []
    ensures |ps| > 0
    decreases |s|
  {
    if s == [] then [[]]
    else if t <= s then [[]] + Split(s[|t|..], t)
    else var ps := Split(s[1..], t); [[s[0]] + ps[0]] + ps[1..]
  }

  function Join(ps: seq<string>, sep: string): string
    requires |ps| > 0
  {
    if |ps| == 1 then ps[0] else ps[0] + sep + Join(ps[1..], sep)
  }

  ghost predicate TokenFree(s: string, t: string) {
    forall q: nat :: !OccursAt(s, t, q)
  }

  // The token that ends the piece is the first to be met.
  ghost predicate EndsAtFirst(p: string, t: string) {
    forall q: nat :: OccursAt(p + t, t, q) ==> q == |p|
  }

  ghost predicate Leftmost(ps: seq<string>, t: string)
    requires |ps| > 0
  {
    if |ps| == 1 then TokenFree(ps[0], t) else EndsAtFirst(ps[0], t) && Leftmost(ps[1..], t)
  }

  ghost predicate IsCut(s: string, t: string, ps: seq<string>) {
    |ps| > 0 && Join(ps, t) == s && Leftmost(ps, t)
  }

  lemma OccursShift(x: string, y: string, t: string, q: nat)
    ensures OccursAt(x + y, t, |x| + q) == OccursAt(y, t, q)
  {
    if q + |t| <= |y| {
      assert (x + y)[|x| + q..|x| + q + |t|] == y[q..q + |t|];
    }
  }

  lemma OccursInPrefix(x: string, y: string, t: string, q: nat)
    requires q + |t| <= |x|
    ensures OccursAt(x + y, t, q) == OccursAt(x, t, q)
  {
    assert (x + y)[q..q + |t|] == x[q..q + |t|];
  }

  lemma OneMore(c: char, x: string, t: string)
    requires !(t <= [c] + x)
    ensures forall q: nat :: OccursAt([c] + x, t, q) ==> q > 0 && OccursAt(x, t, q - 1)
  {
    OccursIsPrefix([c] + x, t, 0);
    assert ([c] + x)[0..] == [c] + x;
    forall q: nat | OccursAt([c] + x, t, q)
      ensures q > 0 && OccursAt(x, t, q - 1)
    {
      if q > 0 {
        OccursShift([c], x, t, q - 1);
      }
    }
  }

  // A character that starts no token goes to the front of the first piece.
  lemma CutGrows(c: char, s: string, t: string, ps: seq<string>)
    requires t != [] && IsCut(s, t, ps) && !(t <= [c] + s)
    ensures IsCut([c] + s, t, [[c] + ps[0]] + ps[1..])
  {
    var qs := [[c] + ps[0]] + ps[1..];
    assert qs[1..] == ps[1..];
    if |ps| == 1 {
      OneMore(c, ps[0], t);
    } else {
      var rest := Join(ps[1..], t);
      Assoc([c], ps[0], t);
      Assoc([c], ps[0] + t, rest);
      PrefixExtends(t, [c] + (ps[0] + t), rest);
      OneMore(c, ps[0] + t, t);
    }
  }

  // A token in front starts an empty piece.
  lemma CutStarts(s: string, t: string, ps: seq<string>)
    requires t != [] && IsCut(s, t, ps)
    ensures IsCut(t + s, t, [[]] + ps)
  {
    assert ([[]] + ps)[1..] == ps && [] + t == t;
  }

  lemma {:induction false} SplitIsCut(s: string, t: string)
    requires t != []
    ensures IsCut(s, t, Split(s, t))
    decreases |s|
  {
    if s == [] {
    } else if t <= s {
      var rest := s[|t|..];
      SplitIsCut(rest, t);
      CutStarts(rest, t, Split(rest, t));
      assert s == t + rest;
    } else {
      var rest := s[1..];
      SplitIsCut(rest, t);
      assert s == [s[0]] + rest;
      CutGrows(s[0], rest, t, Split(rest, t));
    }
  }

  lemma FirstPieceAgrees(s: string, t: string, a: seq<string>, b: seq<string>)
    requires t != [] && IsCut(s, t, a) && IsCut(s, t, b)
    requires |a| > 1
    ensures |b| > 1 && |b[0]| <= |a[0]|
  {
    var after := Join(a[1..], t);
    assert s == a[0] + (t + after);
    OccursShift(a[0], t + after, t, 0);
    assert OccursAt(s, t, |a[0]|);
    if |b| > 1 && |b[0]| > |a[0]| {
      var rest := Join(b[1..], t);
      assert s == (b[0] + t) + rest;
      OccursInPrefix(b[0] + t, rest, t, |a[0]|);
    }
  }

  /** There is only one way to cut a text at its leftmost tokens. */
  lemma {:induction false} CutIsUnique(s: string, t: string, a: seq<string>, b: seq<string>)
    requires t != [] && IsCut(s, t, a) && IsCut(s, t, b)
    ensures a == b
    decreases |a|
  {
    if |a| == 1 {
      if |b| > 1 { FirstPieceAgrees(s, t, b, a); }
    } else {
      FirstPieceAgrees(s, t, a, b);
      FirstPieceAgrees(s, t, b, a);
      var n := |a[0]|;
      assert s == a[0] + (t + Join(a[1..], t)) && s == b[0] + (t + Join(b[1..], t));
      assert a[0] == s[..n] == b[0];
      var rest := s[n + |t|..];
      assert Join(a[1..], t) == rest == Join(b[1..], t);
      CutIsUnique(rest, t, a[1..], b[1..]);
      assert a == [a[0]] + a[1..] && b == [b[0]] + b[1..];
    }
  }

  // Text in which no `a` can start goes to the front of the first piece.
  lemma {:induction false} SplitSkips(x: string, y: string, a: string)
    requires a != [] && a[0] !in x
    ensures Split(x + y, a) == [x + Split(y, a)[0]] + Split(y, a)[1..]
  {
    if x == [] {
      assert x + y == y && [] + Split(y, a)[0] == Split(y, a)[0];
    } else {
      SplitSkips(x[1..], y, a);
      assert (x + y)[1..] == x[1..] + y;
      Assoc([x[0]], x[1..], Split(y, a)[0]);
      assert [x[0]] + x[1..] == x;
    }
  }

  lemma {:induction false} ReplaceJoinsSplit(s: string, t: string, r: string)
    requires t != []
    ensures ReplaceAll(s, t, r) == Join(Split(s, t), r)
    decreases |s|
  {
    if s == [] {
    } else if t <= s {
      ReplaceJoinsSplit(s[|t|..], t, r);
      assert Split(s, t)[1..] == Split(s[|t|..], t);
    } else {
      ReplaceJoinsSplit(s[1..], t, r);
      var rest := Split(s[1..], t);
      assert Split(s, t)[1..] == rest[1..];
      if |rest| > 1 {
        Assoc([s[0]], rest[0], r);
        Assoc([s[0]], rest[0] + r, Join(rest[1..], r));
      }
    }
  }

  /** Replacing is joining the pieces of the one leftmost cut with the replacement. */
  lemma ReplaceIsTheCutRejoined(s: string, t: string, r: string, ps: seq<string>)
    requires t != [] && IsCut(s, t, ps)
    ensures ReplaceAll(s, t, r) == Join(ps, r)
  {
    SplitIsCut(s, t);
    CutIsUnique(s, t, ps, Split(s, t));
    ReplaceJoinsSplit(s, t, r);
  }
}
