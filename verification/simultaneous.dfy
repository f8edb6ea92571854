/** When do two passes, one token each, amount to one scan that replaces both tokens at once? */
module Simultaneous {
  import opened Substitution
  import opened Joke

  function ReplaceBoth(s: string, a: string, ra: string, b: string, rb: string): string
    requires a != [] && b != []
    decreases |s|
  {
    if s == [] then []
    else if a <= s then ra + ReplaceBoth(s[|a|..], a, ra, b, rb)
    else if b <= s then rb + ReplaceBoth(s[|b|..], a, ra, b, rb)
    else [s[0]] + ReplaceBoth(s[1..], a, ra, b, rb)
  }

  // No occurrence of one token overlaps an occurrence of the other, nor of `b` another of `b`:
  // an overlap would put the first letter of one inside the other.
  predicate Separate(a: string, b: string) {
    && a != [] && b != []
    && a[0] !in b && b[0] !in a && b[0] !in b[1..]
  }

  lemma TokensAreSeparate()
    ensures Separate(NAME_TOKEN, SURNAME_TOKEN)
  {
  }

  function ReplaceEach(ps: seq<string>, b: string, rb: string): (qs: seq<string>)
    requires b != []
    ensures |qs| == |ps|
  {
    if ps == [] then [] else [ReplaceAll(ps[0], b, rb)] + ReplaceEach(ps[1..], b, rb)
  }

  lemma ReplaceHead(b: string, y: string, rb: string)
    requires b != []
    ensures ReplaceAll(b + y, b, rb) == rb + ReplaceAll(y, b, rb)
  {
    assert (b + y)[|b|..] == y;
  }

  lemma ReplaceSkip(c: char, y: string, b: string, rb: string)
    requires b != [] && !(b <= [c] + y)
    ensures ReplaceAll([c] + y, b, rb) == [c] + ReplaceAll(y, b, rb)
  {
    assert ([c] + y)[1..] == y;
  }

  lemma JoinFront(x: string, p: string, rest: seq<string>, sep: string)
    ensures Join([x + p] + rest, sep) == x + Join([p] + rest, sep)
  {
    assert ([x + p] + rest)[1..] == rest == ([p] + rest)[1..];
    if rest != [] {
      Assoc(x, p, sep);
      Assoc(x, p + sep, Join(rest, sep));
    }
  }

  lemma FirstReplaced(ps: seq<string>, p: string, b: string, rb: string)
    requires b != [] && ps != []
    ensures ReplaceEach([p] + ps[1..], b, rb) == [ReplaceAll(p, b, rb)] + ReplaceEach(ps[1..], b, rb)
    ensures ReplaceEach(ps, b, rb) == [ReplaceAll(ps[0], b, rb)] + ReplaceEach(ps[1..], b, rb)
  {
    assert ([p] + ps[1..])[1..] == ps[1..];
  }

  lemma FirstPieceIsPrefix(s: string, a: string)
    requires a != []
    ensures Split(s, a)[0] <= s
    decreases |s|
  {
    if s != [] && !(a <= s) {
      FirstPieceIsPrefix(s[1..], a);
    }
  }

  // Of the text s, replacing both at once is replacing `b` piece by piece between the `a`s.
  predicate Piecewise(s: string, a: string, ra: string, b: string, rb: string)
    requires a != [] && b != []
  {
    ReplaceBoth(s, a, ra, b, rb) == Join(ReplaceEach(Split(s, a), b, rb), ra)
  }

  lemma PiecewiseAtFirst(s: string, a: string, ra: string, b: string, rb: string)
    requires Separate(a, b) && s != [] && a <= s && Piecewise(s[|a|..], a, ra, b, rb)
    ensures Piecewise(s, a, ra, b, rb)
  {
    var rest := Split(s[|a|..], a);
    assert ([[]] + rest)[1..] == rest;
    assert ReplaceEach([[]] + rest, b, rb) == [[]] + ReplaceEach(rest, b, rb);
  }

  lemma PiecewiseAtSecond(s: string, a: string, ra: string, b: string, rb: string)
    requires Separate(a, b) && s != [] && !(a <= s) && b <= s && Piecewise(s[|b|..], a, ra, b, rb)
    ensures Piecewise(s, a, ra, b, rb)
  {
    var rest := Split(s[|b|..], a);
    assert s == b + s[|b|..];
    SplitSkips(b, s[|b|..], a);
    ReplaceHead(b, rest[0], rb);
    FirstReplaced(rest, b + rest[0], b, rb);
    JoinFront(rb, ReplaceAll(rest[0], b, rb), ReplaceEach(rest[1..], b, rb), ra);
  }

  lemma PiecewiseAtNone(s: string, a: string, ra: string, b: string, rb: string)
    requires Separate(a, b) && s != [] && !(a <= s) && !(b <= s) && Piecewise(s[1..], a, ra, b, rb)
    ensures Piecewise(s, a, ra, b, rb)
  {
    var c, rest := s[0], Split(s[1..], a);
    FirstPieceIsPrefix(s[1..], a);
    assert s == [c] + s[1..];
    PrefixExtends(b, [c] + rest[0], s[1..][|rest[0]|..]);
    assert [c] + rest[0] + s[1..][|rest[0]|..] == s;
    ReplaceSkip(c, rest[0], b, rb);
    FirstReplaced(rest, [c] + rest[0], b, rb);
    JoinFront([c], ReplaceAll(rest[0], b, rb), ReplaceEach(rest[1..], b, rb), ra);
  }

  /** The simultaneous scan replaces `b` piece by piece between the `a`s. */
  lemma {:induction false} BothIsPiecewise(s: string, a: string, ra: string, b: string, rb: string)
    requires Separate(a, b)
    ensures ReplaceBoth(s, a, ra, b, rb) == Join(ReplaceEach(Split(s, a), b, rb), ra)
    decreases |s|
  {
    if s == [] {
      assert Split(s, a) == [[]] && ReplaceEach([[]], b, rb) == [[]];
    } else if a <= s {
      BothIsPiecewise(s[|a|..], a, ra, b, rb);
      PiecewiseAtFirst(s, a, ra, b, rb);
    } else if b <= s {
      BothIsPiecewise(s[|b|..], a, ra, b, rb);
      PiecewiseAtSecond(s, a, ra, b, rb);
    } else {
      BothIsPiecewise(s[1..], a, ra, b, rb);
      PiecewiseAtNone(s, a, ra, b, rb);
    }
  }

  // How many times `b` occurs in `s`.
  function Count(s: string, b: string): nat
    requires b != []
  {
    if s == [] then 0 else (if b <= s then 1 else 0) + Count(s[1..], b)
  }

  lemma {:induction false} CountClear(x: string, y: string, b: string)
    requires b != [] && b[0] !in x
    ensures Count(x + y, b) == Count(y, b)
  {
    if x == [] {
      assert x + y == y;
    } else {
      assert (x + y)[1..] == x[1..] + y;
      CountClear(x[1..], y, b);
    }
  }

  lemma CountHead(y: string, b: string)
    requires b != [] && b[0] !in b[1..]
    ensures Count(b + y, b) == 1 + Count(y, b)
  {
    assert (b + y)[1..] == b[1..] + y;
    CountClear(b[1..], y, b);
  }

  lemma {:induction false} CountZero(s: string, b: string)
    requires b != []
    ensures Count(s, b) == 0 <==> TokenFree(s, b)
  {
    if s != [] {
      CountZero(s[1..], b);
      OccursIsPrefix(s, b, 0);
      assert s[0..] == s && s == [s[0]] + s[1..];
      forall q: nat
        ensures OccursAt(s[1..], b, q) == OccursAt(s, b, q + 1)
      {
        OccursShift([s[0]], s[1..], b, q);
      }
      if Count(s, b) == 0 {
        forall q: nat
          ensures !OccursAt(s, b, q)
        {
          assert q > 0 ==> OccursAt(s[1..], b, q - 1) == OccursAt(s, b, q);
        }
      }
    }
  }

  // No occurrence of `b` in x + y starts in x and ends in y.
  ghost predicate NoneAcross(x: string, y: string, b: string) {
    forall q: nat :: OccursAt(x + y, b, q) ==> q + |b| <= |x| || |x| <= q
  }

  /** Concatenation keeps occurrences, and adds some exactly when one runs across. */
  lemma {:induction false} CountConcat(x: string, y: string, b: string)
    requires b != []
    ensures Count(x + y, b) >= Count(x, b) + Count(y, b)
    ensures Count(x + y, b) == Count(x, b) + Count(y, b) <==> NoneAcross(x, y, b)
  {
    if x == [] {
      assert x + y == y;
    } else {
      var u := x[1..];
      CountConcat(u, y, b);
      assert (x + y)[1..] == u + y && x + y == [x[0]] + (u + y);
      OccursIsPrefix(x + y, b, 0);
      OccursIsPrefix(x, b, 0);
      assert (x + y)[0..] == x + y && x[0..] == x;
      PrefixExtends(b, x, y);
      if b <= x + y && |b| <= |x| { OccursInPrefix(x, y, b, 0); }
      forall q: nat
        ensures OccursAt(u + y, b, q) == OccursAt(x + y, b, q + 1)
      {
        OccursShift([x[0]], u + y, b, q);
      }
      if NoneAcross(u, y, b) && (b <= x + y ==> b <= x) {
        forall q: nat | OccursAt(x + y, b, q)
          ensures q + |b| <= |x| || |x| <= q
        {
          assert q > 0 ==> OccursAt(u + y, b, q - 1) == OccursAt(x + y, b, q);
        }
      }
    }
  }

  function CountEach(ps: seq<string>, b: string): nat
    requires b != []
  {
    if ps == [] then 0 else Count(ps[0], b) + CountEach(ps[1..], b)
  }

  // The n characters from q on lie within one piece of Join(ps, sep).
  predicate WithinPiece(ps: seq<string>, sep: string, q: nat, n: nat)
    requires |ps| > 0
  {
    || q + n <= |ps[0]|
    || (|ps| > 1 && |ps[0]| + |sep| <= q && WithinPiece(ps[1..], sep, q - |ps[0]| - |sep|, n))
  }

  ghost predicate AllWithinPieces(ps: seq<string>, sep: string, b: string)
    requires |ps| > 0
  {
    forall q: nat :: OccursAt(Join(ps, sep), b, q) ==> WithinPiece(ps, sep, q, |b|)
  }

  /** Joining pieces keeps their occurrences, and adds none exactly when each occurrence is in a piece. */
  lemma {:induction false} CountJoin(ps: seq<string>, sep: string, b: string)
    requires |ps| > 0 && b != []
    ensures Count(Join(ps, sep), b) >= CountEach(ps, b)
    ensures Count(Join(ps, sep), b) == CountEach(ps, b) <==> AllWithinPieces(ps, sep, b)
  {
    if |ps| == 1 {
    } else {
      var p, rest := ps[0], Join(ps[1..], sep);
      CountJoin(ps[1..], sep, b);
      Assoc(p, sep, rest);
      CountConcat(p, sep + rest, b);
      CountConcat(sep, rest, b);
      CountZero(sep, b);
      if AllWithinPieces(ps, sep, b) {
        WithinMeansNoneElsewhere(ps, sep, b);
      } else if NoneAcross(p, sep + rest, b) && TokenFree(sep, b) && NoneAcross(sep, rest, b)
                && AllWithinPieces(ps[1..], sep, b) {
        NoneElsewhereMeansWithin(ps, sep, b);
      }
    }
  }

  // Where an occurrence in Join(ps, sep) is, seen from the first piece, the separator and the rest.
  lemma OccursBehindPiece(ps: seq<string>, sep: string, b: string, q: nat)
    requires |ps| > 1
    ensures Join(ps, sep) == ps[0] + (sep + Join(ps[1..], sep))
    ensures OccursAt(Join(ps, sep), b, |ps[0]| + q) == OccursAt(sep + Join(ps[1..], sep), b, q)
  {
    Assoc(ps[0], sep, Join(ps[1..], sep));
    OccursShift(ps[0], sep + Join(ps[1..], sep), b, q);
  }

  lemma OccursBehindSep(ps: seq<string>, sep: string, b: string, q: nat)
    requires |ps| > 1
    ensures OccursAt(Join(ps, sep), b, |ps[0]| + |sep| + q) == OccursAt(Join(ps[1..], sep), b, q)
  {
    OccursBehindPiece(ps, sep, b, |sep| + q);
    OccursShift(sep, Join(ps[1..], sep), b, q);
  }

  lemma WithinMeansNoneElsewhere(ps: seq<string>, sep: string, b: string)
    requires |ps| > 1 && b != [] && AllWithinPieces(ps, sep, b)
    ensures var rest := Join(ps[1..], sep);
            && NoneAcross(ps[0], sep + rest, b) && TokenFree(sep, b) && NoneAcross(sep, rest, b)
            && AllWithinPieces(ps[1..], sep, b)
  {
    var p, rest := ps[0], Join(ps[1..], sep);
    OccursBehindPiece(ps, sep, b, 0);
    forall q: nat | OccursAt(sep + rest, b, q)
      ensures |sep| <= q
    {
      OccursBehindPiece(ps, sep, b, q);
      assert WithinPiece(ps, sep, |p| + q, |b|);
    }
    forall q: nat
      ensures !OccursAt(sep, b, q)
    {
      if OccursAt(sep, b, q) { OccursInPrefix(sep, rest, b, q); }
    }
    forall q: nat | OccursAt(rest, b, q)
      ensures WithinPiece(ps[1..], sep, q, |b|)
    {
      OccursBehindSep(ps, sep, b, q);
      assert WithinPiece(ps, sep, |p| + |sep| + q, |b|);
    }
  }

  lemma NoneElsewhereMeansWithin(ps: seq<string>, sep: string, b: string)
    requires |ps| > 1 && b != []
    requires var rest := Join(ps[1..], sep);
             && NoneAcross(ps[0], sep + rest, b) && TokenFree(sep, b) && NoneAcross(sep, rest, b)
             && AllWithinPieces(ps[1..], sep, b)
    ensures AllWithinPieces(ps, sep, b)
  {
    var p, rest := ps[0], Join(ps[1..], sep);
    forall q: nat | OccursAt(Join(ps, sep), b, q)
      ensures WithinPiece(ps, sep, q, |b|)
    {
      OccursBehindPiece(ps, sep, b, 0);
      if q + |b| > |p| {
        var k: nat := q - |p|;
        OccursBehindPiece(ps, sep, b, k);
        if k < |sep| { OccursInPrefix(sep, rest, b, k); }
        OccursBehindSep(ps, sep, b, k - |sep|);
        assert WithinPiece(ps[1..], sep, k - |sep|, |b|);
      }
    }
  }

  // How many places two texts of one length differ at.
  function Distance(x: string, y: string): nat
    requires |x| == |y|
  {
    if x == [] then 0 else (if x[0] == y[0] then 0 else 1) + Distance(x[1..], y[1..])
  }

  lemma {:induction false} DistanceZero(x: string, y: string)
    requires |x| == |y|
    ensures Distance(x, y) == 0 <==> x == y
  {
    if x != [] {
      DistanceZero(x[1..], y[1..]);
      assert x == [x[0]] + x[1..] && y == [y[0]] + y[1..];
    }
  }

  lemma {:induction false} DistanceConcat(x: string, x': string, y: string, y': string)
    requires |x| == |y| && |x'| == |y'|
    ensures Distance(x + x', y + y') == Distance(x, y) + Distance(x', y')
  {
    if x == [] {
      assert x + x' == x' && y + y' == y';
    } else {
      DistanceConcat(x[1..], x', y[1..], y');
      assert (x + x')[1..] == x[1..] + x' && (y + y')[1..] == y[1..] + y';
    }
  }

  // n copies of the change one replacement makes.
  function Times(n: nat, d: int): int {
    if n == 0 then 0 else d + Times(n - 1, d)
  }

  lemma {:induction false} TimesAdds(m: nat, n: nat, d: int)
    ensures Times(m + n, d) == Times(m, d) + Times(n, d)
  {
    if m > 0 { TimesAdds(m - 1, n, d); }
  }

  lemma {:induction false} TimesTells(n: nat, d: int)
    ensures Times(n, d) == 0 <==> n == 0 || d == 0
    ensures d > 0 ==> Times(n, d) >= 0
    ensures d < 0 ==> Times(n, d) <= 0
  {
    if n > 0 { TimesTells(n - 1, d); }
  }

  // How replacing `b` in s changes its length, or else how many places.
  predicate Measured(s: string, b: string, rb: string)
    requires b != []
  {
    var t := ReplaceAll(s, b, rb);
    && |t| == |s| + Times(Count(s, b), |rb| - |b|)
    && (|rb| == |b| ==> |t| == |s| && Distance(t, s) == Times(Count(s, b), Distance(rb, b)))
  }

  lemma MeasuredAtToken(rest: string, b: string, rb: string)
    requires b != [] && b[0] !in b[1..] && Measured(rest, b, rb)
    ensures Measured(b + rest, b, rb)
  {
    ReplaceHead(b, rest, rb);
    CountHead(rest, b);
    TimesTells(Count(rest, b), 0);
    TimesTells(Count(b + rest, b), 0);
    if |rb| == |b| {
      DistanceConcat(rb, ReplaceAll(rest, b, rb), b, rest);
    }
  }

  lemma MeasuredAtOther(c: char, rest: string, b: string, rb: string)
    requires b != [] && !(b <= [c] + rest) && Measured(rest, b, rb)
    ensures Measured([c] + rest, b, rb)
  {
    ReplaceSkip(c, rest, b, rb);
    assert ([c] + rest)[1..] == rest;
    TimesTells(Count(rest, b), 0);
    if |rb| == |b| {
      DistanceConcat([c], ReplaceAll(rest, b, rb), [c], rest);
      assert Distance([c], [c]) == 0;
    }
  }

  /** Each replacement changes the length, or else the number of changed places, by the same amount. */
  lemma {:induction false} ReplaceMeasured(s: string, b: string, rb: string)
    requires b != [] && b[0] !in b[1..]
    ensures |ReplaceAll(s, b, rb)| == |s| + Times(Count(s, b), |rb| - |b|)
    ensures |rb| == |b| ==>
              && |ReplaceAll(s, b, rb)| == |s|
              && Distance(ReplaceAll(s, b, rb), s) == Times(Count(s, b), Distance(rb, b))
    decreases |s|
  {
    if s == [] {
    } else if b <= s {
      var rest := s[|b|..];
      assert s == b + rest;
      ReplaceMeasured(rest, b, rb);
      MeasuredAtToken(rest, b, rb);
    } else {
      assert s == [s[0]] + s[1..];
      ReplaceMeasured(s[1..], b, rb);
      MeasuredAtOther(s[0], s[1..], b, rb);
    }
  }

  lemma {:induction false} DistanceSelf(x: string)
    ensures Distance(x, x) == 0
  {
    DistanceZero(x, x);
  }

  lemma {:induction false} EachMeasured(ps: seq<string>, sep: string, b: string, rb: string)
    requires |ps| > 0 && b != [] && b[0] !in b[1..]
    ensures var piecewise, whole := Join(ReplaceEach(ps, b, rb), sep), Join(ps, sep);
            && |piecewise| == |whole| + Times(CountEach(ps, b), |rb| - |b|)
            && (|rb| == |b| ==>
                  |piecewise| == |whole| && Distance(piecewise, whole) == Times(CountEach(ps, b), Distance(rb, b)))
  {
    ReplaceMeasured(ps[0], b, rb);
    var p := ReplaceAll(ps[0], b, rb);
    TimesTells(CountEach(ps, b), 0);
    if |ps| == 1 {
      assert ps[1..] == [] && ReplaceEach(ps, b, rb) == [p];
    } else {
      EachMeasured(ps[1..], sep, b, rb);
      var qs := ReplaceEach(ps[1..], b, rb);
      assert ([p] + qs)[1..] == qs;
      TimesAdds(Count(ps[0], b), CountEach(ps[1..], b), |rb| - |b|);
      if |rb| == |b| {
        TimesAdds(Count(ps[0], b), CountEach(ps[1..], b), Distance(rb, b));
        DistanceConcat(p, sep, ps[0], sep);
        DistanceConcat(p + sep, Join(qs, sep), ps[0] + sep, Join(ps[1..], sep));
        DistanceSelf(sep);
      }
    }
  }

  lemma {:induction false} ReplaceConcat(x: string, y: string, b: string, rb: string)
    requires b != [] && NoneAcross(x, y, b)
    ensures ReplaceAll(x + y, b, rb) == ReplaceAll(x, b, rb) + ReplaceAll(y, b, rb)
    decreases |x|
  {
    if x == [] {
      assert x + y == y;
    } else {
      OccursIsPrefix(x + y, b, 0);
      assert (x + y)[0..] == x + y;
      PrefixExtends(b, x, y);
      var n := if b <= x then |b| else 1;
      var head, u := x[..n], x[n..];
      assert x + y == head + (u + y) && (x + y)[n..] == u + y;
      forall q: nat | OccursAt(u + y, b, q)
        ensures q + |b| <= |u| || |u| <= q
      {
        OccursShift(head, u + y, b, q);
      }
      ReplaceConcat(u, y, b, rb);
      Assoc(if b <= x then rb else [x[0]], ReplaceAll(u, b, rb), ReplaceAll(y, b, rb));
    }
  }

  lemma ReplaceNone(s: string, b: string, rb: string)
    requires b != [] && TokenFree(s, b)
    ensures ReplaceAll(s, b, rb) == s
  {
    assert s[0..] == s;
    ReplaceLast(s, b, rb, 0);
  }

  lemma {:induction false} ReplaceWithin(ps: seq<string>, sep: string, b: string, rb: string)
    requires |ps| > 0 && b != [] && AllWithinPieces(ps, sep, b)
    ensures ReplaceAll(Join(ps, sep), b, rb) == Join(ReplaceEach(ps, b, rb), sep)
  {
    if |ps| == 1 {
      assert ReplaceEach(ps[1..], b, rb) == [];
    } else {
      var p, rest := ps[0], Join(ps[1..], sep);
      WithinMeansNoneElsewhere(ps, sep, b);
      ReplaceWithin(ps[1..], sep, b, rb);
      Assoc(p, sep, rest);
      ReplaceConcat(p, sep + rest, b, rb);
      ReplaceConcat(sep, rest, b, rb);
      ReplaceNone(sep, b, rb);
      Assoc(ReplaceAll(p, b, rb), sep, ReplaceAll(rest, b, rb));
      assert ReplaceEach(ps, b, rb)[1..] == ReplaceEach(ps[1..], b, rb);
    }
  }

  lemma ReplaceBySelf(ps: seq<string>, sep: string, b: string)
    requires |ps| > 0 && b != [] && b[0] !in b[1..]
    ensures ReplaceAll(Join(ps, sep), b, b) == Join(ps, sep) == Join(ReplaceEach(ps, b, b), sep)
  {
    var whole, piecewise := Join(ps, sep), Join(ReplaceEach(ps, b, b), sep);
    ReplaceMeasured(whole, b, b);
    EachMeasured(ps, sep, b, b);
    DistanceSelf(b);
    TimesTells(Count(whole, b), 0);
    TimesTells(CountEach(ps, b), 0);
    DistanceZero(ReplaceAll(whole, b, b), whole);
    DistanceZero(piecewise, whole);
  }

  lemma MoreChangesMore(m: nat, n: nat, d: int)
    requires m > n && d != 0
    ensures Times(m, d) != Times(n, d)
  {
    TimesAdds(m - n, n, d);
    TimesTells(m - n, d);
  }

  lemma AgreementCounts(ps: seq<string>, sep: string, b: string, rb: string)
    requires |ps| > 0 && b != [] && b[0] !in b[1..] && rb != b
    requires ReplaceAll(Join(ps, sep), b, rb) == Join(ReplaceEach(ps, b, rb), sep)
    ensures Count(Join(ps, sep), b) <= CountEach(ps, b)
  {
    var m, n := Count(Join(ps, sep), b), CountEach(ps, b);
    ReplaceMeasured(Join(ps, sep), b, rb);
    EachMeasured(ps, sep, b, rb);
    if m > n {
      if |rb| == |b| {
        DistanceZero(rb, b);
        MoreChangesMore(m, n, Distance(rb, b));
      } else {
        MoreChangesMore(m, n, |rb| - |b|);
      }
    }
  }

  /** Replacing in the whole and piece by piece agree exactly when the replacement is the token itself
      or the token occurs inside pieces only. */
  lemma PiecewiseIffWithin(ps: seq<string>, sep: string, b: string, rb: string)
    requires |ps| > 0 && b != [] && b[0] !in b[1..]
    ensures ReplaceAll(Join(ps, sep), b, rb) == Join(ReplaceEach(ps, b, rb), sep)
            <==> rb == b || AllWithinPieces(ps, sep, b)
  {
    CountJoin(ps, sep, b);
    if rb == b {
      ReplaceBySelf(ps, sep, b);
    } else if AllWithinPieces(ps, sep, b) {
      ReplaceWithin(ps, sep, b, rb);
    } else if ReplaceAll(Join(ps, sep), b, rb) == Join(ReplaceEach(ps, b, rb), sep) {
      AgreementCounts(ps, sep, b, rb);
    }
  }

  /** The client's text is that of one scan replacing both tokens at once exactly when the surname is
      the surname token, or the joke with the name put in has that token only inside stretches of the
      original joke. */
  lemma SequentialIsSimultaneousIff(name: string, surname: string, joke: string)
    ensures ClientText(name, surname, joke) == ReplaceBoth(joke, NAME_TOKEN, name, SURNAME_TOKEN, surname)
            <==> surname == SURNAME_TOKEN || AllWithinPieces(Split(joke, NAME_TOKEN), name, SURNAME_TOKEN)
  {
    TokensAreSeparate();
    ReplaceJoinsSplit(joke, NAME_TOKEN, name);
    BothIsPiecewise(joke, NAME_TOKEN, name, SURNAME_TOKEN, surname);
    PiecewiseIffWithin(Split(joke, NAME_TOKEN), name, SURNAME_TOKEN, surname);
  }

  // The two differ: a name that is itself the surname token is replaced in turn.
  lemma SequentialCanDiffer()
    ensures ClientText("Panisset", "X", "Eduardo") == "X"
    ensures ReplaceBoth("Eduardo", NAME_TOKEN, "Panisset", SURNAME_TOKEN, "X") == "Panisset"
  {
    assert ReplaceAll("Eduardo", NAME_TOKEN, "Panisset") == "Panisset" + ReplaceAll("", NAME_TOKEN, "Panisset");
    assert ReplaceAll("Panisset", SURNAME_TOKEN, "X") == "X" + ReplaceAll("", SURNAME_TOKEN, "X");
  }
}
