/** joke_create and client_response_create of webservice/session.c: personalising the joke in two passes. */
module Joke {
  import opened Memory
  import opened Substitution

  const NAME_TOKEN := "Eduardo"
  const SURNAME_TOKEN := "Panisset"

  const NUL: char := '\0'

  // A C string: `text`, which has no NUL, and a NUL after it.
  ghost predicate IsCString(a: array<char>, text: string)
    reads a
  {
    |text| < a.Length && a[..|text|] == text && a[|text|] == NUL && NUL !in text
  }

  lemma {:induction false} ReplaceAllNulFree(s: string, t: string, r: string)
    requires t != [] && NUL !in s && NUL !in r
    ensures NUL !in ReplaceAll(s, t, r)
    decreases |s|
  {
    if s != [] {
      ReplaceAllNulFree(if t <= s then s[|t|..] else s[1..], t, r);
    }
  }

  lemma Regroup(a: string, b: string, c: string, d: string, whole: string)
    requires a + (b + (c + d)) == whole
    ensures a + b + c + d == whole && |a| + |b| + |c| <= |whole|
  {
    Assoc(a + b, c, d);
    Assoc(a, b, c + d);
  }

  // `written` stands for the text up to `p`.
  ghost predicate Stands(text: string, token: string, r: string, p: nat, written: string)
    requires token != []
  {
    p <= |text| && written + ReplaceAll(text[p..], token, r) == ReplaceAll(text, token, r)
  }

  lemma StandsNext(text: string, token: string, r: string, p: nat, written: string) returns (next: string)
    requires token != [] && Stands(text, token, r, p, written) && StrStr(text, token, p).Some?
    ensures var n := StrStr(text, token, p).value;
            Stands(text, token, r, n + |token|, next) && next == written + text[p..n] + r
    ensures |next| <= |ReplaceAll(text, token, r)|
  {
    var n := StrStr(text, token, p).value;
    next := written + text[p..n] + r;
    ReplaceNext(text, token, r, p);
    Regroup(written, text[p..n], r, ReplaceAll(text[n + |token|..], token, r), ReplaceAll(text, token, r));
  }

  lemma StandsLast(text: string, token: string, r: string, p: nat, written: string)
    requires token != [] && Stands(text, token, r, p, written)
    requires p == |text| || StrStr(text, token, p).None?
    ensures written + text[p..] == ReplaceAll(text, token, r)
    ensures |ReplaceAll(text, token, r)| == |written| + (|text| - p)
  {
    if p < |text| { ReplaceLast(text, token, r, p); }
  }

  // The C library's strlen.
  method Strlen(a: array<char>, ghost text: string) returns (len: nat)
    requires IsCString(a, text)
    ensures len == |text|
  {
    len := 0;
    while a[len] != NUL
      invariant len <= |text|
      decreases |text| - len
    {
      assert a[len] == NUL || a[len] == text[len];
      len := len + 1;
    }
  }

  // The C library's strstr on a C string, from `from` on.
  method FindIn(a: array<char>, ghost text: string, token: string, from: nat) returns (found: Option<nat>)
    requires IsCString(a, text) && from <= |text|
    ensures found == StrStr(text, token, from)
  {
    var len := Strlen(a, text);
    found := StrStr(a[..len], token, from);
  }

  // The first pass: the length of the new joke.
  method NewJokeLength(sessJoke: array<char>, ghost text: string, token: string, sessTlen: nat, ghost r: string)
    returns (newJokeLen: nat)
    requires IsCString(sessJoke, text) && token != [] && |r| == sessTlen
    ensures newJokeLen == |ReplaceAll(text, token, r)|
  {
    ghost var written := "";
    assert text[0..] == text;
    var n := 0;
    var len: int := Strlen(sessJoke, text);
    while sessJoke[n] != NUL
      invariant Stands(text, token, r, n, written) && len == |written| + (|text| - n)
      decreases |text| - n
    {
      var found := FindIn(sessJoke, text, token, n);
      if found.None? {
        break;
      }
      written := StandsNext(text, token, r, n, written);
      len := len - |token|;
      len := len + sessTlen;
      n := found.value + |token|;
    }
    StandsLast(text, token, r, n, written);
    newJokeLen := len;
  }

  // Copies characters one by one into the buffer, from index `i` on.
  method CopyInto(newJoke: array<char>, i: nat, part: string)
    requires i + |part| <= newJoke.Length
    modifies newJoke
    ensures newJoke[..i + |part|] == old(newJoke[..i]) + part
  {
    for j := 0 to |part|
      invariant newJoke[..i + j] == old(newJoke[..i]) + part[..j]
    {
      newJoke[i + j] := part[j];
      assert newJoke[..i + j + 1] == newJoke[..i + j] + [part[j]];
    }
  }

  lemma StretchOf(a: array<char>, text: string, p: nat, n: nat)
    requires IsCString(a, text) && p <= n <= |text|
    ensures a[p..n] == text[p..n]
  {
    forall k | 0 <= k < n - p
      ensures a[p..n][k] == text[p..n][k]
    {
      assert a[p + k] == a[..|text|][p + k];
    }
  }

  // The stretch before the token, then what replaces it.
  method FillMatch(sessJoke: array<char>, ghost text: string, p: nat, n: nat, sessToken: string,
                   newJoke: array<char>, i: nat) returns (next: nat)
    requires IsCString(sessJoke, text) && sessJoke != newJoke && p <= n <= |text|
    requires i + (n - p) + |sessToken| <= newJoke.Length
    modifies newJoke
    ensures next == i + (n - p) + |sessToken|
    ensures newJoke[..next] == old(newJoke[..i]) + text[p..n] + sessToken
  {
    StretchOf(sessJoke, text, p, n);
    var stretch := sessJoke[p..n];
    CopyInto(newJoke, i, stretch);
    next := i + |stretch|;
    CopyInto(newJoke, next, sessToken);
    next := next + |sessToken|;
  }

  // One round of the second pass, if there is a next token.
  method FillNext(sessJoke: array<char>, ghost text: string, token: string, p: nat, sessToken: string,
                  newJoke: array<char>, i: nat) returns (more: bool, q: nat, next: nat)
    requires IsCString(sessJoke, text) && token != [] && sessJoke != newJoke && i <= newJoke.Length
    requires newJoke.Length == |ReplaceAll(text, token, sessToken)| + 1
    requires Stands(text, token, sessToken, p, newJoke[..i])
    modifies newJoke
    ensures next <= newJoke.Length && Stands(text, token, sessToken, q, newJoke[..next])
    ensures if more then p < q else p == q && StrStr(text, token, p).None?
  {
    var found := FindIn(sessJoke, text, token, p);
    if found.None? {
      return false, p, i;
    }
    ghost var now := StandsNext(text, token, sessToken, p, newJoke[..i]);
    next := FillMatch(sessJoke, text, p, found.value, sessToken, newJoke, i);
    return true, found.value + |token|, next;
  }

  // What follows the last match, and the terminator.
  method FillRest(sessJoke: array<char>, ghost text: string, token: string, ghost r: string, p: nat,
                  newJoke: array<char>, i: nat)
    requires IsCString(sessJoke, text) && token != [] && sessJoke != newJoke && i <= newJoke.Length
    requires newJoke.Length == |ReplaceAll(text, token, r)| + 1 && Stands(text, token, r, p, newJoke[..i])
    requires p == |text| || StrStr(text, token, p).None?
    modifies newJoke
    ensures newJoke[..newJoke.Length - 1] == ReplaceAll(text, token, r) && newJoke[newJoke.Length - 1] == NUL
  {
    StandsLast(text, token, r, p, newJoke[..i]);
    var len := Strlen(sessJoke, text);
    StretchOf(sessJoke, text, p, len);
    var rest := sessJoke[p..len];
    assert rest == text[p..];
    CopyInto(newJoke, i, rest);
    var end := i + |rest|;
    assert end == newJoke.Length - 1 && newJoke[..end] == ReplaceAll(text, token, r);
    newJoke[end] := NUL;
  }

  // The second pass: fills the buffer from left to right.
  method FillJoke(sessJoke: array<char>, ghost text: string, token: string, sessToken: string, newJoke: array<char>)
    requires IsCString(sessJoke, text) && token != [] && sessJoke != newJoke
    requires newJoke.Length == |ReplaceAll(text, token, sessToken)| + 1
    modifies newJoke
    ensures newJoke[..newJoke.Length - 1] == ReplaceAll(text, token, sessToken)
    ensures newJoke[newJoke.Length - 1] == NUL
  {
    assert text[0..] == text && newJoke[..0] == "";
    var i, p := 0, 0;
    while sessJoke[p] != NUL
      invariant IsCString(sessJoke, text)
      invariant 0 <= i <= newJoke.Length && Stands(text, token, sessToken, p, newJoke[..i])
      decreases |text| - p
    {
      var more;
      more, p, i := FillNext(sessJoke, text, token, p, sessToken, newJoke, i);
      if !more {
        break;
      }
    }
    FillRest(sessJoke, text, token, sessToken, p, newJoke, i);
  }

  // `available` tells whether malloc succeeds.
  method JokeCreate(sessJoke: array<char>, ghost text: string, token: string, sessToken: string, available: bool)
    returns (newJoke: array?<char>)
    requires IsCString(sessJoke, text) && token != [] && NUL !in sessToken
    ensures newJoke == null <==> !available
    ensures newJoke != null ==>
              && fresh(newJoke) && newJoke.Length == |ReplaceAll(text, token, sessToken)| + 1
              && IsCString(newJoke, ReplaceAll(text, token, sessToken))
  {
    var newJokeLen := NewJokeLength(sessJoke, text, token, |sessToken|, sessToken);
    newJokeLen := newJokeLen + 1;
    if !available {
      return null;
    }
    newJoke := new char[newJokeLen];
    FillJoke(sessJoke, text, token, sessToken, newJoke);
    ReplaceAllNulFree(text, token, sessToken);
  }

  // What the client is sent.
  function ClientText(name: string, surname: string, joke: string): string {
    ReplaceAll(ReplaceAll(joke, NAME_TOKEN, name), SURNAME_TOKEN, surname)
  }

  // The three strings a session owns until its response is made of them.
  class Replies {
    var name: array?<char>
    var surname: array?<char>
    var joke: array?<char>
    ghost var freed: seq<array<char>>

    // Owned strings are distinct and none has been freed.
    ghost predicate Valid()
      reads this
    {
      && (name != null ==> name !in freed && name != surname && name != joke)
      && (surname != null ==> surname !in freed && surname != joke)
      && (joke != null ==> joke !in freed)
    }

    method Free(a: array?<char>)
      requires a == null || a !in freed
      modifies this`freed
      ensures freed == if a == null then old(freed) else old(freed) + [a]
    {
      if a != null {
        freed := freed + [a];
      }
    }

    method ClientResponseCreate(ghost n: string, ghost s: string, ghost j: string, first: bool, second: bool)
      returns (newJoke: array?<char>)
      requires Valid() && name != null && surname != null && joke != null
      requires IsCString(name, n) && IsCString(surname, s) && IsCString(joke, j)
      modifies this
      ensures Valid() && name == null
      ensures newJoke != null <==> first && second
      ensures newJoke != null ==> newJoke !in freed && IsCString(newJoke, ClientText(n, s, j))
      ensures !first ==> surname == old(surname) && joke == old(joke) && freed == old(freed) + [old(name)]
      ensures first ==> surname == joke == null
                        && exists between: array<char> ::
                             && fresh(between)
                             && freed == old(freed) + [old(name)] + [old(joke)] + [old(surname)] + [between]
    {
      var sessNameLen := Strlen(name, n);
      var sessSurnameLen := Strlen(surname, s);
      var sessName, sessSurname := name[..sessNameLen], surname[..sessSurnameLen];
      assert sessName == n && sessSurname == s;
      newJoke := JokeCreate(joke, j, NAME_TOKEN, sessName, first);
      Free(name);
      name := null;
      if newJoke == null {
        return;
      }
      Free(joke);
      joke := null;
      var sessJoke := newJoke;
      newJoke := JokeCreate(sessJoke, ReplaceAll(j, NAME_TOKEN, n), SURNAME_TOKEN, sessSurname, second);
      Free(surname);
      surname := null;
      Free(sessJoke);
    }
  }
}
