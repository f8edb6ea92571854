/** The receiving side of webservice/http_session.c: a pausing parser fed from a growing buffer. */
module Intake {
  import opened Memory
  import opened Parser

  datatype Errno = HpeOk | HpePaused | HpeFailed
  datatype ParseError = Success | Paused | Failure

  function Flatten(vecs: seq<seq<byte>>): seq<byte> {
    if vecs == [] then [] else vecs[0] + Flatten(vecs[1..])
  }

  function ErrnoOf(signal: Signal): Errno {
    match signal
    case Nothing => HpeOk
    case Error => HpeFailed
    case _ => HpePaused
  }

  // A vector has been parsed from `input` at `at`, where `k` bytes of a flat run had gone before.
  lemma NextRemains<Q>(m: Automaton<Q>, c: Conf<Q>, input: seq<byte>, at: nat, bytes: seq<byte>, rest: seq<byte>,
                       k: nat, d: Conf<Q>, to: nat, l: nat)
    requires at <= |input| && input[at..] == bytes + rest && c.state !in {HeadersComplete, MessageComplete}
    requires at <= to <= |input| && l == k + (to - at)
    requires to - at <= |bytes| && ParseOne(m, c, bytes, 0) == Some((d, to - at))
    ensures After(l, Flat(m, d, input[to..])) == After(k, Flat(m, InBody(c), input[at..]))
  {
    var left := input[at..];
    assert left[..|bytes|] == bytes;
    FlatByOne(m, c, left, |bytes|);
    assert left[to - at..] == input[to..];
  }

  lemma NextRejected<Q>(m: Automaton<Q>, c: Conf<Q>, input: seq<byte>, at: nat, bytes: seq<byte>, rest: seq<byte>)
    requires at <= |input| && input[at..] == bytes + rest && c.state !in {HeadersComplete, MessageComplete}
    requires ParseOne(m, c, bytes, 0).None?
    ensures Flat(m, InBody(c), input[at..]).Rejected?
  {
    var left := input[at..];
    assert left[..|bytes|] == bytes;
    FlatByOne(m, c, left, |bytes|);
  }

  lemma NextAccounted(stream: seq<byte>, drained: nat, input: seq<byte>, at: nat, bytes: seq<byte>, rest: seq<byte>,
                      to: nat)
    requires drained <= |stream| && input == stream[drained..]
    requires at <= |input| && input[at..] == bytes + rest && at <= to && to - at <= |bytes|
    ensures to <= |input| && stream[..drained + at] + bytes[..to - at] == stream[..drained + to]
    ensures to - at == |bytes| ==> input[to..] == rest
  {
    assert |bytes + rest| == |input| - at;
    assert stream[drained + at..] == bytes + rest;
    assert bytes[..to - at] == stream[drained + at..][..to - at] == stream[drained + at..drained + to];
    if to - at == |bytes| { assert input[to..] == input[at..][to - at..]; }
  }

  class HttpSession<Q(!new)> {
    const m: Automaton<Q>
    const granting: bool  // whether the environment grants whatever is asked of it
    const closable: bool  // whether a ready_to_close callback is set: clients have one, upstreams none

    var state: HttpState
    var len: nat
    var q: Q
    var errno: Errno
    var body: Option<seq<byte>>
    var input: seq<byte>  // the channel's input buffer
    var outputLength: nat // and what waits in its output buffer
    var eof: bool

    // What the session has seen and done.
    ghost var stream: seq<byte>  // every byte that ever arrived
    ghost var parsed: seq<byte>  // the bytes the parser consumed, in order
    ghost var drained: nat
    ghost var completions: nat   // calls of message_complete
    ghost var closings: nat      // calls of ready_to_close
    var removed: bool            // http_service_session_remove was called
    ghost var starved: bool      // an allocation or a buffer operation failed
    ghost var released: bool     // a call that may have freed the session was made
    ghost var misused: bool      // and the session was used after that

    ghost function Message(): Conf<Q>
      reads this`state, this`q, this`body
    {
      Conf(state, q, if body.Some? then body.value else [])
    }

    // The parser is where the session's state says it is.
    ghost predicate Aligned()
      reads this`state, this`q, this`body
    {
      m.stage(q) == StageOf(state) && (body.None? <==> state == MessageBegin)
    }

    // What has been drained and `len` account for exactly what was parsed, and nothing else was drained.
    ghost predicate Accounted()
      reads this`stream, this`drained, this`input, this`len, this`parsed
    {
      && drained <= |stream| && input == stream[drained..]
      && len <= |input| && parsed == stream[..drained + len]
    }

    // Between callbacks.
    ghost predicate Valid()
      reads this
    {
      && InOrder(m) && !removed && !starved && Aligned() && Accounted()
      && state != HeadersComplete && (Rank(state) < 2 ==> drained == 0)
      && (state != MessageComplete ==> errno == HpeOk)
      && (state == MessageComplete ==> len == 0)
    }

    constructor (m: Automaton<Q>, q: Q, closable: bool, granting: bool)
      requires InOrder(m) && m.stage(q) == 0
      ensures Valid() && Message() == Conf(MessageBegin, q, [])
      ensures stream == [] && input == [] && completions == closings == 0
      ensures this.m == m && this.closable == closable && this.granting == granting
      ensures !eof && outputLength == 0 && !released && !misused
    {
      this.m, this.q, this.closable, this.granting := m, q, closable, granting;
      state, len, errno, body := MessageBegin, 0, HpeOk, None;
      input, outputLength, eof := [], 0, false;
      stream, parsed, drained, completions, closings := [], [], 0, 0, 0;
      removed, starved, released, misused := false, false, false, false;
    }

    // Any use of the session's memory by a callback.
    ghost method Touch()
      modifies this`misused
      ensures misused == (old(misused) || released)
    {
      misused := misused || released;
    }

    // Whether the environment grants what is asked of it.
    method Granted() returns (ok: bool)
      requires !starved
      modifies this`starved
      ensures starved == !ok && (granting ==> ok)
    {
      ok := *;
      ok := ok || granting;
      starved := !ok;
    }

    method OnMessageBegin()
      requires !starved
      modifies this`starved, this`body, this`state, this`errno
      ensures granting ==> !starved
      ensures starved ==> errno == HpeFailed
      ensures !starved ==> body == Some([]) && state == MessageParseBegin && errno == HpePaused
    {
      var ok := Granted();
      if !ok {
        body, errno := None, HpeFailed;
        return;
      }
      body := Some([]);
      state := MessageParseBegin;
      errno := HpePaused;
    }

    method OnBody(b: byte)
      requires !starved && body.Some?
      modifies this`starved, this`body, this`errno
      ensures granting ==> !starved
      ensures starved ==> errno == HpeFailed
      ensures !starved ==> body == Some(old(body).value + [b]) && errno == old(errno)
    {
      var ok := Granted();
      if ok {
        body := Some(body.value + [b]);
      } else {
        errno := HpeFailed;
      }
    }

    // The parser looks at one byte and calls the hooks.
    method LookAt(b: byte)
      requires InOrder(m) && !starved && errno == HpeOk && Aligned() && state != MessageComplete
      modifies this`starved, this`q, this`body, this`state, this`errno
      ensures granting ==> !starved
      ensures starved ==> errno == HpeFailed
      ensures !starved ==>
                var s := m.step(old(q), b);
                && errno == ErrnoOf(s.signal)
                && (s.signal != Error ==> Message() == Looked(old(Message()), s, b) && Aligned())
                && (errno == HpePaused ==> Rank(state) > Rank(old(state)))
    {
      var s := m.step(q, b);
      assert OrderedAt(m, q, b);
      q := s.next;
      if s.signal == Error {
        errno := HpeFailed;
        return;
      }
      if s.isBody {
        OnBody(b);
        if errno == HpeFailed {
          return;
        }
      }
      match s.signal {
        case Begin => OnMessageBegin();
        case Headers => state, errno := HeadersComplete, HpePaused;
        case Complete => state, errno := MessageComplete, HpePaused;
        case _ =>
      }
    }

    // The session after an execute call with result `r`.
    ghost predicate Executed(r: Exec<Q>, before: HttpState, end: nat)
      reads this`state, this`q, this`body, this`errno
    {
      && errno == ErrnoOf(r.signal)
      && (r.signal != Error ==> Message() == r.conf && end == r.end && Aligned())
      && (errno == HpePaused ==> Rank(state) > Rank(before))
      && (errno == HpeOk ==> state == before)
    }

    // http_parser_execute on bytes[from..].
    method ParserExecute(bytes: seq<byte>, from: nat) returns (end: nat)
      requires InOrder(m) && !starved && errno == HpeOk && Aligned() && state != MessageComplete
      requires from <= |bytes|
      modifies this`starved, this`q, this`body, this`state, this`errno, this`parsed
      ensures granting ==> !starved
      ensures from <= end <= |bytes| && parsed == old(parsed) + bytes[from..end]
      ensures starved ==> errno == HpeFailed
      ensures errno == HpeFailed ==> end < |bytes|
      ensures !starved ==> Executed(Execute(m, old(Message()), bytes, from), old(state), end)
    {
      end := from;
      while end < |bytes|
        invariant from <= end <= |bytes| && !starved && errno == HpeOk && Aligned() && state == old(state)
        invariant parsed == old(parsed)
        invariant Execute(m, old(Message()), bytes, from) == Execute(m, Message(), bytes, end)
      {
        LookAt(bytes[end]);
        if errno == HpeFailed || (errno == HpePaused && state == HeadersComplete) {
          break;
        }
        end := end + 1;
        if errno == HpePaused {
          break;
        }
      }
      parsed := parsed + bytes[from..end];
    }

    // The byte the headers end with, executed a second time and on its own.
    method Reexecute(bytes: seq<byte>, at: nat) returns (error: ParseError)
      requires InOrder(m) && !starved && errno == HpeOk && Aligned() && state == HeadersComplete && at < |bytes|
      modifies this`starved, this`q, this`body, this`state, this`errno, this`len, this`parsed
      ensures granting ==> !starved
      ensures error != Success && (starved ==> error == Failure)
      ensures error == Failure ==> len == old(len) && parsed == old(parsed)
      ensures !starved ==> (error == Failure <==> TakeAgain(m, old(Message()), bytes[at]).None?)
      ensures error == Paused ==>
                && Aligned() && (state != MessageComplete ==> errno == HpeOk)
                && TakeAgain(m, old(Message()), bytes[at]) == Some(InBody(Message()))
                && state in {HeadersComplete, MessageComplete}
                && len == old(len) + 1 && parsed == old(parsed) + [bytes[at]]
    {
      var one := bytes[at..at + 1];
      assert OrderedAt(m, q, bytes[at]) && one == [bytes[at]];
      ExecuteByte(m, Message(), bytes[at]);
      var consumed := ParserExecute(one, 0);
      if consumed != 1 {
        assert one[0..0] == [];
        return Failure;
      }
      assert one[0..1] == [bytes[at]];
      len := len + consumed;
      return Paused;
    }

    // What http_request_parse does with one vector.
    method ParseVector(bytes: seq<byte>) returns (error: ParseError)
      requires InOrder(m) && !starved && errno == HpeOk && Aligned()
      requires state !in {HeadersComplete, MessageComplete}
      modifies this`starved, this`q, this`body, this`state, this`errno, this`len, this`parsed
      ensures granting ==> !starved
      ensures starved ==> error == Failure
      ensures old(len) <= len <= old(len) + |bytes| && parsed == old(parsed) + bytes[..len - old(len)]
      ensures !starved ==> (error == Failure <==> ParseOne(m, old(Message()), bytes, 0).None?)
      ensures error != Failure ==>
                && Aligned() && (state != MessageComplete ==> errno == HpeOk)
                && ParseOne(m, old(Message()), bytes, 0) == Some((InBody(Message()), len - old(len)))
                && (error == Success ==> state == old(state) && len == old(len) + |bytes|)
                && (error == Paused ==> Rank(state) > Rank(old(state)))
    {
      var consumed := ParserExecute(bytes, 0);
      len := len + consumed;
      if errno == HpePaused {
        errno := HpeOk;
        if state == HeadersComplete && consumed < |bytes| {
          error := Reexecute(bytes, consumed);
          assert bytes[..consumed + 1] == bytes[0..consumed] + [bytes[consumed]];
          return;
        }
        return Paused;
      }
      if errno != HpeOk {
        return Failure;
      }
      assert consumed == |bytes|;  // the source's check for a short parse never fires
      return Success;
    }

    // evbuffer_peek from `len` on: the bytes there, cut into vectors wherever the buffer likes.
    method Peek() returns (ok: bool, vecs: seq<seq<byte>>)
      requires !starved && len <= |input|
      modifies this`starved
      ensures granting ==> !starved
      ensures starved == !ok
      ensures ok ==> Flatten(vecs) == input[len..]
    {
      ok := Granted();
      assert Flatten([]) == [] && [input[len..]][1..] == [];
      assert input[len..] + [] == input[len..];
      assert Flatten([input[len..]]) == input[len..];
      vecs :| Flatten(vecs) == input[len..];
    }

    // What one run over everything that has arrived comes to, as seen from here: what is parsed is behind
    // it, what the buffer holds from `len` on is still ahead.
    ghost function Outlook(): Outcome<Q>
      requires len <= |input|
      reads this`state, this`q, this`body, this`input, this`len, this`parsed
    {
      After(|parsed|, Flat(m, InBody(Message()), input[len..]))
    }

    // The same as ParseVector, told in terms of the session's accounts; `rest` is what the buffer holds
    // behind the vector.
    method ParseCounted(bytes: seq<byte>, ghost rest: seq<byte>) returns (error: ParseError)
      requires InOrder(m) && !starved && errno == HpeOk && Aligned() && Accounted()
      requires state !in {HeadersComplete, MessageComplete} && input[len..] == bytes + rest
      modifies this`starved, this`q, this`body, this`state, this`errno, this`len, this`parsed
      ensures granting ==> !starved
      ensures Accounted() && (starved ==> error == Failure)
      ensures !starved ==> (error == Failure <==> ParseOne(m, old(Message()), bytes, 0).None?)
      ensures error != Failure ==>
                && Aligned() && (state != MessageComplete ==> errno == HpeOk)
                && old(len) <= len && |parsed| == |old(parsed)| + (len - old(len))
                && ParseOne(m, old(Message()), bytes, 0) == Some((InBody(Message()), len - old(len)))
                && (error == Success ==> state == old(state) && input[len..] == rest)
                && (error == Paused ==> Rank(state) > Rank(old(state)))
    {
      error := ParseVector(bytes);
      NextAccounted(stream, drained, input, old(len), bytes, rest, len);
    }

    // And in terms of its outlook.
    method ParseNext(bytes: seq<byte>, ghost rest: seq<byte>) returns (error: ParseError)
      requires InOrder(m) && !starved && errno == HpeOk && Aligned() && Accounted()
      requires state !in {HeadersComplete, MessageComplete} && input[len..] == bytes + rest
      modifies this`starved, this`q, this`body, this`state, this`errno, this`len, this`parsed
      ensures granting ==> !starved
      ensures Accounted() && (starved ==> error == Failure)
      ensures error != Failure ==>
                && Aligned() && (state != MessageComplete ==> errno == HpeOk)
                && Outlook() == old(Outlook())
                && (error == Success ==> state == old(state) && input[len..] == rest)
                && (error == Paused ==> Rank(state) > Rank(old(state)))
      ensures error == Failure && !starved ==> old(Outlook()).Rejected?
    {
      ghost var c := Message();
      error := ParseCounted(bytes, rest);
      if error != Failure {
        NextRemains(m, c, input, old(len), bytes, rest, |old(parsed)|, InBody(Message()), len, |parsed|);
      } else if !starved {
        NextRejected(m, c, input, old(len), bytes, rest);
      }
    }

    // The loop of http_request_parse over the vectors.
    method ParseAll(vecs: seq<seq<byte>>) returns (error: ParseError)
      requires InOrder(m) && !starved && errno == HpeOk && Aligned() && Accounted()
      requires state !in {HeadersComplete, MessageComplete} && input[len..] == Flatten(vecs)
      modifies this`starved, this`q, this`body, this`state, this`errno, this`len, this`parsed
      ensures granting ==> !starved
      ensures Accounted() && (starved ==> error == Failure)
      ensures error != Failure ==>
                && Aligned() && (state != MessageComplete ==> errno == HpeOk)
                && Outlook() == old(Outlook())
                && (error == Success ==> state == old(state) && len == |input|)
                && (error == Paused ==> Rank(state) > Rank(old(state)))
      ensures error == Failure && !starved ==> old(Outlook()).Rejected?
    {
      assert vecs[0..] == vecs;
      for i := 0 to |vecs|
        invariant !starved && errno == HpeOk && Aligned() && Accounted() && state == old(state)
        invariant input[len..] == Flatten(vecs[i..]) && Outlook() == old(Outlook())
      {
        assert vecs[i..][1..] == vecs[i + 1..];
        error := ParseNext(vecs[i], Flatten(vecs[i + 1..]));
        if error != Success {
          return;
        }
      }
      assert vecs[|vecs|..] == [];
      return Success;
    }

    // http_request_parse.
    method RequestParse() returns (error: ParseError)
      requires InOrder(m) && !starved && errno == HpeOk && Aligned() && Accounted()
      requires state !in {HeadersComplete, MessageComplete}
      modifies this`starved, this`q, this`body, this`state, this`errno, this`len, this`parsed, this`misused
      ensures granting ==> !starved
      ensures misused == (old(misused) || released)
      ensures Accounted() && (starved ==> error == Failure)
      ensures error != Failure ==>
                && Aligned() && (state != MessageComplete ==> errno == HpeOk)
                && Outlook() == old(Outlook())
                && (error == Success ==> state == old(state) && len == |input|)
                && (error == Paused ==> Rank(state) > Rank(old(state)))
      ensures error == Failure && !starved ==> old(Outlook()).Rejected?
    {
      Touch();
      var ok, vecs := Peek();
      if !ok {
        return Failure;
      }
      error := ParseAll(vecs);
    }

    // Whether http_session_channel_should_close says so.
    predicate Closing()
      reads this`eof, this`state, this`outputLength
    {
      ClosesChannel(eof, state, outputLength > 0)
    }

    // http_session_channel_should_close.
    method ChannelShouldClose() returns (close: bool)
      modifies this`closings, this`released, this`misused
      ensures misused == (old(misused) || old(released)) && close == Closing()
      ensures state == MessageBegin ==> (close <==> eof)
      ensures state == MessageComplete ==> (close <==> outputLength == 0)
      ensures state !in {MessageBegin, MessageComplete} ==> !close
      ensures closings == old(closings) + (if close && closable then 1 else 0)
      ensures released == (old(released) || (close && closable))
    {
      Touch();
      if (eof && state == MessageBegin) || (state == MessageComplete && outputLength == 0) {
        if closable {
          closings, released := closings + 1, true;
        }
        return true;
      }
      return false;
    }

    // http_service_session_remove
    method SessionRemove()
      modifies this`removed, this`released, this`misused
      ensures misused == (old(misused) || old(released)) && removed && released
    {
      Touch();
      removed, released := true, true;
    }

    // channel_drain_input(channel, session->len), and session->len = 0 when it succeeds.
    method Drain() returns (ok: bool)
      requires !starved && Accounted()
      modifies this`starved, this`input, this`drained, this`len, this`misused
      ensures granting ==> !starved
      ensures misused == (old(misused) || released) && starved == !ok
      ensures Accounted() && input[len..] == old(input)[old(len)..] && (ok ==> len == 0)
    {
      Touch();
      ok := Granted();
      if ok {
        DrainedInput();
        input, drained, len := input[len..], drained + len, 0;
      }
    }

    lemma DrainedInput()
      requires Accounted()
      ensures input[len..] == stream[drained + len..] && input[len..][0..] == input[len..]
    {
    }

    // In the loop of http_session_read_cb: the outlook is what it was.
    ghost predicate Reading(whole: Outcome<Q>)
      reads this
    {
      && InOrder(m) && !starved && !removed && Aligned() && Accounted() && (state != MessageComplete ==> errno == HpeOk)
      && (Rank(state) < 2 ==> drained == 0)
      && Outlook() == whole
    }

    // The callback is over with nothing left to do: the session is where the flat run ended.
    ghost predicate AtRest(whole: Outcome<Q>)
      reads this
    {
      Valid() && whole == Accepted(Message(), |parsed|)
    }

    // The three cases of the loop; `done` says that the callback returns.
    method ParseCase(ghost whole: Outcome<Q>) returns (error: ParseError, done: bool)
      requires Reading(whole) && state !in {HeadersComplete, MessageComplete}
      modifies this`starved, this`q, this`body, this`state, this`errno, this`len, this`parsed, this`misused
      ensures granting ==> !starved
      ensures misused == (old(misused) || released) && Accounted() && error != Paused
      ensures error == Failure ==> !done && (starved || whole.Rejected?)
      ensures done ==> state == old(state) && AtRest(whole)
      ensures error == Success && !done ==> Rank(state) > Rank(old(state)) && Reading(whole)
    {
      var before := state;
      error := RequestParse();
      if error == Failure {
        return error, false;
      }
      done := before == state;  // the session is there as it was for the parser: nothing released it
      error := Success;
      if done { EndOfInput(); }
    }

    lemma EndOfInput()
      requires state != HeadersComplete && len == |input|
      ensures Outlook() == Accepted(Message(), |parsed|)
    {
      assert input[len..] == [];
    }

    method HeadersCase(ghost whole: Outcome<Q>) returns (error: ParseError)
      requires Reading(whole) && state == HeadersComplete
      modifies this`starved, this`input, this`drained, this`len, this`state, this`misused
      ensures granting ==> !starved
      ensures misused == (old(misused) || released) && Accounted()
      ensures error == if starved then Failure else Success
      ensures error == Success ==> len == 0
      ensures error == Success ==> Rank(state) > Rank(old(state)) && Reading(whole)
    {
      var ok := Drain();
      if !ok {
        return Failure;
      }
      Touch();
      state := BodyParse;
      return Success;
    }

    method CompleteCase(ghost whole: Outcome<Q>) returns (error: ParseError)
      requires Reading(whole) && state == MessageComplete
      modifies this`starved, this`input, this`drained, this`len, this`completions, this`released, this`misused
      ensures granting ==> !starved
      ensures misused == (old(misused) || old(released)) && Accounted()
      ensures error == if starved then Failure else Success
      ensures error == Success ==> len == 0
      ensures error == Failure ==> released == old(released) && completions == old(completions)
      ensures error == Success ==> released && completions == old(completions) + 1 && AtRest(whole)
    {
      var ok := Drain();
      if !ok {
        return Failure;
      }
      Touch();
      completions, released := completions + 1, true;
      return Success;
    }

    // The states in which the loop drains what it has parsed.
    static predicate Drains(state: HttpState) {
      state == HeadersComplete || state == MessageComplete
    }

    // One round of the loop of http_session_read_cb.
    method ReadOnce(ghost whole: Outcome<Q>) returns (error: ParseError, done: bool)
      requires Reading(whole) && !released && !misused
      modifies this`starved, this`q, this`body, this`state, this`errno, this`len, this`parsed, this`misused
      modifies this`input, this`drained, this`completions, this`released
      ensures granting ==> !starved
      ensures !misused && Accounted() && error != Paused
      ensures released <==> completions != old(completions)
      // All that was parsed is drained where the headers or the message have ended, and only there.
      ensures if Drains(old(state)) then error == Success ==> len == 0 else drained == old(drained)
      ensures done ==>
                && error == Success && AtRest(whole) && Rank(state) >= Rank(old(state))
                && completions == old(completions) + (if state == MessageComplete then 1 else 0)
      ensures !done ==> completions == old(completions)
      ensures error == Failure ==> starved || whole.Rejected?
      ensures error == Success && !done ==> Reading(whole) && Rank(state) > Rank(old(state))
    {
      Touch();
      match state {
        case HeadersComplete =>
          error := HeadersCase(whole);
          return error, false;
        case MessageComplete =>
          error := CompleteCase(whole);
          return error, error == Success;
        case _ =>
          error, done := ParseCase(whole);
      }
    }

    // The loop of http_session_read_cb.
    method ReadLoop(ghost whole: Outcome<Q>)
      requires Valid() && !released && !misused && whole == Outlook()
      modifies this`starved, this`q, this`body, this`state, this`errno, this`len, this`parsed, this`misused
      modifies this`input, this`drained, this`completions, this`released, this`removed
      ensures granting ==> !starved
      // Nothing uses the session after the one call that may free it.
      ensures !misused && Accounted() && (released <==> removed || completions == old(completions) + 1)
      ensures removed ==> completions == old(completions) && (starved || whole.Rejected?)
      ensures !removed ==>
                && AtRest(whole) && Rank(state) >= Rank(old(state))
                && completions == old(completions) + (if state == MessageComplete then 1 else 0)
    {
      var error, done := Success, false;
      while error == Success
        invariant completions == old(completions) && !released && !misused && !removed && Accounted()
        invariant granting ==> !starved
        invariant error != Success ==> error == Failure && (starved || whole.Rejected?)
        invariant error == Success ==> Reading(whole) && Rank(state) >= Rank(old(state))
        decreases if error == Success then 1 + 4 - Rank(state) else 0
      {
        error, done := ReadOnce(whole);
        if done {
          return;
        }
      }
      SessionRemove();
    }

    // http_session_read_cb.
    method ReadCb()
      requires Valid() && !released && !misused
      modifies this`starved, this`q, this`body, this`state, this`errno, this`len, this`parsed, this`misused
      modifies this`input, this`drained, this`completions, this`closings, this`released, this`removed
      ensures granting ==> !starved
      ensures !misused && Accounted()
      // It calls ready_to_close for a client that has gone before sending anything, or whose complete message
      // has been answered with all of the answer sent.
      ensures closings == old(closings)
              + if closable
                   && ((eof && old(state) == MessageBegin) || (old(state) == MessageComplete && outputLength == 0))
                then 1 else 0
      // With output pending, input behind a complete message announces it again.
      ensures old(state) == MessageComplete && outputLength > 0 && old(input) != [] ==>
                if removed then starved else completions == old(completions) + 1
      // It does nothing when the channel is to be closed or has no input.
      ensures old(Closing()) || old(input) == [] ==>
                && Valid() && Message() == old(Message()) && parsed == old(parsed) && input == old(input)
                && completions == old(completions)
                && closings == old(closings) + (if old(Closing()) && closable then 1 else 0)
      // Otherwise it does what one run over the unparsed input does, and announces a message that has
      // ended: one that ended long ago, too, if input comes in while output is pending.
      ensures !old(Closing()) && old(input) != [] ==>
                var whole := old(Outlook());
                && closings == old(closings)
                && (removed ==> completions == old(completions) && (starved || whole.Rejected?))
                && (!removed ==>
                      && AtRest(whole) && Rank(state) >= Rank(old(state))
                      && completions == old(completions) + (if state == MessageComplete then 1 else 0))
    {
      var close := ChannelShouldClose();
      if close {
        return;
      }
      if |input| == 0 {
        return;
      }
      ReadLoop(Outlook());
    }

    // Nothing answered yet, nothing closed, a message that has ended announced once.
    ghost predicate Listening()
      reads this
    {
      && Valid() && outputLength == 0 && !eof
      && completions == (if state == MessageComplete then 1 else 0)
      && (state != MessageComplete ==> |parsed| == |stream|)
    }

    // A message that does not end takes all that has arrived.
    ghost predicate Covers(whole: Outcome<Q>)
      reads this`stream
    {
      whole.Accepted? && whole.conf.state != MessageComplete ==> whole.consumed == |stream|
    }

    // The channel appends an arrival to its input buffer.
    method Arrive(chunk: seq<byte>)
      requires Listening()
      modifies this`input, this`stream
      ensures Valid() && stream == old(stream) + chunk && input == old(input) + chunk
      ensures Outlook() == After(|parsed|, Flat(m, Message(), chunk)) && Covers(Outlook())
    {
      ghost var all := stream;
      input, stream := input + chunk, stream + chunk;
      if state == MessageComplete {
        FlatAtEnd(m, Message(), chunk);
      } else {
        assert stream[|all|..] == chunk;
      }
    }

    // http_session_event_cb at the end of file, which the channel has noted.
    method EofCb()
      requires !released && !misused
      modifies this`eof, this`closings, this`released, this`misused
      ensures eof && !misused
      ensures closings == old(closings)
              + if closable && (state == MessageBegin || (state == MessageComplete && outputLength == 0)) then 1 else 0
    {
      eof := true;
      var _ := ChannelShouldClose();
    }

    // http_session_write_cb
    method WriteCb()
      requires !released && !misused
      modifies this`closings, this`released, this`misused
      ensures !misused
      ensures closings == old(closings)
              + if closable && ((eof && state == MessageBegin) || (state == MessageComplete && outputLength == 0))
                then 1 else 0
    {
      var _ := ChannelShouldClose();
    }

    lemma NothingToDo()
      requires Valid()
      ensures state == MessageComplete || input == [] ==> AtRest(Outlook())
    {
      if state == MessageComplete { FlatAtEnd(m, Message(), input[len..]); }
      if input == [] { assert input[len..] == []; }
    }

    // http_session_read_cb for a client that is still there and has not been answered.
    method ReadUnanswered()
      requires Valid() && !released && !misused && outputLength == 0 && !eof
      requires completions == (if state == MessageComplete then 1 else 0)
      modifies this`starved, this`q, this`body, this`state, this`errno, this`len, this`parsed, this`misused
      modifies this`input, this`drained, this`completions, this`closings, this`released, this`removed
      ensures granting ==> !starved
      ensures !misused && Accounted()
      ensures removed ==> starved || old(Outlook()).Rejected?
      ensures !removed ==>
                !released && AtRest(old(Outlook())) && completions == (if state == MessageComplete then 1 else 0)
    {
      NothingToDo();
      ReadCb();
      if !removed {
        released := false;  // message_complete has only asked for names
      }
    }

    // An arrival, of which the channel tells the session.
    method Deliver(chunk: seq<byte>)
      requires Listening() && !released && !misused
      modifies this
      ensures !misused && Accounted() && (granting ==> !starved)
      ensures var r := After(|old(parsed)|, Flat(m, old(Message()), chunk));
              && (removed ==> starved || r.Rejected?)
              && (!removed ==> Listening() && !released && r == Accepted(Message(), |parsed|))
    {
      Arrive(chunk);
      ReadUnanswered();
    }

    // What a fresh session is after some arrivals, whose flat run is `whole`, with `rest` still to come.
    ghost predicate FedTo(whole: Outcome<Q>, rest: seq<byte>)
      reads this
    {
      Listening() && whole == After(|parsed|, Flat(m, Message(), rest))
    }

    // The same, as a step of that run.
    method DeliverNext(chunk: seq<byte>, ghost whole: Outcome<Q>, ghost rest: seq<byte>)
      requires !released && !misused && FedTo(whole, chunk + rest)
      modifies this
      ensures !misused && Accounted() && (granting ==> !starved)
      ensures removed ==> starved || whole.Rejected?
      ensures !removed ==> FedTo(whole, rest) && !released
    {
      ghost var r, t := FlatGoesOn(m, Message(), chunk, rest, |parsed|);
      Deliver(chunk);
    }

    /** However a stream is cut into arrivals, and each arrival into vectors, a fresh session that answers
        nothing yet ends as one run over the flat stream does, and is told once of a complete message. That is,
        in terms of the parser's steps: it is removed exactly if a byte of the message fails, unless the
        environment refuses something; and otherwise the message takes the bytes up to the one that completes it,
        the parser is where these lead, and the body is the body bytes among them. */
    method Feed(arrivals: seq<seq<byte>>)
      requires Listening() && !released && !misused && parsed == []
      modifies this
      ensures !misused && Accounted() && (granting ==> !starved)
      ensures var whole := Flat(m, old(Message()), Flatten(arrivals));
              && (removed ==> starved || whole.Rejected?)
              && (!removed ==>
                    && Valid() && whole == Accepted(Message(), |parsed|) && parsed <= stream
                    && completions == (if state == MessageComplete then 1 else 0))
      ensures old(state) != MessageComplete ==>
                var all := Flatten(arrivals);
                && (removed ==> starved || Breaks(m, old(q), all))
                && (!removed ==>
                      && !Breaks(m, old(q), all) && Takes(m, old(q), all, |parsed|)
                      && q == StateAt(m, old(q), all, |parsed|) && state == StateOfStage(m.stage(q))
                      && Message().body == old(Message()).body + BodyBytes(m, old(q), all, |parsed|))
    {
      ghost var whole := Flat(m, Message(), Flatten(arrivals));
      if state != MessageComplete { FlatMeans(m, Message(), Flatten(arrivals)); }
      FeedAll(arrivals, whole);
    }

    // The arrivals, one after the other.
    method FeedAll(arrivals: seq<seq<byte>>, ghost whole: Outcome<Q>)
      requires !released && !misused && FedTo(whole, Flatten(arrivals))
      modifies this
      ensures !misused && Accounted() && (granting ==> !starved)
      ensures removed ==> starved || whole.Rejected?
      ensures !removed ==> FedTo(whole, []) && parsed <= stream
    {
      assert arrivals[0..] == arrivals;
      for i := 0 to |arrivals|
        invariant !removed && !starved && !released && !misused && FedTo(whole, Flatten(arrivals[i..]))
      {
        assert arrivals[i..][1..] == arrivals[i + 1..];
        DeliverNext(arrivals[i], whole, Flatten(arrivals[i + 1..]));
        if removed {
          return;
        }
      }
      assert arrivals[|arrivals|..] == [];
    }
  }
}
