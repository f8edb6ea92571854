/** The incremental parser behind webservice/http_session.c, as a byte automaton that raises the events
    the session hooks, and what one uninterrupted run of it makes of a stream. */
module Parser {
  import opened Memory

  newtype byte = x: int | 0 <= x < 256

  // What looking at one byte makes the parser report. `Headers` is reported before the byte is consumed.
  datatype Signal = Nothing | Begin | Headers | Complete | Error

  datatype Step<Q> = Step(next: Q, isBody: bool, signal: Signal)

  // `stage` tells how far a parser state is: 0 before the message begins, 1 in its headers, 2 after
  // them, 3 after the message.
  datatype Automaton<!Q> = Automaton(step: (Q, byte) -> Step<Q>, stage: Q -> nat)

  // Events come once and in order, and body bytes only after the headers.
  ghost predicate InOrder<Q(!new)>(m: Automaton<Q>) {
    forall q, b :: OrderedAt(m, q, b)
  }

  predicate OrderedAt<Q>(m: Automaton<Q>, q: Q, b: byte) {
    var s := m.step(q, b);
    && (s.isBody ==> m.stage(q) == 2)
    && (s.signal == Nothing ==> m.stage(s.next) == m.stage(q))
    && (s.signal == Begin ==> m.stage(q) == 0 && m.stage(s.next) == 1)
    && (s.signal == Headers ==> m.stage(q) == 1 && m.stage(s.next) == 2)
    && (s.signal == Complete ==> m.stage(q) == 2 && m.stage(s.next) == 3)
  }

  datatype HttpState = MessageBegin | MessageParseBegin | HeadersComplete | BodyParse | MessageComplete

  function Rank(s: HttpState): nat {
    match s
    case MessageBegin => 0
    case MessageParseBegin => 1
    case HeadersComplete => 2
    case BodyParse => 3
    case MessageComplete => 4
  }

  // Whether a channel is to be closed: the other side has gone before sending anything, or the message is
  // complete and no output is pending.
  predicate ClosesChannel(eof: bool, state: HttpState, pending: bool) {
    (eof && state == MessageBegin) || (state == MessageComplete && !pending)
  }

  // The parser stage that goes with a session state.
  function StageOf(s: HttpState): nat {
    match s
    case MessageBegin => 0
    case MessageParseBegin => 1
    case HeadersComplete => 2
    case BodyParse => 2
    case MessageComplete => 3
  }

  // How far a message is: the session's state, the parser's, and the body so far.
  datatype Conf<Q> = Conf(state: HttpState, q: Q, body: seq<byte>)

  // The state a hook leaves behind.
  function Hooked(state: HttpState, signal: Signal): HttpState {
    match signal
    case Begin => MessageParseBegin
    case Headers => HeadersComplete
    case Complete => MessageComplete
    case _ => state
  }

  // Byte `b` has been looked at, with the hooks called.
  function Looked<Q>(c: Conf<Q>, s: Step<Q>, b: byte): Conf<Q> {
    Conf(Hooked(c.state, s.signal), s.next, if s.isBody then c.body + [b] else c.body)
  }

  // The result of one http_parser_execute call: how far the message is, up to where the bytes were
  // consumed, and the event that stopped the parser, if any.
  datatype Exec<Q> = Exec(conf: Conf<Q>, end: nat, signal: Signal)

  // http_parser_execute on bytes[from..].
  function Execute<Q>(m: Automaton<Q>, c: Conf<Q>, bytes: seq<byte>, from: nat): (r: Exec<Q>)
    requires from <= |bytes|
    ensures from <= r.end <= |bytes|
    ensures r.signal == Nothing ==> r.end == |bytes|
    ensures r.signal in {Headers, Error} ==> r.end < |bytes|
    ensures r.conf.state == Hooked(c.state, r.signal)
    decreases |bytes| - from
  {
    if from == |bytes| then Exec(c, from, Nothing)
    else
      var s := m.step(c.q, bytes[from]);
      var d := Looked(c, s, bytes[from]);
      match s.signal
      case Nothing => Execute(m, d, bytes, from + 1)
      case Begin => Exec(d, from + 1, Begin)
      case Complete => Exec(d, from + 1, Complete)
      case Headers => Exec(d, from, Headers)
      case Error => Exec(d, from, Error)
  }

  /** Executing x + y is executing x and, unless an event stopped the parser there, going on with y. */
  lemma {:induction false} ExecuteConcat<Q>(m: Automaton<Q>, c: Conf<Q>, x: seq<byte>, y: seq<byte>, from: nat)
    requires from <= |x|
    ensures var r := Execute(m, c, x, from);
            Execute(m, c, x + y, from) == if r.signal != Nothing then r else Execute(m, r.conf, x + y, |x|)
    decreases |x| - from
  {
    if from < |x| {
      var s := m.step(c.q, x[from]);
      assert (x + y)[from] == x[from];
      if s.signal == Nothing {
        ExecuteConcat(m, Looked(c, s, x[from]), x, y, from + 1);
      }
    }
  }

  /** Where the bytes lie in memory does not matter: a call on y behind x is a call on y. */
  lemma {:induction false} ExecuteShift<Q>(m: Automaton<Q>, c: Conf<Q>, x: seq<byte>, y: seq<byte>, from: nat)
    requires from <= |y|
    ensures var r := Execute(m, c, y, from);
            Execute(m, c, x + y, |x| + from) == Exec(r.conf, |x| + r.end, r.signal)
    decreases |y| - from
  {
    if from < |y| {
      var s := m.step(c.q, y[from]);
      assert (x + y)[|x| + from] == y[from];
      if s.signal == Nothing {
        ExecuteShift(m, Looked(c, s, y[from]), x, y, from + 1);
      }
    }
  }

  datatype Outcome<Q> = Rejected | Accepted(conf: Conf<Q>, consumed: nat)

  // Between the headers and the body a message counts as being in its body.
  function InBody<Q>(c: Conf<Q>): Conf<Q> {
    if c.state == HeadersComplete then c.(state := BodyParse) else c
  }

  // The byte the headers end with is looked at again; it must not stop the parser, unless by
  // completing the message.
  function TakeAgain<Q>(m: Automaton<Q>, c: Conf<Q>, b: byte): Option<Conf<Q>> {
    var s := m.step(c.q, b);
    if s.signal in {Nothing, Complete} then Some(InBody(Looked(c, s, b))) else None
  }

  // One byte of the message.
  function Take<Q>(m: Automaton<Q>, c: Conf<Q>, b: byte): Option<Conf<Q>> {
    var s := m.step(c.q, b);
    match s.signal
    case Error => None
    case Headers => TakeAgain(m, Looked(c, s, b), b)
    case _ => Some(Looked(c, s, b))
  }

  // One run over the flat stream, up to the end of the message.
  function Flat<Q>(m: Automaton<Q>, c: Conf<Q>, bytes: seq<byte>): (r: Outcome<Q>)
    ensures r.Accepted? ==> r.consumed <= |bytes|
    ensures r.Accepted? && r.consumed < |bytes| ==> r.conf.state == MessageComplete
    decreases |bytes|
  {
    if bytes == [] || c.state == MessageComplete then Accepted(c, 0)
    else match Take(m, c, bytes[0])
         case None => Rejected
         case Some(d) => After(1, Flat(m, d, bytes[1..]))
  }

  // The outcome of a run whose first n bytes went before.
  function After<Q>(n: nat, r: Outcome<Q>): Outcome<Q> {
    if r.Accepted? then Accepted(r.conf, n + r.consumed) else Rejected
  }

  /** A run over x + y is the run over x, carried on over y unless the message ended or failed in x. */
  lemma {:induction false} FlatConcat<Q>(m: Automaton<Q>, c: Conf<Q>, x: seq<byte>, y: seq<byte>)
    ensures var r := Flat(m, c, x);
            Flat(m, c, x + y) ==
            if r.Rejected? || r.conf.state == MessageComplete then r
            else After(|x|, Flat(m, r.conf, y))
    decreases |x|
  {
    if x == [] {
      assert x + y == y;
    } else if c.state != MessageComplete {
      assert (x + y)[1..] == x[1..] + y;
      match Take(m, c, x[0])
      case None =>
      case Some(d) => FlatConcat(m, d, x[1..], y);
    }
  }

  lemma FlatAtEnd<Q>(m: Automaton<Q>, c: Conf<Q>, y: seq<byte>)
    requires c.state == MessageComplete
    ensures Flat(m, c, y) == Accepted(c, 0)
  {
  }

  // The same, for a run of which k bytes went before, with r and t the runs over x and, from there, y.
  lemma FlatGoesOn<Q>(m: Automaton<Q>, c: Conf<Q>, x: seq<byte>, y: seq<byte>, k: nat)
    returns (r: Outcome<Q>, t: Outcome<Q>)
    ensures r == Flat(m, c, x) && (r.Accepted? ==> t == Flat(m, r.conf, y))
    ensures After(k, Flat(m, c, x + y)) == if r.Rejected? then r else After(k + r.consumed, t)
    ensures r.Accepted? && r.conf.state != MessageComplete ==> r.consumed == |x|
  {
    FlatConcat(m, c, x, y);
    r := Flat(m, c, x);
    t := r;
    if r.Accepted? {
      t := Flat(m, r.conf, y);
      if r.conf.state == MessageComplete { FlatAtEnd(m, r.conf, y); }
    }
  }

  // What a session makes of one stretch of bytes: it executes the parser on it and, when that stops at
  // the end of the headers, once more on the byte it stopped at. The result is how far that leaves the
  // message and up to where the bytes were taken.
  function ParseOne<Q>(m: Automaton<Q>, c: Conf<Q>, bytes: seq<byte>, from: nat): (r: Option<(Conf<Q>, nat)>)
    requires from <= |bytes|
    ensures r.Some? ==> from <= r.value.1 <= |bytes|
  {
    var r := Execute(m, c, bytes, from);
    match r.signal
    case Error => None
    case Headers =>
      var d := TakeAgain(m, r.conf, bytes[r.end]);
      if d.Some? then Some((d.value, r.end + 1)) else None
    case _ => Some((r.conf, r.end))
  }

  lemma FlatSkips<Q>(m: Automaton<Q>, c: Conf<Q>, bytes: seq<byte>, from: nat)
    requires c.state != MessageComplete && from < |bytes|
    ensures Flat(m, c, bytes[from..]) ==
            match Take(m, c, bytes[from])
            case None => Rejected
            case Some(d) => After(1, Flat(m, d, bytes[from + 1..]))
  {
    assert bytes[from..][1..] == bytes[from + 1..];
  }

  // The flat run over a stream, told by the result r of parsing a stretch of it.
  function Resume<Q>(m: Automaton<Q>, r: Option<(Conf<Q>, nat)>, bytes: seq<byte>, from: nat): Outcome<Q>
    requires r.Some? ==> from <= r.value.1 <= |bytes|
  {
    if r.None? then Rejected else After(r.value.1 - from, Flat(m, r.value.0, bytes[r.value.1..]))
  }

  lemma ParseOneStep<Q>(m: Automaton<Q>, c: Conf<Q>, x: seq<byte>, from: nat)
    requires from < |x|
    ensures var s := m.step(c.q, x[from]);
            var d := Looked(c, s, x[from]);
            ParseOne(m, c, x, from) ==
            match s.signal
            case Nothing => ParseOne(m, d, x, from + 1)
            case Error => None
            case Headers =>
              var e := TakeAgain(m, d, x[from]);
              if e.Some? then Some((e.value, from + 1)) else None
            case _ => Some((d, from + 1))
  {
  }

  /** Parsing a stream stretch by stretch is the flat run. */
  lemma {:induction false} FlatByStretch<Q>(m: Automaton<Q>, c: Conf<Q>, bytes: seq<byte>, n: nat, from: nat)
    requires c.state != MessageComplete && from <= n <= |bytes|
    ensures Flat(m, c, bytes[from..]) == Resume(m, ParseOne(m, c, bytes[..n], from), bytes, from)
    decreases n - from
  {
    if from < n {
      var x, b := bytes[..n], bytes[from];
      var s := m.step(c.q, b);
      assert x[from] == b;
      FlatSkips(m, c, bytes, from);
      ParseOneStep(m, c, x, from);
      if s.signal == Nothing {
        FlatByStretch(m, Looked(c, s, b), bytes, n, from + 1);
      }
    }
  }

  lemma ExecuteByte<Q>(m: Automaton<Q>, c: Conf<Q>, b: byte)
    ensures var s := m.step(c.q, b);
            Execute(m, c, [b], 0) == Exec(Looked(c, s, b), if s.signal in {Headers, Error} then 0 else 1, s.signal)
  {
    var s := m.step(c.q, b);
    assert Execute(m, Looked(c, s, b), [b], 1) == Exec(Looked(c, s, b), 1, Nothing);
  }

  // One stretch of `n` bytes from a stream.
  lemma FlatByOne<Q>(m: Automaton<Q>, c: Conf<Q>, left: seq<byte>, n: nat)
    requires c.state != MessageComplete && n <= |left|
    ensures var r := ParseOne(m, c, left[..n], 0);
            && (r.None? ==> Flat(m, c, left).Rejected?)
            && (r.Some? ==> Flat(m, c, left) == After(r.value.1, Flat(m, r.value.0, left[r.value.1..])))
  {
    assert left[0..] == left;
    FlatByStretch(m, c, left, n, 0);
  }

  // What a run makes of a stream, told by `step` alone

  // The look at a byte that counts: the second one at the byte the headers end with.
  function LastLook<Q>(m: Automaton<Q>, q: Q, b: byte): Step<Q> {
    var s := m.step(q, b);
    if s.signal == Headers then m.step(s.next, b) else s
  }

  // The byte is in error, or stops the parser once more when it is looked at again.
  predicate Fails<Q>(m: Automaton<Q>, q: Q, b: byte) {
    var s := m.step(q, b);
    s.signal == Error || (s.signal == Headers && m.step(s.next, b).signal in {Begin, Headers, Error})
  }

  predicate Completes<Q>(m: Automaton<Q>, q: Q, b: byte) {
    LastLook(m, q, b).signal == Complete
  }

  // The state before byte i, from state q on.
  function StateAt<Q>(m: Automaton<Q>, q: Q, bytes: seq<byte>, i: nat): Q
    requires i <= |bytes|
    decreases i
  {
    if i == 0 then q else StateAt(m, LastLook(m, q, bytes[0]).next, bytes[1..], i - 1)
  }

  // The body bytes among the first n, in order.
  function BodyBytes<Q>(m: Automaton<Q>, q: Q, bytes: seq<byte>, n: nat): seq<byte>
    requires n <= |bytes|
    decreases n
  {
    if n == 0 then []
    else
      var s := LastLook(m, q, bytes[0]);
      (if s.isBody then [bytes[0]] else []) + BodyBytes(m, s.next, bytes[1..], n - 1)
  }

  predicate FailsAt<Q>(m: Automaton<Q>, q: Q, bytes: seq<byte>, i: nat)
    requires i < |bytes|
  {
    Fails(m, StateAt(m, q, bytes, i), bytes[i])
  }

  predicate CompletesAt<Q>(m: Automaton<Q>, q: Q, bytes: seq<byte>, i: nat)
    requires i < |bytes|
  {
    Completes(m, StateAt(m, q, bytes, i), bytes[i])
  }

  // The message takes the first n bytes: none of them fails, and n is behind the one that completes it, or
  // behind them all.
  predicate Takes<Q>(m: Automaton<Q>, q: Q, bytes: seq<byte>, n: nat) {
    && n <= |bytes|
    && (forall i :: 0 <= i < n ==> !FailsAt(m, q, bytes, i))
    && (forall i :: 0 <= i < n - 1 ==> !CompletesAt(m, q, bytes, i))
    && (n < |bytes| ==> n > 0 && CompletesAt(m, q, bytes, n - 1))
  }

  // A byte of the message fails.
  predicate Breaks<Q>(m: Automaton<Q>, q: Q, bytes: seq<byte>) {
    exists i :: 0 <= i < |bytes| && FailsAt(m, q, bytes, i) && forall j :: 0 <= j < i ==> !CompletesAt(m, q, bytes, j)
  }

  // The session state that goes with a stage, with the message in its body once its headers are complete.
  function StateOfStage(stage: nat): HttpState {
    if stage == 0 then MessageBegin else if stage == 1 then MessageParseBegin
    else if stage == 2 then BodyParse else MessageComplete
  }

  lemma TakesShifts<Q>(m: Automaton<Q>, q: Q, bytes: seq<byte>, n: nat)
    requires bytes != [] && n < |bytes| && !Fails(m, q, bytes[0]) && !Completes(m, q, bytes[0])
    requires Takes(m, LastLook(m, q, bytes[0]).next, bytes[1..], n)
    ensures Takes(m, q, bytes, n + 1)
  {
    var p, rest := LastLook(m, q, bytes[0]).next, bytes[1..];
    forall i | 0 <= i < n + 1
      ensures !FailsAt(m, q, bytes, i) && (i < n ==> !CompletesAt(m, q, bytes, i))
    {
      if i > 0 {
        assert !FailsAt(m, p, rest, i - 1);
        assert i < n ==> !CompletesAt(m, p, rest, i - 1);
      }
    }
    if n + 1 < |bytes| { assert CompletesAt(m, p, rest, n - 1); }
  }

  lemma BreaksShifts<Q>(m: Automaton<Q>, q: Q, bytes: seq<byte>)
    requires bytes != [] && !Fails(m, q, bytes[0]) && !Completes(m, q, bytes[0])
    ensures Breaks(m, q, bytes) <==> Breaks(m, LastLook(m, q, bytes[0]).next, bytes[1..])
  {
    var p, rest := LastLook(m, q, bytes[0]).next, bytes[1..];
    if Breaks(m, p, rest) {
      var i :| 0 <= i < |rest| && FailsAt(m, p, rest, i) && forall j :: 0 <= j < i ==> !CompletesAt(m, p, rest, j);
      assert FailsAt(m, q, bytes, i + 1);
      forall j | 0 <= j < i + 1
        ensures !CompletesAt(m, q, bytes, j)
      {
        if j > 0 { assert !CompletesAt(m, p, rest, j - 1); }
      }
    }
    if Breaks(m, q, bytes) {
      var i :| 0 <= i < |bytes| && FailsAt(m, q, bytes, i) && forall j :: 0 <= j < i ==> !CompletesAt(m, q, bytes, j);
      assert FailsAt(m, p, rest, i - 1);
      forall j | 0 <= j < i - 1
        ensures !CompletesAt(m, p, rest, j)
      {
        assert !CompletesAt(m, q, bytes, j + 1);
      }
    }
  }

  // The message is under way, and the parser where its state says.
  predicate OnItsWay<Q>(m: Automaton<Q>, c: Conf<Q>) {
    c.state in {MessageBegin, MessageParseBegin, BodyParse} && m.stage(c.q) == StageOf(c.state)
  }

  // One byte moves the message as the looks at it say.
  lemma TakeMeans<Q(!new)>(m: Automaton<Q>, c: Conf<Q>, b: byte)
    requires InOrder(m) && OnItsWay(m, c)
    ensures Take(m, c, b).None? <==> Fails(m, c.q, b)
    ensures Take(m, c, b).Some? ==>
              var s, d := LastLook(m, c.q, b), Take(m, c, b).value;
              && d == Conf(StateOfStage(m.stage(s.next)), s.next, if s.isBody then c.body + [b] else c.body)
              && (d.state == MessageComplete <==> Completes(m, c.q, b))
              && (d.state == MessageComplete || OnItsWay(m, d))
  {
    assert OrderedAt(m, c.q, b);
    assert OrderedAt(m, m.step(c.q, b).next, b);
  }

  // What a run over a stream comes to: whether a byte of the message fails, how many bytes it takes, in which
  // state it leaves the parser, and which bytes its body is.
  ghost predicate Means<Q>(m: Automaton<Q>, c: Conf<Q>, bytes: seq<byte>, r: Outcome<Q>) {
    match r
    case Rejected => Breaks(m, c.q, bytes)
    case Accepted(d, n) =>
      && !Breaks(m, c.q, bytes) && Takes(m, c.q, bytes, n)
      && d.q == StateAt(m, c.q, bytes, n) && d.state == StateOfStage(m.stage(d.q))
      && (d.state == MessageComplete <==> n > 0 && CompletesAt(m, c.q, bytes, n - 1))
      && d.body == c.body + BodyBytes(m, c.q, bytes, n)
  }

  lemma TakenAtOnce<Q(!new)>(m: Automaton<Q>, c: Conf<Q>, bytes: seq<byte>, d: Conf<Q>)
    requires InOrder(m) && OnItsWay(m, c) && bytes != [] && Take(m, c, bytes[0]) == Some(d)
    requires d.state == MessageComplete
    ensures Means(m, c, bytes, Accepted(d, 1))
  {
    TakeMeans(m, c, bytes[0]);
    assert CompletesAt(m, c.q, bytes, 0) && !FailsAt(m, c.q, bytes, 0);
    assert BodyBytes(m, LastLook(m, c.q, bytes[0]).next, bytes[1..], 0) == [];
    assert StateAt(m, LastLook(m, c.q, bytes[0]).next, bytes[1..], 0) == d.q;
  }

  lemma TakenFurther<Q(!new)>(m: Automaton<Q>, c: Conf<Q>, bytes: seq<byte>, d: Conf<Q>, r: Outcome<Q>)
    requires InOrder(m) && OnItsWay(m, c) && bytes != [] && Take(m, c, bytes[0]) == Some(d)
    requires d.state != MessageComplete && Means(m, d, bytes[1..], r)
    ensures Means(m, c, bytes, After(1, r))
  {
    TakeMeans(m, c, bytes[0]);
    BreaksShifts(m, c.q, bytes);
    if r.Accepted? {
      var n := r.consumed;
      TakesShifts(m, c.q, bytes, n);
      assert !CompletesAt(m, c.q, bytes, 0);
      assert n > 0 ==> CompletesAt(m, c.q, bytes, n) == CompletesAt(m, d.q, bytes[1..], n - 1);
    }
  }

  /** The flat run means what the automaton's steps say. */
  lemma {:induction false} FlatMeans<Q(!new)>(m: Automaton<Q>, c: Conf<Q>, bytes: seq<byte>)
    requires InOrder(m) && OnItsWay(m, c)
    ensures Means(m, c, bytes, Flat(m, c, bytes))
    decreases |bytes|
  {
    if bytes != [] {
      var b, rest := bytes[0], bytes[1..];
      TakeMeans(m, c, b);
      if Take(m, c, b).None? {
        assert FailsAt(m, c.q, bytes, 0);
      } else {
        var d := Take(m, c, b).value;
        if d.state == MessageComplete {
          TakenAtOnce(m, c, bytes, d);
        } else {
          FlatMeans(m, d, rest);
          TakenFurther(m, c, bytes, d, Flat(m, d, rest));
        }
      }
    }
  }
}
