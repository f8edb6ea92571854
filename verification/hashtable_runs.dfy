/** Threads sharing one hash table of webservice/hashtable.c under its read-write lock. Each step is one
    access to shared memory; any thread may take the next one. */
module HashtableRuns {
  import opened Memory
  import opened Hashtable

  type Thread = nat

  // A call; `available` is what malloc will grant to an add that needs a node.
  datatype Call<K, V> = AddCall(v: V, k: K, available: bool) | FindCall(k: K)

  datatype Answer<V> = Added(result: AddResult) | Got(value: Option<V>)

  // Where a thread is: outside; waiting for the lock; holding it, before the counter is touched;
  // walking the chain with `rest` nodes ahead; about to push; about to release the lock.
  // `since` is the length of the log when the call was made.
  datatype Pc<K, V> =
    | Idle
    | Waiting(call: Call<K, V>, since: nat)
    | Counting(call: Call<K, V>, since: nat)
    | Walking(call: Call<K, V>, since: nat, rest: nat)
    | Pushing(call: Call<K, V>, since: nat)
    | Leaving(call: Call<K, V>, since: nat, answer: Answer<V>)

  // A call of a thread that has returned, with its answer.
  datatype Entry<K, V> = Entry(t: Thread, call: Call<K, V>, answer: Answer<V>, since: nat)

  datatype Shared<K, V> = Shared(
    table: Table<V>, readers: set<Thread>, writer: Option<Thread>,
    pcs: map<Thread, Pc<K, V>>, log: seq<Entry<K, V>>)

  function PcOf<K, V>(s: Shared<K, V>, t: Thread): Pc<K, V> {
    if t in s.pcs then s.pcs[t] else Idle
  }

  function Start<K, V>(nrBuckets: nat): Shared<K, V> {
    Shared(Empty(nrBuckets), {}, None, map[], [])
  }

  function At<K, V>(s: Shared<K, V>, t: Thread, pc: Pc<K, V>): Shared<K, V> {
    s.(pcs := s.pcs[t := pc])
  }

  datatype Action<K, V> = Make(call: Call<K, V>) | Proceed

  // A thread outside makes a call, a value being added under the key it goes by; a thread waiting for
  // the lock proceeds when the lock lets it; any other thread just proceeds.
  ghost predicate Enabled<K, V>(c: Keys<K, V>, s: Shared<K, V>, t: Thread, a: Action<K, V>) {
    match PcOf(s, t)
    case Idle => a.Make? && (a.call.AddCall? ==> c.keyOf(a.call.v) == a.call.k)
    case Waiting(call, _) => a.Proceed? && s.writer.None? && (call.AddCall? ==> s.readers == {})
    case _ => a.Proceed?
  }

  function Step<K, V>(c: Keys<K, V>, s: Shared<K, V>, t: Thread, a: Action<K, V>): (r: Shared<K, V>)
    requires s.table.buckets != [] && Enabled(c, s, t, a)
    ensures |r.table.buckets| == |s.table.buckets|
  {
    match PcOf(s, t)
    case Idle => At(s, t, Waiting(a.call, |s.log|))
    case Waiting(call, since) =>
      if call.AddCall? then At(s, t, Counting(call, since)).(writer := Some(t))
      else At(s, t, Walking(call, since, |Chain(c, s.table, call.k)|)).(readers := s.readers + {t})
    case Counting(call, since) =>
      At(s, t, Walking(call, since, |Chain(c, s.table, call.k)|)).(table := Counted(c, s.table, call.k))
    case Walking(call, since, rest) =>
      var chain := Chain(c, s.table, call.k);
      if rest == 0 || rest > |chain| then
        At(s, t, if call.AddCall? then Pushing(call, since) else Leaving(call, since, Got(None)))
      else
        var v := chain[|chain| - rest];
        if c.cmp(v, call.k) then
          At(s, t, Leaving(call, since, if call.AddCall? then Added(Found) else Got(Some(v))))
        else
          At(s, t, Walking(call, since, rest - 1))
    case Pushing(call, since) =>
      if call.AddCall? && call.available then
        At(s, t, Leaving(call, since, Added(Success))).(table := Pushed(c, s.table, call.v, call.k))
      else
        At(s, t, Leaving(call, since, Added(Error)))
    case Leaving(call, since, answer) =>
      At(s, t, Idle).(log := s.log + [Entry(t, call, answer, since)], readers := s.readers - {t},
                      writer := if call.AddCall? then None else s.writer)
  }

  // A run: threads and their actions, in the order they are taken.
  type Schedule<K, V> = seq<(Thread, Action<K, V>)>

  ghost predicate Reaches<K, V>(c: Keys<K, V>, s: Shared<K, V>, run: Schedule<K, V>, r: Shared<K, V>)
    requires s.table.buckets != []
    decreases |run|
  {
    if run == [] then r == s
    else Enabled(c, s, run[0].0, run[0].1) && Reaches(c, Step(c, s, run[0].0, run[0].1), run[1..], r)
  }

  // The sequential meaning: a map into which a key is put once.

  function Effect<K, V>(m: map<K, V>, call: Call<K, V>): map<K, V> {
    if call.AddCall? && call.available && call.k !in m then m[call.k := call.v] else m
  }

  function Meant<K, V>(m: map<K, V>, call: Call<K, V>): Answer<V> {
    match call
    case FindCall(k) => Got(Lookup(m, k))
    case AddCall(v, k, available) => Added(if k in m then Found else if available then Success else Error)
  }

  function MapAfter<K, V>(log: seq<Entry<K, V>>): map<K, V> {
    if log == [] then map[] else Effect(MapAfter(log[..|log| - 1]), log[|log| - 1].call)
  }

  // Entry i got the answer the map gives after the entries before it, and was called no later than its
  // place in the log.
  ghost predicate Legal<K, V>(log: seq<Entry<K, V>>, i: nat)
    requires i < |log|
  {
    log[i].answer == Meant(MapAfter(log[..i]), log[i].call) && log[i].since <= i
  }

  ghost predicate Linearized<K, V>(log: seq<Entry<K, V>>) {
    forall i :: 0 <= i < |log| ==> Legal(log, i)
  }

  // The invariant

  // What a thread knows of the chain it walks: no node behind it matches.
  ghost predicate NoneBehind<K, V>(c: Keys<K, V>, chain: seq<V>, k: K, rest: nat) {
    rest <= |chain| && FindIn(c, chain, k) == FindIn(c, chain[|chain| - rest..], k)
  }

  // The map, as the table shows it to the thread that holds the lock, has what the log has put there.
  ghost predicate Shows<K(!new), V>(c: Keys<K, V>, t: Table<V>, m: map<K, V>) {
    WellPlaced(c, t) && Implements(c, t, m)
  }

  ghost predicate ReaderOk<K(!new), V>(c: Keys<K, V>, s: Shared<K, V>, t: Thread)
    requires s.table.buckets != []
  {
    match PcOf(s, t)
    case Walking(call, _, rest) => call.FindCall? && NoneBehind(c, Chain(c, s.table, call.k), call.k, rest)
    case Leaving(call, _, answer) => call.FindCall? && answer == Meant(MapAfter(s.log), call)
    case _ => false
  }

  ghost predicate WriterOk<K(!new), V>(c: Keys<K, V>, s: Shared<K, V>, t: Thread)
    requires s.table.buckets != []
  {
    match PcOf(s, t)
    case Counting(call, _) => call.AddCall? && Shows(c, s.table, MapAfter(s.log))
    case Walking(call, _, rest) =>
      call.AddCall? && Shows(c, s.table, MapAfter(s.log)) && NoneBehind(c, Chain(c, s.table, call.k), call.k, rest)
    case Pushing(call, _) =>
      call.AddCall? && Shows(c, s.table, MapAfter(s.log)) && Find(c, s.table, call.k).None?
    case Leaving(call, _, answer) =>
      && call.AddCall? && Shows(c, s.table, Effect(MapAfter(s.log), call))
      && answer == Meant(MapAfter(s.log), call)
    case _ => false
  }

  ghost predicate OutsiderOk<K, V>(s: Shared<K, V>, t: Thread) {
    PcOf(s, t).Idle? || PcOf(s, t).Waiting?
  }

  // A call under way was made no later than now, with a value under the key it goes by.
  ghost predicate CallOk<K, V>(c: Keys<K, V>, s: Shared<K, V>, t: Thread) {
    var pc := PcOf(s, t);
    !pc.Idle? ==> pc.since <= |s.log| && (pc.call.AddCall? ==> c.keyOf(pc.call.v) == pc.call.k)
  }

  ghost predicate ThreadOk<K(!new), V>(c: Keys<K, V>, s: Shared<K, V>, t: Thread)
    requires s.table.buckets != []
  {
    && CallOk(c, s, t)
    && (if s.writer == Some(t) then WriterOk(c, s, t)
        else if t in s.readers then ReaderOk(c, s, t)
        else OutsiderOk(s, t))
  }

  ghost predicate Inv<K(!new), V>(c: Keys<K, V>, s: Shared<K, V>) {
    && s.table.buckets != []
    && (s.writer.Some? ==> s.readers == {})
    && (s.writer.None? ==> Shows(c, s.table, MapAfter(s.log)))
    && (forall t :: ThreadOk(c, s, t))
    && Linearized(s.log)
  }

  lemma StartIsInv<K(!new), V(!new)>(c: Keys<K, V>, nrBuckets: nat)
    requires nrBuckets > 0
    ensures Inv(c, Start<K, V>(nrBuckets))
  {
  }

  lemma LogGrows<K, V>(log: seq<Entry<K, V>>, e: Entry<K, V>)
    requires Linearized(log) && e.answer == Meant(MapAfter(log), e.call) && e.since <= |log|
    ensures Linearized(log + [e]) && MapAfter(log + [e]) == Effect(MapAfter(log), e.call)
  {
    var grown := log + [e];
    assert grown[..|log|] == log;
    forall i | 0 <= i < |grown|
      ensures Legal(grown, i)
    {
      if i < |log| {
        assert Legal(log, i) && grown[..i] == log[..i];
      }
    }
  }

  // A step that changes one thread's place only.
  lemma OthersUnmoved<K(!new), V(!new)>(c: Keys<K, V>, s: Shared<K, V>, t: Thread, r: Shared<K, V>)
    requires Inv(c, s) && r.table.buckets != [] && r.pcs.Keys == s.pcs.Keys + {t}
    requires forall o :: o != t ==> PcOf(r, o) == PcOf(s, o)
    requires forall o :: o != t ==>
               (o in r.readers <==> o in s.readers) && (r.writer == Some(o) <==> s.writer == Some(o))
    requires |r.log| >= |s.log|
    requires s.writer == Some(t) || (r.table == s.table && MapAfter(r.log) == MapAfter(s.log))
    ensures forall o :: o != t ==> ThreadOk(c, r, o)
  {
    forall o | o != t
      ensures ThreadOk(c, r, o)
    {
      assert ThreadOk(c, s, o);
    }
  }

  lemma WalkOn<K(!new), V(!new)>(c: Keys<K, V>, chain: seq<V>, k: K, rest: nat)
    requires NoneBehind(c, chain, k, rest)
    ensures rest == 0 ==> FindIn(c, chain, k).None?
    ensures rest > 0 ==>
              if c.cmp(chain[|chain| - rest], k) then FindIn(c, chain, k) == Some(chain[|chain| - rest])
              else NoneBehind(c, chain, k, rest - 1)
  {
    var left := chain[|chain| - rest..];
    if rest > 0 {
      assert left[1..] == chain[|chain| - (rest - 1)..];
    }
  }

  lemma WalkStarts<K, V>(c: Keys<K, V>, chain: seq<V>, k: K)
    ensures NoneBehind(c, chain, k, |chain|)
  {
    assert chain[0..] == chain;
  }

  lemma ShowsByBuckets<K(!new), V(!new)>(c: Keys<K, V>, t: Table<V>, u: Table<V>, m: map<K, V>)
    requires Shows(c, t, m) && u.buckets == t.buckets
    ensures Shows(c, u, m)
  {
    forall b, i | 0 <= b < |u.buckets| && 0 <= i < |u.buckets[b]|
      ensures Placed(c, u, b, i)
    {
      assert Placed(c, t, b, i);
    }
    forall k
      ensures Find(c, u, k) == Lookup(m, k)
    {
      assert Find(c, t, k) == Lookup(m, k);
    }
  }

  lemma WalkKeepsInv<K(!new), V(!new)>(c: Keys<K, V>, s: Shared<K, V>, t: Thread)
    requires Coherent(c) && Inv(c, s) && PcOf(s, t).Walking?
    ensures Inv(c, Step(c, s, t, Proceed))
  {
    var r := Step(c, s, t, Proceed);
    var Walking(call, since, rest) := PcOf(s, t);
    assert ThreadOk(c, s, t);
    var m := MapAfter(s.log);
    WalkOn(c, Chain(c, s.table, call.k), call.k, rest);
    assert Find(c, s.table, call.k) == Lookup(m, call.k);
    OthersUnmoved(c, s, t, r);
  }

  lemma PushKeepsInv<K(!new), V(!new)>(c: Keys<K, V>, s: Shared<K, V>, t: Thread)
    requires Coherent(c) && Inv(c, s) && PcOf(s, t).Pushing?
    ensures Inv(c, Step(c, s, t, Proceed))
  {
    var r := Step(c, s, t, Proceed);
    var call := PcOf(s, t).call;
    assert ThreadOk(c, s, t);
    var m := MapAfter(s.log);
    assert Find(c, s.table, call.k) == Lookup(m, call.k);
    if call.available {
      PushKeepsPlaces(c, s.table, call.v, call.k, r.table);
      PushIsInsertion(c, s.table, m, call.v, call.k, r.table);
    }
    OthersUnmoved(c, s, t, r);
  }

  lemma LeaveKeepsInv<K(!new), V(!new)>(c: Keys<K, V>, s: Shared<K, V>, t: Thread)
    requires Coherent(c) && Inv(c, s) && PcOf(s, t).Leaving?
    ensures Inv(c, Step(c, s, t, Proceed))
  {
    var r := Step(c, s, t, Proceed);
    var Leaving(call, since, answer) := PcOf(s, t);
    assert ThreadOk(c, s, t);
    LogGrows(s.log, Entry(t, call, answer, since));
    OthersUnmoved(c, s, t, r);
  }

  lemma EnterKeepsInv<K(!new), V(!new)>(c: Keys<K, V>, s: Shared<K, V>, t: Thread, a: Action<K, V>)
    requires Coherent(c) && Inv(c, s) && Enabled(c, s, t, a)
    requires !PcOf(s, t).Walking? && !PcOf(s, t).Pushing? && !PcOf(s, t).Leaving?
    ensures Inv(c, Step(c, s, t, a))
  {
    var r := Step(c, s, t, a);
    assert ThreadOk(c, s, t);
    if !PcOf(s, t).Idle? {
      var call := PcOf(s, t).call;
      WalkStarts(c, Chain(c, r.table, call.k), call.k);
      if PcOf(s, t).Counting? {
        ShowsByBuckets(c, s.table, r.table, MapAfter(s.log));
      }
    }
    OthersUnmoved(c, s, t, r);
  }

  /** Whoever moves next, the table stays what the returned calls make of it. */
  lemma StepKeepsInv<K(!new), V(!new)>(c: Keys<K, V>, s: Shared<K, V>, t: Thread, a: Action<K, V>)
    requires Coherent(c) && Inv(c, s) && Enabled(c, s, t, a)
    ensures Inv(c, Step(c, s, t, a))
  {
    match PcOf(s, t)
    case Walking(_, _, _) => WalkKeepsInv(c, s, t);
    case Pushing(_, _) => PushKeepsInv(c, s, t);
    case Leaving(_, _, _) => LeaveKeepsInv(c, s, t);
    case _ => EnterKeepsInv(c, s, t, a);
  }

  lemma {:induction false} RunKeepsInv<K(!new), V(!new)>(
      c: Keys<K, V>, s: Shared<K, V>, run: Schedule<K, V>, r: Shared<K, V>)
    requires Coherent(c) && Inv(c, s) && Reaches(c, s, run, r)
    ensures Inv(c, r)
    decreases |run|
  {
    if run != [] {
      StepKeepsInv(c, s, run[0].0, run[0].1);
      RunKeepsInv(c, Step(c, s, run[0].0, run[0].1), run[1..], r);
    }
  }

  /** Linearizability: in every interleaving of any number of threads, the calls in the order they
      returned are a run of the map, one after the other, each placed no earlier than it was made; a
      thread in a chain never walks off its end; and with nobody writing the table is that map. */
  lemma Linearizable<K(!new), V(!new)>(c: Keys<K, V>, nrBuckets: nat, run: Schedule<K, V>, r: Shared<K, V>)
    requires Coherent(c) && nrBuckets > 0 && Reaches(c, Start(nrBuckets), run, r)
    ensures Linearized(r.log) && r.table.buckets != []
    ensures forall t :: PcOf(r, t).Walking? ==> PcOf(r, t).rest <= |Chain(c, r.table, PcOf(r, t).call.k)|
    ensures r.writer.None? ==> WellPlaced(c, r.table) && Implements(c, r.table, MapAfter(r.log))
    ensures r.writer.Some? ==> r.readers == {}
  {
    StartIsInv(c, nrBuckets);
    RunKeepsInv(c, Start(nrBuckets), run, r);
    forall t | PcOf(r, t).Walking?
      ensures PcOf(r, t).rest <= |Chain(c, r.table, PcOf(r, t).call.k)|
    {
      assert ThreadOk(c, r, t);
    }
  }

  // The insert-only map

  lemma {:induction false} MapKeeps<K, V>(log: seq<Entry<K, V>>, i: nat, j: nat, k: K)
    requires i <= j <= |log| && k in MapAfter(log[..i])
    ensures k in MapAfter(log[..j]) && MapAfter(log[..j])[k] == MapAfter(log[..i])[k]
  {
    if i < j {
      MapKeeps(log, i, j - 1, k);
      assert log[..j][..j - 1] == log[..j - 1];
    }
  }

  /** A key once found is found with the same value ever after. */
  lemma FoundForever<K, V>(log: seq<Entry<K, V>>, i: nat, j: nat, k: K, v: V)
    requires Linearized(log) && i < j < |log|
    requires log[i].call == FindCall(k) && log[i].answer == Got(Some(v)) && log[j].call == FindCall(k)
    ensures log[j].answer == Got(Some(v))
  {
    assert Legal(log, i) && Legal(log, j);
    MapKeeps(log, i, j, k);
  }

  // Entry i put k into the table.
  ghost predicate Puts<K, V>(log: seq<Entry<K, V>>, i: nat, k: K)
    requires i < |log|
  {
    log[i].call.AddCall? && log[i].call.k == k && log[i].answer == Added(Success)
  }

  lemma {:induction false} PutInMap<K, V>(log: seq<Entry<K, V>>, n: nat, k: K)
    requires Linearized(log) && n <= |log|
    ensures k in MapAfter(log[..n]) ==>
              exists i :: 0 <= i < n && Puts(log, i, k) && log[i].call.v == MapAfter(log[..n])[k]
    ensures (exists i :: 0 <= i < n && Puts(log, i, k)) ==> k in MapAfter(log[..n])
  {
    if n > 0 {
      PutInMap(log, n - 1, k);
      assert log[..n][..n - 1] == log[..n - 1];
      assert Legal(log, n - 1);
      if k in MapAfter(log[..n]) && k !in MapAfter(log[..n - 1]) {
        assert Puts(log, n - 1, k);
      }
    }
  }

  /** A find answers with the value of the one add that put its key, if there was one before it; an add
      reports FOUND exactly if there was. */
  lemma AnswersTellTheFirstAdd<K, V>(log: seq<Entry<K, V>>, j: nat, k: K)
    requires Linearized(log) && j < |log|
    ensures log[j].call == FindCall(k) ==>
              if exists i :: 0 <= i < j && Puts(log, i, k)
              then exists i :: 0 <= i < j && Puts(log, i, k) && log[j].answer == Got(Some(log[i].call.v))
              else log[j].answer == Got(None)
    ensures log[j].call.AddCall? && log[j].call.k == k ==>
              (log[j].answer == Added(Found) <==> exists i :: 0 <= i < j && Puts(log, i, k))
  {
    assert Legal(log, j);
    PutInMap(log, j, k);
  }

  lemma PutOnce<K, V>(log: seq<Entry<K, V>>, i: nat, j: nat, k: K)
    requires Linearized(log) && i < j < |log| && Puts(log, i, k)
    ensures !Puts(log, j, k)
  {
    AnswersTellTheFirstAdd(log, j, k);
  }

  // The collision counter

  // The adds among the calls that have returned.
  function AddsOf<K, V>(log: seq<Entry<K, V>>): seq<Addition<K, V>> {
    if log == [] then []
    else
      var call := log[|log| - 1].call;
      AddsOf(log[..|log| - 1]) + (if call.AddCall? then [Addition(call.v, call.k, call.available)] else [])
  }

  // The table, counter included, is what the logged adds make of it, and the writer's call so far.
  ghost predicate TableOf<K, V>(c: Keys<K, V>, s: Shared<K, V>, t: Table<V>)
    requires t.buckets != []
  {
    match s.writer
    case None => s.table == t
    case Some(w) =>
      match PcOf(s, w)
      case Counting(_, _) => s.table == t
      case Walking(call, _, _) => s.table == Counted(c, t, call.k)
      case Pushing(call, _) => s.table == Counted(c, t, call.k)
      case Leaving(call, _, _) => call.AddCall? && s.table == Add(c, t, call.v, call.k, call.available).0
      case _ => false
  }

  ghost predicate Logged<K, V>(c: Keys<K, V>, nrBuckets: nat, s: Shared<K, V>)
    requires nrBuckets > 0
  {
    TableOf(c, s, AddAll(c, nrBuckets, AddsOf(s.log)))
  }

  // Whoever only counts, walks or pushes logs nothing.
  lemma SameLogStep<K(!new), V(!new)>(c: Keys<K, V>, s: Shared<K, V>, t: Thread, a: Action<K, V>, u: Table<V>)
    requires Coherent(c) && Inv(c, s) && Enabled(c, s, t, a) && u.buckets != [] && TableOf(c, s, u)
    requires !PcOf(s, t).Leaving?
    ensures TableOf(c, Step(c, s, t, a), u) && Step(c, s, t, a).log == s.log
  {
    assert ThreadOk(c, s, t);
    if PcOf(s, t).Walking? {
      var call := PcOf(s, t).call;
      WalkOn(c, Chain(c, s.table, call.k), call.k, PcOf(s, t).rest);
    }
  }

  lemma AddsGrow<K, V>(log: seq<Entry<K, V>>, e: Entry<K, V>)
    ensures e.call.AddCall? ==>
              AddsOf(log + [e]) == AddsOf(log) + [Addition(e.call.v, e.call.k, e.call.available)]
    ensures e.call.FindCall? ==> AddsOf(log + [e]) == AddsOf(log)
  {
    assert (log + [e])[..|log|] == log;
  }

  lemma AddedLast<K, V>(c: Keys<K, V>, nrBuckets: nat, adds: seq<Addition<K, V>>, a: Addition<K, V>)
    requires nrBuckets > 0
    ensures AddAll(c, nrBuckets, adds + [a]) == Add(c, AddAll(c, nrBuckets, adds), a.v, a.k, a.available).0
  {
    assert (adds + [a])[..|adds|] == adds;
  }

  lemma LeaveLogs<K(!new), V(!new)>(c: Keys<K, V>, nrBuckets: nat, s: Shared<K, V>, t: Thread)
    requires nrBuckets > 0 && Coherent(c) && Inv(c, s) && Logged(c, nrBuckets, s) && PcOf(s, t).Leaving?
    ensures Logged(c, nrBuckets, Step(c, s, t, Proceed))
  {
    assert ThreadOk(c, s, t);
    var Leaving(call, since, answer) := PcOf(s, t);
    AddsGrow(s.log, Entry(t, call, answer, since));
    if call.AddCall? {
      AddedLast(c, nrBuckets, AddsOf(s.log), Addition(call.v, call.k, call.available));
    }
  }

  lemma {:induction false} RunIsLogged<K(!new), V(!new)>(
      c: Keys<K, V>, nrBuckets: nat, s: Shared<K, V>, run: Schedule<K, V>, r: Shared<K, V>)
    requires nrBuckets > 0 && Coherent(c) && Inv(c, s) && Logged(c, nrBuckets, s) && Reaches(c, s, run, r)
    ensures Logged(c, nrBuckets, r) && Inv(c, r)
    decreases |run|
  {
    if run != [] {
      var t, a := run[0].0, run[0].1;
      StepKeepsInv(c, s, t, a);
      if PcOf(s, t).Leaving? {
        LeaveLogs(c, nrBuckets, s, t);
      } else {
        SameLogStep(c, s, t, a, AddAll(c, nrBuckets, AddsOf(s.log)));
      }
      RunIsLogged(c, nrBuckets, Step(c, s, t, a), run[1..], r);
    }
  }

  /** In every interleaving, whenever nobody writes, the table is what the adds that have returned make of it
      one after the other, so that its counter obeys the collision law. */
  lemma CollisionsInRuns<K(!new), V(!new)>(c: Keys<K, V>, nrBuckets: nat, run: Schedule<K, V>, r: Shared<K, V>)
    requires nrBuckets > 0 && Coherent(c) && Reaches(c, Start(nrBuckets), run, r)
    ensures r.writer.None? ==>
              && r.table == AddAll(c, nrBuckets, AddsOf(r.log))
              && r.table.collisions + NonEmpty(r.table.buckets)
                 == Entries(r.table.buckets) + Refused(c, nrBuckets, AddsOf(r.log))
  {
    StartIsInv<K, V>(c, nrBuckets);
    RunIsLogged(c, nrBuckets, Start(nrBuckets), run, r);
    CollisionLaw(c, nrBuckets, AddsOf(r.log));
  }

  // Whose calls they are

  // The calls a thread makes in a run.
  function CallsOf<K, V>(run: Schedule<K, V>, t: Thread): seq<Call<K, V>>
    decreases |run|
  {
    if run == [] then []
    else (if run[0].0 == t && run[0].1.Make? then [run[0].1.call] else []) + CallsOf(run[1..], t)
  }

  // Its calls that have returned.
  function LoggedOf<K, V>(log: seq<Entry<K, V>>, t: Thread): seq<Call<K, V>> {
    if log == [] then []
    else LoggedOf(log[..|log| - 1], t) + (if log[|log| - 1].t == t then [log[|log| - 1].call] else [])
  }

  // And the one under way.
  function UnderWay<K, V>(s: Shared<K, V>, t: Thread): seq<Call<K, V>> {
    if PcOf(s, t).Idle? then [] else [PcOf(s, t).call]
  }

  function CallsSoFar<K, V>(s: Shared<K, V>, t: Thread): seq<Call<K, V>> {
    LoggedOf(s.log, t) + UnderWay(s, t)
  }

  lemma LoggedOfGrows<K, V>(log: seq<Entry<K, V>>, e: Entry<K, V>, t: Thread)
    ensures LoggedOf(log + [e], t) == LoggedOf(log, t) + (if e.t == t then [e.call] else [])
  {
    assert (log + [e])[..|log|] == log;
  }

  lemma LeavingLogs<K, V>(c: Keys<K, V>, s: Shared<K, V>, o: Thread, t: Thread)
    requires s.table.buckets != [] && PcOf(s, o).Leaving?
    ensures CallsSoFar(Step(c, s, o, Proceed), t) == CallsSoFar(s, t)
  {
    var Leaving(call, since, answer) := PcOf(s, o);
    LoggedOfGrows(s.log, Entry(o, call, answer, since), t);
    if o == t {
      assert UnderWay(Step(c, s, o, Proceed), t) == [] && UnderWay(s, t) == [call];
    } else {
      assert UnderWay(Step(c, s, o, Proceed), t) == UnderWay(s, t);
    }
  }

  lemma CallsGoOn<K, V>(c: Keys<K, V>, s: Shared<K, V>, o: Thread, a: Action<K, V>, t: Thread)
    requires s.table.buckets != [] && Enabled(c, s, o, a) && !PcOf(s, o).Leaving?
    ensures var r := Step(c, s, o, a);
            && r.log == s.log
            && UnderWay(r, t) == (if o == t && a.Make? then [a.call] else UnderWay(s, t))
            && (o == t && a.Make? ==> UnderWay(s, t) == [])
  {
  }

  lemma OneCallMore<K, V>(c: Keys<K, V>, s: Shared<K, V>, o: Thread, a: Action<K, V>, t: Thread)
    requires s.table.buckets != [] && Enabled(c, s, o, a)
    ensures var r := Step(c, s, o, a);
            CallsSoFar(r, t) == CallsSoFar(s, t) + (if o == t && a.Make? then [a.call] else [])
  {
    if PcOf(s, o).Leaving? {
      LeavingLogs(c, s, o, t);
    } else {
      CallsGoOn(c, s, o, a, t);
    }
  }

  lemma Together<T>(whole: seq<T>, a: seq<T>, b: seq<T>, c: seq<T>)
    requires whole == a + b
    ensures whole + c == a + (b + c)
  {
  }

  /** In every interleaving, what a thread has called is, in its order, what is logged for it and the call under
      way. */
  lemma {:induction false} EveryCallIsLogged<K, V>(
      c: Keys<K, V>, s: Shared<K, V>, run: Schedule<K, V>, r: Shared<K, V>, t: Thread)
    requires s.table.buckets != [] && Reaches(c, s, run, r)
    ensures CallsSoFar(r, t) == CallsSoFar(s, t) + CallsOf(run, t)
    decreases |run|
  {
    if run == [] {
      assert CallsSoFar(s, t) + [] == CallsSoFar(s, t);
    } else {
      var o, a := run[0].0, run[0].1;
      var next, rest := Step(c, s, o, a), run[1..];
      OneCallMore(c, s, o, a, t);
      EveryCallIsLogged(c, next, rest, r, t);
      Together(CallsSoFar(next, t), CallsSoFar(s, t), if o == t && a.Make? then [a.call] else [], CallsOf(rest, t));
    }
  }

  /** The log only grows, so that a call made after another one has returned comes behind it. */
  lemma {:induction false} LogOnlyGrows<K, V>(c: Keys<K, V>, s: Shared<K, V>, run: Schedule<K, V>, r: Shared<K, V>)
    requires s.table.buckets != [] && Reaches(c, s, run, r)
    ensures s.log <= r.log
    decreases |run|
  {
    if run != [] {
      LogOnlyGrows(c, Step(c, s, run[0].0, run[0].1), run[1..], r);
    }
  }

  lemma {:induction false} LoggedOfParts<K, V>(a: seq<Entry<K, V>>, b: seq<Entry<K, V>>, t: Thread)
    ensures LoggedOf(a + b, t) == LoggedOf(a, t) + LoggedOf(b, t)
  {
    if b == [] {
      assert a + b == a;
    } else {
      var front, last := b[..|b| - 1], b[|b| - 1];
      LoggedOfParts(a, front, t);
      LoggedOfGrows(a + front, last, t);
      assert a + b == (a + front) + [last];
    }
  }

  lemma SameFront<T>(a: seq<T>, x: seq<T>, y: seq<T>)
    requires a + x == a + y
    ensures x == y
  {
    assert (a + x)[|a|..] == x && (a + y)[|a|..] == y;
  }

  /** A call is logged behind all that had returned when it was made: from there on, the log has for its thread
      this call and the later ones, but for one under way. */
  lemma LoggedAfterItWasMade<K, V>(
      c: Keys<K, V>, s: Shared<K, V>, t: Thread, call: Call<K, V>, run: Schedule<K, V>, r: Shared<K, V>)
    requires s.table.buckets != [] && PcOf(s, t).Idle? && Enabled(c, s, t, Make(call))
    requires Reaches(c, Step(c, s, t, Make(call)), run, r)
    ensures s.log <= r.log && PcOf(Step(c, s, t, Make(call)), t).since == |s.log|
    ensures LoggedOf(r.log[|s.log|..], t) + UnderWay(r, t) == [call] + CallsOf(run, t)
  {
    var next, before := Step(c, s, t, Make(call)), LoggedOf(s.log, t);
    LogOnlyGrows(c, next, run, r);
    EveryCallIsLogged(c, next, run, r, t);
    var rest := r.log[|s.log|..];
    assert r.log == s.log + rest;
    LoggedOfParts(s.log, rest, t);
    assert CallsSoFar(next, t) == before + [call];
    Together(CallsSoFar(next, t), before, [call], CallsOf(run, t));
    Together(LoggedOf(r.log, t), before, LoggedOf(rest, t), UnderWay(r, t));
    SameFront(before, LoggedOf(rest, t) + UnderWay(r, t), [call] + CallsOf(run, t));
  }

  /** Two threads can walk the chains at the same time. */
  lemma ReadersShareTheLock<K, V>(c: Keys<K, V>, nrBuckets: nat, k: K) returns (run: Schedule<K, V>, r: Shared<K, V>)
    requires nrBuckets > 0
    ensures Reaches(c, Start(nrBuckets), run, r) && r.readers == {0, 1}
  {
    var find := Make(FindCall(k));
    var s := Start<K, V>(nrBuckets);
    var s1 := Step(c, s, 0, find);
    var s2 := Step(c, s1, 1, find);
    var s3 := Step(c, s2, 0, Proceed);
    r := Step(c, s3, 1, Proceed);
    run := [(0, find), (1, find), (0, Proceed), (1, Proceed)];
    assert run[1..] == [(1, find), (0, Proceed), (1, Proceed)] && run[1..][1..] == [(0, Proceed), (1, Proceed)];
    assert run[1..][1..][1..] == [(1, Proceed)] && run[1..][1..][1..][1..] == [];
    assert Reaches(c, r, [], r) && Reaches(c, s3, run[1..][1..][1..], r) && Reaches(c, s2, run[1..][1..], r);
    assert Reaches(c, s1, run[1..], r);
  }
}
