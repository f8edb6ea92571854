/** All workers and all sessions: accepting, calling back, removing under the mutex, and shutting down.
    Each step is one worker's; any worker may take the next one. */
module ServiceRuns {
  import opened Memory
  import opened SlotList
  import opened Session
  import opened SessionRuns

  type Worker = nat
  type Id = Pointer  // a session; a new one has a new name, whatever address it gets

  // What a worker is in the middle of. `after` is what the session will be once freed.
  datatype Work =
    | Idle
    | Accepted(id: Id)                       // made by session_new, not listed yet
    | Adding(id: Id)                         // the same, holding the mutex
    | Listed(id: Id)                         // listed, holding the mutex
    | Removing(id: Id, after: World)         // in http_service_session_remove, without the mutex
    | Searching(id: Id, after: World, i: nat)  // holding it, at node i
    | Unlinked(id: Id, after: World)         // holding it, node gone, session not freed yet
    | Freed(id: Id)                          // holding it, session freed
    | Missed(id: Id, after: World)           // mutex released without having found the session

  datatype System = System(
    list: seq<Id>, mutex: Option<Worker>, work: map<Worker, Work>, worlds: map<Id, World>, owner: map<Id, Worker>)

  function NewSystem(): System {
    System([], None, map[], map[], map[])
  }

  function WorkOf(s: System, w: Worker): Work {
    if w in s.work then s.work[w] else Idle
  }

  predicate Holding(work: Work) {
    work.Adding? || work.Listed? || work.Searching? || work.Unlinked? || work.Freed?
  }

  // A worker accepts a connection, calls back a session, or goes on with what it is doing.
  datatype Act = Accept(id: Id) | Call(id: Id, e: Event) | Proceed

  // Each session belongs to the worker that accepted it, whose event loop makes all its callbacks, one
  // at a time and none before http_service_session_add has returned.
  predicate Enabled(s: System, w: Worker, a: Act) {
    match a
    case Accept(id) => WorkOf(s, w).Idle? && id !in s.worlds && id != NULL
    case Call(id, e) =>
      && WorkOf(s, w).Idle? && id in s.worlds && id in s.owner && s.owner[id] == w
      && Session.Enabled(s.worlds[id], e) && !FaultsAt(s.worlds[id], e)
    case Proceed =>
      && !WorkOf(s, w).Idle?
      && (WorkOf(s, w).Accepted? || WorkOf(s, w).Removing? ==> s.mutex.None?)
  }

  function Doing(s: System, w: Worker, work: Work): System {
    s.(work := s.work[w := work])
  }

  function Step(s: System, w: Worker, a: Act): System
    requires Enabled(s, w, a)
  {
    match a
    case Accept(id) =>
      Doing(s, w, Accepted(id)).(worlds := s.worlds[id := NewSession()], owner := s.owner[id := w])
    case Call(id, e) =>
      var after := Handle(s.worlds[id], e);
      if s.worlds[id].life.alive && !after.life.alive then Doing(s, w, Removing(id, after))
      else s.(worlds := s.worlds[id := after])
    case Proceed =>
      match WorkOf(s, w)
      case Idle => s
      case Accepted(id) => Doing(s, w, Adding(id)).(mutex := Some(w))
      case Adding(id) => Doing(s, w, Listed(id)).(list := s.list + [id])
      case Listed(id) => Doing(s, w, Idle).(mutex := None)
      case Removing(id, after) => Doing(s, w, Searching(id, after, 0)).(mutex := Some(w))
      case Searching(id, after, i) =>
        if i >= |s.list| then Doing(s, w, Missed(id, after)).(mutex := None)
        else if s.list[i] == id then Doing(s, w, Unlinked(id, after)).(list := RemoveAt(s.list, i))
        else Doing(s, w, Searching(id, after, i + 1))
      case Unlinked(id, after) => Doing(s, w, Freed(id)).(worlds := s.worlds[id := after])
      case Freed(id) => Doing(s, w, Idle).(mutex := None)
      case Missed(id, after) => Doing(s, w, Idle).(worlds := s.worlds[id := after])
  }

  predicate Alive(s: System, id: Id) {
    id in s.worlds && s.worlds[id].life.alive
  }

  predicate Owns(s: System, w: Worker, id: Id) {
    id in s.worlds && id in s.owner && s.owner[id] == w
  }

  predicate WorkOk(s: System, w: Worker) {
    match WorkOf(s, w)
    case Idle => true
    case Accepted(id) => Owns(s, w, id) && Alive(s, id) && id !in s.list
    case Adding(id) => Owns(s, w, id) && Alive(s, id) && id !in s.list
    case Listed(id) => Owns(s, w, id)
    case Removing(id, after) => Owns(s, w, id) && Alive(s, id) && id in s.list && !after.life.alive
    case Searching(id, after, i) =>
      Owns(s, w, id) && Alive(s, id) && i <= |s.list| && id in s.list[i..] && !after.life.alive
    case Unlinked(id, after) => Owns(s, w, id) && Alive(s, id) && id !in s.list && !after.life.alive
    case Freed(id) => Owns(s, w, id)
    case Missed(_, _) => false
  }

  // Why a session that is alive is not in the list.
  predicate Excused(work: Work, id: Id) {
    (work.Accepted? || work.Adding? || work.Unlinked?) && work.id == id
  }

  predicate SessionOk(s: System, id: Id)
    requires id in s.worlds
  {
    id in s.owner && (Alive(s, id) ==> id in s.list || Excused(WorkOf(s, s.owner[id]), id))
  }

  ghost predicate WorksOk(s: System) {
    forall w: Worker :: WorkOk(s, w)
  }

  ghost predicate SessionsOk(s: System) {
    forall id :: id in s.worlds ==> SessionOk(s, id)
  }

  ghost predicate MutexOk(s: System) {
    forall w: Worker :: s.mutex == Some(w) <==> Holding(WorkOf(s, w))
  }

  ghost predicate ListOk(s: System) {
    Distinct(s.list) && NULL !in s.list && forall id :: id in s.list ==> Alive(s, id)
  }

  // The list, the mutex and the work go together.
  ghost predicate InStep(s: System) {
    MutexOk(s) && WorksOk(s) && ListOk(s) && SessionsOk(s) && NULL !in s.worlds
  }

  // What a session is about to become keeps its invariant, too.
  ghost predicate AfterOk(work: Work) {
    Ends(work) ==> SessionRuns.Inv(work.after)
  }

  // The work ends a session.
  predicate Ends(work: Work) {
    work.Removing? || work.Searching? || work.Unlinked? || work.Missed?
  }

  ghost predicate WorldsOk(s: System) {
    && (forall id :: id in s.worlds ==> SessionRuns.Inv(s.worlds[id]))
    && forall w: Worker :: AfterOk(WorkOf(s, w))
  }

  ghost predicate Inv(s: System) {
    InStep(s) && WorldsOk(s)
  }

  lemma NewSystemIsInv()
    ensures Inv(NewSystem())
  {
  }

  // What a step of worker w leaves alone

  // The sessions of worker o are what they were, in the list or not.
  ghost predicate Unaffected(s: System, r: System, o: Worker) {
    && (forall id :: Owns(s, o, id) ==>
          Owns(r, o, id) && Alive(r, id) == Alive(s, id) && (id in r.list <==> id in s.list))
    && (r.list == s.list || !Holding(WorkOf(s, o)))
  }

  lemma OtherWorkStays(s: System, r: System, o: Worker)
    requires WorkOk(s, o) && WorkOf(r, o) == WorkOf(s, o) && Unaffected(s, r, o)
    ensures WorkOk(r, o)
  {
  }

  lemma OthersWorkOn(s: System, r: System, w: Worker)
    requires WorksOk(s) && WorkOk(r, w)
    requires forall o: Worker :: o != w ==> WorkOf(r, o) == WorkOf(s, o) && Unaffected(s, r, o)
    ensures WorksOk(r)
  {
    forall o: Worker
      ensures WorkOk(r, o)
    {
      assert WorkOk(s, o);
      if o != w { OtherWorkStays(s, r, o); }
    }
  }

  // Session x is what it was, and has no less of an excuse.
  predicate SameSession(s: System, r: System, x: Id) {
    && x in s.worlds && x in r.worlds && r.worlds[x] == s.worlds[x]
    && x in s.owner && x in r.owner && r.owner[x] == s.owner[x]
    && (x in s.list ==> x in r.list)
    && (Excused(WorkOf(s, s.owner[x]), x) ==> Excused(WorkOf(r, s.owner[x]), x))
  }

  lemma OtherSessionsStay(s: System, r: System, id: Id)
    requires SessionsOk(s) && (id in r.worlds ==> SessionOk(r, id))
    requires forall x :: x in r.worlds && x != id ==> SameSession(s, r, x)
    ensures SessionsOk(r)
  {
    forall x | x in r.worlds
      ensures SessionOk(r, x)
    {
      if x != id { assert SessionOk(s, x); }
    }
  }

  // Only what worker w does changes.
  lemma SessionsStay(s: System, r: System, w: Worker)
    requires SessionsOk(s) && r.(work := s.work, mutex := s.mutex) == s
    requires forall o: Worker :: o != w ==> WorkOf(r, o) == WorkOf(s, o)
    requires forall id :: Excused(WorkOf(s, w), id) ==> Excused(WorkOf(r, w), id)
    ensures SessionsOk(r)
  {
    forall x | x in r.worlds
      ensures SessionOk(r, x)
    {
      assert SessionOk(s, x);
    }
  }

  // Worker w goes on to other work, perhaps taking or releasing the mutex; nothing else changes.
  lemma WorkChangesOnly(s: System, w: Worker, work: Work, mutex: Option<Worker>)
    requires InStep(s)
    requires WorkOk(Doing(s, w, work), w)
    requires forall id :: Excused(WorkOf(s, w), id) ==> Excused(work, id)
    requires if Holding(work) then mutex == Some(w) && s.mutex in {None, Some(w)}
             else mutex == (if Holding(WorkOf(s, w)) then None else s.mutex)
    ensures InStep(Doing(s, w, work).(mutex := mutex))
  {
    var r := Doing(s, w, work).(mutex := mutex);
    OtherWorkStays(Doing(s, w, work), r, w);
    OthersWorkOn(s, r, w);
    SessionsStay(s, r, w);
  }

  // The steps

  lemma AcceptKeepsStep(s: System, w: Worker, id: Id)
    requires InStep(s) && Enabled(s, w, Accept(id))
    ensures InStep(Step(s, w, Accept(id)))
  {
    var r := Step(s, w, Accept(id));
    assert id !in s.list;
    OthersWorkOn(s, r, w);
    assert forall x :: x in s.worlds ==> SessionOk(s, x);
    OtherSessionsStay(s, r, id);
  }

  // A callback has taken session `id` to `after`, which must be removed.
  lemma DyingKeepsStep(s: System, w: Worker, id: Id, after: World)
    requires InStep(s) && WorkOf(s, w).Idle? && Owns(s, w, id) && Alive(s, id) && !after.life.alive
    ensures InStep(Doing(s, w, Removing(id, after)))
  {
    assert SessionOk(s, id);
    WorkChangesOnly(s, w, Removing(id, after), s.mutex);
  }

  // Session `id` of worker w has become `after`; the list has it only if it lives.
  lemma SessionBecomes(s: System, w: Worker, id: Id, after: World, r: System)
    requires InStep(s) && Owns(s, w, id) && WorkOk(r, w)
    requires r.(work := s.work) == s.(worlds := s.worlds[id := after])
    requires forall o: Worker :: o != w ==> WorkOf(r, o) == WorkOf(s, o)
    requires id in s.list <==> after.life.alive
    requires forall x :: x != id && Excused(WorkOf(s, w), x) ==> Excused(WorkOf(r, w), x)
    ensures WorksOk(r) && SessionsOk(r) && ListOk(r)
  {
    assert forall x :: x != id ==> Alive(r, x) == Alive(s, x);
    OthersWorkOn(s, r, w);
    assert forall x :: x in s.worlds ==> SessionOk(s, x);
    OtherSessionsStay(s, r, id);
  }

  lemma CallKeepsStep(s: System, w: Worker, id: Id, e: Event)
    requires InStep(s) && Enabled(s, w, Call(id, e))
    ensures InStep(Step(s, w, Call(id, e)))
  {
    assert SessionOk(s, id);
    var after := Handle(s.worlds[id], e);
    if s.worlds[id].life.alive && !after.life.alive {
      DyingKeepsStep(s, w, id, after);
    } else {
      SessionBecomes(s, w, id, after, s.(worlds := s.worlds[id := after]));
    }
  }

  lemma LockKeepsStep(s: System, w: Worker)
    requires InStep(s) && s.mutex.None? && (WorkOf(s, w).Accepted? || WorkOf(s, w).Removing?)
    ensures InStep(Step(s, w, Proceed))
  {
    assert WorkOk(s, w) && s.list[0..] == s.list;
    WorkChangesOnly(s, w, WorkOf(Step(s, w, Proceed), w), Some(w));
  }

  lemma UnlockKeepsStep(s: System, w: Worker)
    requires InStep(s) && (WorkOf(s, w).Listed? || WorkOf(s, w).Freed?)
    ensures InStep(Step(s, w, Proceed))
  {
    WorkChangesOnly(s, w, Idle, None);
  }

  // Worker w, holding the mutex, puts its session into the list or takes it out.
  lemma ListChanges(s: System, w: Worker, id: Id, r: System)
    requires InStep(s) && s.mutex == Some(w) && Owns(s, w, id) && Alive(s, id) && WorkOk(r, w)
    requires r.(work := s.work, list := s.list) == s && Holding(WorkOf(r, w))
    requires forall o: Worker :: o != w ==> WorkOf(r, o) == WorkOf(s, o)
    requires Distinct(r.list) && forall x :: x != id ==> (x in r.list <==> x in s.list)
    requires id in r.list || Excused(WorkOf(r, w), id)
    requires forall x :: x != id ==> !Excused(WorkOf(s, w), x)
    ensures InStep(r)
  {
    assert forall x :: Alive(r, x) == Alive(s, x);
    OthersWorkOn(s, r, w);
    assert forall x :: x in s.worlds ==> SessionOk(s, x);
    OtherSessionsStay(s, r, id);
  }

  lemma AddKeepsStep(s: System, w: Worker)
    requires InStep(s) && WorkOf(s, w).Adding?
    ensures InStep(Step(s, w, Proceed))
  {
    assert WorkOk(s, w);
    ListChanges(s, w, WorkOf(s, w).id, Step(s, w, Proceed));
  }

  lemma FoundKeepsStep(s: System, w: Worker, id: Id, after: World, i: nat)
    requires InStep(s) && WorkOf(s, w) == Searching(id, after, i) && i < |s.list| && s.list[i] == id
    ensures InStep(Doing(s, w, Unlinked(id, after)).(list := RemoveAt(s.list, i)))
  {
    assert WorkOk(s, w);
    DistinctAfterRemove(s.list, i);
    ListChanges(s, w, id, Doing(s, w, Unlinked(id, after)).(list := RemoveAt(s.list, i)));
  }

  lemma PassedKeepsStep(s: System, w: Worker, id: Id, after: World, i: nat)
    requires InStep(s) && WorkOf(s, w) == Searching(id, after, i) && i < |s.list| && s.list[i] != id
    ensures InStep(Doing(s, w, Searching(id, after, i + 1)))
  {
    assert WorkOk(s, w) && s.list[i..] == [s.list[i]] + s.list[i + 1..];
    WorkChangesOnly(s, w, Searching(id, after, i + 1), s.mutex);
  }

  lemma FreeKeepsStep(s: System, w: Worker)
    requires InStep(s) && WorkOf(s, w).Unlinked?
    ensures InStep(Step(s, w, Proceed))
  {
    assert WorkOk(s, w);
    var Unlinked(id, after) := WorkOf(s, w);
    SessionBecomes(s, w, id, after, Step(s, w, Proceed));
  }

  lemma ProceedKeepsStep(s: System, w: Worker)
    requires InStep(s) && Enabled(s, w, Proceed)
    ensures InStep(Step(s, w, Proceed))
  {
    assert WorkOk(s, w);
    match WorkOf(s, w)
    case Adding(_) => AddKeepsStep(s, w);
    case Searching(id, after, i) =>
      assert i < |s.list|;
      if s.list[i] == id {
        FoundKeepsStep(s, w, id, after, i);
      } else {
        PassedKeepsStep(s, w, id, after, i);
      }
    case Unlinked(_, _) => FreeKeepsStep(s, w);
    case Accepted(_) => LockKeepsStep(s, w);
    case Removing(_, _) => LockKeepsStep(s, w);
    case _ => UnlockKeepsStep(s, w);
  }

  // The sessions' own invariants: a step sets one session's world, or none.

  ghost predicate OthersWorkSame(s: System, r: System, w: Worker) {
    forall o: Worker :: o != w ==> WorkOf(r, o) == WorkOf(s, o)
  }

  lemma NoWorldSet(s: System, w: Worker, r: System)
    requires WorldsOk(s) && r.worlds == s.worlds && AfterOk(WorkOf(r, w)) && OthersWorkSame(s, r, w)
    ensures WorldsOk(r)
  {
  }

  lemma OneWorldSet(s: System, w: Worker, id: Id, after: World, r: System)
    requires WorldsOk(s) && r.worlds == s.worlds[id := after] && SessionRuns.Inv(after)
    requires AfterOk(WorkOf(r, w)) && OthersWorkSame(s, r, w)
    ensures WorldsOk(r)
  {
  }

  lemma WorldsStayOnCall(s: System, w: Worker, id: Id, e: Event)
    requires WorldsOk(s) && Enabled(s, w, Call(id, e))
    ensures WorldsOk(Step(s, w, Call(id, e)))
  {
    var after, r := Handle(s.worlds[id], e), Step(s, w, Call(id, e));
    HandleKeepsInv(s.worlds[id], e);
    if s.worlds[id].life.alive && !after.life.alive {
      NoWorldSet(s, w, r);
    } else {
      OneWorldSet(s, w, id, after, r);
    }
  }

  lemma WorldsStayOnProceed(s: System, w: Worker)
    requires WorldsOk(s) && Enabled(s, w, Proceed)
    ensures WorldsOk(Step(s, w, Proceed))
  {
    assert AfterOk(WorkOf(s, w));
    if WorkOf(s, w).Unlinked? || WorkOf(s, w).Missed? {
      WorldsStayOnFree(s, w);
    } else {
      AfterIsPassedOn(s, w);
      NoWorldSet(s, w, Step(s, w, Proceed));
    }
  }

  lemma AfterIsPassedOn(s: System, w: Worker)
    requires Enabled(s, w, Proceed) && !WorkOf(s, w).Unlinked? && !WorkOf(s, w).Missed?
    ensures var r := Step(s, w, Proceed);
            && r.worlds == s.worlds && OthersWorkSame(s, r, w)
            && (Ends(WorkOf(r, w)) ==> Ends(WorkOf(s, w)) && WorkOf(r, w).after == WorkOf(s, w).after)
  {
  }

  lemma WorldsStayOnFree(s: System, w: Worker)
    requires WorldsOk(s) && (WorkOf(s, w).Unlinked? || WorkOf(s, w).Missed?)
    ensures WorldsOk(Step(s, w, Proceed))
  {
    var work := WorkOf(s, w);
    assert AfterOk(work);
    OneWorldSet(s, w, work.id, work.after, Step(s, w, Proceed));
  }

  lemma WorldsStayOk(s: System, w: Worker, a: Act)
    requires WorldsOk(s) && Enabled(s, w, a)
    ensures WorldsOk(Step(s, w, a))
  {
    match a
    case Accept(id) =>
      NewIsInv();
      OneWorldSet(s, w, id, NewSession(), Step(s, w, a));
    case Call(id, e) => WorldsStayOnCall(s, w, id, e);
    case Proceed => WorldsStayOnProceed(s, w);
  }

  /** Whatever worker goes on with whatever it does, the list and the sessions stay in step. */
  lemma StepKeepsInv(s: System, w: Worker, a: Act)
    requires Inv(s) && Enabled(s, w, a)
    ensures Inv(Step(s, w, a))
  {
    WorldsStayOk(s, w, a);
    match a
    case Accept(id) => AcceptKeepsStep(s, w, id);
    case Call(id, e) => CallKeepsStep(s, w, id, e);
    case Proceed => ProceedKeepsStep(s, w);
  }

  type Schedule = seq<(Worker, Act)>

  ghost predicate Reaches(s: System, run: Schedule, r: System)
    decreases |run|
  {
    if run == [] then r == s
    else Enabled(s, run[0].0, run[0].1) && Reaches(Step(s, run[0].0, run[0].1), run[1..], r)
  }

  lemma {:induction false} RunKeepsInv(s: System, run: Schedule, r: System)
    requires Inv(s) && Reaches(s, run, r)
    ensures Inv(r)
    decreases |run|
  {
    if run != [] {
      StepKeepsInv(s, run[0].0, run[0].1);
      RunKeepsInv(Step(s, run[0].0, run[0].1), run[1..], r);
    }
  }

  predicate Quiet(s: System) {
    forall w :: w in s.work ==> s.work[w].Idle?
  }

  /** In every interleaving of any number of workers: whenever the mutex is free, the list holds exactly
      the living sessions, each once, but for those just made and waiting to be added; between callbacks
      there are none of these; and http_service_session_remove never misses its session. */
  lemma ListHoldsTheLiving(run: Schedule, s: System)
    requires Reaches(NewSystem(), run, s)
    ensures Distinct(s.list)
    ensures s.mutex.None? ==>
              forall id :: id in s.list <==> Alive(s, id) && !(id in s.owner && WorkOf(s, s.owner[id]) == Accepted(id))
    ensures Quiet(s) ==> s.mutex.None? && forall id :: id in s.list <==> Alive(s, id)
    ensures forall w :: w in s.work ==> !s.work[w].Missed?
  {
    NewSystemIsInv();
    RunKeepsInv(NewSystem(), run, s);
    forall id
      ensures s.mutex.None? ==>
                (id in s.list <==> Alive(s, id) && !(id in s.owner && WorkOf(s, s.owner[id]) == Accepted(id)))
    {
      if Alive(s, id) {
        assert SessionOk(s, id) && WorkOk(s, s.owner[id]);
      }
    }
    forall w | w in s.work
      ensures !s.work[w].Missed?
    {
      assert WorkOk(s, w);
    }
  }

  // http_service_fini, after the workers have been joined: frees what the list holds, in order.
  function FreeAll(worlds: map<Id, World>, list: seq<Id>): map<Id, World>
    requires forall id :: id in list ==> id in worlds
  {
    if list == [] then worlds else FreeAll(worlds[list[0] := Remove(worlds[list[0]], Broken)], list[1..])
  }

  lemma {:induction false} FreedOnceEach(worlds: map<Id, World>, list: seq<Id>, id: Id)
    requires Distinct(list) && forall x :: x in list ==> x in worlds
    requires id in worlds
    ensures FreeAll(worlds, list).Keys == worlds.Keys
    ensures FreeAll(worlds, list)[id] == if id in list then Remove(worlds[id], Broken) else worlds[id]
  {
    if list != [] {
      var next := worlds[list[0] := Remove(worlds[list[0]], Broken)];
      assert list == [list[0]] + list[1..];
      FreedOnceEach(next, list[1..], id);
      assert next.Keys == worlds.Keys;
    }
  }

  /** Shutting down frees every session exactly once, those removed before and those still there; what is
      left of each is its control block, until its last name is done with. */
  lemma ShutdownFreesAll(run: Schedule, s: System, id: Id)
    requires Reaches(NewSystem(), run, s) && Quiet(s) && id in s.worlds
    ensures forall x :: x in s.list ==> x in s.worlds
    ensures var worlds := FreeAll(s.worlds, s.list);
            && id in worlds && SessionRuns.Inv(worlds[id])
            && !worlds[id].life.alive && worlds[id].life.frees == 1 && !worlds[id].life.faulted
            && (worlds[id].block.Some? ==>
                  worlds[id].block.value.frees == if PendingDns(worlds[id]) == 0 then 1 else 0)
  {
    NewSystemIsInv();
    RunKeepsInv(NewSystem(), run, s);
    ListHoldsTheLiving(run, s);
    FreedOnceEach(s.worlds, s.list, id);
    assert SessionOk(s, id);
    if Alive(s, id) {
      RemovalIsClean(s.worlds[id], Broken);
    }
  }
}
