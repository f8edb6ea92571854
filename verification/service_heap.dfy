/** A service object along any schedule of its workers: the list on the heap and the calls of session_free. */
module ServiceHeap {
  import opened Memory
  import opened SlotList
  import opened Service
  import opened ServiceRuns

  // Session `id` is made and not in the list yet.
  predicate Unlisted(s: System, id: Id) {
    id in s.owner && (WorkOf(s, s.owner[id]) == Accepted(id) || WorkOf(s, s.owner[id]) == Adding(id))
  }

  predicate Departed(s: System, id: Id) {
    id in s.worlds && id !in s.list && !Unlisted(s, id)
  }

  // What was freed is what has left the list, each once.
  ghost predicate FreedOk(freed: seq<Pointer>, s: System) {
    Distinct(freed) && forall id :: id in freed <==> Departed(s, id)
  }

  // The session the step takes out of the list, if any.
  function Taken(s: System, w: Worker, a: Act): Option<Id> {
    if a.Proceed? then
      match WorkOf(s, w)
      case Searching(id, _, i) => if i < |s.list| && s.list[i] == id then Some(id) else None
      case _ => None
    else None
  }

  // The work is about a session that is not in the list yet.
  predicate Adds(work: Work) {
    work.Accepted? || work.Adding?
  }

  lemma DepartedByAdding(s: System, w: Worker, id: Id)
    requires InStep(s) && Enabled(s, w, Proceed) && Adds(WorkOf(s, w))
    ensures Departed(Step(s, w, Proceed), id) == Departed(s, id)
  {
    assert WorkOk(s, w) && Unlisted(s, WorkOf(s, w).id);
  }

  lemma OthersStayListed(s: System, w: Worker, id: Id)
    requires InStep(s) && Enabled(s, w, Proceed) && !Adds(WorkOf(s, w)) && Taken(s, w, Proceed) != Some(id)
    ensures var r := Step(s, w, Proceed);
            (id in r.list <==> id in s.list) && (id in r.worlds <==> id in s.worlds) && r.owner == s.owner
  {
    assert WorkOk(s, w);
  }

  lemma UnlistedStay(s: System, w: Worker, id: Id)
    requires Enabled(s, w, Proceed) && !Adds(WorkOf(s, w))
    ensures Unlisted(Step(s, w, Proceed), id) == Unlisted(s, id)
  {
  }

  lemma DepartedByRemoving(s: System, w: Worker, id: Id)
    requires InStep(s) && Enabled(s, w, Proceed) && !Adds(WorkOf(s, w)) && Taken(s, w, Proceed) != Some(id)
    ensures Departed(Step(s, w, Proceed), id) == Departed(s, id)
  {
    OthersStayListed(s, w, id);
    UnlistedStay(s, w, id);
  }

  lemma DepartedByOthers(s: System, w: Worker, a: Act, id: Id)
    requires InStep(s) && Enabled(s, w, a) && Taken(s, w, a) != Some(id)
    ensures Departed(Step(s, w, a), id) == Departed(s, id)
  {
    match a
    case Accept(x) =>
      assert id in s.worlds ==> SessionOk(s, id);
    case Call(_, _) =>
    case Proceed =>
      if Adds(WorkOf(s, w)) { DepartedByAdding(s, w, id); } else { DepartedByRemoving(s, w, id); }
  }

  lemma DepartedIfTaken(s: System, w: Worker, a: Act)
    requires Inv(s) && Enabled(s, w, a) && Taken(s, w, a).Some?
    ensures var id := Taken(s, w, a).value;
            && !Departed(s, id) && Departed(Step(s, w, a), id)
            && id in s.list && Step(s, w, a).list == Without(s.list, id)
  {
    assert WorkOk(s, w);
    var Searching(id, _, i) := WorkOf(s, w);
    assert id !in s.list[..i];
    IndexIsFirst(s.list, id, i);
    DistinctAfterRemove(s.list, i);
  }

  lemma FreedStaysOk(freed: seq<Pointer>, s: System, w: Worker, a: Act, now: seq<Pointer>)
    requires Inv(s) && Enabled(s, w, a) && FreedOk(freed, s)
    requires now == if Taken(s, w, a).Some? then freed + [Taken(s, w, a).value] else freed
    ensures FreedOk(now, Step(s, w, a))
  {
    if Taken(s, w, a).Some? {
      DepartedIfTaken(s, w, a);
    }
    forall id
      ensures id in now <==> Departed(Step(s, w, a), id)
    {
      if Taken(s, w, a) != Some(id) {
        DepartedByOthers(s, w, a, id);
      }
    }
  }

  lemma NodesLeft<T>(nodes: seq<T>, k: nat)
    ensures k < |nodes| ==> forall i :: 0 <= i < |nodes| - 1 ==> RemoveAt(nodes, k)[i] in nodes
  {
  }

  // One worker's step, with what it does to the list: what http_service_session_add and
  // http_service_session_remove do under the mutex happens as their step on the list does.
  method ServeStep(service: HttpService, s: System, w: Worker, a: Act)
    requires service.sessions.Valid() && service.sessions.contents == s.list && FreedOk(service.freed, s)
    requires Inv(s) && Enabled(s, w, a)
    modifies service`freed, service.sessions, service.sessions.nodes
    ensures service.sessions.Valid() && service.sessions.contents == Step(s, w, a).list
    ensures FreedOk(service.freed, Step(s, w, a))
    ensures forall i :: 0 <= i < |service.sessions.nodes| ==>
              service.sessions.nodes[i] in old(service.sessions.nodes) || fresh(service.sessions.nodes[i])
  {
    var taken := Taken(s, w, a);
    FreedStaysOk(service.freed, s, w, a, if taken.Some? then service.freed + [taken.value] else service.freed);
    if taken.Some? {
      DepartedIfTaken(s, w, a);
      NodesLeft(service.sessions.nodes, IndexOf(s.list, taken.value));
      var _ := service.SessionRemove(taken.value);
    } else if a.Proceed? && WorkOf(s, w).Adding? {
      service.SessionAdd(WorkOf(s, w).id);
    }
  }

  lemma NextOfRun(s: System, run: Schedule, i: nat, r: System)
    requires Inv(s) && i < |run| && Reaches(s, run[i..], r)
    ensures var (w, a) := run[i];
            Enabled(s, w, a) && Inv(Step(s, w, a)) && Reaches(Step(s, w, a), run[i + 1..], r)
  {
    assert run[i..][0] == run[i] && run[i..][1..] == run[i + 1..];
    StepKeepsInv(s, run[i].0, run[i].1);
  }

  /** A service along a schedule, whatever it is: its list is the system's throughout, and it has freed the
      sessions that have left the list, each once. */
  method Serve(run: Schedule, ghost r: System) returns (service: HttpService)
    requires Reaches(NewSystem(), run, r)
    ensures fresh(service) && fresh(service.sessions) && fresh(service.sessions.nodes)
    ensures service.sessions.Valid() && service.sessions.contents == r.list && FreedOk(service.freed, r)
  {
    service := new HttpService();
    NewSystemIsInv();
    var s := NewSystem();
    assert run[0..] == run;
    for i := 0 to |run|
      invariant Inv(s) && Reaches(s, run[i..], r)
      invariant fresh(service) && fresh(service.sessions) && fresh(service.sessions.nodes)
      invariant service.sessions.Valid() && service.sessions.contents == s.list && FreedOk(service.freed, s)
    {
      NextOfRun(s, run, i, r);
      var (w, a) := run[i];
      ServeStep(service, s, w, a);
      s := Step(s, w, a);
    }
    assert run[|run|..] == [];
  }

  lemma DistinctTogether<T>(a: seq<T>, b: seq<T>)
    requires Distinct(a) && Distinct(b) && forall x :: x in a ==> x !in b
    ensures Distinct(a + b)
  {
    forall i, j | 0 <= i < j < |a + b|
      ensures (a + b)[i] != (a + b)[j]
    {
      if i < |a| <= j {
        assert a[i] in a && b[j - |a|] in b;
      }
    }
  }

  lemma DepartedIfDead(s: System, id: Id)
    requires Inv(s) && Quiet(s)
    ensures Departed(s, id) <==> id in s.worlds && id !in s.list
  {
  }

  /** After any schedule and shutdown, the service has freed every session it ever accepted, each once. */
  method ServeAndShutDown(run: Schedule, ghost r: System) returns (service: HttpService)
    requires Reaches(NewSystem(), run, r) && Quiet(r)
    ensures Distinct(service.freed) && !service.sessions.live
    ensures forall id :: id in service.freed <==> id in r.worlds
  {
    service := Serve(run, r);
    NewSystemIsInv();
    RunKeepsInv(NewSystem(), run, r);
    forall id
      ensures Departed(r, id) <==> id in r.worlds && id !in r.list
    {
      DepartedIfDead(r, id);
    }
    DistinctTogether(service.freed, r.list);
    service.Fini();
  }
}
