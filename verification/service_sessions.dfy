/** The sessions of the whole system: each one ever accepted runs the session protocol, whatever the others and
    the workers do. */
module ServiceSessions {
  import opened Memory
  import opened SlotList
  import Session
  import opened SessionRuns
  import Service = ServiceRuns

  type System = Service.System
  type Schedule = Service.Schedule
  type Event = Session.Event
  type World = Session.World

  // The sessions a schedule accepts.
  function AcceptedIn(run: Schedule): set<Service.Id>
    decreases |run|
  {
    if run == [] then {}
    else (if run[0].1.Accept? then {run[0].1.id} else {}) + AcceptedIn(run[1..])
  }

  // The callbacks it makes to a session.
  function EventsOf(run: Schedule, id: Service.Id): seq<Event>
    decreases |run|
  {
    if run == [] then []
    else (if run[0].1.Call? && run[0].1.id == id then [run[0].1.e] else []) + EventsOf(run[1..], id)
  }

  // What its last callback has made of a session: a removal is under way if that has ended it.
  function Current(s: System, id: Service.Id): World {
    if id !in s.worlds then Session.NewSession()
    else if id in s.owner then
      var work := Service.WorkOf(s, s.owner[id]);
      if Service.Ends(work) && work.id == id then work.after else s.worlds[id]
    else s.worlds[id]
  }

  lemma CalledNow(s: System, w: Service.Worker, id: Service.Id, e: Event, x: Service.Id)
    requires Service.InStep(s) && Service.Enabled(s, w, Service.Call(id, e))
    ensures var r := Service.Step(s, w, Service.Call(id, e));
            Current(r, x) == if x == id then Session.Handle(Current(s, id), e) else Current(s, x)
    ensures Session.Enabled(Current(s, id), e) && !FaultsAt(Current(s, id), e)
  {
  }

  lemma AcceptedNow(s: System, w: Service.Worker, id: Service.Id, x: Service.Id)
    requires Service.InStep(s) && Service.Enabled(s, w, Service.Accept(id))
    ensures Current(Service.Step(s, w, Service.Accept(id)), x) == Current(s, x)
  {
    assert x in s.worlds ==> Service.SessionOk(s, x);
  }

  lemma ProceededNow(s: System, w: Service.Worker, x: Service.Id)
    requires Service.InStep(s) && Service.Enabled(s, w, Service.Proceed)
    ensures Current(Service.Step(s, w, Service.Proceed), x) == Current(s, x)
  {
    assert Service.WorkOk(s, w);
  }

  lemma WorldsStayKnown(s: System, w: Service.Worker, a: Service.Act, x: Service.Id)
    requires Service.InStep(s) && Service.Enabled(s, w, a)
    ensures x in Service.Step(s, w, a).worlds <==> x in s.worlds || (a.Accept? && a.id == x)
  {
    assert Service.WorkOk(s, w);
  }

  // The callbacks so far are a run that misuses nothing, and have made of the session what it is.
  predicate Follows(s: System, x: Service.Id, done: seq<Event>) {
    Makes(done, Current(s, x)) && !Current(s, x).life.faulted
  }

  lemma CallFollows(s: System, w: Service.Worker, id: Service.Id, e: Event, done: seq<Event>) returns (more: seq<Event>)
    requires Service.InStep(s) && Service.Enabled(s, w, Service.Call(id, e)) && Follows(s, id, done)
    ensures more == done + [e] && Follows(Service.Step(s, w, Service.Call(id, e)), id, more)
  {
    CalledNow(s, w, id, e, id);
    RunKeepsInv(done);
    HandleFaultsIff(Current(s, id), e);
    more := OneMore(done, Current(s, id), e);
  }

  lemma OthersFollow(s: System, w: Service.Worker, a: Service.Act, x: Service.Id, done: seq<Event>)
    requires Service.InStep(s) && Service.Enabled(s, w, a) && Follows(s, x, done) && !(a.Call? && a.id == x)
    ensures Follows(Service.Step(s, w, a), x, done)
  {
    match a
    case Accept(id) => AcceptedNow(s, w, id, x);
    case Call(id, e) => CalledNow(s, w, id, e, x);
    case Proceed => ProceededNow(s, w, x);
  }

  lemma EventsFirst(run: Schedule, x: Service.Id, done: seq<Event>)
    requires run != []
    ensures done + EventsOf(run, x)
            == (if run[0].1.Call? && run[0].1.id == x then done + [run[0].1.e] else done) + EventsOf(run[1..], x)
  {
  }

  lemma {:induction false} RunFollows(s: System, run: Schedule, r: System, x: Service.Id, done: seq<Event>)
    requires Service.Inv(s) && Service.Reaches(s, run, r) && Follows(s, x, done)
    ensures Follows(r, x, done + EventsOf(run, x))
    decreases |run|
  {
    if run == [] {
      assert done + [] == done;
    } else {
      var w, a := run[0].0, run[0].1;
      Service.StepKeepsInv(s, w, a);
      EventsFirst(run, x, done);
      if a.Call? && a.id == x {
        var more := CallFollows(s, w, x, a.e, done);
        RunFollows(Service.Step(s, w, a), run[1..], r, x, more);
      } else {
        OthersFollow(s, w, a, x, done);
        RunFollows(Service.Step(s, w, a), run[1..], r, x, done);
      }
    }
  }

  lemma {:induction false} AcceptedAreKnown(s: System, run: Schedule, r: System, x: Service.Id)
    requires Service.Inv(s) && Service.Reaches(s, run, r)
    ensures x in r.worlds <==> x in s.worlds || x in AcceptedIn(run)
    decreases |run|
  {
    if run != [] {
      Service.StepKeepsInv(s, run[0].0, run[0].1);
      WorldsStayKnown(s, run[0].0, run[0].1, x);
      AcceptedAreKnown(Service.Step(s, run[0].0, run[0].1), run[1..], r, x);
    }
  }

  /** In every interleaving of any number of workers, each session runs the session protocol: what there is of it
      is what its own callbacks make of a new session, in the order they were made; it is a run that misuses
      nothing; and the sessions there are, are those accepted. */
  lemma EachRunsTheProtocol(run: Schedule, s: System, id: Service.Id)
    requires Service.Reaches(Service.NewSystem(), run, s)
    ensures var es := EventsOf(run, id);
            && Session.Possible(es) && !Session.Reached(es).life.faulted
            && Current(s, id) == Session.Reached(es)
            && (Service.Quiet(s) && id in s.worlds ==> s.worlds[id] == Session.Reached(es))
    ensures id in s.worlds <==> id in AcceptedIn(run)
  {
    Service.NewSystemIsInv();
    AcceptedAreKnown(Service.NewSystem(), run, s, id);
    assert [] + EventsOf(run, id) == EventsOf(run, id);
    RunFollows(Service.NewSystem(), run, s, id, []);
  }
}
