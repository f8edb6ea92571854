/** What holds of the session protocol over all runs: its invariant, the exact conditions under which memory
    is misused, and what is conserved and given back. */
module SessionRuns {
  import opened Memory
  import opened Parser
  import opened Reference
  import opened Session

  // How far an upstream is.
  datatype Phase = NotYet | Resolving | Connecting | Awaiting | Replied

  function PhaseOf(side: Side): Phase {
    if side.replied then Replied
    else if side.http then (if side.connected then Awaiting else Connecting)
    else if side.dns == Pending then Resolving
    else NotYet
  }

  function CountOf(w: World, p: Phase): nat {
    (if PhaseOf(w.name) == p then 1 else 0) + (if PhaseOf(w.joke) == p then 1 else 0)
  }

  function Waiting(name: Dns, joke: Dns): nat {
    (if name == Pending then 1 else 0) + (if joke == Pending then 1 else 0)
  }

  function PendingDns(w: World): nat {
    Waiting(w.name.dns, w.joke.dns)
  }

  predicate Replies(w: World) {
    w.name.replied && w.joke.replied
  }

  function Total(c: Counters): int {
    c.resolutions + c.connections + c.replies
  }

  // When memory is misused

  // A client's message is announced where the resolver is missing, or calls back at once.
  predicate Hazardous(e: Event) {
    && (e.ClientMessage? || e.ClientAgain?) && e.block
    && (Hasty(e.first) || (e.first == Started && Hasty(e.second)))
  }

  predicate Hasty(start: DnsStart) {
    start.NoBase? || start.Immediate?
  }

  predicate Readable(e: Event) {
    (e.Reply? || e.LostReply?) && !e.body.Garbled?
  }

  // A callback by something the session has lost hold of, which leads to the session itself.
  predicate OfLost(e: Event) {
    e.LostDns? || e.LostConnected? || e.LostReply? || e.LostBroken?
  }

  // The callback misuses memory: for want of a patient resolver; because a reply comes in after the message
  // was announced again, when the strings are gone; or because the session is.
  predicate FaultsAt(w: World, e: Event) {
    Hazardous(e) || (Readable(e) && w.lost.blocks != []) || (OfLost(e) && !w.life.alive)
  }

  // Invariants

  // The counters count the upstreams in each phase, and an upstream is in one of them.
  predicate Conserved(w: World) {
    && w.pending.resolutions == CountOf(w, Resolving)
    && w.pending.connections == CountOf(w, Connecting)
    && w.pending.replies == CountOf(w, Awaiting)
    && (w.client.http == MessageComplete <==> PhaseOf(w.name) != NotYet)
    && (w.client.http == MessageComplete <==> PhaseOf(w.joke) != NotYet)
  }

  predicate SideOk(side: Side) {
    && (side.dns == Unasked ==> side == UNASKED)
    && (side.dns == Pending ==> side == Side(false, false, Pending, false))
    && (side.dns == Over ==> side.http != side.replied && (side.replied ==> side.connected))
  }

  // The strings a session owns are the replies heard, until the response is made of them.
  predicate TextsKept(w: World) {
    && (w.record.name.Some? <==> w.name.replied) && (w.record.joke.Some? <==> w.joke.replied)
    && w.texts.name == (if w.record.name.Some? && !Replies(w) then Some(w.record.name.value.0) else None)
    && w.texts.surname == (if w.record.name.Some? && !Replies(w) then Some(w.record.name.value.1) else None)
    && w.texts.joke == (if !Replies(w) then w.record.joke else None)
    && w.record.responses == (if Replies(w) then [Answer(w)] else [])
  }

  function Answer(w: World): Response
    requires w.record.name.Some? && w.record.joke.Some?
  {
    Response(w.record.name.value.0, w.record.name.value.1, w.record.joke.value)
  }

  // At most one response was written, made of the two replies heard.
  predicate Answered(w: World) {
    w.record.responses != [] ==> w.record.name.Some? && w.record.joke.Some? && w.record.responses == [Answer(w)]
  }

  // A session whose client's message was announced once at most.
  predicate Live(w: World) {
    && SideOk(w.name) && SideOk(w.joke) && Conserved(w) && TextsKept(w)
    && w.state == (if w.client.http != MessageComplete then ParsingClientRequest
                   else if Replies(w) then ClientResponse
                   else ResolvingWebserverDomains)
    && w.client.http != HeadersComplete && (w.client.output ==> Replies(w))
    && (w.me <==> w.client.http == MessageComplete)
  }

  // A session whose client's message was announced again: it has answered, and has no strings to answer with.
  predicate Repeated(w: World) {
    && Replies(w) && w.texts == Texts(None, None, None) && w.me
    && w.state == ResolvingWebserverDomains && w.client.http == MessageComplete
    && Total(w.pending) == 2 * |w.lost.blocks| && |w.record.responses| == 1
  }

  ghost predicate BlockOk(w: World) {
    match w.block
    case None => !w.me && PendingDns(w) == 0
    case Some(c) =>
      && Sound(c, SESSION) && c.freeFn.None?
      && c.refcnt == (if w.life.alive then 1 else 0) && c.weakRefcnt == PendingDns(w)
      && (w.life.alive ==> w.me)
  }

  // A lost control block has a strong holder that nobody will ever drop.
  ghost predicate KeptOk(kept: Kept) {
    && Sound(kept.block, SESSION) && kept.block.freeFn.None?
    && kept.block.refcnt == 1 && kept.block.weakRefcnt == Waiting(kept.name, kept.joke)
  }

  ghost predicate LostOk(lost: Lost) {
    (forall k :: 0 <= k < |lost.blocks| ==> KeptOk(lost.blocks[k])) && (lost.blocks == [] ==> lost.channels == [])
  }

  // What holds in the middle of callbacks, too.
  ghost predicate Tidy(w: World) {
    !w.life.faulted && !w.life.nullRead && BlockOk(w) && Answered(w) && LostOk(w.lost)
  }

  ghost predicate Inv(w: World) {
    && Tidy(w)
    && (w.life.alive ==>
          w.life.frees == 0 && w.life.removal == Present && if w.lost.blocks == [] then Live(w) else Repeated(w))
    && (!w.life.alive ==>
          && w.life.frees == 1 && w.life.removal != Present
          && !w.me && w.texts == Texts(None, None, None) && !w.name.http && !w.joke.http
          && (w.life.removal == Flushed ==> |w.record.responses| == 1 && !w.client.output))
  }

  lemma NewIsInv()
    ensures Inv(NewSession())
  {
  }

  // A live session in the middle of a callback, fit to be removed.
  ghost predicate Held(w: World) {
    w.life.alive && w.life.frees == 0 && w.life.removal == Present && Tidy(w)
  }

  lemma BlockDropped(w: World)
    requires BlockOk(w) && w.life.alive && w.block.Some?
    ensures var v := Dropped(w);
            && v == w.(me := false, block := v.block) && v.block.Some? && v.block.value.freeFn.None?
            && Sound(v.block.value, SESSION) && v.block.value.refcnt == 0
            && v.block.value.weakRefcnt == PendingDns(w)
  {
    StepKeepsSound(w.block.value, Dec, SESSION);
  }

  lemma RemovalIsClean(w: World, why: Removal)
    requires Held(w) && why != Present
    requires why == Flushed ==> |w.record.responses| == 1 && !w.client.output
    ensures Inv(Remove(w, why)) && !Remove(w, why).life.alive
  {
    var v := Remove(w, why);
    assert Use(w) == w && v.lost == w.lost && v.record == w.record && PendingDns(v) == PendingDns(w);
    if w.block.Some? {
      BlockDropped(w);
      assert v.block == Dropped(w).block;
    }
  }

  // Names

  lemma RequestFreed(w: World, u: Upstream)
    requires BlockOk(w) && !w.life.faulted && SideOf(w, u).dns == Pending
    ensures UseBlock(w) == w && (Referred(w) == NULL <==> !w.life.alive)
    ensures var v := DnsRequestFree(w, u);
            && BlockOk(v) && v.block.Some?
            && v == WithSide(w, u, SideOf(w, u).(dns := Over)).(block := v.block)
  {
    var c := w.block.value;
    StepKeepsSound(c, WeakDec, SESSION);
    var v := WithSide(w, u, SideOf(w, u).(dns := Over));
    assert PendingDns(v) == PendingDns(w) - 1;
    assert DnsRequestFree(w, u) == v.(block := Some(AfterWeakDec(c)));
  }

  lemma LostRequestFreed(w: World, k: nat, u: Upstream)
    requires LostOk(w.lost) && k < |w.lost.blocks| && DnsOf(w.lost.blocks[k], u) == Pending
    ensures var kept := w.lost.blocks[k];
            && kept.block.frees == 0 && kept.block.ptr != NULL && KeptOk(DnsOver(kept, u))
            && LostOk(w.lost.(blocks := w.lost.blocks[k := DnsOver(kept, u)]))
  {
    var kept := w.lost.blocks[k];
    assert KeptOk(kept);
    StepKeepsSound(kept.block, WeakDec, SESSION);
  }

  lemma RequestKeepsBlock(w: World, u: Upstream)
    requires Held(w) && w.me && SideOf(w, u).dns == Unasked
    ensures var v := DnsRequestNew(w, u, Started);
            && Held(v) && v == WithSide(w, u, SideOf(w, u).(dns := Pending))
                               .(block := v.block, pending := Counted(w, 1, 0, 0).pending)
  {
    StepKeepsSound(w.block.value, WeakInc, SESSION);
  }

  // The client's message

  // The session has no control block, and no name asked for by it.
  predicate Unblocked(w: World) {
    w.block.None? && !w.me && w.name.dns == Unasked && w.joke.dns == Unasked
  }

  lemma FailedStartKeepsInv(w: World, block: bool, first: DnsStart, second: DnsStart)
    requires Held(w) && Unblocked(w) && (block ==> !Hasty(first) && (first == Started ==> !Hasty(second)))
    requires !block || first == NoMemory || second == NoMemory
    ensures Inv(StartNames(w, block, first, second))
  {
    if !block {
      RemovalIsClean(w, Broken);
    } else {
      var made := w.(me := true, block := Some(New(SESSION, None)));
      assert Held(made);
      if first == NoMemory {
        RemovalIsClean(made, Broken);
      } else {
        RequestKeepsBlock(made, NameServer);
        RemovalIsClean(DnsRequestNew(made, NameServer, Started), Broken);
      }
    }
  }

  // Both names are asked for.
  lemma StartAsksBoth(w: World)
    requires Held(w) && Unblocked(w)
    ensures var v := StartNames(w, true, Started, Started);
            && Held(v) && v.me
            && v == w.(me := true, block := v.block, state := ResolvingWebserverDomains,
                       name := w.name.(dns := Pending), joke := w.joke.(dns := Pending),
                       pending := Counted(w, 2, 0, 0).pending)
  {
    var made := w.(me := true, block := Some(New(SESSION, None)));
    var one := DnsRequestNew(made, NameServer, Started);
    RequestKeepsBlock(made, NameServer);
    assert one.joke == w.joke && one.me && one.texts == w.texts;
    var two := DnsRequestNew(one, JokeServer, Started);
    RequestKeepsBlock(one, JokeServer);
    assert StartNames(w, true, Started, Started) == two.(state := ResolvingWebserverDomains);
  }

  lemma ClientMessageKeepsInv(w: World, e: Event)
    requires Inv(w) && Enabled(w, e) && !Hazardous(e) && e.ClientMessage?
    ensures Inv(Handle(w, e))
  {
    var v := w.(client := w.client.(http := MessageComplete));
    if !e.block || e.first == NoMemory || e.second == NoMemory {
      FailedStartKeepsInv(v, e.block, e.first, e.second);
    } else {
      StartAsksBoth(v);
    }
  }

  lemma OverwrittenIsHeld(w: World)
    requires Inv(w) && w.life.alive && w.me
    ensures var v := Overwritten(w);
            && Held(v) && Unblocked(v)
            && v == w.(me := false, block := None, name := w.name.(dns := Unasked), joke := w.joke.(dns := Unasked),
                       lost := v.lost)
            && |v.lost.blocks| == |w.lost.blocks| + 1
  {
    assert KeptOk(Kept(w.block.value, w.name.dns, w.joke.dns));
  }

  // A session whose client's message can be announced again has answered.
  lemma HasAnswered(w: World)
    requires Inv(w) && w.life.alive && w.client.http == MessageComplete && w.client.output
    ensures w.me && Replies(w) && w.texts == Texts(None, None, None) && |w.record.responses| == 1
    ensures Total(w.pending) == 2 * |w.lost.blocks|
  {
  }

  lemma AskedAgain(w: World)
    requires Inv(w) && w.life.alive && w.client.http == MessageComplete && w.client.output
    ensures Inv(StartNames(Overwritten(w), true, Started, Started))
  {
    HasAnswered(w);
    OverwrittenIsHeld(w);
    StartAsksBoth(Overwritten(w));
  }

  lemma ClientAgainKeepsInv(w: World, e: Event)
    requires Inv(w) && Enabled(w, e) && !Hazardous(e) && e.ClientAgain?
    ensures Inv(Handle(w, e))
  {
    HasAnswered(w);
    OverwrittenIsHeld(w);
    if !e.block || e.first == NoMemory || e.second == NoMemory {
      FailedStartKeepsInv(Overwritten(w), e.block, e.first, e.second);
    } else {
      AskedAgain(w);
    }
  }

  // An upstream that moves on

  function Change(from: Phase, to: Phase, p: Phase): int {
    (if to == p then 1 else 0) - (if from == p then 1 else 0)
  }

  // An upstream goes from one phase to another and the counters follow.
  function Moved(w: World, u: Upstream, side: Side): World {
    var from, to := PhaseOf(SideOf(w, u)), PhaseOf(side);
    Counted(WithSide(w, u, side), Change(from, to, Resolving), Change(from, to, Connecting),
            Change(from, to, Awaiting))
  }

  lemma CountMoves(w: World, u: Upstream, side: Side, p: Phase)
    ensures CountOf(WithSide(w, u, side), p) == CountOf(w, p) + Change(PhaseOf(SideOf(w, u)), PhaseOf(side), p)
    ensures CountOf(Moved(w, u, side), p) == CountOf(WithSide(w, u, side), p)
  {
  }

  lemma MoveConserves(w: World, u: Upstream, side: Side)
    requires Conserved(w) && w.client.http == MessageComplete && PhaseOf(side) != NotYet
    ensures Conserved(Moved(w, u, side))
  {
    CountMoves(w, u, side, Resolving);
    CountMoves(w, u, side, Connecting);
    CountMoves(w, u, side, Awaiting);
  }

  // The same for a session that was asked again, of which less is known.
  predicate Onward(w: World, v: World) {
    && v.life == w.life && v.texts == w.texts && v.record == w.record && v.client == w.client && v.state == w.state
    && v.me && Replies(v) && Total(v.pending) == Total(w.pending) && |v.lost.blocks| == |w.lost.blocks|
  }

  lemma OnwardKeepsInv(w: World, v: World)
    requires Inv(w) && w.life.alive && w.lost.blocks != [] && Onward(w, v) && BlockOk(v) && LostOk(v.lost)
    ensures Inv(v)
  {
  }

  // Resolved

  // A name resolved, and its upstream being connected to.
  const CONNECTING := Side(true, false, Over, false)

  lemma DnsFailureKeepsInv(w: World, u: Upstream, outcome: DnsOutcome)
    requires Inv(w) && SideOf(w, u).dns == Pending && w.life.alive
    requires outcome != Address(true)
    ensures Inv(DnsnameResolved(w, u, Some(u), outcome))
  {
    RequestFreed(w, u);
    var freed := DnsRequestFree(w, u);
    if outcome.Address? {
      RemovalIsClean(Counted(freed, -1, 0, 0).(state := ErrorConnectingToWs), Broken);
    } else {
      RemovalIsClean(freed.(state := ErrorResolvingDomain), Broken);
    }
  }

  lemma DnsSuccessMoves(w: World, u: Upstream)
    requires Inv(w) && w.lost.blocks == [] && SideOf(w, u).dns == Pending && w.life.alive
    ensures DnsnameResolved(w, u, Some(u), Address(true))
            == Moved(w, u, CONNECTING).(block := DnsRequestFree(w, u).block)
  {
    RequestFreed(w, u);
  }

  lemma ConnectingIsLive(w: World, u: Upstream)
    requires Inv(w) && w.lost.blocks == [] && SideOf(w, u).dns == Pending && w.life.alive
    ensures var v := Moved(w, u, CONNECTING);
            && Live(v) && v.me && v.life == w.life && v.record == w.record && v.lost == w.lost
            && PendingDns(v) == PendingDns(DnsRequestFree(w, u))
  {
    MoveConserves(w, u, CONNECTING);
  }

  // A live session and a control block that goes with it.
  lemma FromParts(w: World, live: World, freed: World)
    requires Inv(w) && w.life.alive && live.life == w.life && live.lost == w.lost && w.lost.blocks == []
    requires Live(live) && Answered(live) && live.me
    requires BlockOk(freed) && freed.block.Some? && freed.life.alive && PendingDns(freed) == PendingDns(live)
    ensures Inv(live.(block := freed.block))
  {
  }

  lemma DnsSuccessKeepsInv(w: World, u: Upstream)
    requires Inv(w) && w.lost.blocks == [] && SideOf(w, u).dns == Pending && w.life.alive
    ensures Inv(DnsnameResolved(w, u, Some(u), Address(true)))
  {
    RequestFreed(w, u);
    ConnectingIsLive(w, u);
    DnsSuccessMoves(w, u);
    FromParts(w, Moved(w, u, CONNECTING), DnsRequestFree(w, u));
  }

  lemma DnsOnward(w: World, u: Upstream)
    requires Inv(w) && w.lost.blocks != [] && SideOf(w, u).dns == Pending && w.life.alive
    ensures Inv(DnsnameResolved(w, u, Some(u), Address(true)))
  {
    RequestFreed(w, u);
    OnwardKeepsInv(w, DnsnameResolved(w, u, Some(u), Address(true)));
  }

  lemma DnsLateKeepsInv(w: World, u: Upstream, outcome: DnsOutcome)
    requires Inv(w) && SideOf(w, u).dns == Pending && !w.life.alive
    ensures Inv(DnsnameResolved(w, u, Some(u), outcome))
    ensures DnsnameResolved(w, u, Some(u), outcome) == DnsRequestFree(w, u)
  {
    RequestFreed(w, u);
  }

  lemma DnsDoneKeepsInv(w: World, u: Upstream, outcome: DnsOutcome)
    requires Inv(w) && SideOf(w, u).dns == Pending
    ensures Inv(DnsnameResolved(w, u, Some(u), outcome))
  {
    if !w.life.alive {
      DnsLateKeepsInv(w, u, outcome);
    } else if outcome != Address(true) {
      DnsFailureKeepsInv(w, u, outcome);
    } else if w.lost.blocks == [] {
      DnsSuccessKeepsInv(w, u);
    } else {
      DnsOnward(w, u);
    }
  }

  lemma LostDnsGoesOn(w: World, k: nat, u: Upstream, outcome: DnsOutcome)
    requires Inv(w) && w.life.alive && k < |w.lost.blocks| && DnsOf(w.lost.blocks[k], u) == Pending
    ensures Held(LostDnsFreed(w, k, u))
    ensures LostDnsResolved(w, k, u, outcome) == ResolvedTo(LostDnsFreed(w, k, u), Some(u), outcome)
  {
    LostRequestFreed(w, k, u);
  }

  lemma LostDnsOnward(w: World, k: nat, u: Upstream)
    requires Inv(w) && w.life.alive && k < |w.lost.blocks| && Held(LostDnsFreed(w, k, u))
    ensures Inv(ResolvedTo(LostDnsFreed(w, k, u), Some(u), Address(true)))
  {
    OnwardKeepsInv(w, ResolvedTo(LostDnsFreed(w, k, u), Some(u), Address(true)));
  }

  lemma LostDnsKeepsInv(w: World, k: nat, u: Upstream, outcome: DnsOutcome)
    requires Inv(w) && w.life.alive && k < |w.lost.blocks| && DnsOf(w.lost.blocks[k], u) == Pending
    ensures Inv(LostDnsResolved(w, k, u, outcome))
  {
    LostDnsGoesOn(w, k, u, outcome);
    var freed := LostDnsFreed(w, k, u);
    if outcome == Address(true) {
      LostDnsOnward(w, k, u);
    } else if outcome.Address? {
      RemovalIsClean(Counted(freed, -1, 0, 0).(state := ErrorConnectingToWs), Broken);
    } else {
      RemovalIsClean(freed.(state := ErrorResolvingDomain), Broken);
    }
  }

  // Connected

  lemma ConnectedKeepsInv(w: World, u: Upstream, written: bool)
    requires Inv(w) && Enabled(w, Connected(u, written))
    ensures Inv(HttpRequest(w, u, written))
  {
    var side := SideOf(w, u).(connected := true);
    if !written {
      var v := Counted(WithSide(w, u, side), 0, -1, 0).(state := ErrorRequestingFromWs);
      RemovalIsClean(v, Broken);
      assert HttpRequest(w, u, written) == Remove(v, Broken);
    } else if w.lost.blocks == [] {
      MoveConserves(w, u, side);
      assert HttpRequest(w, u, written) == Moved(w, u, side);
    } else {
      OnwardKeepsInv(w, HttpRequest(w, u, written));
    }
  }

  lemma LostConnectedKeepsInv(w: World, i: nat, written: bool)
    requires Inv(w) && w.life.alive && Enabled(w, LostConnected(i, written))
    ensures Inv(LostConnect(w, i, written))
  {
    var stray := w.lost.channels[i].(connected := true);
    var v := w.(lost := w.lost.(channels := w.lost.channels[i := stray]));
    if written {
      OnwardKeepsInv(w, LostConnect(w, i, written));
    } else {
      RemovalIsClean(Counted(v, 0, -1, 0).(state := ErrorRequestingFromWs), Broken);
    }
  }

  // Replied

  lemma ReplyIsHeard(w: World, u: Upstream, body: ReplyBody, grants: Grants)
    requires Inv(w) && w.lost.blocks == [] && Enabled(w, Reply(u, body, grants)) && !body.Garbled?
    ensures Use(w) == w
    ensures var v := Heard(Counted(w, 0, 0, -1), u, body);
            && Held(v) && Conserved(v) && SideOk(v.name) && SideOk(v.joke) && v.lost == w.lost
            && (Replies(v) ==> v.texts.name.Some? && v.texts.surname.Some? && v.texts.joke.Some?)
            && v.state == ResolvingWebserverDomains && !v.client.output
  {
    MoveConserves(w, u, SideOf(w, u).(replied := true, http := false));
  }

  lemma FailedResponseKeepsInv(w: World, grants: Grants)
    requires Held(w) && Replies(w) && w.texts.name.Some? && w.texts.surname.Some? && w.texts.joke.Some?
    requires !(grants.first && grants.second && grants.write)
    ensures Inv(HttpClientResponse(w, grants))
  {
    var v := if grants.first then w.(texts := Texts(None, None, None)) else w.(texts := w.texts.(name := None));
    RemovalIsClean(v.(state := ErrorClientResponse), Broken);
    assert HttpClientResponse(w, grants) == Remove(v.(state := ErrorClientResponse), Broken);
  }

  lemma GarbledKeepsInv(w: World, u: Upstream, grants: Grants)
    requires Inv(w) && w.life.alive
    ensures Inv(HttpResponse(w, u, Garbled, grants))
  {
    RemovalIsClean(Counted(w, 0, 0, -1).(state := ErrorClientResponse), Broken);
  }

  lemma ReplyKeepsInv(w: World, u: Upstream, body: ReplyBody, grants: Grants)
    requires Inv(w) && w.lost.blocks == [] && Enabled(w, Reply(u, body, grants)) && !body.Garbled?
    ensures Inv(HttpResponse(w, u, body, grants))
  {
    ReplyIsHeard(w, u, body, grants);
    var v := Heard(Counted(w, 0, 0, -1), u, body);
    if Replies(v) && !(grants.first && grants.second && grants.write) {
      FailedResponseKeepsInv(v, grants);
    }
  }

  lemma LostGarbledKeepsInv(w: World, i: nat, grants: Grants)
    requires Inv(w) && w.life.alive && i < |w.lost.channels|
    ensures Inv(LostResponse(w, i, Garbled, grants))
  {
    var stray := w.lost.channels[i].(replied := true);
    var v := w.(lost := w.lost.(channels := w.lost.channels[i := stray]));
    RemovalIsClean(Counted(v, 0, 0, -1).(state := ErrorClientResponse), Broken);
  }

  // Closed

  lemma ClosingKeepsInv(w: World)
    requires Inv(w) && w.life.alive
    ensures Inv(ShouldClose(w))
    ensures ShouldClose(w) == if w.state == ClientResponse && !w.client.output then Remove(w, Flushed) else w
  {
    if w.state == ClientResponse && !w.client.output {
      RemovalIsClean(w, Flushed);
    }
  }

  lemma DrainKeepsInv(w: World, eof: bool, output: bool)
    requires Inv(w) && w.life.alive && (output ==> w.client.output)
    ensures Inv(w.(client := w.client.(eof := eof, output := output)))
  {
  }

  // The channel's callbacks that may close it.
  predicate Closes(e: Event) {
    e.ClientEof? || e.ClientWritable? || e.ClientReadable?
  }

  lemma ClosingEventKeepsInv(w: World, e: Event)
    requires Inv(w) && Enabled(w, e) && Closes(e)
    ensures Inv(Handle(w, e))
  {
    match e {
      case ClientEof =>
        DrainKeepsInv(w, true, w.client.output);
        ClosingKeepsInv(w.(client := w.client.(eof := true)));
      case ClientWritable(drained) =>
        DrainKeepsInv(w, w.client.eof, w.client.output && !drained);
        ClosingKeepsInv(w.(client := w.client.(output := w.client.output && !drained)));
      case ClientReadable =>
        ClosingKeepsInv(w);
    }
  }

  lemma LostKeepsInv(w: World, e: Event)
    requires Inv(w) && Enabled(w, e) && w.life.alive && OfLost(e) && !FaultsAt(w, e)
    ensures Inv(Handle(w, e))
  {
    match e {
      case LostDns(k, u, outcome) => LostDnsKeepsInv(w, k, u, outcome);
      case LostConnected(i, written) => LostConnectedKeepsInv(w, i, written);
      case LostReply(i, _, grants) => LostGarbledKeepsInv(w, i, grants);
      case LostBroken(_) => RemovalIsClean(w, Broken);
    }
  }

  /** Every callback keeps the invariant, unless it is one of those that misuse memory. */
  lemma HandleKeepsInv(w: World, e: Event)
    requires Inv(w) && Enabled(w, e) && !FaultsAt(w, e)
    ensures Inv(Handle(w, e))
  {
    match e {
      case ClientAdvance(_) =>
      case ClientMessage(_, _, _) => ClientMessageKeepsInv(w, e);
      case ClientAgain(_, _, _) => ClientAgainKeepsInv(w, e);
      case DnsDone(u, outcome) => DnsDoneKeepsInv(w, u, outcome);
      case Connected(u, written) => ConnectedKeepsInv(w, u, written);
      case Reply(u, body, grants) =>
        if body == Garbled { GarbledKeepsInv(w, u, grants); } else { ReplyKeepsInv(w, u, body, grants); }
      case ChannelBroken(_) => RemovalIsClean(w, Broken);
      case UpstreamEof(_) =>
      case LostDns(_, _, _) => LostKeepsInv(w, e);
      case LostConnected(_, _) => LostKeepsInv(w, e);
      case LostReply(_, _, _) => LostKeepsInv(w, e);
      case LostBroken(_) => LostKeepsInv(w, e);
      case _ => ClosingEventKeepsInv(w, e);
    }
  }

  // Misuse

  lemma NoBaseFaults(w: World, u: Upstream)
    requires w.me && w.block.Some? && w.block.value.ptr != NULL
    ensures DnsRequestNew(w, u, NoBase).life.faulted
  {
    assert !Unresolvable(WeakTaken(Use(w))).life.alive;
  }

  lemma StaysOver(w: World, u: Upstream, outcome: DnsOutcome)
    requires SideOf(w, u).dns == Over
    ensures SideOf(ResolvedTo(w, None, outcome), u).dns == Over
  {
  }

  lemma OverOnceResolved(w: World, u: Upstream, outcome: DnsOutcome)
    ensures SideOf(DnsnameResolved(w, u, None, outcome), u).dns == Over
  {
    var freed := DnsRequestFree(UseBlock(w), u);
    assert SideOf(freed, u).dns == Over;
    StaysOver(freed, u, outcome);
  }

  // A request whose name was resolved at once has been freed when dnsname_resolve goes on to fill it in.
  lemma ImmediateFaults(w: World, u: Upstream, outcome: DnsOutcome)
    ensures DnsRequestNew(w, u, Immediate(outcome)).life.faulted
  {
    var v := WeakTaken(Use(w));
    var asked := WithSide(v, u, SideOf(v, u).(dns := Pending));
    OverOnceResolved(asked, u, outcome);
  }

  lemma HastyFaults(w: World, u: Upstream, start: DnsStart)
    requires w.me && w.block.Some? && w.block.value.ptr != NULL && Hasty(start)
    ensures DnsRequestNew(w, u, start).life.faulted
  {
    match start {
      case NoBase => NoBaseFaults(w, u);
      case Immediate(outcome) => ImmediateFaults(w, u, outcome);
    }
  }

  lemma HazardFaults(w: World, e: Event)
    requires Hazardous(e)
    ensures Handle(w, e).life.faulted
  {
    var v := Overwritten(Use(if e.ClientMessage? then w.(client := w.client.(http := MessageComplete)) else w));
    var made := v.(me := true, block := Some(New(SESSION, None)));
    var one := DnsRequestNew(made, NameServer, e.first);
    if e.first == Started {
      assert one.me && one.block.value.ptr == SESSION;
      HastyFaults(one, JokeServer, e.second);
    } else {
      HastyFaults(made, NameServer, e.first);
    }
    assert DnsRequestNew(one, JokeServer, e.second).life.faulted;
    assert Handle(w, e) == StartNames(v, true, e.first, e.second);
  }

  // The first reply after the message was announced again finds both flags up and not all the strings.
  lemma NullIsRead(w: World, e: Event)
    requires Inv(w) && Enabled(w, e) && w.life.alive && Readable(e) && w.lost.blocks != []
    ensures Handle(w, e).life.faulted && Handle(w, e).life.nullRead
  {
  }

  lemma GoneIsUsed(w: World, e: Event)
    requires Inv(w) && Enabled(w, e) && !w.life.alive && OfLost(e)
    ensures Handle(w, e).life.faulted
  {
    if e.LostDns? {
      LostRequestFreed(w, e.k, e.u);
    }
  }

  /** A callback misuses memory exactly when it is one of those. */
  lemma HandleFaultsIff(w: World, e: Event)
    requires Inv(w) && Enabled(w, e)
    ensures Handle(w, e).life.faulted <==> FaultsAt(w, e)
  {
    if Hazardous(e) {
      HazardFaults(w, e);
    } else if OfLost(e) && !w.life.alive {
      GoneIsUsed(w, e);
    } else if Readable(e) && w.lost.blocks != [] {
      NullIsRead(w, e);
    } else {
      HandleKeepsInv(w, e);
    }
  }

  // Runs

  // One of the run's callbacks was such that it misuses memory where it was made.
  predicate Misuses(es: seq<Event>) {
    var n := |es| - 1;
    es != [] && (Misuses(es[..n]) || FaultsAt(Reached(es[..n]), es[n]))
  }

  /** The invariant holds after every run that misused no memory. */
  lemma {:induction false} RunKeepsInv(es: seq<Event>)
    requires Possible(es) && !Reached(es).life.faulted
    ensures Inv(Reached(es))
  {
    if es == [] {
      NewIsInv();
    } else {
      var front, last := es[..|es| - 1], es[|es| - 1];
      RunKeepsInv(front);
      HandleFaultsIff(Reached(front), last);
      HandleKeepsInv(Reached(front), last);
    }
  }

  /** Over all runs: memory has been misused exactly when one of the callbacks was such. */
  lemma {:induction false} FaultsExactly(es: seq<Event>)
    requires Possible(es)
    ensures Reached(es).life.faulted <==> Misuses(es)
  {
    if es != [] {
      var front := es[..|es| - 1];
      FaultsExactly(front);
      if !Reached(front).life.faulted {
        RunKeepsInv(front);
        HandleFaultsIff(Reached(front), es[|es| - 1]);
      }
    }
  }

  // How often the client's message was announced again.
  function Repeats(es: seq<Event>): nat {
    if es == [] then 0 else Repeats(es[..|es| - 1]) + (if es[|es| - 1].ClientAgain? then 1 else 0)
  }

  lemma OneLostEach(w: World, e: Event)
    requires Inv(w) && Enabled(w, e) && !FaultsAt(w, e)
    ensures |Handle(w, e).lost.blocks| == |w.lost.blocks| + (if e.ClientAgain? then 1 else 0)
  {
    if e.ClientAgain? {
      OverwrittenIsHeld(w);
    }
  }

  // With each new announcement a control block is lost.
  lemma {:induction false} RepeatsAreLost(es: seq<Event>)
    requires Possible(es) && !Reached(es).life.faulted
    ensures |Reached(es).lost.blocks| == Repeats(es)
  {
    if es != [] {
      var front, last := es[..|es| - 1], es[|es| - 1];
      RepeatsAreLost(front);
      RunKeepsInv(front);
      HandleFaultsIff(Reached(front), last);
      OneLostEach(Reached(front), last);
    }
  }

  // No message is announced again, and none where the resolver is missing or hasty.
  predicate Safe(es: seq<Event>) {
    forall i :: 0 <= i < |es| ==> Mild(es[i])
  }

  predicate Mild(e: Event) {
    !Hazardous(e) && !e.ClientAgain?
  }

  lemma SafeSoFar(es: seq<Event>)
    requires es != []
    ensures Safe(es) <==> Safe(es[..|es| - 1]) && Mild(es[|es| - 1])
  {
    var front := es[..|es| - 1];
    assert forall i :: 0 <= i < |front| ==> front[i] == es[i];
  }

  lemma MildStep(w: World, e: Event)
    requires Inv(w) && Enabled(w, e)
    ensures w.lost.blocks == [] && Mild(e) <==> !Handle(w, e).life.faulted && Handle(w, e).lost.blocks == []
  {
    HandleFaultsIff(w, e);
    if !FaultsAt(w, e) {
      OneLostEach(w, e);
    }
  }

  /** Memory is used as it should be and nothing is lost exactly in the safe runs. */
  lemma {:induction false} NothingLostIffSafe(es: seq<Event>)
    requires Possible(es)
    ensures Safe(es) <==> !Reached(es).life.faulted && Reached(es).lost.blocks == []
  {
    if es != [] {
      var front, last := es[..|es| - 1], es[|es| - 1];
      SafeSoFar(es);
      NothingLostIffSafe(front);
      if !Reached(front).life.faulted {
        RunKeepsInv(front);
        MildStep(Reached(front), last);
      }
    }
  }

  // What is conserved, and what is given back

  // The counters, the flags and the upstreams' HTTP sessions tell what is under way.
  predicate AddsUp(w: World) {
    && w.pending == Counters(CountOf(w, Resolving), CountOf(w, Connecting), CountOf(w, Awaiting))
    && UnderWay(w) == 2
    && (w.name.http <==> PhaseOf(w.name) in {Connecting, Awaiting})
    && (w.joke.http <==> PhaseOf(w.joke) in {Connecting, Awaiting})
  }

  // The upstreams under way, and those that have replied.
  function UnderWay(w: World): int {
    Total(w.pending) + (if w.name.replied then 1 else 0) + (if w.joke.replied then 1 else 0)
  }

  // Nobody holds the block but names that wait, and it is given back once when there are none.
  predicate Returned(c: Control, names: nat) {
    c.refcnt == 0 && c.frees == if names == 0 then 1 else 0
  }

  // Everything is in order: no memory was misused; what is under way adds up; and a session that is gone
  // was freed once and has left each of its control blocks to be given back.
  predicate Settled(w: World) {
    && !w.life.faulted
    && (w.life.alive && w.client.http == MessageComplete ==> AddsUp(w))
    && (!w.life.alive ==>
          && w.life.frees == 1 && (w.block.Some? ==> Returned(w.block.value, PendingDns(w)))
          && forall k :: 0 <= k < |w.lost.blocks| ==>
               var kept := w.lost.blocks[k]; Returned(kept.block, Waiting(kept.name, kept.joke)))
  }

  lemma PhasesCover(w: World)
    requires PhaseOf(w.name) != NotYet && PhaseOf(w.joke) != NotYet
    ensures CountOf(w, Resolving) + CountOf(w, Connecting) + CountOf(w, Awaiting) + CountOf(w, Replied) == 2
    ensures CountOf(w, Replied) == (if w.name.replied then 1 else 0) + (if w.joke.replied then 1 else 0)
  {
  }

  lemma OnceAddsUp(w: World)
    requires Live(w) && w.client.http == MessageComplete
    ensures AddsUp(w)
  {
    PhasesCover(w);
  }

  lemma WhatIsUnderWay(w: World)
    requires Inv(w) && w.life.alive && w.client.http == MessageComplete
    ensures UnderWay(w) == 2 + 2 * |w.lost.blocks| && (AddsUp(w) <==> w.lost.blocks == [])
  {
    if w.lost.blocks == [] {
      OnceAddsUp(w);
    }
  }

  lemma SettledIffNothingLost(w: World)
    requires Inv(w)
    ensures Settled(w) <==> w.lost.blocks == []
  {
    if w.life.alive && w.client.http == MessageComplete {
      WhatIsUnderWay(w);
    }
    if w.lost.blocks != [] {
      assert KeptOk(w.lost.blocks[0]);
    }
  }

  /** Over all runs, everything is in order exactly when no message was announced again and none where the
      resolver is missing or hasty. */
  lemma SettledIffSafe(es: seq<Event>)
    requires Possible(es)
    ensures Settled(Reached(es)) <==> Safe(es)
  {
    NothingLostIffSafe(es);
    if !Reached(es).life.faulted {
      RunKeepsInv(es);
      SettledIffNothingLost(Reached(es));
    }
  }

  /** What is under way is conserved: each announcement of the client's message puts two upstreams under way
      or among the replied, from which they never leave a live session; and the counters, flags and HTTP
      sessions tell what is under way exactly when there was one announcement. */
  lemma {:induction false} Conservation(es: seq<Event>)
    requires Possible(es)
    ensures var w := Reached(es);
            !w.life.faulted && w.life.alive && w.client.http == MessageComplete ==>
              UnderWay(w) == 2 * (1 + Repeats(es)) && (AddsUp(w) <==> Repeats(es) == 0)
  {
    if !Reached(es).life.faulted {
      RunKeepsInv(es);
      RepeatsAreLost(es);
      if Reached(es).life.alive && Reached(es).client.http == MessageComplete {
        WhatIsUnderWay(Reached(es));
      }
    }
  }

  /** The session is freed once. The control block at hand is given back exactly when the session is gone and
      its names are done with, after which only what was lost can call back. A lost one, and there is one for
      each time the message was announced again, is never given back. */
  lemma GivenBack(es: seq<Event>)
    requires Possible(es) && !Reached(es).life.faulted
    ensures var w := Reached(es);
            && w.life.frees == (if w.life.alive then 0 else 1)
            && (w.block.Some? ==> w.block.value.frees == if !w.life.alive && PendingDns(w) == 0 then 1 else 0)
            && (!w.life.alive && PendingDns(w) == 0 ==> forall e :: Enabled(w, e) ==> OfLost(e))
            && |w.lost.blocks| == Repeats(es)
            && forall k :: 0 <= k < |w.lost.blocks| ==>
                 w.lost.blocks[k].block.refcnt == 1 && w.lost.blocks[k].block.frees == 0
  {
    RunKeepsInv(es);
    RepeatsAreLost(es);
    var w := Reached(es);
    forall k | 0 <= k < |w.lost.blocks|
      ensures w.lost.blocks[k].block.refcnt == 1 && w.lost.blocks[k].block.frees == 0
    {
      assert KeptOk(w.lost.blocks[k]);
    }
  }

  // What is answered, and when the session is closed

  /** One response at most, made of both replies, whichever came first. The session is in one of three states
      between callbacks; it is in CLIENT_RESPONSE exactly when both replies are in, unless its message was
      announced again, after which it never is. */
  lemma {:induction false} RespondsOnce(es: seq<Event>)
    requires Possible(es) && !Reached(es).life.faulted
    ensures var w := Reached(es);
            && Answered(w)
            && (w.life.alive ==>
                  && w.state in {ParsingClientRequest, ResolvingWebserverDomains, ClientResponse}
                  && (w.state == ClientResponse <==> Replies(w) && Repeats(es) == 0)
                  && (Replies(w) <==> |w.record.responses| == 1)
                  && (Replies(w) ==> w.client.http == MessageComplete))
  {
    RunKeepsInv(es);
    RepeatsAreLost(es);
  }

  /** The strings are read where they are NULL exactly when a reply that can be read comes to a live session
      whose client's message was announced again. */
  lemma NullReadIff(es: seq<Event>, e: Event)
    requires Possible(es + [e]) && !Reached(es).life.faulted && Reached(es).life.alive
    ensures Possible(es) && Reached(es + [e]) == Handle(Reached(es), e)
    ensures Reached(es + [e]).life.nullRead <==> Readable(e) && Repeats(es) > 0
  {
    assert (es + [e])[..|es|] == es;
    RunKeepsInv(es);
    RepeatsAreLost(es);
    var w := Reached(es);
    if !FaultsAt(w, e) {
      HandleKeepsInv(w, e);
    } else if Hazardous(e) {
      HazardReadsNoText(w, e);
    } else {
      NullIsRead(w, e);
    }
  }

  lemma HazardReadsNoText(w: World, e: Event)
    requires Hazardous(e) && !w.life.nullRead
    ensures !Handle(w, e).life.nullRead
  {
  }

  // The channel's callbacks close a session that has answered and been heard; nothing else counts as such.
  predicate ClosesWhenFlushed(w: World, e: Event) {
    && w.state == ClientResponse && |w.record.responses| == 1
    && ((e in {ClientEof, ClientReadable} && !w.client.output)
        || (e.ClientWritable? && (e.drained || !w.client.output)))
  }

  lemma OthersFlushNothing(w: World, e: Event)
    requires Inv(w) && Enabled(w, e) && w.life.alive && !Closes(e)
    ensures Handle(w, e).life.removal != Flushed
  {
  }

  lemma ClosedWhenFlushed(w: World, eof: bool, output: bool)
    requires Inv(w) && w.life.alive && (output ==> w.client.output)
    ensures var v := w.(client := w.client.(eof := eof, output := output));
            ShouldClose(v).life.removal == Flushed <==> w.state == ClientResponse && !output
  {
    DrainKeepsInv(w, eof, output);
    ClosingKeepsInv(w.(client := w.client.(eof := eof, output := output)));
  }

  lemma StepClosesWhenFlushed(w: World, e: Event)
    requires Inv(w) && Enabled(w, e) && w.life.alive
    ensures Handle(w, e).life.removal == Flushed <==> ClosesWhenFlushed(w, e)
  {
    if !Closes(e) {
      OthersFlushNothing(w, e);
    } else {
      ClosedWhenFlushed(w, w.client.eof || e.ClientEof?, w.client.output && !(e.ClientWritable? && e.drained));
    }
  }

  /** The client's channel closes its session exactly when the response is queued and has been sent. */
  lemma {:induction false} ClosesOnceFlushed(es: seq<Event>, e: Event)
    requires Possible(es) && !Reached(es).life.faulted && Enabled(Reached(es), e)
    ensures var w := Reached(es);
            w.life.alive ==> (Handle(w, e).life.removal == Flushed <==> ClosesWhenFlushed(w, e))
  {
    RunKeepsInv(es);
    if Reached(es).life.alive {
      StepClosesWhenFlushed(Reached(es), e);
    }
  }

  /** A name resolved after the session is gone touches nothing but its request and the control block. */
  lemma {:induction false} LateNamesAreHarmless(es: seq<Event>, u: Upstream, outcome: DnsOutcome)
    requires Possible(es) && !Reached(es).life.faulted && Enabled(Reached(es), DnsDone(u, outcome))
    ensures var w := Reached(es);
            !w.life.alive ==>
              var v := Handle(w, DnsDone(u, outcome));
              !v.life.faulted && v == WithSide(w, u, SideOf(w, u).(dns := Over)).(block := v.block)
  {
    RunKeepsInv(es);
    if !Reached(es).life.alive {
      DnsLateKeepsInv(Reached(es), u, outcome);
      RequestFreed(Reached(es), u);
    }
  }

  // That the protocol gets there

  // The run makes the world.
  predicate Makes(es: seq<Event>, w: World) {
    Possible(es) && Reached(es) == w
  }

  // The replies of a run that could be read, in order.
  function RepliesIn(es: seq<Event>): seq<ReplyBody> {
    if es == [] then []
    else RepliesIn(es[..|es| - 1]) + (if Readable(es[|es| - 1]) then [es[|es| - 1].body] else [])
  }

  lemma OneMore(es: seq<Event>, w: World, e: Event) returns (more: seq<Event>)
    requires Makes(es, w) && Enabled(w, e)
    ensures Makes(more, Handle(w, e)) && more == es + [e]
    ensures RepliesIn(more) == RepliesIn(es) + (if Readable(e) then [e.body] else [])
  {
    more := es + [e];
    assert more[..|es|] == es;
  }

  const RESOLVING := Side(false, false, Pending, false)
  const ASKED := Side(true, false, Over, true)

  // The names are asked for, the upstreams are so far, and nothing has failed.
  function Underway(name: Side, joke: Side, pending: Counters, names: nat): World {
    NewSession().(state := ResolvingWebserverDomains, name := name, joke := joke, pending := pending, me := true,
                  block := Some(New(SESSION, None).(weakRefcnt := names)),
                  client := Client(MessageComplete, false, false))
  }

  function BothResolving(): World {
    Underway(RESOLVING, RESOLVING, Counters(2, 0, 0), 2)
  }

  function BothConnecting(): World {
    Underway(CONNECTING, CONNECTING, Counters(0, 2, 0), 0)
  }

  // Both upstreams are connected and asked.
  function BothAsked(): World {
    Underway(ASKED, ASKED, Counters(0, 0, 2), 0)
  }

  lemma ResolvingNext()
    ensures Handle(NewSession(), ClientMessage(true, Started, Started)) == BothResolving()
  {
    StartAsksBoth(NewSession().(client := Client(MessageComplete, false, false)));
  }

  lemma GetsResolving() returns (es: seq<Event>)
    ensures Makes(es, BothResolving()) && RepliesIn(es) == []
  {
    ResolvingNext();
    assert Makes([], NewSession());
    es := OneMore([], NewSession(), ClientMessage(true, Started, Started));
  }

  lemma GetsConnecting() returns (es: seq<Event>)
    ensures Makes(es, BothConnecting()) && RepliesIn(es) == []
  {
    es := GetsResolving();
    es := OneMore(es, BothResolving(), DnsDone(NameServer, Address(true)));
    es := OneMore(es, Handle(BothResolving(), DnsDone(NameServer, Address(true))), DnsDone(JokeServer, Address(true)));
  }

  lemma GetsAsked() returns (es: seq<Event>)
    ensures Makes(es, BothAsked()) && RepliesIn(es) == []
  {
    es := GetsConnecting();
    es := OneMore(es, BothConnecting(), Connected(JokeServer, true));
    es := OneMore(es, Handle(BothConnecting(), Connected(JokeServer, true)), Connected(NameServer, true));
  }

  // The two replies are in and the response made of them waits to be sent.
  function BothReplied(name: string, surname: string, joke: string): World {
    var side := Side(false, true, Over, true);
    BothAsked().(state := ClientResponse, name := side, joke := side, pending := Counters(0, 0, 0),
                 client := Client(MessageComplete, true, false),
                 record := Record(Some((name, surname)), Some(joke), [Response(name, surname, joke)]))
  }

  lemma GetsRepliedNameFirst(name: string, surname: string, joke: string) returns (es: seq<Event>)
    ensures Makes(es, BothReplied(name, surname, joke))
    ensures RepliesIn(es) == [NameReply(name, surname), JokeReply(joke)]
  {
    var w, all := BothAsked(), Grants(true, true, true);
    var one := Reply(NameServer, NameReply(name, surname), all);
    es := GetsAsked();
    es := OneMore(es, w, one);
    es := OneMore(es, Handle(w, one), Reply(JokeServer, JokeReply(joke), all));
  }

  lemma GetsRepliedJokeFirst(name: string, surname: string, joke: string) returns (es: seq<Event>)
    ensures Makes(es, BothReplied(name, surname, joke))
    ensures RepliesIn(es) == [JokeReply(joke), NameReply(name, surname)]
  {
    var w, all := BothAsked(), Grants(true, true, true);
    var one := Reply(JokeServer, JokeReply(joke), all);
    es := GetsAsked();
    es := OneMore(es, w, one);
    es := OneMore(es, Handle(w, one), Reply(NameServer, NameReply(name, surname), all));
  }

  /** Whatever the upstreams reply and whichever replies first, there is a run that makes the response of it
      and closes once that is sent. */
  lemma AnyReplyCanBeServed(name: string, surname: string, joke: string, jokeFirst: bool) returns (es: seq<Event>)
    ensures Possible(es) && Safe(es)
    ensures RepliesIn(es) == if jokeFirst then [JokeReply(joke), NameReply(name, surname)]
                             else [NameReply(name, surname), JokeReply(joke)]
    ensures var w := Reached(es);
            && !w.life.faulted && w.life.removal == Flushed && w.record.responses == [Response(name, surname, joke)]
            && w.block.Some? && w.block.value.frees == 1
  {
    if jokeFirst {
      es := GetsRepliedJokeFirst(name, surname, joke);
    } else {
      es := GetsRepliedNameFirst(name, surname, joke);
    }
    es := OneMore(es, BothReplied(name, surname, joke), ClientWritable(true));
    NothingLostIffSafe(es);
  }

  // The message is announced again while the response waits.
  function Reopened(name: string, surname: string, joke: string): World {
    var side := Side(false, true, Pending, true);
    var w := BothReplied(name, surname, joke);
    w.(state := ResolvingWebserverDomains, name := side, joke := side, pending := Counters(2, 0, 0),
       block := Some(New(SESSION, None).(weakRefcnt := 2)),
       lost := Lost([Kept(New(SESSION, None), Over, Over)], []))
  }

  lemma AgainNext(name: string, surname: string, joke: string)
    ensures var w := BothReplied(name, surname, joke);
            Handle(w, ClientAgain(true, Started, Started)) == Reopened(name, surname, joke)
  {
    var v := Overwritten(BothReplied(name, surname, joke));
    assert KeptOk(Kept(New(SESSION, None), Over, Over));
    StartAsksBoth(v);
  }

  lemma GetsReopened(name: string, surname: string, joke: string) returns (es: seq<Event>)
    ensures Makes(es, Reopened(name, surname, joke))
  {
    es := GetsRepliedJokeFirst(name, surname, joke);
    AgainNext(name, surname, joke);
    es := OneMore(es, BothReplied(name, surname, joke), ClientAgain(true, Started, Started));
  }

  // And one server is asked once more.
  lemma GetsAskedAgain(name: string, surname: string, joke: string, u: Upstream)
    returns (es: seq<Event>, w: World)
    ensures Makes(es, w) && !w.life.faulted && w.life.alive && |w.lost.blocks| == 1
    ensures SideOf(w, u).http && SideOf(w, u).connected
  {
    es := GetsReopened(name, surname, joke);
    w := Reopened(name, surname, joke);
    es := OneMore(es, w, DnsDone(u, Address(true)));
    w := Handle(w, DnsDone(u, Address(true)));
    es := OneMore(es, w, Connected(u, true));
    w := Handle(w, Connected(u, true));
  }

  /** Input that comes in while the response waits can end in a string being read at NULL: the message is
      announced again, one name is resolved, its server connected to and asked, and it replies. */
  lemma RepeatCanReadNull(name: string, surname: string, joke: string, u: Upstream, body: ReplyBody)
    returns (es: seq<Event>)
    requires Fits(u, body) && !body.Garbled?
    ensures es != [] && Possible(es) && Repeats(es) == 1
    ensures !Reached(es[..|es| - 1]).life.faulted && Reached(es[..|es| - 1]).life.alive
    ensures Reached(es).life.faulted && Reached(es).life.nullRead
  {
    var run, w := GetsAskedAgain(name, surname, joke, u);
    RunKeepsInv(run);
    RepeatsAreLost(run);
    var e := Reply(u, body, Grants(true, true, true));
    es := OneMore(run, w, e);
    NullIsRead(w, e);
    assert es[..|es| - 1] == run;
  }
}
