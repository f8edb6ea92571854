/** What the callbacks of the session protocol do, told by the callbacks themselves: which of them end a session
    and how, how far each takes an upstream, and what a run has heard. */
module SessionEffects {
  import opened Memory
  import opened Parser
  import opened Reference
  import opened Session
  import opened SessionRuns

  // What ends a session

  predicate AllGranted(grants: Grants) {
    grants.first && grants.second && grants.write
  }

  // The reply completes the pair.
  predicate CompletesPair(w: World, u: Upstream) {
    if u == NameServer then w.joke.replied else w.name.replied
  }

  // The callback ends a live session: a name without an address that can be connected to, a request that could
  // not be written, a reply that could not be read, or not be answered with when the other one is in, a broken
  // channel, a failed allocation at an announcement, or the client's channel with the response sent.
  predicate Ends(w: World, e: Event) {
    match e
    case ClientAdvance(_) => false
    case ClientMessage(block, first, second) => !block || first == NoMemory || second == NoMemory
    case ClientAgain(block, first, second) => !block || first == NoMemory || second == NoMemory
    case DnsDone(_, outcome) => outcome != Address(true)
    case LostDns(_, _, outcome) => outcome != Address(true)
    case Connected(_, written) => !written
    case LostConnected(_, written) => !written
    case Reply(u, body, grants) => body.Garbled? || (CompletesPair(w, u) && !AllGranted(grants))
    case LostReply(_, body, _) => body.Garbled?
    case LostBroken(_) => true
    case ChannelBroken(_) => true
    case UpstreamEof(_) => false
    case ClientEof => w.state == ClientResponse && !w.client.output
    case ClientWritable(drained) => w.state == ClientResponse && (drained || !w.client.output)
    case ClientReadable => w.state == ClientResponse
  }

  // The state the session is left in by what ends it.
  function LastState(w: World, e: Event): SessionState {
    match e
    case DnsDone(_, outcome) => if outcome.Address? then ErrorConnectingToWs else ErrorResolvingDomain
    case LostDns(_, _, outcome) => if outcome.Address? then ErrorConnectingToWs else ErrorResolvingDomain
    case Connected(_, _) => ErrorRequestingFromWs
    case LostConnected(_, _) => ErrorRequestingFromWs
    case Reply(_, _, _) => ErrorClientResponse
    case LostReply(_, _, _) => ErrorClientResponse
    case _ => w.state
  }

  // A live session ended exactly as it should, or did not.
  predicate EndsRight(w: World, e: Event, v: World) {
    && (v.life.alive <==> !Ends(w, e))
    && (Ends(w, e) ==> v.state == LastState(w, e) && v.life.removal == (if Closes(e) then Flushed else Broken))
  }

  lemma MessageEndsRight(w: World, e: Event)
    requires Inv(w) && Enabled(w, e) && !FaultsAt(w, e) && w.life.alive && (e.ClientMessage? || e.ClientAgain?)
    ensures EndsRight(w, e, Handle(w, e))
  {
    var v := if e.ClientMessage? then w.(client := w.client.(http := MessageComplete)) else Overwritten(w);
    if e.ClientAgain? { OverwrittenIsHeld(w); }
    if !Ends(w, e) {
      StartAsksBoth(v);
    }
  }

  lemma DnsEndsRight(w: World, e: Event)
    requires Inv(w) && Enabled(w, e) && w.life.alive && e.DnsDone?
    ensures EndsRight(w, e, Handle(w, e))
  {
    RequestFreed(w, e.u);
  }

  lemma LostDnsEndsRight(w: World, e: Event)
    requires Inv(w) && Enabled(w, e) && w.life.alive && e.LostDns?
    ensures EndsRight(w, e, Handle(w, e))
  {
    LostDnsGoesOn(w, e.k, e.u, e.outcome);
  }

  lemma ReplyEndsRight(w: World, e: Event)
    requires Inv(w) && Enabled(w, e) && !FaultsAt(w, e) && w.life.alive && e.Reply? && !e.body.Garbled?
    ensures EndsRight(w, e, Handle(w, e))
  {
    ReplyIsHeard(w, e.u, e.body, e.grants);
  }

  lemma ClosingEndsRight(w: World, e: Event)
    requires Inv(w) && Enabled(w, e) && w.life.alive && Closes(e)
    ensures EndsRight(w, e, Handle(w, e))
  {
    var eof, output := w.client.eof || e.ClientEof?, w.client.output && !(e.ClientWritable? && e.drained);
    DrainKeepsInv(w, eof, output);
    ClosingKeepsInv(w.(client := w.client.(eof := eof, output := output)));
  }

  lemma OthersEndRight(w: World, e: Event)
    requires Inv(w) && Enabled(w, e) && !FaultsAt(w, e) && w.life.alive && !Closes(e)
    requires !e.ClientMessage? && !e.ClientAgain? && !e.DnsDone? && !e.LostDns? && !(e.Reply? && !e.body.Garbled?)
    ensures EndsRight(w, e, Handle(w, e))
  {
  }

  /** A callback ends a live session if and only if it is one of those, and leaves the state that tells why. */
  lemma EndsExactly(w: World, e: Event)
    requires Inv(w) && Enabled(w, e) && !FaultsAt(w, e) && w.life.alive
    ensures EndsRight(w, e, Handle(w, e))
  {
    if e.ClientMessage? || e.ClientAgain? {
      MessageEndsRight(w, e);
    } else if e.DnsDone? {
      DnsEndsRight(w, e);
    } else if e.LostDns? {
      LostDnsEndsRight(w, e);
    } else if e.Reply? && !e.body.Garbled? {
      ReplyEndsRight(w, e);
    } else if Closes(e) {
      ClosingEndsRight(w, e);
    } else {
      OthersEndRight(w, e);
    }
  }

  // One of the run's callbacks ended the session.
  predicate Ended(es: seq<Event>) {
    var n := |es| - 1;
    es != [] && (Ended(es[..n]) || Ends(Reached(es[..n]), es[n]))
  }

  /** Over all runs without misuse: the session lives if and only if none of the callbacks was one that ends it. */
  lemma {:induction false} LivesUntilEnded(es: seq<Event>)
    requires Possible(es) && !Reached(es).life.faulted
    ensures Reached(es).life.alive <==> !Ended(es)
  {
    if es != [] {
      var front, last := es[..|es| - 1], es[|es| - 1];
      LivesUntilEnded(front);
      RunKeepsInv(front);
      HandleFaultsIff(Reached(front), last);
      if Reached(front).life.alive {
        EndsExactly(Reached(front), last);
      }
    }
  }

  // How far the upstreams get

  // The phase an upstream gets to by a callback that does not end the session.
  function NextPhase(p: Phase, u: Upstream, e: Event): Phase {
    match e
    case ClientMessage(_, _, _) => Resolving
    case DnsDone(x, _) => if x == u then Connecting else p
    case Connected(x, _) => if x == u then Awaiting else p
    case Reply(x, _, _) => if x == u then Replied else p
    case _ => p
  }

  predicate PhasesFollow(w: World, e: Event, v: World) {
    forall u :: PhaseOf(SideOf(v, u)) == NextPhase(PhaseOf(SideOf(w, u)), u, e)
  }

  lemma MessagePhases(w: World, e: Event)
    requires Inv(w) && Enabled(w, e) && !FaultsAt(w, e) && w.life.alive && e.ClientMessage? && !Ends(w, e)
    ensures PhasesFollow(w, e, Handle(w, e))
  {
    StartAsksBoth(w.(client := w.client.(http := MessageComplete)));
  }

  lemma DnsPhases(w: World, e: Event)
    requires Inv(w) && Enabled(w, e) && w.life.alive && w.lost.blocks == [] && e.DnsDone? && !Ends(w, e)
    ensures PhasesFollow(w, e, Handle(w, e))
  {
    DnsSuccessMoves(w, e.u);
  }

  lemma ReplyPhases(w: World, e: Event)
    requires Inv(w) && Enabled(w, e) && w.life.alive && w.lost.blocks == [] && e.Reply? && !Ends(w, e)
    ensures PhasesFollow(w, e, Handle(w, e))
  {
    ReplyIsHeard(w, e.u, e.body, e.grants);
  }

  /** A callback takes its own upstream one phase further and leaves the other one where it is. */
  lemma OnePhaseFurther(w: World, e: Event)
    requires Inv(w) && Enabled(w, e) && !FaultsAt(w, e) && w.life.alive && w.lost.blocks == []
    requires !e.ClientAgain? && !Ends(w, e)
    ensures PhasesFollow(w, e, Handle(w, e))
  {
    match e {
      case ClientMessage(_, _, _) => MessagePhases(w, e);
      case DnsDone(_, _) => DnsPhases(w, e);
      case Reply(_, _, _) => ReplyPhases(w, e);
      case _ =>
    }
  }

  // What a run hears

  // The name and surname of the last name reply among the callbacks that could be read.
  function NameIn(es: seq<Event>): Option<(string, string)> {
    if es == [] then None
    else
      var e := es[|es| - 1];
      if e.Reply? && e.body.NameReply? then Some((e.body.name, e.body.surname)) else NameIn(es[..|es| - 1])
  }

  // The same for the joke.
  function JokeIn(es: seq<Event>): Option<string> {
    if es == [] then None
    else
      var e := es[|es| - 1];
      if e.Reply? && e.body.JokeReply? then Some(e.body.joke) else JokeIn(es[..|es| - 1])
  }

  lemma ReplyIsRecorded(w: World, u: Upstream, body: ReplyBody, grants: Grants)
    requires Inv(w) && w.lost.blocks == [] && Enabled(w, Reply(u, body, grants)) && !body.Garbled?
    ensures var v := HttpResponse(w, u, body, grants);
            && v.record.name == (if body.NameReply? then Some((body.name, body.surname)) else w.record.name)
            && v.record.joke == (if body.JokeReply? then Some(body.joke) else w.record.joke)
  {
    ReplyIsHeard(w, u, body, grants);
  }

  lemma OthersAreNotRecorded(w: World, e: Event)
    requires Enabled(w, e) && !Readable(e)
    ensures Handle(w, e).record.name == w.record.name && Handle(w, e).record.joke == w.record.joke
  {
  }

  /** What is recorded is what the run's replies said. */
  lemma {:induction false} RecordIsHeard(es: seq<Event>)
    requires Possible(es) && !Reached(es).life.faulted
    ensures Reached(es).record.name == NameIn(es) && Reached(es).record.joke == JokeIn(es)
  {
    if es != [] {
      var front, e := es[..|es| - 1], es[|es| - 1];
      var w := Reached(front);
      RecordIsHeard(front);
      RunKeepsInv(front);
      HandleFaultsIff(w, e);
      if Readable(e) {
        ReplyIsRecorded(w, e.u, e.body, e.grants);
      } else {
        OthersAreNotRecorded(w, e);
      }
    }
  }

  // The response to what the run's replies said.
  function Due(es: seq<Event>): Option<Response> {
    match (NameIn(es), JokeIn(es))
    case (Some((name, surname)), Some(joke)) => Some(Response(name, surname, joke))
    case _ => None
  }

  /** What a run answers is what its replies said. */
  lemma AnswersWhatWasHeard(es: seq<Event>)
    requires Possible(es) && !Reached(es).life.faulted
    ensures var responses := Reached(es).record.responses;
            responses != [] ==> Due(es).Some? && responses == [Due(es).value]
    ensures Reached(es).life.alive ==> (Reached(es).record.responses != [] <==> Due(es).Some?)
  {
    RecordIsHeard(es);
    RespondsOnce(es);
    RunKeepsInv(es);
  }

  lemma ReplyGoesOn(w: World, u: Upstream, body: ReplyBody, grants: Grants)
    requires Inv(w) && w.lost.blocks == [] && Enabled(w, Reply(u, body, grants)) && !body.Garbled?
    requires CompletesPair(w, u) ==> AllGranted(grants)
    ensures var v := HttpResponse(w, u, body, grants);
            && v.life.alive && v.client.http == MessageComplete
            && (if CompletesPair(w, u)
                then v.state == ClientResponse && v.client.output && |v.record.responses| == 1
                else v.state == ResolvingWebserverDomains && !v.client.output && v.record.responses == [])
  {
    ReplyIsHeard(w, u, body, grants);
  }

  /** In a run whose message was announced once, a reply that can be read keeps the session, in either order. The
      first one is kept for later; the second one is answered, if everything is granted, with what both said. */
  lemma RepliesAreAnswered(es: seq<Event>, e: Event)
    requires Possible(es + [e]) && Safe(es) && e.Reply? && !e.body.Garbled?
    requires NameIn(es).Some? || JokeIn(es).Some? ==> AllGranted(e.grants)
    ensures var v := Reached(es + [e]);
            && !v.life.faulted && v.life.alive
            && (if NameIn(es).None? && JokeIn(es).None?
                then v.state == ResolvingWebserverDomains && !v.client.output && v.record.responses == []
                else && v.state == ClientResponse && v.client.output
                     && Due(es + [e]).Some? && v.record.responses == [Due(es + [e]).value])
  {
    var run, w := es + [e], Reached(es);
    assert run[..|es|] == es;
    NothingLostIffSafe(es);
    RunKeepsInv(es);
    RecordIsHeard(es);
    HandleFaultsIff(w, e);
    ReplyGoesOn(w, e.u, e.body, e.grants);
    AnswersWhatWasHeard(run);
  }

  // What the counters count, when more is under way than the session knows of

  function NamesWaiting(blocks: seq<Kept>): nat {
    if blocks == [] then 0
    else NamesWaiting(blocks[..|blocks| - 1]) + Waiting(blocks[|blocks| - 1].name, blocks[|blocks| - 1].joke)
  }

  function StraysThat(channels: seq<Stray>, connected: bool): nat {
    if channels == [] then 0
    else StraysThat(channels[..|channels| - 1], connected)
         + (if channels[|channels| - 1].connected == connected then 1 else 0)
  }

  function SidesThat(w: World, connected: bool): nat {
    (if w.name.http && w.name.connected == connected then 1 else 0)
    + (if w.joke.http && w.joke.connected == connected then 1 else 0)
  }

  // The counters count the names waited for and the channels connecting and awaiting, the lost ones with the rest.
  predicate CountsAll(w: World) {
    && w.pending.resolutions == PendingDns(w) + NamesWaiting(w.lost.blocks)
    && w.pending.connections == SidesThat(w, false) + StraysThat(w.lost.channels, false)
    && w.pending.replies == SidesThat(w, true) + StraysThat(w.lost.channels, true)
  }

  lemma OneMoreBlock(blocks: seq<Kept>, kept: Kept)
    ensures NamesWaiting(blocks + [kept]) == NamesWaiting(blocks) + Waiting(kept.name, kept.joke)
  {
    assert (blocks + [kept])[..|blocks|] == blocks;
  }

  lemma {:induction false} OneBlockSet(blocks: seq<Kept>, k: nat, kept: Kept)
    requires k < |blocks|
    ensures NamesWaiting(blocks[k := kept])
            == NamesWaiting(blocks) - Waiting(blocks[k].name, blocks[k].joke) + Waiting(kept.name, kept.joke)
  {
    var n := |blocks| - 1;
    if k == n {
      assert blocks[k := kept][..n] == blocks[..n];
    } else {
      OneBlockSet(blocks[..n], k, kept);
      assert blocks[k := kept][..n] == blocks[..n][k := kept];
    }
  }

  lemma OneMoreStray(channels: seq<Stray>, stray: Stray, connected: bool)
    ensures StraysThat(channels + [stray], connected)
            == StraysThat(channels, connected) + (if stray.connected == connected then 1 else 0)
  {
    assert (channels + [stray])[..|channels|] == channels;
  }

  lemma {:induction false} OneStraySet(channels: seq<Stray>, i: nat, stray: Stray, connected: bool)
    requires i < |channels|
    ensures StraysThat(channels[i := stray], connected)
            == StraysThat(channels, connected) - (if channels[i].connected == connected then 1 else 0)
               + (if stray.connected == connected then 1 else 0)
  {
    var n := |channels| - 1;
    if i == n {
      assert channels[i := stray][..n] == channels[..n];
    } else {
      OneStraySet(channels[..n], i, stray, connected);
      assert channels[i := stray][..n] == channels[..n][i := stray];
    }
  }

  lemma OnceCountsAll(w: World)
    requires Live(w) && w.lost == Lost([], [])
    ensures CountsAll(w)
  {
  }

  lemma AgainCounts(w: World, e: Event)
    requires Inv(w) && Enabled(w, e) && !FaultsAt(w, e) && CountsAll(w) && e.ClientAgain? && !Ends(w, e)
    ensures CountsAll(Handle(w, e))
  {
    OverwrittenIsHeld(w);
    OneMoreBlock(w.lost.blocks, Kept(w.block.value, w.name.dns, w.joke.dns));
    StartAsksBoth(Overwritten(w));
  }

  // A channel for u is connected to, which may take another one's place.
  lemma ConnectCounts(w: World, u: Upstream)
    requires w.life.alive
    ensures var v := HttpServerConnect(w, Some(u), true);
            && v.lost.blocks == w.lost.blocks && PendingDns(v) == PendingDns(w)
            && v.pending == Counted(w, 0, 1, 0).pending && v.life.alive == w.life.alive
            && (forall c :: SidesThat(v, c) + StraysThat(v.lost.channels, c)
                            == SidesThat(w, c) + StraysThat(w.lost.channels, c) + (if c then 0 else 1))
  {
    var side := SideOf(w, u);
    if side.http {
      OneMoreStray(w.lost.channels, Stray(u, side.connected, false), false);
      OneMoreStray(w.lost.channels, Stray(u, side.connected, false), true);
    }
  }

  lemma DnsGoesOn(w: World, u: Upstream)
    requires Inv(w) && w.life.alive && SideOf(w, u).dns == Pending
    ensures var freed := Counted(DnsRequestFree(w, u), -1, 0, 0);
            && DnsnameResolved(w, u, Some(u), Address(true)) == HttpServerConnect(freed, Some(u), true)
            && freed.life == w.life && freed.lost == w.lost && PendingDns(freed) == PendingDns(w) - 1
            && freed.pending == Counted(w, -1, 0, 0).pending
            && SidesThat(freed, false) == SidesThat(w, false) && SidesThat(freed, true) == SidesThat(w, true)
  {
    RequestFreed(w, u);
  }

  lemma DnsCounts(w: World, e: Event)
    requires Inv(w) && Enabled(w, e) && w.life.alive && CountsAll(w) && e.DnsDone? && !Ends(w, e)
    ensures CountsAll(Handle(w, e))
  {
    DnsGoesOn(w, e.u);
    ConnectCounts(Counted(DnsRequestFree(w, e.u), -1, 0, 0), e.u);
    assert Handle(w, e) == DnsnameResolved(w, e.u, Some(e.u), Address(true));
  }

  lemma LostDnsCounts(w: World, e: Event)
    requires Inv(w) && Enabled(w, e) && w.life.alive && CountsAll(w) && e.LostDns? && !Ends(w, e)
    ensures CountsAll(Handle(w, e))
  {
    LostDnsGoesOn(w, e.k, e.u, e.outcome);
    OneBlockSet(w.lost.blocks, e.k, DnsOver(w.lost.blocks[e.k], e.u));
    ConnectCounts(Counted(LostDnsFreed(w, e.k, e.u), -1, 0, 0), e.u);
  }

  lemma LostConnectCounts(w: World, e: Event)
    requires Inv(w) && Enabled(w, e) && w.life.alive && CountsAll(w) && e.LostConnected? && !Ends(w, e)
    ensures CountsAll(Handle(w, e))
  {
    var stray := w.lost.channels[e.i].(connected := true);
    OneStraySet(w.lost.channels, e.i, stray, false);
    OneStraySet(w.lost.channels, e.i, stray, true);
  }

  lemma ConnectedCounts(w: World, e: Event)
    requires Inv(w) && Enabled(w, e) && w.life.alive && CountsAll(w) && e.Connected? && !Ends(w, e)
    ensures CountsAll(Handle(w, e))
  {
  }

  lemma OthersCount(w: World, e: Event)
    requires Inv(w) && Enabled(w, e) && !FaultsAt(w, e) && w.life.alive && w.lost.blocks != [] && CountsAll(w)
    requires !Ends(w, e) && !e.ClientAgain? && !e.DnsDone? && !e.Connected? && !OfLost(e)
    ensures CountsAll(Handle(w, e))
  {
  }

  lemma StepCountsAll(w: World, e: Event)
    requires Inv(w) && Enabled(w, e) && !FaultsAt(w, e) && w.life.alive && CountsAll(w) && !Ends(w, e)
    requires w.lost.blocks != [] || e.ClientAgain?
    ensures CountsAll(Handle(w, e))
  {
    match e {
      case ClientAgain(_, _, _) => AgainCounts(w, e);
      case DnsDone(_, _) => DnsCounts(w, e);
      case LostDns(_, _, _) => LostDnsCounts(w, e);
      case Connected(_, _) => ConnectedCounts(w, e);
      case LostConnected(_, _) => LostConnectCounts(w, e);
      case LostReply(_, _, _) =>
      case LostBroken(_) =>
      case _ => OthersCount(w, e);
    }
  }

  lemma NothingLostYet(w: World, e: Event)
    requires Inv(w) && Enabled(w, e) && !FaultsAt(w, e) && w.lost.blocks == [] && !e.ClientAgain?
    ensures Handle(w, e).lost.blocks == []
  {
    OneLostEach(w, e);
  }

  /** Over all runs without misuse, however often the message was announced: a live session's counters count exactly
      the names waited for, the channels connecting and the channels awaiting a reply, the lost ones included. */
  lemma {:induction false} CountersCountAll(es: seq<Event>)
    requires Possible(es) && !Reached(es).life.faulted && Reached(es).life.alive
    ensures CountsAll(Reached(es))
  {
    RunKeepsInv(es);
    var v := Reached(es);
    if v.lost.blocks == [] {
      OnceCountsAll(v);
    } else {
      var front, e := es[..|es| - 1], es[|es| - 1];
      var w := Reached(front);
      RunKeepsInv(front);
      HandleFaultsIff(w, e);
      CountersCountAll(front);
      EndsExactly(w, e);
      if w.lost.blocks == [] && !e.ClientAgain? { NothingLostYet(w, e); }
      StepCountsAll(w, e);
    }
  }

  // That what is lost does come back

  // A session that is gone, with both its names waited for.
  lemma GetsGone() returns (es: seq<Event>, w: World)
    ensures Makes(es, w) && Inv(w) && !w.life.alive && w.name.dns == Pending && w.joke.dns == Pending
  {
    es := GetsResolving();
    RunKeepsInv(es);
    w := BothResolving();
    HandleKeepsInv(w, ChannelBroken(ClientChannel));
    es := OneMore(es, w, ChannelBroken(ClientChannel));
    w := Handle(w, ChannelBroken(ClientChannel));
  }

  lemma LateStep(es: seq<Event>, w: World, u: Upstream, outcome: DnsOutcome) returns (more: seq<Event>, v: World)
    requires Makes(es, w) && Inv(w) && !w.life.alive && SideOf(w, u).dns == Pending
    ensures Makes(more, v) && Inv(v) && !v.life.alive
    ensures v == WithSide(w, u, SideOf(w, u).(dns := Over)).(block := v.block) && v.block.Some?
  {
    DnsLateKeepsInv(w, u, outcome);
    RequestFreed(w, u);
    more := OneMore(es, w, DnsDone(u, outcome));
    v := Handle(w, DnsDone(u, outcome));
  }

  /** Names can be resolved after their session is gone, and then give its control block back. */
  lemma LateNamesGiveBack(first: Upstream, one: DnsOutcome, two: DnsOutcome) returns (es: seq<Event>)
    ensures Possible(es) && !Reached(es).life.faulted && !Reached(es).life.alive
    ensures Reached(es).block.Some? && Reached(es).block.value.frees == 1
  {
    var w;
    es, w := GetsGone();
    es, w := LateStep(es, w, first, one);
    es, w := LateStep(es, w, if first == NameServer then JokeServer else NameServer, two);
  }

  lemma GetsReopenedTwice() returns (es: seq<Event>, w: World)
    ensures Makes(es, w) && Inv(w) && w.life.alive && |w.lost.blocks| == 2
    ensures w.lost.blocks[1].name == Pending && w.lost.blocks[1].joke == Pending
  {
    es := GetsReopened("", "", "");
    w := Reopened("", "", "");
    RunKeepsInv(es);
    var e := ClientAgain(true, Started, Started);
    ClientAgainKeepsInv(w, e);
    OverwrittenIsHeld(w);
    StartAsksBoth(Overwritten(w));
    es := OneMore(es, w, e);
    w := Handle(w, e);
  }

  /** A request for a name that keeps a lost control block can use its session after that is gone. */
  lemma LostNameCanUseTheGone(u: Upstream, outcome: DnsOutcome) returns (es: seq<Event>)
    ensures es != [] && Possible(es) && Reached(es).life.faulted
    ensures !Reached(es[..|es| - 1]).life.faulted && !Reached(es[..|es| - 1]).life.alive
    ensures es[|es| - 1] == LostDns(1, u, outcome)
  {
    var run, w := GetsReopenedTwice();
    var broken, late := ChannelBroken(ClientChannel), LostDns(1, u, outcome);
    HandleKeepsInv(w, broken);
    EndsExactly(w, broken);
    run := OneMore(run, w, broken);
    w := Handle(w, broken);
    GoneIsUsed(w, late);
    es := OneMore(run, w, late);
    assert es[..|es| - 1] == run;
  }

  // Both names are waited for, and u has a channel already.
  predicate Crowded(w: World, u: Upstream) {
    w.life.alive && SideOf(w, u).http && SideOf(w, u).dns == Pending
  }

  lemma AgainCrowds(w: World, u: Upstream)
    requires Inv(w) && Enabled(w, ClientAgain(true, Started, Started)) && SideOf(w, u).http
    ensures Crowded(Handle(w, ClientAgain(true, Started, Started)), u)
  {
    OverwrittenIsHeld(w);
    StartAsksBoth(Overwritten(w));
  }

  lemma ConnectDisplaces(w: World, u: Upstream)
    requires Inv(w) && Crowded(w, u)
    ensures var v := Handle(w, DnsDone(u, Address(true))); v.life.alive && v.lost.channels != []
  {
    DnsGoesOn(w, u);
  }

  lemma ReopenedConnects(u: Upstream)
    ensures var v := Handle(Reopened("", "", ""), DnsDone(u, Address(true)));
            SideOf(v, u).http && v.life.alive && v.client == Reopened("", "", "").client
  {
  }

  lemma GetsReconnecting(u: Upstream) returns (es: seq<Event>, w: World)
    ensures Makes(es, w) && Inv(w) && w.life.alive && SideOf(w, u).http
    ensures w.client.http == MessageComplete && w.client.output
  {
    var done := DnsDone(u, Address(true));
    w := Reopened("", "", "");
    es := GetsReopened("", "", "");
    RunKeepsInv(es);
    HandleKeepsInv(w, done);
    ReopenedConnects(u);
    es := OneMore(es, w, done);
    w := Handle(w, done);
  }

  lemma GetsCrowded(u: Upstream) returns (es: seq<Event>, w: World)
    ensures Makes(es, w) && Inv(w) && Crowded(w, u)
  {
    var again := ClientAgain(true, Started, Started);
    es, w := GetsReconnecting(u);
    AgainCrowds(w, u);
    HandleKeepsInv(w, again);
    es := OneMore(es, w, again);
    w := Handle(w, again);
  }

  // The place of a channel is taken by another one.
  lemma GetsStray(u: Upstream) returns (es: seq<Event>, w: World)
    ensures Makes(es, w) && Inv(w) && w.life.alive && w.lost.channels != []
  {
    var done := DnsDone(u, Address(true));
    es, w := GetsCrowded(u);
    ConnectDisplaces(w, u);
    HandleKeepsInv(w, done);
    es := OneMore(es, w, done);
    w := Handle(w, done);
  }

  /** And so can a channel whose place in the session was taken by another. */
  lemma StrayCanUseTheGone(u: Upstream) returns (es: seq<Event>)
    ensures es != [] && Possible(es) && Reached(es).life.faulted
    ensures !Reached(es[..|es| - 1]).life.faulted && !Reached(es[..|es| - 1]).life.alive
    ensures es[|es| - 1] == LostBroken(0)
  {
    var run, w := GetsStray(u);
    var broken := ChannelBroken(ClientChannel);
    HandleKeepsInv(w, broken);
    EndsExactly(w, broken);
    run := OneMore(run, w, broken);
    w := Handle(w, broken);
    GoneIsUsed(w, LostBroken(0));
    es := OneMore(run, w, LostBroken(0));
    assert es[..|es| - 1] == run;
  }
}
