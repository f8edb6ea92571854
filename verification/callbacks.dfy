/** The callbacks of webservice/session.c on a session object and its control blocks. Each does to them
    what the step of the same name does to the world. */
module Callbacks {
  import opened Memory
  import opened Parser
  import opened Reference
  import opened Session
  import opened SessionRuns

  // A control block that `me` was overwritten over, as the requests for names keep it.
  datatype Holder = Holder(block: ControlBlock, name: Dns, joke: Dns)

  ghost function KeptBy(h: Holder): Kept
    reads h.block
  {
    Kept(h.block.View(), h.name, h.joke)
  }

  ghost function BlocksOf(past: seq<Holder>): set<object> {
    set h | h in past :: h.block
  }

  ghost function AllKept(past: seq<Holder>): seq<Kept>
    reads BlocksOf(past)
  {
    seq(|past|, i requires 0 <= i < |past| reads BlocksOf(past) => KeptBy(past[i]))
  }

  class SessionObject {
    var state: SessionState
    var name: Side
    var joke: Side
    var texts: Texts
    var pending: Counters
    var me: ControlBlock?
    var shared: ControlBlock?  // the control block as the requests for names keep it
    var past: seq<Holder>      // and those they keep from before
    var strays: seq<Stray>
    var client: Client
    ghost var life: Life
    ghost var record: Record

    ghost function View(): World
      reads this, shared, BlocksOf(past)
    {
      World(state, name, joke, texts, pending, me != null,
            if shared != null then Some(shared.View()) else None, Lost(AllKept(past), strays), life, client, record)
    }

    // A session has no other control block than the one it made last, and that is none of those before.
    ghost predicate Valid()
      reads this
    {
      && (me != null ==> me == shared)
      && (forall i :: 0 <= i < |past| ==> past[i].block != shared)
      && (forall i, j :: 0 <= i < j < |past| ==> past[i].block != past[j].block)
    }

    constructor ()
      ensures Valid() && View() == NewSession() && shared == null && past == []
    {
      state, client := ParsingClientRequest, Client(MessageBegin, false, false);
      name, joke, texts, pending := UNASKED, UNASKED, Texts(None, None, None), Counters(0, 0, 0);
      me, shared, past, strays := null, null, [], [];
      life, record := Life(true, 0, false, false, Present), Record(None, None, []);
    }

    ghost method Touch()
      requires Valid()
      modifies this`life
      ensures Valid() && View() == Use(old(View()))
    {
      life := life.(faulted := life.faulted || !life.alive);
    }

    function SideFor(u: Upstream): Side
      reads this`name, this`joke
    {
      if u == NameServer then name else joke
    }

    method SetSide(u: Upstream, side: Side)
      requires Valid()
      modifies this`name, this`joke
      ensures Valid() && View() == WithSide(old(View()), u, side)
    {
      if u == NameServer {
        name := side;
      } else {
        joke := side;
      }
    }

    method Count(resolutions: int, connections: int, replies: int)
      requires Valid()
      modifies this`pending
      ensures Valid() && View() == Counted(old(View()), resolutions, connections, replies)
    {
      pending := Counters(pending.resolutions + resolutions, pending.connections + connections,
                          pending.replies + replies);
    }

    method DropBlock()
      requires Valid()
      modifies this`me, me
      ensures Valid() && me == null && View() == Dropped(old(View()))
    {
      var _ := ControlBlock.Dec(me);
      me := null;
    }

    // session_free
    method Free()
      requires Valid()
      modifies this, me
      ensures Valid() && shared == old(shared) && past == old(past) && View() == SessionFree(old(View()))
    {
      Touch();
      DropBlock();
      name, joke := name.(http := false), joke.(http := false);
      texts := Texts(None, None, None);
      life := life.(alive := false, frees := life.frees + 1);
    }

    // http_service_session_remove
    method RemoveSession(ghost why: Removal)
      requires Valid()
      modifies this, me
      ensures Valid() && shared == old(shared) && past == old(past) && View() == Remove(old(View()), why)
    {
      Free();
      life := life.(removal := why);
    }

    // session_state_set(session, state); http_service_session_remove(session)
    method FailWith(state: SessionState)
      requires Valid()
      modifies this, me
      ensures Valid() && shared == old(shared) && past == old(past) && View() == Fail(old(View()), state)
    {
      Touch();
      this.state := state;
      RemoveSession(Broken);
    }

    // http_sessions[] forgets the channel it has for u.
    method Displace(u: Upstream)
      requires Valid()
      modifies this`strays
      ensures Valid() && View() == Displaced(old(View()), u)
    {
      if SideFor(u).http {
        strays := strays + [Stray(u, SideFor(u).connected, false)];
      }
    }

    // http_server_connect
    method Connect(idx: Option<Upstream>, connecting: bool)
      requires Valid()
      modifies this, me
      ensures Valid() && shared == old(shared) && past == old(past)
      ensures View() == HttpServerConnect(old(View()), idx, connecting)
    {
      if !connecting {
        FailWith(ErrorConnectingToWs);
        return;
      }
      Touch();
      match idx {
        case Some(u) =>
          Displace(u);
          SetSide(u, SideFor(u).(http := true, connected := false));
        case None =>
          strays := strays + [Stray(JokeServer, false, false)];
      }
      Count(0, 1, 0);
    }

    // dns_request_free
    method FreeRequest(u: Upstream)
      requires Valid() && shared != null
      modifies this`name, this`joke, shared
      ensures Valid() && View() == DnsRequestFree(old(View()), u)
    {
      var _ := ControlBlock.WeakDec(shared);
      SetSide(u, SideFor(u).(dns := Over));
    }

    // dnsname_resolved_cb for a session that is still there
    method GoOn(idx: Option<Upstream>, outcome: DnsOutcome)
      requires Valid()
      modifies this, me
      ensures Valid() && shared == old(shared) && past == old(past)
      ensures View() == ResolvedTo(old(View()), idx, outcome)
    {
      if outcome.Address? {
        Touch();
        Count(-1, 0, 0);
        Connect(idx, outcome.connecting);
        return;
      }
      FailWith(ErrorResolvingDomain);
    }

    ghost method TouchBlock()
      requires Valid()
      modifies this`life
      ensures Valid() && View() == UseBlock(old(View()))
    {
      life := life.(faulted := life.faulted || shared == null || shared.frees > 0);
    }

    // dnsname_resolved_cb
    method NameResolved(u: Upstream, idx: Option<Upstream>, outcome: DnsOutcome)
      requires Valid() && shared != null
      modifies this, shared
      ensures Valid() && shared == old(shared) && past == old(past) && (me == null || me == old(me))
      ensures View() == DnsnameResolved(old(View()), u, idx, outcome)
    {
      TouchBlock();
      var session := ControlBlock.Get(shared);
      assert session == Referred(old(View()));
      FreeRequest(u);
      if session != NULL {
        GoOn(idx, outcome);
      }
    }

    // dnsname_resolve without a resolver
    method FailToResolve()
      requires Valid()
      modifies this, me
      ensures Valid() && shared == old(shared) && past == old(past) && (me == null || me == old(me))
      ensures View() == Unresolvable(old(View()))
    {
      var request := me;
      var session := ControlBlock.Get(request);
      if session != NULL {
        var _ := ControlBlock.WeakDec(request);
        FailWith(ErrorResolvingDomain);
      }
    }

    // The callback made before evdns_getaddrinfo returns.
    method NameResolvedAtOnce(u: Upstream, outcome: DnsOutcome)
      requires Valid()
      modifies this, me
      ensures Valid() && shared == old(shared) && past == old(past) && (me == null || me == old(me))
      ensures View() == ResolvedAtOnce(old(View()), u, outcome)
    {
      if me != null {
        NameResolved(u, None, outcome);
      } else {
        SetSide(u, SideFor(u).(dns := Over));
      }
    }

    // dnsname_resolve's last statements, which write to the request.
    ghost method FillRequest(u: Upstream)
      requires Valid()
      modifies this`life
      ensures Valid() && View() == FillIn(old(View()), u)
    {
      life := life.(faulted := life.faulted || SideFor(u).dns == Over);
    }

    // dnsname_resolve
    method ResolveName(u: Upstream, start: DnsStart)
      requires Valid()
      modifies this, me
      ensures Valid() && shared == old(shared) && past == old(past) && (me == null || me == old(me))
      ensures View() == DnsnameResolve(old(View()), u, start)
    {
      match start {
        case NoMemory =>
        case NoBase =>
          FailToResolve();
        case Immediate(outcome) =>
          SetSide(u, SideFor(u).(dns := Pending));
          NameResolvedAtOnce(u, outcome);
          FillRequest(u);
        case Started =>
          SetSide(u, SideFor(u).(dns := Pending));
          FillRequest(u);
      }
    }

    method TakeWeak()
      requires Valid()
      modifies me
      ensures View() == WeakTaken(old(View()))
    {
      var _ := ControlBlock.WeakInc(me);
    }

    // dns_request_new
    method RequestName(u: Upstream, start: DnsStart) returns (made: bool)
      requires Valid()
      modifies this, me
      ensures Valid() && shared == old(shared) && past == old(past) && (me == null || me == old(me))
      ensures made == (start != NoMemory) && View() == DnsRequestNew(old(View()), u, start)
    {
      if start == NoMemory {
        return false;
      }
      Touch();
      TakeWeak();
      ResolveName(u, start);
      Touch();
      Count(1, 0, 0);
      return true;
    }

    // `me` is about to be overwritten.
    method Overwrite()
      requires Valid()
      modifies this
      ensures Valid() && me == null && View() == Overwritten(old(View()))
      ensures shared == if old(me) == null then old(shared) else null
      ensures BlocksOf(past) <= BlocksOf(old(past)) + {old(shared)}
    {
      if me != null {
        past := past + [Holder(me, name.dns, joke.dns)];
        name, joke := name.(dns := Unasked), joke.(dns := Unasked);
        me, shared := null, null;
      }
    }

    // client_msg_complete from its second request on
    method RequestJokes(second: DnsStart)
      requires Valid()
      modifies this, me
      ensures Valid() && shared == old(shared) && past == old(past)
      ensures View() == AskJokes(old(View()), second)
    {
      var made := RequestName(JokeServer, second);
      if !made {
        RemoveSession(Broken);
        return;
      }
      Touch();
      state := ResolvingWebserverDomains;
    }

    // and from its first one on
    method RequestNames(first: DnsStart, second: DnsStart)
      requires Valid()
      modifies this, me
      ensures Valid() && shared == old(shared) && past == old(past)
      ensures View() == AskNames(old(View()), first, second)
    {
      var made := RequestName(NameServer, first);
      if !made {
        RemoveSession(Broken);
        return;
      }
      RequestJokes(second);
    }

    // reference_new
    method MakeBlock()
      requires Valid() && me == null
      modifies this`me, this`shared
      ensures Valid() && me == shared && fresh(shared)
      ensures View() == old(View()).(me := true, block := Some(New(SESSION, None)))
    {
      me := new ControlBlock(SESSION, None);
      shared := me;
    }

    // and once `me` may be overwritten
    method StartBoth(block: bool, first: DnsStart, second: DnsStart)
      requires Valid() && me == null
      modifies this
      ensures Valid() && (shared == old(shared) || fresh(shared)) && past == old(past)
      ensures View() == StartNames(old(View()), block, first, second)
    {
      if !block {
        RemoveSession(Broken);
        return;
      }
      MakeBlock();
      RequestNames(first, second);
    }

    // client_msg_complete
    method ClientComplete(block: bool, first: DnsStart, second: DnsStart)
      requires Valid()
      modifies this
      ensures Valid() && (shared == null || shared == old(shared) || fresh(shared))
      ensures BlocksOf(past) <= BlocksOf(old(past)) + {old(shared)}
      ensures View() == ClientMsgComplete(old(View()), block, first, second)
    {
      Touch();
      Overwrite();
      StartBoth(block, first, second);
    }

    // http_request_name and http_request_joke
    method RequestFrom(u: Upstream, written: bool)
      requires Valid()
      modifies this, me
      ensures Valid() && shared == old(shared) && past == old(past)
      ensures View() == HttpRequest(old(View()), u, written)
    {
      SetSide(u, SideFor(u).(connected := true));
      Touch();
      Count(0, -1, 0);
      if !written {
        FailWith(ErrorRequestingFromWs);
        return;
      }
      Count(0, 0, 1);
    }

    method SetTexts(t: Texts)
      requires Valid()
      modifies this`texts
      ensures Valid() && View() == old(View()).(texts := t)
    {
      texts := t;
    }

    method Queue(ghost response: Response)
      requires Valid()
      modifies this`record, this`client, this`state
      ensures Valid() && View() == Queued(old(View()), response)
    {
      record := record.(responses := record.responses + [response]);
      client := client.(output := true);
      state := ClientResponse;
    }

    // The response is made and queued, or fails to be.
    method MakeResponse(ghost response: Response, grants: Grants)
      requires Valid()
      modifies this, me
      ensures Valid() && shared == old(shared) && past == old(past)
      ensures View() == Respond(old(View()), response, grants)
    {
      SetTexts(texts.(name := None));
      if !grants.first {
        FailWith(ErrorClientResponse);
        return;
      }
      Touch();
      SetTexts(Texts(None, None, None));
      if !grants.second || !grants.write {
        FailWith(ErrorClientResponse);
        return;
      }
      Queue(response);
    }

    // http_client_response
    method RespondToClient(grants: Grants)
      requires Valid()
      modifies this, me
      ensures Valid() && shared == old(shared) && past == old(past)
      ensures View() == HttpClientResponse(old(View()), grants)
    {
      if !name.replied || !joke.replied {
        return;
      }
      if texts.name.None? || texts.surname.None? || texts.joke.None? {
        life := life.(faulted := true, nullRead := true);
        return;
      }
      MakeResponse(Response(texts.name.value, texts.surname.value, texts.joke.value), grants);
    }

    method Hear(u: Upstream, body: ReplyBody)
      requires Valid()
      modifies this`name, this`joke, this`texts, this`record
      ensures Valid() && View() == Heard(old(View()), u, body)
    {
      match body {
        case Garbled =>
        case NameReply(n, s) =>
          texts := texts.(name := Some(n), surname := Some(s));
          record := record.(name := Some((n, s)));
        case JokeReply(j) =>
          texts := texts.(joke := Some(j));
          record := record.(joke := Some(j));
      }
      SetSide(u, SideFor(u).(replied := true, http := false));
    }

    // http_response_name and http_response_joke
    method ReplyFrom(u: Upstream, body: ReplyBody, grants: Grants)
      requires Valid()
      modifies this, me
      ensures Valid() && shared == old(shared) && past == old(past)
      ensures View() == HttpResponse(old(View()), u, body, grants)
    {
      Touch();
      Count(0, 0, -1);
      if body.Garbled? {
        FailWith(ErrorClientResponse);
        return;
      }
      Hear(u, body);
      RespondToClient(grants);
    }

    // The callbacks of what the session has lost hold of

    ghost method TouchLost(k: nat)
      requires Valid() && k < |past|
      modifies this`life
      ensures Valid() && View() == UseLost(old(View()), k)
    {
      life := life.(faulted := life.faulted || past[k].block.frees > 0);
    }

    // A request that keeps a control block from before gives it up.
    method FreeLost(k: nat, u: Upstream)
      requires Valid() && k < |past|
      modifies this`past, this`life, past[k].block
      ensures Valid() && |past| == |old(past)| && forall i :: 0 <= i < |past| ==> past[i].block == old(past)[i].block
      ensures View() == LostDnsFreed(old(View()), k, u)
    {
      var h := past[k];
      TouchLost(k);
      var _ := ControlBlock.WeakDec(h.block);
      past := past[k := if u == NameServer then h.(name := Over) else h.(joke := Over)];
    }

    // dnsname_resolved_cb on such a request
    method LostNameResolved(k: nat, u: Upstream, outcome: DnsOutcome)
      requires Valid() && k < |past|
      modifies this, me, past[k].block
      ensures Valid() && shared == old(shared) && BlocksOf(past) == BlocksOf(old(past))
      ensures View() == LostDnsResolved(old(View()), k, u, outcome)
    {
      var session := ControlBlock.Get(past[k].block);
      assert session == old(View()).lost.blocks[k].block.ptr;
      FreeLost(k, u);
      if session != NULL {
        GoOn(Some(u), outcome);
      }
    }

    method SetStray(i: nat, stray: Stray)
      requires Valid() && i < |strays|
      modifies this`strays
      ensures Valid() && View() == old(View()).(lost := old(View()).lost.(channels := old(strays)[i := stray]))
    {
      strays := strays[i := stray];
    }

    // http_request_name and http_request_joke for a lost channel
    method LostRequest(i: nat, written: bool)
      requires Valid() && i < |strays|
      modifies this, me
      ensures Valid() && shared == old(shared) && past == old(past)
      ensures View() == LostConnect(old(View()), i, written)
    {
      Touch();
      SetStray(i, strays[i].(connected := true));
      Count(0, -1, 0);
      if !written {
        FailWith(ErrorRequestingFromWs);
        return;
      }
      Count(0, 0, 1);
    }

    // http_response_name and http_response_joke for a lost channel
    method LostReplyFrom(i: nat, body: ReplyBody, grants: Grants)
      requires Valid() && i < |strays|
      modifies this, me
      ensures Valid() && shared == old(shared) && past == old(past)
      ensures View() == LostResponse(old(View()), i, body, grants)
    {
      var stray := strays[i].(replied := true);
      Touch();
      SetStray(i, stray);
      Count(0, 0, -1);
      if body.Garbled? {
        FailWith(ErrorClientResponse);
        return;
      }
      Displace(stray.u);
      Hear(stray.u, body);
      RespondToClient(grants);
    }

    // client_ready_to_close
    method ReadyToCloseCb()
      requires Valid()
      modifies this, me
      ensures Valid() && shared == old(shared) && past == old(past) && View() == ReadyToClose(old(View()))
    {
      Touch();
      if state == ClientResponse {
        RemoveSession(Flushed);
      }
    }

    // http_session_channel_should_close
    method ClientShouldClose() returns (close: bool)
      requires Valid()
      modifies this, me
      ensures Valid() && shared == old(shared) && past == old(past)
      ensures close == Closing(old(View())) && View() == ShouldClose(old(View()))
    {
      if (client.eof && client.http == MessageBegin) || (client.http == MessageComplete && !client.output) {
        ReadyToCloseCb();
        return true;
      }
      return false;
    }

    method SetClient(c: Client)
      requires Valid()
      modifies this`client
      ensures Valid() && View() == old(View()).(client := c)
    {
      client := c;
    }

    // The client's channel reports something, and may be closed on that.
    method ClientChannel(c: Client)
      requires Valid()
      modifies this, me
      ensures Valid() && shared == old(shared) && past == old(past)
      ensures View() == ShouldClose(old(View()).(client := c))
    {
      SetClient(c);
      var _ := ClientShouldClose();
    }

    // What a callback of something the session has lost does.
    method LostCallback(e: Event)
      requires Valid() && OfLost(e) && Enabled(View(), e)
      modifies this, shared, BlocksOf(past)
      ensures Valid() && shared == old(shared) && BlocksOf(past) == BlocksOf(old(past))
      ensures View() == Handle(old(View()), e)
    {
      match e {
        case LostDns(k, u, outcome) =>
          LostNameResolved(k, u, outcome);
        case LostConnected(i, written) =>
          LostRequest(i, written);
        case LostReply(i, body, grants) =>
          LostReplyFrom(i, body, grants);
        case LostBroken(_) =>
          RemoveSession(Broken);
      }
    }

    // Whatever the environment calls back next.
    method Callback(e: Event)
      requires Valid() && Inv(View()) && Enabled(View(), e)
      modifies this, shared, BlocksOf(past)
      ensures Valid() && (shared == null || shared == old(shared) || fresh(shared))
      ensures BlocksOf(past) <= BlocksOf(old(past)) + {old(shared)}
      ensures View() == Handle(old(View()), e)
    {
      if OfLost(e) {
        LostCallback(e);
        return;
      }
      match e {
        case ClientAdvance(to) =>
          client := client.(http := to);
        case ClientMessage(block, first, second) =>
          client := client.(http := MessageComplete);
          ClientComplete(block, first, second);
        case ClientAgain(block, first, second) =>
          ClientComplete(block, first, second);
        case DnsDone(u, outcome) =>
          NameResolved(u, Some(u), outcome);
        case Connected(u, written) =>
          RequestFrom(u, written);
        case Reply(u, body, grants) =>
          ReplyFrom(u, body, grants);
        case ChannelBroken(_) =>
          RemoveSession(Broken);
        case ClientEof =>
          ClientChannel(client.(eof := true));
        case UpstreamEof(_) =>
        case ClientWritable(drained) =>
          ClientChannel(client.(output := client.output && !drained));
        case ClientReadable =>
          ClientChannel(client);
      }
    }
  }

  /** The life of one session object: any run the environment can make of it is a run of the protocol, up to
      and with the first misuse of memory. */
  method Serve(es: seq<Event>) returns (session: SessionObject)
    requires Possible(es) && (es != [] ==> !Reached(es[..|es| - 1]).life.faulted)
    ensures session.Valid() && session.View() == Reached(es)
    ensures fresh(session) && (session.shared != null ==> fresh(session.shared)) && fresh(BlocksOf(session.past))
    decreases |es|
  {
    if es == [] {
      session := new SessionObject();
      return;
    }
    var front, last := es[..|es| - 1], es[|es| - 1];
    RunKeepsInv(front);
    session := Serve(front);
    session.Callback(last);
  }
}
