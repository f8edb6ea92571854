/** The protocol of webservice/session.c: one client request fans out into two upstream requests, whose
    replies become one response. Every callback is a step; the environment picks the next one. */
module Session {
  import opened Memory
  import opened Parser
  import opened Reference
  import Joke

  datatype SessionState =
    | Start | ParsingClientRequest | ResolvingWebserverDomains | ConnectingToWebservers
    | RequestingFromWebservers | ClientResponse
    | ErrorResolvingDomain | ErrorConnectingToWs | ErrorRequestingFromWs | ErrorClientResponse

  datatype Upstream = NameServer | JokeServer

  // A dns_request: not made, waiting for its callback, or freed by it.
  datatype Dns = Unasked | Pending | Over

  // What belongs to one upstream: whether http_sessions[idx] is set, whether its reply is in, the
  // resolution that the control block at hand knows of, and whether its channel has reported the connection.
  datatype Side = Side(http: bool, replied: bool, dns: Dns, connected: bool)

  // A control block that `me` led to before it was overwritten, and the requests for names that keep it.
  datatype Kept = Kept(block: Control, name: Dns, joke: Dns)

  // An upstream's channel that http_sessions[] does not lead to any more.
  datatype Stray = Stray(u: Upstream, connected: bool, replied: bool)

  // What a session has lost hold of.
  datatype Lost = Lost(blocks: seq<Kept>, channels: seq<Stray>)

  datatype Removal = Present | Broken | Flushed

  // The strings a session owns.
  datatype Texts = Texts(name: Option<string>, surname: Option<string>, joke: Option<string>)

  datatype Counters = Counters(resolutions: int, connections: int, replies: int)

  // Whether the session is allocated, how often it was freed, whether memory was used that it should not
  // have been, whether that was the string at NULL, and what removed the session.
  datatype Life = Life(alive: bool, frees: nat, faulted: bool, nullRead: bool, removal: Removal)

  // The client's HTTP session and channel.
  datatype Client = Client(http: HttpState, output: bool, eof: bool)

  // What came in from the upstreams and what went out to the client.
  datatype Record = Record(name: Option<(string, string)>, joke: Option<string>, responses: seq<Response>)

  // The address of the session, as its control block keeps it.
  const SESSION: Pointer := 1

  // What a response is made of, and the text of it.
  datatype Response = Response(name: string, surname: string, joke: string) {
    function Text(): string {
      Joke.ClientText(name, surname, joke)
    }
  }

  // A session with its surroundings.
  datatype World = World(
    state: SessionState, name: Side, joke: Side, texts: Texts, pending: Counters,
    me: bool, block: Option<Control>, lost: Lost, life: Life, client: Client, record: Record)

  const UNASKED := Side(false, false, Unasked, false)

  function NewSession(): World {
    World(ParsingClientRequest, UNASKED, UNASKED, Texts(None, None, None), Counters(0, 0, 0), false, None,
          Lost([], []), Life(true, 0, false, false, Present), Client(MessageBegin, false, false),
          Record(None, None, []))
  }

  function SideOf(w: World, u: Upstream): Side {
    if u == NameServer then w.name else w.joke
  }

  function WithSide(w: World, u: Upstream, side: Side): (v: World)
    ensures Keeps(w, v)
  {
    if u == NameServer then w.(name := side) else w.(joke := side)
  }

  function Counted(w: World, resolutions: int, connections: int, replies: int): (v: World)
    ensures w.life == v.life
  {
    w.(pending := Counters(w.pending.resolutions + resolutions, w.pending.connections + connections,
                           w.pending.replies + replies))
  }

  // What every part of a callback keeps.
  predicate Keeps(w: World, v: World) {
    && (w.life.faulted ==> v.life.faulted) && (v.life.alive ==> w.life.alive)
    && (w.life.removal != Flushed ==> v.life.removal != Flushed)
    && w.life.nullRead == v.life.nullRead && |w.lost.blocks| == |v.lost.blocks|
    && w.record.name == v.record.name && w.record.joke == v.record.joke
  }

  // Any use of the session's memory.
  function Use(w: World): (v: World)
    ensures Keeps(w, v)
  {
    w.(life := w.life.(faulted := w.life.faulted || !w.life.alive))
  }

  datatype DnsOutcome = NotResolved | NoAddress | Address(connecting: bool)

  // How resolving a name starts: no memory for the request, no resolver, a callback made before
  // evdns_getaddrinfo returns, or as intended.
  datatype DnsStart = NoMemory | NoBase | Immediate(outcome: DnsOutcome) | Started

  datatype ReplyBody = Garbled | NameReply(name: string, surname: string) | JokeReply(joke: string)

  // What malloc and the output buffer grant while a response is made.
  datatype Grants = Grants(first: bool, second: bool, write: bool)

  datatype Channel = ClientChannel | UpstreamChannel(u: Upstream)

  datatype Event =
    | ClientAdvance(to: HttpState)                       // the client's request is parsed further
    | ClientMessage(block: bool, first: DnsStart, second: DnsStart)  // and complete
    | ClientAgain(block: bool, first: DnsStart, second: DnsStart)    // and announced again
    | DnsDone(u: Upstream, outcome: DnsOutcome)
    | LostDns(k: nat, u: Upstream, outcome: DnsOutcome)  // the same, for the control block lost as k-th
    | Connected(u: Upstream, written: bool)
    | Reply(u: Upstream, body: ReplyBody, grants: Grants)
    | LostConnected(i: nat, written: bool)
    | LostReply(i: nat, body: ReplyBody, grants: Grants)
    | LostBroken(i: nat)
    | ChannelBroken(channel: Channel)                    // an error, or a read timeout
    | ClientEof
    | UpstreamEof(u: Upstream)
    | ClientWritable(drained: bool)
    | ClientReadable

  // reference_dec on `me`, which is then cleared.
  function Dropped(w: World): (v: World)
    ensures Keeps(w, v)
  {
    w.(me := false, block := if w.me && w.block.Some? then Some(AfterDec(w.block.value)) else w.block)
  }

  // session_free
  function SessionFree(w: World): (v: World)
    ensures Keeps(w, v)
  {
    var v := Dropped(Use(w));
    v.(name := v.name.(http := false), joke := v.joke.(http := false), texts := Texts(None, None, None),
       life := v.life.(alive := false, frees := v.life.frees + 1))
  }

  // http_service_session_remove
  function Remove(w: World, why: Removal): (v: World)
    ensures Keeps(w, v.(life := v.life.(removal := w.life.removal)))
  {
    var v := SessionFree(w);
    v.(life := v.life.(removal := why))
  }

  function Fail(w: World, state: SessionState): (v: World)
    ensures Keeps(w, v)
  {
    Remove(Use(w).(state := state), Broken)
  }

  // reference_get on the control block
  function Referred(w: World): Pointer {
    if w.block.Some? then w.block.value.ptr else NULL
  }

  function WeakTaken(w: World): (v: World)
    ensures Keeps(w, v)
  {
    if w.me && w.block.Some? then w.(block := Some(AfterWeakInc(w.block.value))) else w
  }

  function WeakDropped(w: World): (v: World)
    ensures Keeps(w, v)
  {
    if w.block.Some? then w.(block := Some(AfterWeakDec(w.block.value))) else w
  }

  // A channel loses its place in http_sessions[].
  function Displaced(w: World, u: Upstream): (v: World)
    ensures w.life == v.life
  {
    var side := SideOf(w, u);
    if side.http then
      w.(lost := w.lost.(channels := w.lost.channels + [Stray(u, side.connected, false)]))
    else w
  }

  // http_server_connect. The index of a request is 0, the client's place, until dnsname_resolve has filled
  // it in; a channel made for that index gets the callbacks of the joke server.
  function HttpServerConnect(w: World, idx: Option<Upstream>, connecting: bool): (v: World)
    ensures Keeps(w, v)
  {
    if !connecting then Fail(w, ErrorConnectingToWs)
    else
      match idx
      case Some(u) =>
        var v := Displaced(Use(w), u);
        Counted(WithSide(v, u, SideOf(v, u).(http := true, connected := false)), 0, 1, 0)
      case None =>
        var v := Use(w);
        Counted(v.(lost := v.lost.(channels := v.lost.channels + [Stray(JokeServer, false, false)])), 0, 1, 0)
  }

  // dns_request_free
  function DnsRequestFree(w: World, u: Upstream): (v: World)
    ensures Keeps(w, v)
  {
    WithSide(WeakDropped(w), u, SideOf(w, u).(dns := Over))
  }

  function UseBlock(w: World): (v: World)
    ensures Keeps(w, v)
  {
    w.(life := w.life.(faulted := w.life.faulted || w.block.None? || w.block.value.frees > 0))
  }

  // The part of dnsname_resolved_cb for a session that is still there.
  function ResolvedTo(w: World, idx: Option<Upstream>, outcome: DnsOutcome): (v: World)
    ensures Keeps(w, v)
  {
    if outcome.Address? then HttpServerConnect(Counted(Use(w), -1, 0, 0), idx, outcome.connecting)
    else Fail(w, ErrorResolvingDomain)
  }

  // dnsname_resolved_cb, on the request for u
  function DnsnameResolved(w: World, u: Upstream, idx: Option<Upstream>, outcome: DnsOutcome): (v: World)
    ensures Keeps(w, v)
  {
    var freed := DnsRequestFree(UseBlock(w), u);
    if Referred(w) == NULL then freed else ResolvedTo(freed, idx, outcome)
  }

  function DnsOver(kept: Kept, u: Upstream): Kept {
    var block := AfterWeakDec(kept.block);
    if u == NameServer then kept.(name := Over, block := block) else kept.(joke := Over, block := block)
  }

  function UseLost(w: World, k: nat): (v: World)
    requires k < |w.lost.blocks|
    ensures Keeps(w, v)
  {
    w.(life := w.life.(faulted := w.life.faulted || w.lost.blocks[k].block.frees > 0))
  }

  // The same, on a request that keeps a control block the session has lost.
  function LostDnsFreed(w: World, k: nat, u: Upstream): (v: World)
    requires k < |w.lost.blocks|
    ensures Keeps(w, v)
  {
    UseLost(w, k).(lost := w.lost.(blocks := w.lost.blocks[k := DnsOver(w.lost.blocks[k], u)]))
  }

  function LostDnsResolved(w: World, k: nat, u: Upstream, outcome: DnsOutcome): (v: World)
    requires k < |w.lost.blocks|
    ensures Keeps(w, v)
  {
    var freed := LostDnsFreed(w, k, u);
    if w.lost.blocks[k].block.ptr == NULL then freed else ResolvedTo(freed, Some(u), outcome)
  }

  // dnsname_resolve's last statements, which write to the request.
  function FillIn(w: World, u: Upstream): (v: World)
    ensures Keeps(w, v)
  {
    w.(life := w.life.(faulted := w.life.faulted || SideOf(w, u).dns == Over))
  }

  // What dnsname_resolve does without a resolver.
  function Unresolvable(w: World): (v: World)
    ensures Keeps(w, v)
  {
    if w.me && Referred(w) != NULL then Fail(WeakDropped(w), ErrorResolvingDomain) else w
  }

  // The callback made before evdns_getaddrinfo returns.
  function ResolvedAtOnce(w: World, u: Upstream, outcome: DnsOutcome): (v: World)
    ensures Keeps(w, v)
  {
    if w.me then DnsnameResolved(w, u, None, outcome) else WithSide(w, u, SideOf(w, u).(dns := Over))
  }

  function DnsnameResolve(w: World, u: Upstream, start: DnsStart): (v: World)
    ensures Keeps(w, v)
  {
    var asked := WithSide(w, u, SideOf(w, u).(dns := Pending));
    match start
    case NoMemory => w
    case NoBase => Unresolvable(w)
    case Immediate(outcome) => FillIn(ResolvedAtOnce(asked, u, outcome), u)
    case Started => FillIn(asked, u)
  }

  function DnsRequestNew(w: World, u: Upstream, start: DnsStart): (v: World)
    ensures Keeps(w, v)
  {
    if start == NoMemory then w
    else Counted(Use(DnsnameResolve(WeakTaken(Use(w)), u, start)), 1, 0, 0)
  }

  // `session->me = ...` where it has a value already: the block it led to is lost with its strong holder.
  function Overwritten(w: World): (v: World)
    ensures w.life == v.life
  {
    if w.me && w.block.Some? then
      w.(me := false, block := None, name := w.name.(dns := Unasked), joke := w.joke.(dns := Unasked),
         lost := w.lost.(blocks := w.lost.blocks + [Kept(w.block.value, w.name.dns, w.joke.dns)]))
    else w
  }

  // client_msg_complete from its second request on.
  function AskJokes(w: World, second: DnsStart): (v: World)
    ensures Keeps(w, v)
  {
    var two := DnsRequestNew(w, JokeServer, second);
    if second == NoMemory then Remove(two, Broken) else Use(two).(state := ResolvingWebserverDomains)
  }

  // And from its first one on.
  function AskNames(w: World, first: DnsStart, second: DnsStart): (v: World)
    ensures Keeps(w, v)
  {
    var one := DnsRequestNew(w, NameServer, first);
    if first == NoMemory then Remove(one, Broken) else AskJokes(one, second)
  }

  // And once `me` may be overwritten.
  function StartNames(w: World, block: bool, first: DnsStart, second: DnsStart): (v: World)
    ensures Keeps(w, v)
  {
    if !block then Remove(w, Broken)
    else AskNames(w.(me := true, block := Some(New(SESSION, None))), first, second)
  }

  function ClientMsgComplete(w: World, block: bool, first: DnsStart, second: DnsStart): (v: World)
    ensures (w.life.faulted ==> v.life.faulted) && (v.life.alive ==> w.life.alive)
    ensures w.life.removal != Flushed ==> v.life.removal != Flushed
    ensures w.record.name == v.record.name && w.record.joke == v.record.joke
    ensures w.life.nullRead == v.life.nullRead && |v.lost.blocks| == |Overwritten(w).lost.blocks|
  {
    StartNames(Overwritten(Use(w)), block, first, second)
  }

  // http_request_name and http_request_joke
  function HttpRequest(w: World, u: Upstream, written: bool): (v: World)
    ensures Keeps(w, v)
  {
    var v := Counted(Use(WithSide(w, u, SideOf(w, u).(connected := true))), 0, -1, 0);
    if written then Counted(v, 0, 0, 1) else Fail(v, ErrorRequestingFromWs)
  }

  function Queued(w: World, response: Response): (v: World)
    ensures Keeps(w, v)
  {
    w.(record := w.record.(responses := w.record.responses + [response]),
       client := w.client.(output := true), state := ClientResponse)
  }

  // The response is made and queued, or fails to be.
  function Respond(w: World, response: Response, grants: Grants): (v: World)
    ensures Keeps(w, v)
  {
    if !grants.first then Fail(w.(texts := w.texts.(name := None)), ErrorClientResponse)
    else
      var v := Use(w).(texts := Texts(None, None, None));
      if grants.second && grants.write then Queued(v, response) else Fail(v, ErrorClientResponse)
  }

  function HttpClientResponse(w: World, grants: Grants): (v: World)
    ensures Keeps(w, v.(life := v.life.(nullRead := w.life.nullRead)))
  {
    if !(w.name.replied && w.joke.replied) then w
    else if w.texts.name.None? || w.texts.surname.None? || w.texts.joke.None? then
      w.(life := w.life.(faulted := true, nullRead := true))
    else
      Respond(w, Response(w.texts.name.value, w.texts.surname.value, w.texts.joke.value), grants)
  }

  // A reply that could be read: its strings are kept and its HTTP session is freed.
  function Heard(w: World, u: Upstream, body: ReplyBody): (v: World)
    ensures w.life == v.life
  {
    var v := WithSide(w, u, SideOf(w, u).(replied := true, http := false));
    match body
    case Garbled => v
    case NameReply(name, surname) =>
      v.(texts := w.texts.(name := Some(name), surname := Some(surname)),
         record := w.record.(name := Some((name, surname))))
    case JokeReply(joke) =>
      v.(texts := w.texts.(joke := Some(joke)), record := w.record.(joke := Some(joke)))
  }

  // http_response_name and http_response_joke
  function HttpResponse(w: World, u: Upstream, body: ReplyBody, grants: Grants): (v: World)
    ensures Keeps(w, v.(life := v.life.(nullRead := w.life.nullRead), record := w.record))
  {
    var v := Counted(Use(w), 0, 0, -1);
    if body.Garbled? then Fail(v, ErrorClientResponse) else HttpClientResponse(Heard(v, u, body), grants)
  }

  // The same two, called for a channel the session has lost hold of.
  function LostConnect(w: World, i: nat, written: bool): (v: World)
    requires i < |w.lost.channels|
    ensures Keeps(w, v)
  {
    var stray := w.lost.channels[i].(connected := true);
    var v := Counted(Use(w).(lost := w.lost.(channels := w.lost.channels[i := stray])), 0, -1, 0);
    if written then Counted(v, 0, 0, 1) else Fail(v, ErrorRequestingFromWs)
  }

  function LostResponse(w: World, i: nat, body: ReplyBody, grants: Grants): (v: World)
    requires i < |w.lost.channels|
    ensures Keeps(w, v.(life := v.life.(nullRead := w.life.nullRead), record := w.record))
  {
    var stray := w.lost.channels[i].(replied := true);
    var v := Counted(Use(w).(lost := w.lost.(channels := w.lost.channels[i := stray])), 0, 0, -1);
    if body.Garbled? then Fail(v, ErrorClientResponse)
    else HttpClientResponse(Heard(Displaced(v, stray.u), stray.u, body), grants)
  }

  // client_ready_to_close
  function ReadyToClose(w: World): (v: World)
    ensures Keeps(w, v.(life := v.life.(removal := w.life.removal)))
  {
    if Use(w).state == ClientResponse then Remove(Use(w), Flushed) else Use(w)
  }

  // http_session_channel_should_close on the client's channel
  predicate Closing(w: World) {
    ClosesChannel(w.client.eof, w.client.http, w.client.output)
  }

  function ShouldClose(w: World): (v: World)
    ensures Keeps(w, v.(life := v.life.(removal := w.life.removal)))
  {
    if Closing(w) then ReadyToClose(w) else w
  }

  function DnsOf(kept: Kept, u: Upstream): Dns {
    if u == NameServer then kept.name else kept.joke
  }

  // Each server is read by a callback of its own.
  predicate Fits(u: Upstream, body: ReplyBody) {
    (body.NameReply? ==> u == NameServer) && (body.JokeReply? ==> u == JokeServer)
  }

  // A channel calls back only while it exists, which is while its session does if that still leads to it;
  // a request for a name calls back once, whatever became of the session. An upstream connects once, and
  // replies once and after that. The client's message completes once, but is announced again if more input
  // comes in while its response waits to be sent.
  predicate Enabled(w: World, e: Event) {
    match e
    case ClientAdvance(to) => w.life.alive && Rank(w.client.http) < Rank(to) && to in {MessageParseBegin, BodyParse}
    case ClientMessage(_, _, _) => w.life.alive && w.client.http != MessageComplete
    case ClientAgain(_, _, _) => w.life.alive && w.client.http == MessageComplete && w.client.output
    case DnsDone(u, _) => SideOf(w, u).dns == Pending
    case LostDns(k, u, _) => k < |w.lost.blocks| && DnsOf(w.lost.blocks[k], u) == Pending
    case Connected(u, _) => w.life.alive && SideOf(w, u).http && !SideOf(w, u).connected
    case Reply(u, body, _) =>
      w.life.alive && SideOf(w, u).http && SideOf(w, u).connected && Fits(u, body)
    case LostConnected(i, _) => i < |w.lost.channels| && !w.lost.channels[i].connected
    case LostReply(i, body, _) =>
      && i < |w.lost.channels| && w.lost.channels[i].connected && !w.lost.channels[i].replied
      && Fits(w.lost.channels[i].u, body)
    case LostBroken(i) => i < |w.lost.channels|
    case ChannelBroken(channel) => w.life.alive && (channel.UpstreamChannel? ==> SideOf(w, channel.u).http)
    case ClientEof => w.life.alive
    case UpstreamEof(u) => w.life.alive && SideOf(w, u).http
    case ClientWritable(_) => w.life.alive
    case ClientReadable => w.life.alive && w.client.http == MessageComplete && !w.client.output
  }

  // What a callback does, if it is enabled.
  function Handle(w: World, e: Event): (v: World)
    ensures (w.life.faulted ==> v.life.faulted) && (v.life.alive ==> w.life.alive)
  {
    match e
    case ClientAdvance(to) => w.(client := w.client.(http := to))
    case ClientMessage(block, first, second) =>
      ClientMsgComplete(w.(client := w.client.(http := MessageComplete)), block, first, second)
    case ClientAgain(block, first, second) => ClientMsgComplete(w, block, first, second)
    case DnsDone(u, outcome) => DnsnameResolved(w, u, Some(u), outcome)
    case LostDns(k, u, outcome) => if k < |w.lost.blocks| then LostDnsResolved(w, k, u, outcome) else w
    case Connected(u, written) => HttpRequest(w, u, written)
    case Reply(u, body, grants) => HttpResponse(w, u, body, grants)
    case LostConnected(i, written) => if i < |w.lost.channels| then LostConnect(w, i, written) else w
    case LostReply(i, body, grants) => if i < |w.lost.channels| then LostResponse(w, i, body, grants) else w
    case LostBroken(_) => Remove(w, Broken)
    case ChannelBroken(_) => Remove(w, Broken)
    case ClientEof => ShouldClose(w.(client := w.client.(eof := true)))
    case UpstreamEof(_) => w
    case ClientWritable(drained) => ShouldClose(w.(client := w.client.(output := w.client.output && !drained)))
    case ClientReadable => ShouldClose(w)
  }

  // Where a run leads.
  function Reached(es: seq<Event>): World {
    if es == [] then NewSession() else Handle(Reached(es[..|es| - 1]), es[|es| - 1])
  }

  // A run the environment can make from a new session.
  predicate Possible(es: seq<Event>) {
    es == [] || (Possible(es[..|es| - 1]) && Enabled(Reached(es[..|es| - 1]), es[|es| - 1]))
  }
}
