# An asynchronous HTTP service, verified

The service takes a client's request, asks two upstream servers (a random name, a joke), puts the name into the
joke and answers with it. This project models its six cores that carry real invariants and proves what they are
for. Three of them, the session protocol, the reference control block and the session list, are composed.

| file | what it models |
|---|---|
| `list.dfy` | the pointer-to-slot doubly linked list, on the heap |
| `reference.dfy` | the reference control block: strong and weak counts, a destructor that may re-enter |
| `substitution.dfy`, `joke.dfy`, `simultaneous.dfy` | the two-pass text substitution, and when two passes are one |
| `parser.dfy`, `intake.dfy` | the pausing parser and the session that feeds it from a growing buffer |
| `response.dfy` | the response's framing and a reader for it |
| `session.dfy`, `session_runs.dfy` | the session protocol as a transition system, and what holds over all its runs |
| `session_effects.dfy` | what each callback does: what ends a session, how far the upstreams get, what a run hears, answers and counts |
| `callbacks.dfy` | the callbacks on a session object and its control blocks, which refine the protocol |
| `sending.dfy` | from the upstreams' replies to the bytes the client reads |
| `hashtable.dfy`, `hashtable_runs.dfy` | the chained hash table, alone and under its read-write lock |
| `service.dfy`, `service_runs.dfy` | the session list and its owner; all workers, all sessions and the mutex together |
| `service_sessions.dfy` | each session of the whole system runs the session protocol |
| `service_heap.dfy` | the list on the heap along any schedule of the workers |
| `memory.dfy` | pointers as numbers, with NULL, and an option type |

The code that changes things step by step is a class whose methods are proved against functions on values; the
properties over all runs are lemmas about these functions. Where C code reads or writes memory that may have been
given back, or a string at NULL, the model records a misuse instead of excluding the step, so that the absence of
misuse, and the exact conditions for it, are theorems.

`dafny verify dfyconfig.toml` checks everything.

## When things go wrong

The session protocol is not right in all its runs, and the model does not exclude those where it is not. A run
misuses memory (`SessionRuns.FaultsExactly`) exactly when one of its callbacks is of one of three kinds:

- the client's message is announced on a thread without a resolver, or with one that calls back before
  `evdns_getaddrinfo` returns (`webservice/session.c:535-552`);
- the message is announced again, because input came in while its response waited to be sent
  (`webservice/http_session.c:378-390`), and later an upstream's reply can be read: both flags are up, and not all
  strings are there, so that `strlen` is called on NULL (`webservice/session.c:146-148`);
- after such a second announcement the session is freed, and then something calls back that still leads to it: a
  request that keeps the control block forgotten at `webservice/session.c:564`, or a channel whose place in
  `http_sessions[]` was taken by another.

What is under way adds up and everything is given back exactly in the runs without a second announcement and without
the first kind (`SessionRuns.SettledIffSafe`).

## What is assumed of the surroundings

- Channels. An upstream channel reports its connection at most once, and replies at most once and after that. A
  channel the session leads to calls back only while the session exists; a request for a name calls back once.
- Parser. The byte automaton behind `http_parser_execute` reports begin, end of headers and end of message once each
  and in this order, and body bytes only after the headers. Nothing else is assumed of it.
- Buffers. `evbuffer_peek` from an offset returns vectors that together hold the bytes from there on, cut anywhere.
- Workers. A session is called back only by the worker that accepted it, one callback at a time, none before
  `http_service_session_add` has returned. The workers' schedules go on as long as no callback misuses memory.
- Hash table. `cmp` finds exactly the values whose key it is given, and a value is added under its own key.
- Strings are free of NUL, as C strings are; list and table entries are not NULL.

Where the code and its comments disagree, the model follows the code. The comment at
`webservice/http_session.c:281-286` says that a client that closes before sending anything has its session
deallocated; `client_ready_to_close` does so in one state only (`webservice/session.c:82`), so such a session stays
until an error or a timeout (`SessionRuns.ClosesOnceFlushed` is the exact rule). The comment at
`webservice/session.c:202-207` says that closing also waits for the client's end of file; it does not.

## Model

| member | source | states |
|---|---|---|
| `SlotList.NodeFree` | common/list.c:10-19 | a freed node points nowhere and is not live; NULL is accepted |
| `SlotList.List.constructor` | common/list.c:21-29 | a new list represents the empty sequence, its tail being the head slot |
| `SlotList.List.StoreThrough` | common/list.c:37 | a store through a slot changes the one pointer field the slot names |
| `SlotList.List.Unlink` | common/list.c:37-44 | each remaining node is led around the removed one in both directions, whichever position it had |
| `SlotList.List.Unlinked` | common/list.c:37-43 | a chain that bypasses node k on both sides represents exactly the sequence without it |
| `SlotList.List.Remove` | common/list.c:31-47 | removal at any position keeps the representation and refines deletion from the sequence; the node is freed, its data returned; NULL does nothing |
| `SlotList.List.Linked` | common/list.c:53-87 | a chain led through a new node at any place, the two ends included, represents exactly the sequence with it inserted |
| `SlotList.List.SpliceFront` | common/list.c:52-62 | the stores of a push at the front lead the chain through a fresh node there |
| `SlotList.List.PushFront` | common/list.c:49-63 | refines putting in front, with one fresh node |
| `SlotList.List.SpliceBack` | common/list.c:68-72 | the stores of a push at the back do so behind the last node, with no case for the empty list |
| `SlotList.List.PushBack` | common/list.c:65-73 | refines appending, with one fresh node |
| `SlotList.List.LeadThrough` | common/list.c:86-87 | two stores lead the chain through a node prepared for place k, the other nodes keeping what they hold |
| `SlotList.List.Splice` | common/list.c:82-87 | the same with a fresh node |
| `SlotList.List.PushBefore` | common/list.c:75-88 | refines insertion before any node, or at the end for NULL |
| `SlotList.List.PopFront` | common/list.c:90-94 | refines taking the first, NULL when there is none |
| `SlotList.List.PopNext` | common/list.c:100 | a NULL that comes out tells that all was popped that list_free pops |
| `SlotList.List.Free` | common/list.c:96-104 | frees every node up to and including the first that holds NULL, and leaves the rest as they were |
| `SlotList.DrainedAt` | common/list.c:100-101 | where the draining loop stops |
| `SlotList.DrainsEverythingIff` | common/list.c:100-101 | list_free gives all nodes back if and only if none but the last holds NULL |
| `SlotList.List.Head` | common/list.h:64-68 | the first node of the sequence |
| `SlotList.List.Tail` | common/list.h:70-77 | the last node, recovered from the slot that is its next field |
| `SlotList.List.Next` | common/list.h:79-83 | the successor in the sequence |
| `SlotList.List.Previous` | common/list.h:85-92 | the predecessor, recovered from the slot that points here |
| `SlotList.List.Reinsert` | common/list-test.c:40-42 | removing a node and inserting its data before its successor changes the node at this place and nothing else |
| `SlotList.List.ReinsertNext` | common/list.h:38-41 | one visit: the next node is read before the visited one is freed, and the other places keep their nodes |
| `SlotList.List.ReinsertEach` | common/list.h:38-41 | iteration with removal and re-insertion ends, visits each original element once and in order and no inserted one, and leaves a valid list of the same contents on fresh nodes only |
| `SlotList.List.ChainIsUnique` | common/list.h:8-19 | the pointers in the heap represent one sequence only |
| `Reference.ScriptKeepsBlock` | webservice/reference.h:34-37 | while ptr is still set, whatever a destructor does to the weak count cannot free the block under it |
| `Reference.StepKeepsSound` | webservice/reference.h:29-79 | every balanced operation keeps: ptr set while a strong holder remains, destructor run once after, block freed once when no holder is left, never touched later |
| `Reference.RunIsSound` | webservice/reference.h:29-79 | the same over every balanced history, destructors that re-enter included |
| `Reference.StepCounts` | webservice/reference.h:29-79 | what each operation does to both counts, a destructor's own work included |
| `Reference.CountsAreRight` | webservice/reference.h:29-79 | over every balanced history the counts are what was taken less what was dropped |
| `Reference.NullPointerFails` | webservice/reference.h:52-55 | on a NULL pointer a weak reference that goes frees the block under its strong holder |
| `Reference.SoundIffPointerNotNull` | webservice/reference.h:17-61 | counting is right for all balanced histories if and only if the pointer counted is not NULL |
| `Reference.ControlBlock.constructor` | webservice/reference.h:17-27 | one strong holder and no weak one |
| `Reference.ControlBlock.Inc` | webservice/reference.h:63-70 | the step Inc on the block, its count returned; NULL is accepted |
| `Reference.ControlBlock.WeakInc` | webservice/reference.h:72-79 | the step WeakInc |
| `Reference.ControlBlock.WeakDec` | webservice/reference.h:48-61 | the step WeakDec: gives the block back when the last weak holder of a dead pointer goes |
| `Reference.ControlBlock.Destroy` | webservice/reference.h:34-36 | a destructor re-entering the block does what its operations do in turn |
| `Reference.ControlBlock.Dec` | webservice/reference.h:29-46 | the step Dec: destructor, then ptr cleared, then the block given back if nobody is left |
| `Reference.ControlBlock.Get` | webservice/reference.h:81-88 | on a sound block, the pointer while a strong holder remains and NULL after |
| `Substitution.StrStr` | webservice/session.c:95 | the first occurrence at or after an offset, or that there is none |
| `Substitution.ReplaceNext` | webservice/session.c:109-121 | one round of the scan: what replace-all makes of the rest is the stretch, the replacement and what it makes of what follows |
| `Substitution.ReplaceLast` | webservice/session.c:123-125 | after the last match the text is kept |
| `Substitution.CutGrows` | webservice/session.c:112-114 | a character that starts no token extends the first piece of a cut |
| `Substitution.SplitIsCut` | webservice/session.c:109-121 | every text has a cut at its leftmost non-overlapping tokens |
| `Substitution.CutIsUnique` | webservice/session.c:109-121 | and only one |
| `Substitution.ReplaceJoinsSplit` | webservice/session.c:107-129 | replace-all is that cut joined with the replacement |
| `Substitution.ReplaceIsTheCutRejoined` | webservice/session.c:107-129 | replace-all is any leftmost cut joined with the replacement |
| `Joke.NewJokeLength` | webservice/session.c:94-100 | the sizing scan computes the exact length of the replaced text |
| `Joke.Strlen` | webservice/session.c:146-148 | the length of a C string |
| `Joke.FindIn` | webservice/session.c:95 | strstr on a C string finds the first occurrence from an offset on |
| `Joke.StandsNext` | webservice/session.c:109-121 | the sizing and the filling scan advance over the same matches, and what is filled never outgrows the allocation |
| `Joke.CopyInto` | webservice/session.c:112-118 | characters go to consecutive indices, what lies before them untouched |
| `Joke.FillMatch` | webservice/session.c:109-121 | one round appends the stretch before a match and the replacement |
| `Joke.FillNext` | webservice/session.c:109-121 | a round of the filling scan: what is written stands for the text scanned, or there is no further match |
| `Joke.FillRest` | webservice/session.c:123-127 | the rest is copied and the terminator lands at the last index |
| `Joke.FillJoke` | webservice/session.c:107-127 | all writes are in bounds, the text is the replace-all and the terminator lands at the last index allocated |
| `Joke.JokeCreate` | webservice/session.c:88-130 | a fresh buffer of exactly the needed size with the replace-all of the token as a C string, or NULL if memory fails |
| `Joke.ReplaceAllNulFree` | webservice/session.c:109-127 | no NUL appears inside the new joke |
| `Joke.Replies.ClientResponseCreate` | webservice/session.c:133-175 | both passes composed; each owned string and the text between the passes is freed once and no freed string stays owned, whichever allocation fails |
| `Simultaneous.TokensAreSeparate` | webservice/session.c:136-137 | the two tokens cannot overlap each other, nor the second itself |
| `Simultaneous.BothIsPiecewise` | webservice/session.c:152-167 | a simultaneous scan replaces the second token piece by piece between the first |
| `Simultaneous.CountConcat` | webservice/session.c:167 | concatenation keeps occurrences and makes new ones exactly where one runs across |
| `Simultaneous.CountJoin` | webservice/session.c:167 | the text after the first pass has as many tokens as the pieces have, exactly when each lies inside a piece |
| `Simultaneous.ReplaceMeasured` | webservice/session.c:94-100 | each replacement changes the length, or the number of changed places, by the same amount |
| `Simultaneous.EachMeasured` | webservice/session.c:94-100 | the same of replacing piece by piece |
| `Simultaneous.PiecewiseIffWithin` | webservice/session.c:167 | replacing in the whole equals replacing in the pieces if and only if the replacement is the token or all its occurrences lie inside pieces |
| `Simultaneous.SequentialIsSimultaneousIff` | webservice/session.c:133-175 | the client's text is that of one simultaneous scan if and only if the surname is "Panisset" or every "Panisset" in the intermediate joke lies in a stretch copied from the first joke |
| `Simultaneous.SequentialCanDiffer` | webservice/session.c:152-167 | the name "Panisset" makes the two differ |
| `Parser.Execute` | webservice/http_session.c:226-229 | where a call stops: at the end, behind the byte that begins or completes a message, before the one that ends the headers or is in error |
| `Parser.ExecuteConcat` | webservice/http_session.c:226-229 | executing a concatenation is executing its parts in turn, up to the first pause |
| `Parser.ExecuteShift` | webservice/http_session.c:243-246 | a call on a tail is the call on that tail's own bytes |
| `Parser.ExecuteByte` | webservice/http_session.c:243-246 | what executing one byte alone does |
| `Parser.FlatConcat` | webservice/http_session.c:347-394 | the flat run over a concatenation is the run over its front, carried on if the message goes on |
| `Parser.FlatGoesOn` | webservice/http_session.c:347-394 | the same in the middle of a run, with its count of bytes |
| `Parser.FlatByStretch` | webservice/http_session.c:225-267 | parsing one stretch, the header byte re-executed alone included, and going on from where it stopped is the flat run |
| `Parser.FlatByOne` | webservice/http_session.c:225-267 | so for one vector of any size, rejection included |
| `Parser.TakeMeans` | webservice/http_session.c:233-253 | one byte of the message: it fails, completes or joins the body as the looks at it say, the byte that ends the headers being looked at twice |
| `Parser.FlatMeans` | webservice/http_session.c:225-267 | the flat run told by the automaton's steps alone: rejected if and only if a byte fails before the message is complete; otherwise it takes the bytes up to the completing one, its state is that of the parser's stage, and its body is exactly the body bytes, in order |
| `Intake.NextAccounted` | webservice/http_session.c:231-252 | bytes drained plus bytes parsed stay a prefix of what arrived |
| `Intake.NextRemains` | webservice/http_session.c:225-267 | a parsed vector leaves the outcome of the whole stream what it was |
| `Intake.HttpSession.constructor` | webservice/http_session.c:332-400 | a session that has seen nothing |
| `Intake.HttpSession.OnMessageBegin` | webservice/http_session.c:30-42 | the begin hook: an empty body, or failure |
| `Intake.HttpSession.OnBody` | webservice/http_session.c:64-73 | the body hook: the byte is appended, or failure |
| `Intake.HttpSession.LookAt` | webservice/http_session.c:30-73 | one byte with its hooks: the message moves as the automaton says, and a pause raises the state's rank |
| `Intake.HttpSession.ParserExecute` | webservice/http_session.c:226-229 | one call, loop and hooks, is the execute function, and consumes exactly the bytes it reports |
| `Intake.HttpSession.Reexecute` | webservice/http_session.c:237-253 | the unconsumed header byte executed alone; it fails exactly when the byte fails or pauses before being consumed |
| `Intake.HttpSession.ParseVector` | webservice/http_session.c:226-266 | one vector is one stretch; the check for a short parse never fires |
| `Intake.HttpSession.ParseCounted` | webservice/http_session.c:226-266 | and len counts exactly its parsed bytes |
| `Intake.HttpSession.ParseNext` | webservice/http_session.c:226-266 | and leaves the session's outlook, what one run over all that arrived comes to, unchanged |
| `Intake.HttpSession.ParseAll` | webservice/http_session.c:225-267 | so do all vectors, one after the other, up to a pause |
| `Intake.HttpSession.RequestParse` | webservice/http_session.c:196-276 | however the input is cut into vectors, the outlook is unchanged and the accounts are right, after failures too; an error that is not a failed allocation means that the stream is rejected; a pause means progress, success that all input was parsed |
| `Intake.HttpSession.ChannelShouldClose` | webservice/http_session.c:278-298 | before a message true exactly at end of file, after a complete message exactly with no output pending, in between never; tells the session then, once |
| `Intake.HttpSession.Drain` | webservice/http_session.c:367-371 | only parsed bytes are drained |
| `Intake.HttpSession.HeadersCase` | webservice/http_session.c:365-376 | draining after the headers keeps the accounts and the outlook |
| `Intake.HttpSession.CompleteCase` | webservice/http_session.c:378-392 | message_complete is called once, as the last thing |
| `Intake.HttpSession.ReadOnce` | webservice/http_session.c:347-394 | one round drains all that was parsed behind the headers and behind the message and nothing elsewhere; it raises the rank of the state, or ends the callback where the flat run ends, or fails because the stream is rejected or memory failed |
| `Intake.HttpSession.ReadLoop` | webservice/http_session.c:347-399 | the loop ends where the flat run ends, or removes the session; after a call that may free the session nothing of it is used |
| `Intake.HttpSession.ReadCb` | webservice/http_session.c:332-400 | the whole callback: ready_to_close is called exactly for a client gone before its message or answered in full; with output pending, input behind a complete message announces it once more; the state never goes backwards, the accounts are right and nothing freed is used |
| `Intake.HttpSession.EofCb` | webservice/http_session.c:315-321 | at end of file ready_to_close is called exactly before a message or after a complete one with all output sent |
| `Intake.HttpSession.WriteCb` | webservice/http_session.c:402-411 | when output has gone, ready_to_close is called exactly if the message is complete and none is left |
| `Intake.HttpSession.ReadUnanswered` | webservice/http_session.c:332-400 | for a client not answered yet all that arrived is dealt with, and a complete message announced once |
| `Intake.HttpSession.Deliver` | webservice/http_session.c:332-400 | one arrival is the flat run over it |
| `Intake.HttpSession.DeliverNext` | webservice/http_session.c:332-400 | one arrival is one step of the flat run over the stream |
| `Intake.HttpSession.Feed` | webservice/http_session.c:332-400 | fragmentation independence: for every stream, every cut into arrivals and every cut of these into vectors, state, body and consumed bytes are those of one run over the flat stream, and a complete message is announced once; in terms of the parser's steps, the session is removed if and only if a byte of the message fails, where the environment grants all that is asked, and otherwise its body is exactly the body bytes of the message |
| `Response.DecimalRoundTrip` | webservice/http_session.c:160 | a printed length reads back as itself |
| `Response.SplitLines` | webservice/http_session.c:150-170 | the head falls apart into the lines it was made of |
| `Response.NoBlankBefore` | webservice/http_session.c:150-174 | no blank line starts inside the head |
| `Response.FirstBlank` | webservice/http_session.c:150-174 | the first blank line is where the head ends |
| `Response.LengthField` | webservice/http_session.c:160-162 | the head has one length field, with the body's length |
| `Response.HeadTellsLength` | webservice/http_session.c:150-170 | the reader finds the body's length in the head |
| `Response.ResponseRoundTrip` | webservice/http_session.c:135-186 | cutting at the first blank line and reading Content-Length recovers exactly the body, whatever the body and whatever follows, as sections 3 and 3.3.2 of RFC 7230 have it |
| `Response.StatusRoundTrip` | webservice/http_session.c:138-153 | whatever the body and whatever follows, the first line reads as version 1.0 and status 200 |
| `Response.HeadRoundTrip` | webservice/http_session.c:150-174 | the reader gets exactly the head's lines back |
| `Response.LinesSpelled` | webservice/http_session.c:138-170 | these five lines, spelled out |
| `Response.TypeRoundTrip` | webservice/http_session.c:155-158 | the body reads as plain text |
| `Response.DecimalExamples` | webservice/http_session.c:160 | digits are printed most significant first, without leading zeros |
| `Response.RenderSpelled` | webservice/http_session.c:150-183 | the pieces written one by one make up the response |
| `Response.RenderIs` | webservice/http_session.c:138-183 | the response, letter for letter |
| `Response.HttpResponseWrite` | webservice/http_session.c:135-186 | success writes the whole response behind what was there, failure a beginning of it only; it fails only if the clock or the buffer does |
| `SessionRuns.RemovalIsClean` | webservice/session.c:585-604 | freeing a live session at any point of a callback touches nothing freed and drops its reference once |
| `SessionRuns.RequestFreed` | webservice/session.c:445-459 | at a name's callback the block is still there, and shows NULL exactly when the session is gone |
| `SessionRuns.LostRequestFreed` | webservice/session.c:445-459 | a block that was forgotten is still there, too, but never shows NULL |
| `SessionRuns.ClientMessageKeepsInv` | webservice/session.c:558-583 | starting the two resolutions keeps the invariant, whichever allocation fails |
| `SessionRuns.OverwrittenIsHeld` | webservice/session.c:564 | overwriting the reference to a control block loses that block with its strong holder |
| `SessionRuns.ClientAgainKeepsInv` | webservice/http_session.c:378-390 | a second announcement is survived for the time being, whichever allocation fails |
| `SessionRuns.MoveConserves` | webservice/session.c:503-504 | an upstream that changes phase takes the counters along |
| `SessionRuns.DnsFailureKeepsInv` | webservice/session.c:461-510 | a name not resolved, or an upstream that cannot be connected to, leaves everything in order; that it removes the session is `SessionEffects.EndsExactly` |
| `SessionRuns.DnsSuccessKeepsInv` | webservice/session.c:503-504 | a name resolved moves its upstream from resolving to connecting |
| `SessionRuns.DnsLateKeepsInv` | webservice/session.c:456-459 | a name resolved too late changes the control block only |
| `SessionRuns.LostDnsKeepsInv` | webservice/session.c:445-511 | a name resolved for a forgotten block, while the session lives |
| `SessionRuns.ConnectedKeepsInv` | webservice/session.c:338-394 | the request sent or failed, for either upstream |
| `SessionRuns.ReplyIsHeard` | webservice/session.c:244-263 | with one announcement, all three strings are there to be used when both flags are set |
| `SessionRuns.ReplyKeepsInv` | webservice/session.c:177-336 | either reply, in either order, with any failure of memory or output |
| `SessionRuns.ClosingKeepsInv` | webservice/session.c:78-86 | closing removes the session exactly in CLIENT_RESPONSE with no output left |
| `SessionRuns.HandleKeepsInv` | webservice/session.c:78-604 | every callback the environment may make next keeps the invariant, unless it misuses memory |
| `SessionRuns.ImmediateFaults` | webservice/session.c:535-539 | a request whose callback came at once has been freed when its fields are written |
| `SessionRuns.HazardFaults` | webservice/session.c:525-552 | without a resolver, or with a hasty one, the session or its request is used after being freed |
| `SessionRuns.NullIsRead` | webservice/session.c:146-180 | after a second announcement the first reply that can be read finds both flags up and a string missing |
| `SessionRuns.GoneIsUsed` | webservice/session.c:449-510 | what a freed session had lost hold of leads to it still |
| `SessionRuns.HandleFaultsIff` | webservice/session.c:78-604 | a callback misuses memory if and only if it is of one of the three kinds |
| `SessionRuns.RunKeepsInv` | webservice/session.c:78-604 | the invariant holds after every run that misused nothing |
| `SessionRuns.FaultsExactly` | webservice/session.c:78-604 | over all runs memory is misused if and only if a callback of the three kinds was made |
| `SessionRuns.RepeatsAreLost` | webservice/session.c:564 | there is one forgotten control block for each further announcement |
| `SessionRuns.NothingLostIffSafe` | webservice/session.c:445-604 | a run misuses and loses nothing if and only if it has no further announcement and no missing or hasty resolver |
| `SessionRuns.SettledIffSafe` | webservice/session.c:211-604 | the same for conservation and everything given back, over all runs |
| `SessionRuns.WhatIsUnderWay` | webservice/session.c:503-552 | the counters tell what is under way exactly when no block is forgotten |
| `SessionRuns.Conservation` | webservice/session.c:211-552 | counters and flags add up to twice the number of announcements in every live session; they, and the HTTP sessions, tell the phases exactly when there was one |
| `SessionRuns.GivenBack` | webservice/session.c:585-604 | the session is freed once; its control block exactly once, when the session is gone and both names are done with; a forgotten block never |
| `SessionRuns.RespondsOnce` | webservice/session.c:177-209 | at most one response, made of both replies, further announcements or not; CLIENT_RESPONSE exactly when both are in and there was one announcement; only three states are seen between callbacks |
| `SessionRuns.NullReadIff` | webservice/session.c:146-180 | a string is read at NULL if and only if a reply that can be read comes to a live session whose message was announced again |
| `SessionRuns.StepClosesWhenFlushed` | webservice/http_session.c:278-298 | a step removes a live session as flushed if and only if the response was queued and the output buffer is empty |
| `SessionRuns.ClosesOnceFlushed` | webservice/session.c:78-86 | the same over all runs |
| `SessionRuns.LateNamesAreHarmless` | webservice/session.c:445-459 | a callback after removal sees NULL and changes its own request and the block only |
| `SessionRuns.AnyReplyCanBeServed` | webservice/session.c:177-209 | whatever the replies, and in either order, some safe run has just these replies in this order, answers with them, closes and gives everything back |
| `SessionRuns.RepeatCanReadNull` | webservice/session.c:146-180 | whatever the answer was, some run with one further announcement ends in a string read at NULL, by either upstream's reply |
| `SessionEffects.EndsExactly` | webservice/session.c:78-604 | a callback ends a live session if and only if it is a name without an address to connect to, a request not written, a reply not read or not to be answered with, a broken channel, a failed allocation at an announcement, or the client's channel with all sent; the session's last state tells why |
| `SessionEffects.LivesUntilEnded` | webservice/session.c:78-604 | over all runs without misuse the session lives if and only if no callback was such |
| `SessionEffects.OnePhaseFurther` | webservice/session.c:211-504 | a callback takes its own upstream one phase further and leaves the other where it is |
| `SessionEffects.RecordIsHeard` | webservice/session.c:240-319 | the name, surname and joke kept are those the run's replies said |
| `SessionEffects.AnswersWhatWasHeard` | webservice/session.c:177-209 | a run answers with what its replies said, each where it belongs, as soon as it has heard both |
| `SessionEffects.RepliesAreAnswered` | webservice/session.c:211-336 | in a safe run the first reply that can be read keeps the session waiting; the second one, in either order and with all granted, is answered with both and leaves the session in CLIENT_RESPONSE with its output pending |
| `SessionEffects.ConnectCounts` | webservice/session.c:433-434 | a channel that is connected to where another one has the place adds to the channels that still call back |
| `SessionEffects.CountersCountAll` | webservice/session.c:211-552 | over all runs without misuse, however often the message was announced, the three counters count exactly the names waited for and the channels connecting and awaiting, lost ones included |
| `SessionEffects.LateNamesGiveBack` | webservice/session.c:445-459 | a session can go with both names waited for, whose callbacks, in either order, then give its block back |
| `SessionEffects.LostNameCanUseTheGone` | webservice/session.c:445-510 | some run uses a freed session by way of a forgotten block |
| `SessionEffects.StrayCanUseTheGone` | webservice/session.c:433 | some run uses a freed session by way of a channel that lost its place |
| `Callbacks.SessionObject.constructor` | webservice/session.c:606-629 | a new session parses its client's request and has no control block |
| `Callbacks.SessionObject.Free` | webservice/session.c:585-604 | session_free is its step, and touches no forgotten block |
| `Callbacks.SessionObject.ResolveName` | webservice/session.c:513-542 | dnsname_resolve is its step in all ways it can go, with the callback that comes at once |
| `Callbacks.SessionObject.RequestName` | webservice/session.c:544-556 | dns_request_new is its step |
| `Callbacks.SessionObject.Overwrite` | webservice/session.c:564 | the block `me` led to is left to the requests that keep it |
| `Callbacks.SessionObject.ClientComplete` | webservice/session.c:558-583 | client_msg_complete is its step, the first time and every other |
| `Callbacks.SessionObject.Connect` | webservice/session.c:396-442 | http_server_connect is its step |
| `Callbacks.SessionObject.FreeRequest` | webservice/session.c:62-76 | dns_request_free is its step, by way of the block the request keeps |
| `Callbacks.SessionObject.NameResolved` | webservice/session.c:445-511 | dnsname_resolved_cb is its step; the session is read from the block before the request's reference goes |
| `Callbacks.SessionObject.LostNameResolved` | webservice/session.c:445-511 | the same for a forgotten block, with no other block touched |
| `Callbacks.SessionObject.RequestFrom` | webservice/session.c:338-394 | http_request_name and http_request_joke are one step |
| `Callbacks.SessionObject.RespondToClient` | webservice/session.c:177-209 | http_client_response is its step, a missing string included |
| `Callbacks.SessionObject.ReplyFrom` | webservice/session.c:211-336 | http_response_name and http_response_joke are one step |
| `Callbacks.SessionObject.ReadyToCloseCb` | webservice/session.c:78-86 | client_ready_to_close is its step |
| `Callbacks.SessionObject.ClientShouldClose` | webservice/http_session.c:278-298 | the decision to close and its call back are one step |
| `Callbacks.SessionObject.Callback` | webservice/session.c:78-604 | any callback on the object is the step of the protocol |
| `Callbacks.Serve` | webservice/session.c:558-629 | any run the environment can make of a session object is a run of the protocol, up to and with the first misuse of memory |
| `Sending.ClientReadsTheJoke` | webservice/session.c:133-209 | over all runs without misuse, once its replies have said a name and a joke the client reads status 200 and that joke with that name and surname put in; it is the simultaneous replacement exactly under the condition above |
| `Sending.ClosedAfterTheJoke` | webservice/session.c:78-86 | a session closed by its client's channel has sent all of it |
| `Hashtable.FindInMeaning` | webservice/hashtable.c:87-98 | a chain is found to match exactly when it holds a value of that key |
| `Hashtable.PushKeepsPlaces` | webservice/hashtable.c:111-116 | adding keeps every value in the bucket its hash selects and keys distinct in a bucket |
| `Hashtable.PushIsInsertion` | webservice/hashtable.c:113 | pushing in front is insertion into the map |
| `Hashtable.AddRefines` | webservice/hashtable.c:100-122 | add refines insertion into a map that never overwrites; FOUND exactly if the key is there, ERROR exactly if it is not and memory fails |
| `Hashtable.PushCounts` | webservice/hashtable.c:108-113 | what a push does to the numbers of entries and of buckets in use |
| `Hashtable.CollisionLaw` | webservice/hashtable.c:108-119 | over any history of adds, collisions are the entries beyond the first of their bucket plus the adds refused |
| `Hashtable.CollisionsOfAllAdds` | webservice/hashtable.c:100-122 | with memory enough, collisions and buckets in use add up to the number of adds |
| `Hashtable.SList.PushFront` | common/slist.c:23-33 | refines putting in front, or nothing and NULL when memory fails |
| `Hashtable.SList.PopFront` | common/slist.c:35-46 | refines taking the first |
| `Hashtable.HashtableObject.constructor` | webservice/hashtable.c:21-49 | distinct empty chains |
| `Hashtable.HashtableObject.FindNode` | webservice/hashtable.c:87-98 | the walk stops at the first node that matches |
| `Hashtable.HashtableObject.AddValue` | webservice/hashtable.c:100-122 | the chains and the counter in the heap change as the table does, and no chain but the key's |
| `Hashtable.HashtableObject.FindValue` | webservice/hashtable.c:124-142 | the value of the table, which is left alone |
| `Hashtable.HashtableObject.Drain` | webservice/hashtable.c:60-64 | a chain is emptied and its values freed once each, in order |
| `Hashtable.HashtableObject.Free` | webservice/hashtable.c:51-73 | all chains are emptied, every value freed once |
| `HashtableRuns.StepKeepsInv` | webservice/hashtable.c:100-142 | whichever thread moves next, under the lock the table stays what the returned calls make of it |
| `HashtableRuns.RunKeepsInv` | webservice/hashtable.c:100-142 | so over every schedule |
| `HashtableRuns.Linearizable` | webservice/hashtable.c:100-142 | in every interleaving of any number of threads the calls, in the order they return and none before it was made, are a sequential run of an insert-only map, and without a writer the table is that map |
| `HashtableRuns.EveryCallIsLogged` | webservice/hashtable.c:100-142 | what is logged for a thread is what it called, in its order, but for the call under way |
| `HashtableRuns.LogOnlyGrows` | webservice/hashtable.c:100-142 | what has returned stays where it is in the order |
| `HashtableRuns.LoggedAfterItWasMade` | webservice/hashtable.c:100-142 | a call comes behind all that had returned when it was made |
| `HashtableRuns.ReadersShareTheLock` | webservice/hashtable.c:131 | two finds can be in the chains at once |
| `HashtableRuns.FoundForever` | webservice/hashtable.c:134-138 | a key found keeps its value for ever |
| `HashtableRuns.AnswersTellTheFirstAdd` | webservice/hashtable.c:100-142 | find returns the value of the successful add before it or NULL; add says FOUND exactly if there was one |
| `HashtableRuns.PutOnce` | webservice/hashtable.c:111-119 | a key is added successfully at most once |
| `HashtableRuns.RunIsLogged` | webservice/hashtable.c:100-122 | in every interleaving the table, counter included, is what the adds that returned make of it, and the writer's call so far |
| `HashtableRuns.CollisionsInRuns` | webservice/hashtable.c:100-122 | so the collision law holds over every schedule, whenever nobody writes |
| `Service.IndexIsFirst` | webservice/http_service.c:44-45 | the search stops at the first node with the session |
| `Service.HttpService.SessionAdd` | webservice/http_service.c:30-36 | the session goes to the end of the list |
| `Service.HttpService.SessionRemove` | webservice/http_service.c:38-56 | the session leaves the list if it is in it, and is freed once in either case |
| `Service.HttpService.Fini` | webservice/http_service.c:203-212 | each listed session is freed once, in order, and so is every node |
| `ServiceRuns.StepKeepsInv` | webservice/http_service.c:30-70 | whichever worker goes on, the list and the sessions stay in step, in the middle of adding and removing too |
| `ServiceRuns.RunKeepsInv` | webservice/http_service.c:30-70 | so over every schedule |
| `ServiceRuns.ListHoldsTheLiving` | webservice/http_service.c:30-56 | whenever the mutex is free the list holds each live session once, but for those just made; a remove never misses its session |
| `ServiceRuns.FreedOnceEach` | webservice/http_service.c:207-210 | freeing along the list frees what it holds once and nothing else |
| `ServiceRuns.ShutdownFreesAll` | webservice/http_service.c:203-212 | after any run and shutdown every session ever accepted was freed exactly once, and its block exactly once when its names are done with |
| `ServiceSessions.AcceptedAreKnown` | webservice/http_service.c:58-70 | the sessions there are, are those accepted |
| `ServiceSessions.EachRunsTheProtocol` | webservice/http_service.c:30-70 | in every interleaving of the workers each session is what its own callbacks, in their order, make of a new session by the session protocol |
| `ServiceHeap.DepartedIfTaken` | webservice/http_service.c:44-50 | the step that finds a session is the removal from the list |
| `ServiceHeap.FreedStaysOk` | webservice/http_service.c:44-50 | a session is freed exactly as it leaves the list |
| `ServiceHeap.Serve` | webservice/http_service.c:30-56 | the list on the heap is the system's list along every schedule, and the sessions that left it have been freed, each once |
| `ServiceHeap.ServeAndShutDown` | webservice/http_service.c:203-212 | after every schedule and http_service_fini, session_free was called once for each session ever accepted, and every node was freed |

## Left out

- libevent, evdns, sockets and pthreads: what they do is a step the environment may take, a lock or an abstract buffer.
- The internals of the HTTP parser and of the JSON library, which are not part of this model: an arbitrary ordered byte automaton and arbitrary strings stand for them.
- Integer widths: counters and lengths are unbounded, so a joke longer than an int can count is not modelled.
- Allocation failure inside the doubly linked list, which the code does not check.
- The choice of the first IPv4 or IPv6 address among those of a name: an outcome says whether there is one and whether it can be connected to.
- The formatting of the date beyond its fixed length; the clock gives any line of that length.
- `http_request_write`: it adds given pieces one after the other, as the response writer does.
- `http_session_event_cb`: the bits of an event are already one of the steps of the protocol here.
- The memory of the response string when writing fails before its last piece; only the last piece frees it.
- `hashtable_get_collisions`, an unlocked read, and the unused size field.
- Nodes of the singly linked chains being freed after a pop, and values that are NULL, at which the drain would stop.
- Liveness: an early end of file of a client or an upstream removes nothing, so nothing is claimed to end by itself.
- What follows the first misuse of memory: the run is marked, and its later steps mean nothing.
- A channel connected by a callback that came at once takes the client's place in `http_sessions[]`; that run is misused already, and the model only keeps the channel as one that was lost.
- The reuse of a freed address for a new session; a new session has a new name.
- The body hook is called for one byte at a time, where the parser may pass several at once; a hook that fails leaves the byte it failed on unconsumed.
- The larger C functions are split into several methods here, at the places where the C code branches.
