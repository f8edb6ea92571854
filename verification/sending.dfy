/** From the upstreams' replies to the bytes the client reads: the session protocol, the substitution and the
    response's framing together. */
module Sending {
  import opened Memory
  import opened Substitution
  import opened Joke
  import opened Simultaneous
  import opened Session
  import opened SessionRuns
  import opened SessionEffects
  import Framing = Response

  // What a run has queued for the client, if the date line of its response is `dateLine`.
  function Sent(w: World, dateLine: string): string {
    if w.record.responses == [] then "" else Framing.Render(w.record.responses[0].Text(), dateLine)
  }

  lemma AnswerIsRead(w: World, dateLine: string, after: string)
    requires Answered(w) && w.record.responses != [] && Framing.IsDateLine(dateLine)
    ensures Framing.ReadResponse(Sent(w, dateLine) + after) == Some(Answer(w).Text())
  {
    Framing.ResponseRoundTrip(Answer(w).Text(), dateLine, after);
  }

  /** Once the run has heard both replies, and until then nothing is sent, the client reads their joke with the
      name and the surname put in, under status 200, whatever follows on the connection; that is the joke with
      both tokens replaced at once exactly if the surname is its own token or the name brings none about. */
  lemma {:induction false} ClientReadsTheJoke(es: seq<Event>, dateLine: string, after: string)
    requires Possible(es) && !Reached(es).life.faulted && Framing.IsDateLine(dateLine)
    ensures var w := Reached(es);
            && (w.record.responses == [] ==> Sent(w, dateLine) == "")
            && (w.life.alive ==> (NameIn(es).Some? && JokeIn(es).Some? <==> w.record.responses != []))
            && (w.record.responses != [] ==>
                  && NameIn(es).Some? && JokeIn(es).Some?
                  && Framing.ReadStatus(Sent(w, dateLine) + after) == Some(("1.0", 200))
                  && var Some((name, surname)), Some(joke) := NameIn(es), JokeIn(es);
                     var read := Framing.ReadResponse(Sent(w, dateLine) + after);
                     && read == Some(ClientText(name, surname, joke))
                     && (read == Some(ReplaceBoth(joke, NAME_TOKEN, name, SURNAME_TOKEN, surname)) <==>
                         surname == SURNAME_TOKEN || AllWithinPieces(Split(joke, NAME_TOKEN), name, SURNAME_TOKEN)))
  {
    var w := Reached(es);
    AnswersWhatWasHeard(es);
    RespondsOnce(es);
    RecordIsHeard(es);
    if w.record.responses != [] {
      AnswerIsRead(w, dateLine, after);
      Framing.StatusRoundTrip(Answer(w).Text(), dateLine, after);
      SequentialIsSimultaneousIff(w.record.name.value.0, w.record.name.value.1, w.record.joke.value);
    }
  }

  /** When the client's channel closes its session, the whole of that has been sent. */
  lemma {:induction false} ClosedAfterTheJoke(es: seq<Event>, dateLine: string, after: string)
    requires Possible(es) && !Reached(es).life.faulted && Framing.IsDateLine(dateLine)
    requires Reached(es).life.removal == Flushed
    ensures var w := Reached(es);
            && !w.client.output && w.record.name.Some? && w.record.joke.Some?
            && Framing.ReadResponse(Sent(w, dateLine) + after) == Some(Answer(w).Text())
  {
    RunKeepsInv(es);
    AnswerIsRead(Reached(es), dateLine, after);
  }
}
