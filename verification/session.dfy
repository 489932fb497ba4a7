/**
 The chat client's send and stop entry points. One accepted send appends the
 question and an empty answer, streams the answer into that turn, and ends in
 one of three ways: the stream completes, the user stops it, or it fails. The
 network reply (status, chunks read, how reading ended) and the clock readings
 are inputs; the effect on the conversation is the list of reducer actions
 dispatched, replayed on the log.
 */
module Session {
  import opened Base
  import opened Text
  import opened MessageLog
  import opened Assembler
  import opened Pacing

  /** How a `fetch` or a read can reject: the user's abort, or any other error with its message. */
  datatype Failure = AbortError | ErrorWith(message: string)

  /** How reading the body ended: the reader reported `done`, or a read rejected. */
  datatype Ending = EndOfStream | ReadFailed(failure: Failure)

  /** The request's fate: `fetch` rejected, or a response arrived and its body was read. */
  datatype Reply = Rejected(failure: Failure) | Responded(status: int, chunks: seq<Chunk>, ending: Ending)

  /** The client state the two entry points read and write. */
  datatype Client = Client(
    log: Log,
    input: string,
    documentCount: nat,
    selectedPdf: string,
    isSending: bool,
    streamingId: Option<string>,
    hasController: bool)

  /** The client state after a send, and the reducer actions it dispatched. */
  datatype Sent = Sent(client: Client, actions: seq<Action>)

  const StoppedMarker: string := "\n\n_Generation stopped_"
  const DefaultErrorMessage: string := "Sorry, an error occurred. Please try again."
  const NotFoundMessage: string := "Document not found. Please reselect."
  const FailedMessage: string := "Failed to get response"
  const ErrorPrefix: string := "\U{274C} "

  function UserId(now: nat): string { "user-" + NatToDecimal(now) }
  function AssistantId(now: nat): string { "assistant-" + NatToDecimal(now + 1) }
  function ErrorId(now: nat): string { "error-" + NatToDecimal(now) }

  /** The question actually sent: the argument, or the input box when the argument is empty. */
  function Question(c: Client, content: string): string {
    if content == "" then c.input else content
  }

  /** A send goes ahead: a non-blank question, no answer in flight, and a document chosen if any exist. */
  predicate Accepts(c: Client, content: string) {
    && !JsIsBlank(Question(c, content))
    && !c.isSending
    && !(c.selectedPdf == "" && c.documentCount > 0)
  }

  function UserTurn(q: string, now: nat): Turn { Turn(UserId(now), User, q, false) }
  function PendingAnswer(now: nat): Turn { Turn(AssistantId(now), Assistant, "", false) }

  /** The error turn that replaces a failed answer. */
  function ErrorTurn(message: string, errorNow: nat): Turn {
    Turn(ErrorId(errorNow), Assistant, ErrorPrefix + (if message == "" then DefaultErrorMessage else message), true)
  }

  /** The error a non-success status raises; 404 has its own message. */
  function StatusFailure(status: int): Failure {
    if status == 404 then ErrorWith(NotFoundMessage) else ErrorWith(FailedMessage)
  }

  /** One `UPDATE_MESSAGE_BY_ID` per dispatched content, in order. */
  function Updates(id: string, ds: seq<string>): (r: seq<Action>)
    ensures |r| == |ds| && forall i :: 0 <= i < |ds| ==> r[i] == UpdateMessageById(id, ds[i])
  {
    seq(|ds|, i requires 0 <= i < |ds| => UpdateMessageById(id, ds[i]))
  }

  /** How a reply ends the exchange, with the message a failure shows. */
  datatype Termination = Completed | Stopped | Failed(message: string)

  /**
   The terminal branch a reply reaches: `done` completes; an abort, whether of
   `fetch` or of a read, stops; a rejected `fetch`, a non-success status or a
   failed read fails.
   */
  function TerminationOf(reply: Reply): Termination {
    match reply
    case Rejected(AbortError) => Stopped
    case Rejected(ErrorWith(m)) => Failed(m)
    case Responded(status, _, ending) =>
      if !(200 <= status < 300) then Failed(StatusFailure(status).message)
      else
        match ending
        case EndOfStream => Completed
        case ReadFailed(AbortError) => Stopped
        case ReadFailed(ErrorWith(m)) => Failed(m)
  }

  /** A success status: the body is read only then. */
  predicate ReadsBody(reply: Reply) {
    reply.Responded? && 200 <= reply.status < 300
  }

  /**
   The contents the read loop dispatched for the answer: the whole assembly when
   the stream completed, the loop's flushes when a read rejected, none when no
   body was read.
   */
  function Streamed(reply: Reply, t0: int): seq<string> {
    if !ReadsBody(reply) then []
    else if reply.ending.EndOfStream? then Assemble(t0, reply.chunks)
    else Run(Start(t0), reply.chunks).dispatched
  }

  /**
   The terminal branch's actions once the read loop is over. `snapshot` is the
   log as the send found it and `live` the log after the streamed patches;
   `stale` selects where the abort branch reads the answer's content: the
   snapshot (as the client is written) or the live log.
   */
  function Terminal(snapshot: Log, live: Log, id: string, errorNow: nat, reply: Reply, stale: bool): seq<Action> {
    match TerminationOf(reply)
    case Completed => []
    case Stopped => [UpdateMessageById(id, ContentOf(if stale then snapshot else live, id) + StoppedMarker)]
    case Failed(m) => [RemoveLastMessage, AddMessage(ErrorTurn(m, errorNow))]
  }

  /** The actions of an accepted send after its two opening turns: the streamed patches, then the terminal branch. */
  function Exchange(snapshot: Log, open: seq<Action>, id: string, t0: int, errorNow: nat, reply: Reply, stale: bool): seq<Action> {
    var streamed := Updates(id, Streamed(reply, t0));
    streamed + Terminal(snapshot, Replay(snapshot, open + streamed), id, errorNow, reply, stale)
  }

  predicate IsAbort(reply: Reply) {
    TerminationOf(reply) == Stopped
  }

  function SendWith(c: Client, content: string, now: nat, t0: int, errorNow: nat, reply: Reply, stale: bool): (r: Sent)
    ensures !Accepts(c, content) ==> r == Sent(c, [])
    ensures Accepts(c, content) ==>
      && |r.actions| >= 2
      && r.actions[0] == AddMessage(UserTurn(Question(c, content), now))
      && r.actions[1] == AddMessage(PendingAnswer(now))
      && r.client.log == Replay(c.log, r.actions)
      && r.client.input == ""
      && !r.client.isSending
      && r.client.streamingId == None
  {
    if !Accepts(c, content) then Sent(c, [])
    else
      var q := Question(c, content);
      var open := [AddMessage(UserTurn(q, now)), AddMessage(PendingAnswer(now))];
      var actions := open + Exchange(c.log, open, AssistantId(now), t0, errorNow, reply, stale);
      var client := c.(
        log := Replay(c.log, actions),
        input := "",
        isSending := false,
        streamingId := None,
        hasController := !IsAbort(reply));
      Sent(client, actions)
  }

  /**
   `sendMessage` as written: the abort branch reads the answer's content from the
   log captured when the send began, which does not hold the answer turn.
   */
  function SendAsWritten(c: Client, content: string, now: nat, t0: int, errorNow: nat, reply: Reply): (r: Sent)
    ensures !Accepts(c, content) ==> r == Sent(c, [])
    ensures Accepts(c, content) ==>
      && |r.actions| >= 2
      && r.actions[..2] == [AddMessage(UserTurn(Question(c, content), now)), AddMessage(PendingAnswer(now))]
      && !r.client.isSending
      && r.client.streamingId == None
  {
    SendWith(c, content, now, t0, errorNow, reply, true)
  }

  /** `sendMessage`, with the abort branch reading the answer's current content. */
  function Send(c: Client, content: string, now: nat, t0: int, errorNow: nat, reply: Reply): (r: Sent)
    ensures !Accepts(c, content) ==> r == Sent(c, [])
    ensures Accepts(c, content) ==>
      && |r.actions| >= 2
      && r.actions[..2] == [AddMessage(UserTurn(Question(c, content), now)), AddMessage(PendingAnswer(now))]
      && r.client.log == Replay(c.log, r.actions)
      && r.client.input == ""
      && !r.client.isSending
      && r.client.streamingId == None
  {
    SendWith(c, content, now, t0, errorNow, reply, false)
  }

  /**
   `stopGeneration`: signals the abort when a controller is held, drops it, and
   clears the sending and streaming flags. The conversation is not touched here;
   the aborted read surfaces in the send's catch block.
   */
  function Stop(c: Client): (Client, bool) {
    (c.(hasController := false, isSending := false, streamingId := None), c.hasController)
  }

  // ---------------------------------------------------------------------------
  // What one send does to the conversation.
  // ---------------------------------------------------------------------------

  /** The question's id and the answer's id never clash: they start with different letters. */
  lemma IdsDiffer(now: nat)
    ensures UserId(now) != AssistantId(now)
  {
    assert UserId(now)[0] == 'u' && AssistantId(now)[0] == 'a';
  }

  /** Replaying content patches for one id leaves that id with the last content patched in. */
  lemma {:induction false} ReplayUpdates(log: Log, id: string, ds: seq<string>)
    ensures Replay(log, Updates(id, ds)) == if ds == [] then log else UpdateById(log, id, ds[|ds| - 1])
    decreases |ds|
  {
    if ds != [] {
      var us := Updates(id, ds);
      assert us[0] == UpdateMessageById(id, ds[0]) && us[1..] == Updates(id, ds[1..]);
      ReplayUpdates(UpdateById(log, id, ds[0]), id, ds[1..]);
      if |ds| > 1 {
        UpdateByIdOverwrites(log, id, ds[0], ds[|ds| - 1]);
      }
    }
  }

  /** Patching the fresh answer turn touches nothing else. */
  lemma PatchAnswer(log: Log, u: Turn, a: Turn, x: string)
    requires !HasId(log, a.id) && u.id != a.id
    ensures UpdateById(log + [u, a], a.id, x) == log + [u, a.(content := x)]
  {
    var r := UpdateById(log + [u, a], a.id, x);
    forall i | 0 <= i < |log| ensures r[i] == log[i] {
      assert log[i].id != a.id;
    }
  }

  /** The opening turns land at the end of the log. */
  lemma ReplayOpening(log: Log, u: Turn, a: Turn)
    ensures Replay(log, [AddMessage(u), AddMessage(a)]) == log + [u, a]
  {
    assert [AddMessage(u), AddMessage(a)] == [AddMessage(u)] + [AddMessage(a)];
    ReplayAppend(log, [AddMessage(u)], [AddMessage(a)]);
    ReplayOne(log, AddMessage(u));
    ReplayOne(log + [u], AddMessage(a));
    assert log + [u] + [a] == log + [u, a];
  }

  /** The answer's patches leave the log as the opening turns with the last content in the answer. */
  lemma ReplayStreamed(log: Log, q: string, now: nat, ds: seq<string>)
    requires !HasId(log, AssistantId(now))
    ensures var a := PendingAnswer(now);
      Replay(log + [UserTurn(q, now), a], Updates(a.id, ds))
        == log + [UserTurn(q, now), a.(content := if ds == [] then "" else ds[|ds| - 1])]
  {
    var u := UserTurn(q, now);
    var a := PendingAnswer(now);
    IdsDiffer(now);
    ReplayUpdates(log + [u, a], a.id, ds);
    if ds == [] {
      assert a.(content := "") == a;
    } else {
      PatchAnswer(log, u, a, ds[|ds| - 1]);
    }
  }

  /** The answer text already shown when the reply ended: nothing if no body was read. */
  function ShownText(reply: Reply, t0: int): (r: string)
    ensures ReadsBody(reply) ==> IsPrefix(r, Concat(Texts(reply.chunks)))
  {
    if ReadsBody(reply) then
      var p := Run(Start(t0), reply.chunks);
      assert p.state.fullText + p.state.buffer == Concat(Texts(reply.chunks));
      assert (p.state.fullText + p.state.buffer)[..|p.state.fullText|] == p.state.fullText;
      p.state.fullText
    else ""
  }

  /** The answer's content once the read loop is over and before the terminal branch. */
  lemma LastStreamed(reply: Reply, t0: int)
    ensures var ds := Streamed(reply, t0);
      (if ds == [] then "" else ds[|ds| - 1])
        == if TerminationOf(reply) == Completed then Concat(Texts(reply.chunks)) else ShownText(reply, t0)
  {
    if ReadsBody(reply) {
      var p := Run(Start(t0), reply.chunks);
      if reply.ending.EndOfStream? {
        assert Streamed(reply, t0) == Assemble(t0, reply.chunks);
      } else {
        assert Streamed(reply, t0) == p.dispatched;
        assert TerminationOf(reply) != Completed;
        assert p.dispatched == [] ==> p.state.fullText == "";
      }
    }
  }

  /** After the opening turns and the streamed patches, the log ends with the question and the answer so far. */
  lemma LiveLog(c: Client, content: string, now: nat, t0: int, reply: Reply)
    requires !HasId(c.log, AssistantId(now))
    ensures var q := Question(c, content);
      var open := [AddMessage(UserTurn(q, now)), AddMessage(PendingAnswer(now))];
      var answer := if TerminationOf(reply) == Completed then Concat(Texts(reply.chunks)) else ShownText(reply, t0);
      Replay(c.log, open + Updates(AssistantId(now), Streamed(reply, t0)))
        == c.log + [UserTurn(q, now), PendingAnswer(now).(content := answer)]
  {
    var q := Question(c, content);
    var open := [AddMessage(UserTurn(q, now)), AddMessage(PendingAnswer(now))];
    var ds := Streamed(reply, t0);
    ReplayAppend(c.log, open, Updates(AssistantId(now), ds));
    ReplayOpening(c.log, UserTurn(q, now), PendingAnswer(now));
    ReplayStreamed(c.log, q, now, ds);
    LastStreamed(reply, t0);
  }

  /** The log after an accepted send: the streamed batch replayed, then the terminal branch. */
  lemma SendActions(c: Client, content: string, now: nat, t0: int, errorNow: nat, reply: Reply, stale: bool)
    requires Accepts(c, content)
    ensures var q := Question(c, content);
      var id := AssistantId(now);
      var open := [AddMessage(UserTurn(q, now)), AddMessage(PendingAnswer(now))];
      var live := Replay(c.log, open + Updates(id, Streamed(reply, t0)));
      SendWith(c, content, now, t0, errorNow, reply, stale).client.log
        == Replay(live, Terminal(c.log, live, id, errorNow, reply, stale))
  {
    var q := Question(c, content);
    var id := AssistantId(now);
    var open := [AddMessage(UserTurn(q, now)), AddMessage(PendingAnswer(now))];
    var streamed := Updates(id, Streamed(reply, t0));
    var live := Replay(c.log, open + streamed);
    var ending := Terminal(c.log, live, id, errorNow, reply, stale);
    var r := SendWith(c, content, now, t0, errorNow, reply, stale);
    assert r.actions == open + (streamed + ending);
    assert open + (streamed + ending) == (open + streamed) + ending;
    ReplayAppend(c.log, open + streamed, ending);
  }

  /**
   A stream read to its end leaves the question and an answer whose content is
   every chunk's text, in order, after the log as the send found it.
   */
  lemma SendCompletes(c: Client, content: string, now: nat, t0: int, errorNow: nat, reply: Reply)
    requires Accepts(c, content) && !HasId(c.log, AssistantId(now))
    requires TerminationOf(reply) == Completed
    ensures Send(c, content, now, t0, errorNow, reply).client.log
      == c.log + [UserTurn(Question(c, content), now),
                  Turn(AssistantId(now), Assistant, Concat(Texts(reply.chunks)), false)]
  {
    SendActions(c, content, now, t0, errorNow, reply, false);
    LiveLog(c, content, now, t0, reply);
    var live := c.log + [UserTurn(Question(c, content), now), PendingAnswer(now).(content := Concat(Texts(reply.chunks)))];
    assert Replay(live, []) == live;
  }

  /**
   A failure drops the pending answer, with whatever text it had shown, and
   appends one error turn carrying the failure's message (the dedicated message
   for a 404); the question stays.
   */
  lemma SendFailureReplacesAnswer(c: Client, content: string, now: nat, t0: int, errorNow: nat, reply: Reply)
    requires Accepts(c, content) && !HasId(c.log, AssistantId(now))
    requires TerminationOf(reply).Failed?
    ensures Send(c, content, now, t0, errorNow, reply).client.log
      == c.log + [UserTurn(Question(c, content), now), ErrorTurn(TerminationOf(reply).message, errorNow)]
  {
    var u := UserTurn(Question(c, content), now);
    var e := ErrorTurn(TerminationOf(reply).message, errorNow);
    var live := c.log + [u, PendingAnswer(now).(content := ShownText(reply, t0))];
    SendActions(c, content, now, t0, errorNow, reply, false);
    LiveLog(c, content, now, t0, reply);
    assert Terminal(c.log, live, AssistantId(now), errorNow, reply, false) == [RemoveLastMessage, AddMessage(e)];
    RemoveThenAdd(live, e);
    assert RemoveLast(live) == c.log + [u];
  }

  /**
   A non-success status ends the exchange with the question and one error turn:
   the dedicated message for a 404, the generic one for any other status.
   */
  lemma SendStatusError(c: Client, content: string, now: nat, t0: int, errorNow: nat,
                        status: int, chunks: seq<Chunk>, ending: Ending)
    requires Accepts(c, content) && !HasId(c.log, AssistantId(now))
    requires !(200 <= status < 300)
    ensures var reply := Responded(status, chunks, ending);
      var shown := ErrorPrefix + (if status == 404 then NotFoundMessage else FailedMessage);
      var expected := c.log + [UserTurn(Question(c, content), now), Turn(ErrorId(errorNow), Assistant, shown, true)];
      && Send(c, content, now, t0, errorNow, reply).client.log == expected
      && SendAsWritten(c, content, now, t0, errorNow, reply).client.log == expected
  {
    var reply := Responded(status, chunks, ending);
    SendFailureReplacesAnswer(c, content, now, t0, errorNow, reply);
    AsWrittenAgrees(c, content, now, t0, errorNow, reply);
    assert TerminationOf(reply).message == if status == 404 then NotFoundMessage else FailedMessage;
    assert |NotFoundMessage| > 0 && |FailedMessage| > 0;
  }

  /**
   As written and corrected, the send differs only in the abort branch: every
   reply that does not stop leaves the same client and the same actions.
   */
  lemma AsWrittenAgrees(c: Client, content: string, now: nat, t0: int, errorNow: nat, reply: Reply)
    requires TerminationOf(reply) != Stopped
    ensures SendAsWritten(c, content, now, t0, errorNow, reply) == Send(c, content, now, t0, errorNow, reply)
  {
    if Accepts(c, content) {
      var q := Question(c, content);
      var open := [AddMessage(UserTurn(q, now)), AddMessage(PendingAnswer(now))];
      assert Exchange(c.log, open, AssistantId(now), t0, errorNow, reply, true)
        == Exchange(c.log, open, AssistantId(now), t0, errorNow, reply, false);
    }
  }

  /** Replaying a removal and then an addition replaces the last turn. */
  lemma RemoveThenAdd(log: Log, e: Turn)
    ensures Replay(log, [RemoveLastMessage, AddMessage(e)]) == RemoveLast(log) + [e]
  {
    assert [RemoveLastMessage, AddMessage(e)] == [RemoveLastMessage] + [AddMessage(e)];
    ReplayAppend(log, [RemoveLastMessage], [AddMessage(e)]);
    ReplayOne(log, RemoveLastMessage);
    ReplayOne(RemoveLast(log), AddMessage(e));
  }

  /** The abort branch patches the answer with the content it reads and the stop marker. */
  lemma StopTerminal(snapshot: Log, live: Log, id: string, errorNow: nat, reply: Reply, stale: bool)
    requires TerminationOf(reply) == Stopped
    ensures Replay(live, Terminal(snapshot, live, id, errorNow, reply, stale))
      == UpdateById(live, id, ContentOf(if stale then snapshot else live, id) + StoppedMarker)
  {
    var x := ContentOf(if stale then snapshot else live, id) + StoppedMarker;
    assert Terminal(snapshot, live, id, errorNow, reply, stale) == [UpdateMessageById(id, x)];
    ReplayOne(live, UpdateMessageById(id, x));
  }

  /** Before the terminal branch of a stop, the answer holds the text already shown. */
  lemma StopLiveLog(c: Client, content: string, now: nat, t0: int, reply: Reply)
    requires !HasId(c.log, AssistantId(now))
    requires TerminationOf(reply) == Stopped
    ensures var q := Question(c, content);
      var open := [AddMessage(UserTurn(q, now)), AddMessage(PendingAnswer(now))];
      Replay(c.log, open + Updates(AssistantId(now), Streamed(reply, t0)))
        == c.log + [UserTurn(q, now), PendingAnswer(now).(content := ShownText(reply, t0))]
  {
    LiveLog(c, content, now, t0, reply);
  }

  /**
   A stop leaves the question and the answer, whose content is what the abort
   branch read for the answer followed by the stop marker.
   */
  lemma StopEnds(c: Client, content: string, now: nat, t0: int, errorNow: nat, reply: Reply, stale: bool)
    requires Accepts(c, content) && !HasId(c.log, AssistantId(now))
    requires TerminationOf(reply) == Stopped
    ensures var u := UserTurn(Question(c, content), now);
      var live := c.log + [u, PendingAnswer(now).(content := ShownText(reply, t0))];
      var read := ContentOf(if stale then c.log else live, AssistantId(now));
      SendWith(c, content, now, t0, errorNow, reply, stale).client.log
        == c.log + [u, Turn(AssistantId(now), Assistant, read + StoppedMarker, false)]
  {
    var u := UserTurn(Question(c, content), now);
    var a := PendingAnswer(now);
    var shown := a.(content := ShownText(reply, t0));
    var live := c.log + [u, shown];
    var x := ContentOf(if stale then c.log else live, a.id) + StoppedMarker;
    SendActions(c, content, now, t0, errorNow, reply, stale);
    StopLiveLog(c, content, now, t0, reply);
    StopTerminal(c.log, live, a.id, errorNow, reply, stale);
    IdsDiffer(now);
    PatchAnswer(c.log, u, shown, x);
  }

  /**
   A stop keeps the question and leaves the answer holding the text already
   shown, a prefix of everything received, followed by the stop marker.
   */
  lemma SendStoppedKeepsShownText(c: Client, content: string, now: nat, t0: int, errorNow: nat, reply: Reply)
    requires Accepts(c, content) && !HasId(c.log, AssistantId(now))
    requires TerminationOf(reply) == Stopped
    ensures Send(c, content, now, t0, errorNow, reply).client.log
      == c.log + [UserTurn(Question(c, content), now),
                  Turn(AssistantId(now), Assistant, ShownText(reply, t0) + StoppedMarker, false)]
  {
    var u := UserTurn(Question(c, content), now);
    var a := PendingAnswer(now).(content := ShownText(reply, t0));
    StopEnds(c, content, now, t0, errorNow, reply, false);
    IdsDiffer(now);
    FindSkipsPrefix(c.log, [u, a], a.id);
  }

  /**
   As written, a stop throws away every character already shown: the abort
   branch reads the log captured before the answer turn existed, so the answer
   ends as the bare stop marker.
   */
  lemma StopAsWrittenDiscardsShownText(c: Client, content: string, now: nat, t0: int, errorNow: nat, reply: Reply)
    requires Accepts(c, content) && !HasId(c.log, AssistantId(now))
    requires TerminationOf(reply) == Stopped
    ensures SendAsWritten(c, content, now, t0, errorNow, reply).client.log
      == c.log + [UserTurn(Question(c, content), now), Turn(AssistantId(now), Assistant, StoppedMarker, false)]
  {
    StopEnds(c, content, now, t0, errorNow, reply, true);
    FindIsFirstMatch(c.log, AssistantId(now));
    assert ContentOf(c.log, AssistantId(now)) + StoppedMarker == StoppedMarker;
  }

  /** A loop over one chunk ends where that chunk's step does. */
  lemma RunOne(s: State, c: Chunk)
    ensures Run(s, [c]).state == Step(s, c).state
  {
    assert [c][1..] == [];
  }

  /** A first chunk that ends a sentence and arrives late enough is flushed whole. */
  lemma SentenceFlushes()
    ensures Step(Start(0), Chunk("Hello world. ", 100)).state.fullText == "Hello world. "
  {
    var b := "Hello world. ";
    var s0 := Start(0);
    assert BreakAt(b, 11) by { assert b[12..] == " "; }
    assert EndsWithSentenceBreak(b);
    assert s0.buffer + b == b;
    assert ShouldFlush(s0.buffer + b, 100 - s0.lastUpdateTime, s0.inWord);
  }

  /** One chunk ending in a sentence and arriving late enough is shown whole. */
  lemma OneSentenceShown()
    ensures ShownText(Responded(200, [Chunk("Hello world. ", 100)], ReadFailed(AbortError)), 0) == "Hello world. "
  {
    SentenceFlushes();
    RunOne(Start(0), Chunk("Hello world. ", 100));
  }

  /** A concrete stop after one sentence was shown: as written the sentence is lost, corrected it stays. */
  lemma StopAfterOneSentence()
    ensures var c := Client([], "", 0, "", false, None, false);
      var reply := Responded(200, [Chunk("Hello world. ", 100)], ReadFailed(AbortError));
      var asked := UserTurn("Hi", 1000);
      && ShownText(reply, 0) == "Hello world. "
      && Send(c, "Hi", 1000, 0, 2000, reply).client.log
           == [asked, Turn(AssistantId(1000), Assistant, "Hello world. " + StoppedMarker, false)]
      && SendAsWritten(c, "Hi", 1000, 0, 2000, reply).client.log
           == [asked, Turn(AssistantId(1000), Assistant, StoppedMarker, false)]
  {
    var c := Client([], "", 0, "", false, None, false);
    var reply := Responded(200, [Chunk("Hello world. ", 100)], ReadFailed(AbortError));
    OneSentenceShown();
    assert Accepts(c, "Hi") by { assert !IsJsSpace('H'); }
    assert TerminationOf(reply) == Stopped;
    SendStoppedKeepsShownText(c, "Hi", 1000, 0, 2000, reply);
    StopAsWrittenDiscardsShownText(c, "Hi", 1000, 0, 2000, reply);
    assert c.log + [UserTurn("Hi", 1000), Turn(AssistantId(1000), Assistant, StoppedMarker, false)]
      == [UserTurn("Hi", 1000), Turn(AssistantId(1000), Assistant, StoppedMarker, false)];
  }

  /**
   A stop clears the busy flag the send guard checks: afterwards a question the
   guard would accept on every other ground is accepted.
   */
  lemma StopReenablesSend(c: Client, content: string)
    ensures !JsIsBlank(Question(c, content)) && !(c.selectedPdf == "" && c.documentCount > 0)
      ==> Accepts(Stop(c).0, content)
  {
    var d := Stop(c).0;
    assert d.input == c.input && d.selectedPdf == c.selectedPdf && d.documentCount == c.documentCount;
    assert Question(d, content) == Question(c, content);
  }

  /** Stopping twice signals the abort at most once and leaves the same client. */
  lemma StopIsIdempotent(c: Client)
    ensures !Stop(Stop(c).0).1 && Stop(Stop(c).0).0 == Stop(c).0
    ensures Stop(c).0.log == c.log
  {
  }
}
