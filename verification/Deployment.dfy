/** The end-to-end protocol carried by the texts that really cross the wire: every delivery of a payload
    to a handler of the coordinator or the worker is a step of the protocol. */
module Deployment {
  import opened Words
  import opened Text
  import opened Payloads
  import opened Coordinator
  import opened Protocol

  /** A dispatch payload and the process whose connection it was written to. */
  datatype Letter = Letter(text: string, id: nat, boot: nat)

  function LetterOf(s: Sent): Letter { Letter(DispatchText(s.d), s.id, s.boot) }

  /** What the worker sends back for it. */
  function AnswerText(s: Sent): string { CompleteText(Protocol.Reply(s)) }

  /** The texts written so far are those of the messages of the world. */
  predicate Carries(w: World, letters: set<Letter>, answers: set<string>) {
    && letters == (set s | s in w.dispatches :: LetterOf(s))
    && answers == (set s | s in w.answered :: AnswerText(s))
    && w.answered <= w.dispatches
    && forall s :: s in w.dispatches ==> Writable(s)
  }

  /** The numbers are 64-bit words and the work holds no bar. */
  predicate Writable(s: Sent) { WordSized(Protocol.Reply(s)) && '|' !in s.d.work }

  lemma AfterSnoc(w: World, es: seq<Event>, e: Event)
    ensures After(w, es + [e]) == Next(After(w, es), e)
  {
    hide Next;
    assert (es + [e])[..|es|] == es;
  }

  /** Locking and dispatching without another submission in between. */
  lemma SubmitSteps(w: World, m: Submission, id: nat, boot: nat)
    requires Consistent(w.coord) && !w.pending && Alive(w.coord, m.worker)
    ensures var n := w.coord.curAttempt + 1;
            var v := Next(Next(w, Submitting(m.worker, m.work)), Dispatching(id, boot));
            && v.coord == Submit(w.coord, m.worker) && !v.pending && v.answered == w.answered
            && v.dispatches == w.dispatches + {Sent(Dispatch(w.coord.epoch, n, n, n, m.work), id, boot)}
  {
    SubmitKeeps(w.coord, m.worker);
  }

  lemma TableSteps(w: World, r: Registration, fd: int)
    ensures Next(w, Registering(r, fd)) == w.(coord := Register(w.coord, r, fd))
    ensures Next(w, Disconnecting(fd)) == w.(coord := Disconnect(w.coord, fd))
  {
  }

  lemma RestartStepIs(w: World, epoch: nat)
    requires epoch > w.coord.epoch
    ensures Next(w, Restarting(epoch)) == w.(coord := Fresh(epoch), pending := false)
  {
  }

  lemma AnswerStepIs(w: World, s: Sent)
    requires s in w.dispatches
    ensures Next(w, Answering(s)) == w.(answered := w.answered + {s})
  {
  }

  lemma DeliverStepIs(w: World, s: Sent)
    requires s in w.answered
    ensures var c := Protocol.Reply(s);
            Next(w, Delivering(s)) ==
            w.(coord := Complete(w.coord, c), log := w.log + if Judge(w.coord, c).Accepted? then [c] else [])
  {
    hide Judge, Signature;
    assert w.log + [] == w.log;
  }

  lemma SameTexts(w: World, v: World, letters: set<Letter>, answers: set<string>)
    requires Carries(w, letters, answers) && v.dispatches == w.dispatches && v.answered == w.answered
    ensures Carries(v, letters, answers)
  {
    hide LetterOf, AnswerText, Writable;
  }

  lemma LetterFrom(w: World, letters: set<Letter>, answers: set<string>, l: Letter) returns (s: Sent)
    requires Carries(w, letters, answers) && l in letters
    ensures s in w.dispatches && l == LetterOf(s) && Writable(s)
  {
    hide LetterOf, AnswerText, Writable;
    s :| s in w.dispatches && l == LetterOf(s);
  }

  lemma AnswerFrom(w: World, letters: set<Letter>, answers: set<string>, text: string) returns (s: Sent)
    requires Carries(w, letters, answers) && text in answers
    ensures s in w.answered && text == AnswerText(s) && Writable(s)
  {
    hide LetterOf, AnswerText, Writable;
    s :| s in w.answered && text == AnswerText(s);
  }

  /** Every rejection of an honest answer names a reason other than a conflict or a malformed payload. */
  lemma HonestReasons(v: Verdict)
    requires v != ConflictingDuplicate
    ensures Reason(v) != "conflicting_duplicate" && Reason(v) != "malformed"
  {
    assert |Reason(v)| != 9;
    assert |Reason(v)| == 21 ==> Reason(v)[0] == 'n';
  }

  lemma NewLetter(w: World, v: World, letters: set<Letter>, answers: set<string>, s: Sent)
    requires Carries(w, letters, answers) && Writable(s)
    requires v.dispatches == w.dispatches + {s} && v.answered == w.answered
    ensures Carries(v, letters + {LetterOf(s)}, answers)
  {
    hide LetterOf, AnswerText, Writable;
  }

  lemma NewAnswer(w: World, v: World, letters: set<Letter>, answers: set<string>, s: Sent)
    requires Carries(w, letters, answers) && s in w.dispatches
    requires v.dispatches == w.dispatches && v.answered == w.answered + {s}
    ensures Carries(v, letters, answers + {AnswerText(s)})
  {
    hide LetterOf, AnswerText, Writable;
  }

  /** The worker's handler on a dispatch text yields exactly the text of the answer. */
  lemma AnswerWritten(s: Sent)
    requires Writable(s)
    ensures DispatchReply(DispatchText(s.d), s.id, s.boot) == Some(AnswerText(s))
    ensures ReadComplete(AnswerText(s)) == Value(Protocol.Reply(s))
  {
    hide DispatchReply, CompleteText, ReadComplete;
    DispatchAnswered(s.d, s.id, s.boot);
  }

  class Deployment {
    var coord: Coordinator
    var letters: set<Letter>
    var answers: set<string>
    /** The epoch of the first coordinator and the steps taken since. */
    ghost const first: nat
    ghost var events: seq<Event>

    ghost function World(): World
      reads this
    {
      After(Start(first), events)
    }

    ghost predicate Valid()
      reads this, coord
    {
      && coord.Valid() && coord.Now() == World().coord && coord.epoch < U64
      && !World().pending && Carries(World(), letters, answers)
    }

    constructor (epoch: nat)
      requires epoch < U64
      ensures Valid() && fresh(coord) && first == epoch && events == [] && letters == {} && answers == {}
    {
      coord := new Coordinator(epoch);
      letters, answers := {}, {};
      first, events := epoch, [];
    }

    ghost method Take(e: Event)
      modifies this`events
      ensures events == old(events) + [e] && World() == Next(old(World()), e)
    {
      AfterSnoc(Start(first), events, e);
      events := events + [e];
    }

    /** A registration payload arrives on a connection. */
    method OnRegister(payload: string, fd: int) returns (reply: Reply)
      requires Valid()
      modifies this`events, coord
      ensures Valid()
      ensures events == old(events)
                        + if ReadRegister(payload).Value? then [Registering(ReadRegister(payload).value, fd)] else []
    {
      hide After, Next, ReadRegister, Consistent, Carries, Register;
      ghost var w := World();
      var known;
      reply, known := coord.HandleRegister(payload, fd);
      if ReadRegister(payload).Value? {
        ghost var r := ReadRegister(payload).value;
        TableSteps(w, r, fd);
        RegisterKeepsEpoch(w.coord, r, fd);
        Take(Registering(r, fd));
        SameTexts(w, World(), letters, answers);
      }
    }

    /** A submission payload arrives; its dispatch is written to the connection of process `id`, `boot`. */
    method OnSubmit(payload: string, id: nat, boot: nat) returns (reply: Reply)
      requires Valid() && id < U64 && boot < U64 && coord.curAttempt + 1 < U64
      modifies this`events, this`letters, coord
      ensures Valid()
      ensures var m := ReadSubmit(payload);
              events == old(events) + if m.Value? && Alive(old(coord.Now()), m.value.worker)
                                      then [Submitting(m.value.worker, m.value.work), Dispatching(id, boot)] else []
    {
      hide After, Next, ReadSubmit, Consistent, Carries, DispatchText, Decimal, Join, Submit;
      ghost var w := World();
      var dispatch;
      reply, dispatch := coord.HandleSubmit(payload);
      if dispatch.Some? {
        ghost var m := ReadSubmit(payload).value;
        ghost var n := w.coord.curAttempt + 1;
        ghost var s := Sent(Dispatch(w.coord.epoch, n, n, n, m.work), id, boot);
        SubmittedWorkWhole(payload);
        SubmitSteps(w, m, id, boot);
        SubmitKeepsEpoch(w.coord, m.worker);
        NewLetter(w, Next(Next(w, Submitting(m.worker, m.work)), Dispatching(id, boot)), letters, answers, s);
        letters := letters + {Letter(dispatch.value.1, id, boot)};
        Take(Submitting(m.worker, m.work));
        Take(Dispatching(id, boot));
      }
    }

    /** A dispatch text is delivered to its worker, for the first time or again. */
    method OnDispatch(l: Letter)
      requires Valid() && l in letters
      modifies this`events, this`answers
      ensures Valid() && exists s :: s in old(World()).dispatches && l == LetterOf(s) && events == old(events) + [Answering(s)]
    {
      hide After, Next, DispatchReply, Writable, Consistent, Carries, AnswerText, DispatchText;
      ghost var w := World();
      ghost var s := LetterFrom(w, letters, answers, l);
      AnswerWritten(s);
      var reply := HandleDispatch(l.text, l.id, l.boot);
      AnswerStepIs(w, s);
      NewAnswer(w, Next(w, Answering(s)), letters, answers, s);
      answers := answers + {reply.value};
      Take(Answering(s));
    }

    /** A completion text is delivered to the coordinator, for the first time or again: the reply is an
        acknowledgement or a rejection, never that of a conflicting duplicate, and it is acknowledged
        exactly when it is added to what was accepted. */
    method OnComplete(text: string) returns (reply: Reply)
      requires Valid() && text in answers
      modifies this`events, coord
      ensures Valid()
      ensures exists s :: s in old(World()).answered && text == AnswerText(s) && events == old(events) + [Delivering(s)]
      ensures reply == Ack || (reply.Rejected? && reply.reason != "conflicting_duplicate" && reply.reason != "malformed")
      ensures reply == Ack <==> |World().log| == |old(World()).log| + 1
    {
      hide After, Next, ReadComplete, Writable, Consistent, Carries, AnswerText, Reason, Judge, Complete;
      ghost var w := World();
      ghost var s := AnswerFrom(w, letters, answers, text);
      AnswerWritten(s);
      NeverConflicting(first, events, s);
      HonestReasons(Judge(w.coord, Protocol.Reply(s)));
      DeliverStepIs(w, s);
      CompleteKeepsEpoch(w.coord, Protocol.Reply(s));
      reply := coord.HandleComplete(text);
      Take(Delivering(s));
      SameTexts(w, World(), letters, answers);
    }

    method OnDisconnect(fd: int)
      requires Valid()
      modifies this`events, coord
      ensures Valid() && events == old(events) + [Disconnecting(fd)]
    {
      hide After, Next, Consistent, Carries, Disconnect;
      ghost var w := World();
      var dead := coord.DisconnectTail(fd);
      TableSteps(w, Registration("", 0, 0), fd);
      DisconnectKeepsEpoch(w.coord, fd);
      Take(Disconnecting(fd));
      SameTexts(w, World(), letters, answers);
    }

    /** The coordinator dies and one of a later epoch takes over. */
    method OnRestart(epoch: nat)
      requires Valid() && coord.epoch < epoch < U64
      modifies this`events, this`coord
      ensures Valid() && fresh(coord) && events == old(events) + [Restarting(epoch)]
    {
      hide After, Next, Consistent, Carries;
      ghost var w := World();
      RestartStepIs(w, epoch);
      coord := new Coordinator(epoch);
      Take(Restarting(epoch));
      SameTexts(w, World(), letters, answers);
    }
  }

  // No step of a running coordinator changes its epoch.
  lemma RegisterKeepsEpoch(s: State, r: Registration, fd: int)
    ensures Register(s, r, fd).epoch == s.epoch
  {
  }

  lemma SubmitKeepsEpoch(s: State, worker: nat)
    requires Alive(s, worker)
    ensures Submit(s, worker).epoch == s.epoch
  {
  }

  lemma CompleteKeepsEpoch(s: State, c: Completion)
    ensures Complete(s, c).epoch == s.epoch
  {
    hide Judge, Signature;
  }

  lemma DisconnectKeepsEpoch(s: State, fd: int)
    ensures Disconnect(s, fd).epoch == s.epoch
  {
  }
}
