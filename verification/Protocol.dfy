/** End to end: honest workers, one serial controller, a chain of coordinators, and a network that may
    drop, duplicate, delay and reorder whole frames.  A submission takes the lock in one step and reads
    the authority for its dispatch in a later one; with one controller no other submission comes
    between, and nothing else writes the fields it reads. */
module Protocol {
  import opened Payloads
  import opened Coordinator
  import Digest

  /** What was submitted as an attempt, and the boot it was dispatched under. */
  datatype Order = Order(worker: nat, boot: nat, work: string)

  /** A dispatch and the process whose connection it was written to.  The descriptor is used after the
      lock is released, so that process may be any. */
  datatype Sent = Sent(d: Dispatch, id: nat, boot: nat)

  /** Everything ever sent stays available for delivery, any number of times and in any order; a frame
      that is never delivered is a frame dropped. */
  datatype World = World(
    coord: State,
    pending: bool,                    // a submission is between its lock and its send
    orders: map<(nat, nat), Order>,   // by epoch and attempt
    dispatches: set<Sent>,
    answered: set<Sent>,
    log: seq<Completion>)             // every completion accepted, by any coordinator of the chain

  datatype Event =
    | Registering(r: Registration, fd: int)
    | Submitting(worker: nat, work: string)
    | Dispatching(id: nat, boot: nat)
    | SendFailing
    | Answering(s: Sent)
    | Delivering(s: Sent)
    | Disconnecting(fd: int)
    | Restarting(epoch: nat)

  function Reply(s: Sent): Completion { Answer(s.d, s.id, s.boot) }

  function Work(w: World): string {
    var key := (w.coord.epoch, w.coord.curAttempt);
    if key in w.orders then w.orders[key].work else ""
  }

  function Next(w: World, e: Event): World {
    match e
    case Registering(r, fd) => w.(coord := Register(w.coord, r, fd))
    case Submitting(worker, work) =>
      if w.pending || !Alive(w.coord, worker) then w
      else
        var s := Submit(w.coord, worker);
        w.(coord := s, pending := true, orders := w.orders[(s.epoch, s.curAttempt) := Order(worker, s.curBoot, work)])
    case Dispatching(id, boot) =>
      if !w.pending then w
      else
        var d := Dispatch(w.coord.epoch, w.coord.curAttempt, w.coord.curGen, w.coord.curDispatch, Work(w));
        w.(pending := false, dispatches := w.dispatches + {Sent(d, id, boot)})
    case SendFailing => w.(pending := false)
    case Answering(s) => if s in w.dispatches then w.(answered := w.answered + {s}) else w
    case Delivering(s) =>
      if s in w.answered && Judge(w.coord, Reply(s)).Accepted? then
        w.(coord := Complete(w.coord, Reply(s)), log := w.log + [Reply(s)])
      else w
    case Disconnecting(fd) => w.(coord := Disconnect(w.coord, fd))
    case Restarting(epoch) => if epoch > w.coord.epoch then w.(coord := Fresh(epoch), pending := false) else w
  }

  function After(w: World, es: seq<Event>): World {
    if es == [] then w else Next(After(w, es[..|es| - 1]), es[|es| - 1])
  }

  function Start(epoch: nat): World { World(Fresh(epoch), false, map[], {}, {}, []) }

  // ----- the invariant -----

  /** Attempts are numbered from one in every epoch, and the current one is on record. */
  predicate OrdersOk(w: World) {
    && (forall k :: k in w.orders ==> k.0 <= w.coord.epoch && (k.0 == w.coord.epoch ==> 0 < k.1 <= w.coord.curAttempt))
    && (w.coord.curAttempt > 0 ==>
          (w.coord.epoch, w.coord.curAttempt) in w.orders && w.orders[(w.coord.epoch, w.coord.curAttempt)].boot == w.coord.curBoot)
    && (w.pending ==> w.coord.curAttempt > 0)
  }

  predicate Faithful(w: World, s: Sent) {
    && s.d.attempt == s.d.gen == s.d.dispatch
    && (s.d.epoch, s.d.attempt) in w.orders && s.d.work == w.orders[(s.d.epoch, s.d.attempt)].work
  }

  /** One dispatch at most for every attempt, of the work submitted; none yet while it is pending. */
  predicate DispatchesOk(w: World) {
    && (forall s :: s in w.dispatches ==> Faithful(w, s))
    && (forall s, t :: s in w.dispatches && t in w.dispatches && s.d.epoch == t.d.epoch && s.d.attempt == t.d.attempt ==> s == t)
    && (w.pending ==> forall s :: s in w.dispatches ==> s.d.epoch != w.coord.epoch || s.d.attempt != w.coord.curAttempt)
    && w.answered <= w.dispatches
  }

  predicate Right(w: World, c: Completion) {
    && (c.epoch, c.attempt) in w.orders
    && var o := w.orders[(c.epoch, c.attempt)]; c.boot == o.boot && c.result == Digest.WorkResult(o.work, o.boot)
  }

  predicate FromSent(w: World, c: Completion) { exists s :: s in w.answered && c == Reply(s) }

  predicate LogOk(w: World) {
    && (forall i :: 0 <= i < |w.log| ==> FromSent(w, w.log[i]) && Right(w, w.log[i]))
    && (forall i, j :: 0 <= i < j < |w.log| ==> (w.log[i].epoch, w.log[i].attempt) != (w.log[j].epoch, w.log[j].attempt))
    && (forall i :: 0 <= i < |w.log| && w.log[i].epoch == w.coord.epoch ==> Signature(w.log[i]) in w.coord.committed)
    && (forall sig :: sig in w.coord.sigResult ==>
          exists i :: 0 <= i < |w.log| && Signature(w.log[i]) == sig && w.log[i].result == w.coord.sigResult[sig])
  }

  predicate Inv(w: World) { Consistent(w.coord) && OrdersOk(w) && DispatchesOk(w) && LogOk(w) }

  // ----- every step keeps it -----

  /** The answer to a dispatch is settled by its epoch and attempt. */
  lemma OneAnswer(w: World, s: Sent, c: Completion)
    requires DispatchesOk(w) && s in w.answered && FromSent(w, c)
    requires c.epoch == s.d.epoch && c.attempt == s.d.attempt
    ensures c == Reply(s)
  {
    hide Faithful, Digest.WorkResult;
    var t :| t in w.answered && c == Reply(t);
    assert t in w.dispatches && s in w.dispatches;
  }

  lemma SubmitStep(w: World, worker: nat, work: string)
    requires Inv(w) && !w.pending && Alive(w.coord, worker)
    ensures Inv(Next(w, Submitting(worker, work)))
  {
    hide Signature, Digest.WorkResult;
    SubmitKeeps(w.coord, worker);
    var v := Next(w, Submitting(worker, work));
    SubmitOrders(w, worker, work);
    forall s | s in v.dispatches
      ensures Faithful(v, s) && (s.d.epoch != v.coord.epoch || s.d.attempt != v.coord.curAttempt)
    {
      assert Faithful(w, s);
    }
    SubmitLog(w, v);
  }

  lemma SubmitOrders(w: World, worker: nat, work: string)
    requires Consistent(w.coord) && OrdersOk(w) && !w.pending && Alive(w.coord, worker)
    ensures OrdersOk(Next(w, Submitting(worker, work)))
  {
  }

  /** Recording one more order under a new key touches nothing in the log. */
  lemma SubmitLog(w: World, v: World)
    requires LogOk(w)
    requires v.log == w.log && v.answered == w.answered && v.coord.epoch == w.coord.epoch
    requires v.coord.committed == w.coord.committed && v.coord.sigResult == w.coord.sigResult
    requires forall k :: k in w.orders ==> k in v.orders && v.orders[k] == w.orders[k]
    ensures LogOk(v)
  {
    hide Signature, Digest.WorkResult;
    forall i | 0 <= i < |w.log| ensures FromSent(v, w.log[i]) && Right(v, w.log[i]) {
      assert FromSent(w, w.log[i]) && Right(w, w.log[i]);
      var s :| s in w.answered && w.log[i] == Reply(s);
      assert s in v.answered;
    }
  }

  lemma DispatchStep(w: World, id: nat, boot: nat)
    requires Inv(w) && w.pending
    ensures Inv(Next(w, Dispatching(id, boot)))
  {
    hide Signature, Digest.WorkResult;
    var v := Next(w, Dispatching(id, boot));
    forall s | s in v.dispatches ensures Faithful(v, s) {
      if s in w.dispatches { assert Faithful(w, s); }
    }
    SubmitLog(w, v);
  }

  lemma AnswerStep(w: World, s: Sent)
    requires Inv(w) && s in w.dispatches
    ensures Inv(Next(w, Answering(s)))
  {
    hide Signature, Digest.WorkResult;
    var v := Next(w, Answering(s));
    forall t | t in v.dispatches ensures Faithful(v, t) { assert Faithful(w, t); }
    forall i | 0 <= i < |w.log| ensures FromSent(v, w.log[i]) && Right(v, w.log[i]) {
      assert FromSent(w, w.log[i]) && Right(w, w.log[i]);
      var t :| t in w.answered && w.log[i] == Reply(t);
      assert t in v.answered;
    }
  }

  lemma AcceptedIsRight(w: World, s: Sent)
    requires Inv(w) && s in w.answered && Judge(w.coord, Reply(s)).Accepted?
    ensures Right(w, Reply(s)) && FromSent(w, Reply(s)) && Reply(s).epoch == w.coord.epoch
    ensures forall i :: 0 <= i < |w.log| ==> (w.log[i].epoch, w.log[i].attempt) != (Reply(s).epoch, Reply(s).attempt)
  {
    hide Signature, Digest.WorkResult;
    var c := Reply(s);
    AcceptedQuotesCurrent(w.coord, c);
    assert Faithful(w, s);
    forall i | 0 <= i < |w.log| ensures (w.log[i].epoch, w.log[i].attempt) != (c.epoch, c.attempt) {
      assert FromSent(w, w.log[i]);
      if (w.log[i].epoch, w.log[i].attempt) == (c.epoch, c.attempt) { OneAnswer(w, s, w.log[i]); }
    }
  }

  lemma DeliverStep(w: World, s: Sent)
    requires Inv(w) && s in w.answered && Judge(w.coord, Reply(s)).Accepted?
    ensures Inv(Next(w, Delivering(s)))
  {
    hide Signature, Judge, Right, FromSent, Digest.WorkResult, Faithful;
    var c := Reply(s);
    CompleteKeeps(w.coord, c);
    AcceptedIsRight(w, s);
    var v := Next(w, Delivering(s));
    LogSameWorld(w, v);
    forall t | t in v.dispatches ensures Faithful(v, t) { FaithfulSame(w, v, t); }
    DeliverLog(w, v, c);
  }

  lemma FaithfulSame(w: World, v: World, s: Sent)
    requires v.orders == w.orders && Faithful(w, s)
    ensures Faithful(v, s)
  {
  }

  lemma LogSameWorld(w: World, v: World)
    requires v.orders == w.orders && v.answered == w.answered
    ensures forall c :: FromSent(w, c) == FromSent(v, c)
    ensures forall c :: Right(w, c) == Right(v, c)
  {
  }

  lemma DeliverLog(w: World, v: World, c: Completion)
    requires LogOk(w) && Right(v, c) && FromSent(v, c) && c.epoch == w.coord.epoch
    requires v.orders == w.orders && v.answered == w.answered && v.log == w.log + [c] && v.coord.epoch == w.coord.epoch
    requires v.coord.committed == w.coord.committed + {Signature(c)}
    requires v.coord.sigResult == w.coord.sigResult[Signature(c) := c.result]
    requires forall i :: 0 <= i < |w.log| ==> (w.log[i].epoch, w.log[i].attempt) != (c.epoch, c.attempt)
    ensures LogOk(v)
  {
    hide Signature, Right, FromSent;
    LogSameWorld(w, v);
    forall sig | sig in v.coord.sigResult
      ensures exists i :: 0 <= i < |v.log| && Signature(v.log[i]) == sig && v.log[i].result == v.coord.sigResult[sig]
    {
      if sig == Signature(c) {
        assert v.log[|w.log|] == c;
      } else {
        var i :| 0 <= i < |w.log| && Signature(w.log[i]) == sig && w.log[i].result == w.coord.sigResult[sig];
        assert v.log[i] == w.log[i];
      }
    }
  }

  lemma RestartStep(w: World, epoch: nat)
    requires Inv(w) && epoch > w.coord.epoch
    ensures Inv(Next(w, Restarting(epoch)))
  {
    hide Signature, Digest.WorkResult;
    var v := Next(w, Restarting(epoch));
    FreshConsistent(epoch);
    LogSameWorld(w, v);
    forall t | t in v.dispatches ensures Faithful(v, t) { assert Faithful(w, t); }
    forall i | 0 <= i < |w.log| ensures w.log[i].epoch < epoch { assert Right(w, w.log[i]); }
  }

  /** Steps that only touch the worker tables, or give up a send. */
  lemma TableStep(w: World, v: World)
    requires Inv(w) && Consistent(v.coord)
    requires v == w.(coord := v.coord, pending := v.pending) && (v.pending ==> w.pending)
    requires v.coord == w.coord.(workers := v.coord.workers, fdToWorker := v.coord.fdToWorker)
    ensures Inv(v)
  {
    hide Signature, Digest.WorkResult;
    LogSameWorld(w, v);
    forall t | t in v.dispatches ensures Faithful(v, t) { assert Faithful(w, t); }
  }

  lemma NextKeeps(w: World, e: Event)
    requires Inv(w)
    ensures Inv(Next(w, e))
  {
    hide Consistent, OrdersOk, DispatchesOk, LogOk, Judge, Signature;
    match e
    case Registering(r, fd) =>
      RegisterKeeps(w.coord, r, fd);
      TableStep(w, Next(w, e));
    case Submitting(worker, work) => if !w.pending && Alive(w.coord, worker) { SubmitStep(w, worker, work); }
    case Dispatching(id, boot) => if w.pending { DispatchStep(w, id, boot); }
    case SendFailing => TableStep(w, Next(w, e));
    case Answering(s) => if s in w.dispatches { AnswerStep(w, s); }
    case Delivering(s) => if s in w.answered && Judge(w.coord, Reply(s)).Accepted? { DeliverStep(w, s); }
    case Disconnecting(fd) =>
      DisconnectKeeps(w.coord, fd);
      TableStep(w, Next(w, e));
    case Restarting(epoch) => if epoch > w.coord.epoch { RestartStep(w, epoch); }
  }

  lemma {:induction false} RunKeeps(epoch: nat, es: seq<Event>)
    ensures Inv(After(Start(epoch), es))
  {
    hide Next;
    if es == [] {
      hide Signature;
    } else {
      hide Inv;
      RunKeeps(epoch, es[..|es| - 1]);
      NextKeeps(After(Start(epoch), es[..|es| - 1]), es[|es| - 1]);
    }
  }

  // ----- the theorems -----

  /** In every run each attempt of each coordinator commits at most once, and what it commits is the
      result of the work submitted as that attempt under the boot it was dispatched to. */
  lemma CommittedOnceAndRight(epoch: nat, es: seq<Event>, i: nat)
    requires i < |After(Start(epoch), es).log|
    ensures var w := After(Start(epoch), es);
            && Right(w, w.log[i])
            && forall j :: 0 <= j < |w.log| && j != i ==> (w.log[j].epoch, w.log[j].attempt) != (w.log[i].epoch, w.log[i].attempt)
  {
    hide After, Right, FromSent, Signature, Consistent, OrdersOk, DispatchesOk;
    RunKeeps(epoch, es);
    var w := After(Start(epoch), es);
    forall j | 0 <= j < |w.log| && j != i
      ensures (w.log[j].epoch, w.log[j].attempt) != (w.log[i].epoch, w.log[i].attempt)
    {
      if j < i { assert LogOk(w); } else { assert LogOk(w); }
    }
  }

  /** No answer that can arrive is ever reported as a conflicting duplicate. */
  lemma NeverConflicting(epoch: nat, es: seq<Event>, s: Sent)
    requires s in After(Start(epoch), es).answered
    ensures Judge(After(Start(epoch), es).coord, Reply(s)) != ConflictingDuplicate
  {
    hide After, Signature, Digest.WorkResult;
    RunKeeps(epoch, es);
    var w, c := After(Start(epoch), es), Reply(s);
    if Signature(c) in w.coord.sigResult {
      var i :| 0 <= i < |w.log| && Signature(w.log[i]) == Signature(c) && w.log[i].result == w.coord.sigResult[Signature(c)];
      SignatureInjective(w.log[i], c);
      assert FromSent(w, w.log[i]);
      OneAnswer(w, s, w.log[i]);
    }
  }

  // ----- progress of an undisturbed submission -----

  function Undisturbed(w: World, worker: nat, work: string): seq<Event>
    requires Alive(w.coord, worker)
  {
    var s := FirstSent(w, worker, work);
    [Submitting(worker, work), Dispatching(s.id, s.boot), Answering(s), Delivering(s)]
  }

  function FirstSent(w: World, worker: nat, work: string): Sent
    requires Alive(w.coord, worker)
  {
    var n := w.coord.curAttempt + 1;
    Sent(Dispatch(w.coord.epoch, n, n, n, work), worker, w.coord.workers[worker].boot)
  }

  lemma FourSteps(w: World, a: Event, b: Event, c: Event, d: Event)
    ensures After(w, [a, b, c, d]) == Next(Next(Next(Next(w, a), b), c), d)
  {
    hide Next;
    var es := [a, b, c, d];
    assert es[..3] == [a, b, c] && [a, b, c][..2] == [a, b] && [a, b][..1] == [a] && [a][..0] == [];
    assert After(w, [a]) == Next(w, a);
    assert After(w, [a, b]) == Next(Next(w, a), b);
    assert After(w, [a, b, c]) == Next(Next(Next(w, a), b), c);
  }

  /** A new attempt's signature is on nobody's record. */
  lemma NewSignature(w: World, c: Completion)
    requires Inv(w) && c.epoch == w.coord.epoch && c.attempt == w.coord.curAttempt + 1
    ensures Signature(c) !in w.coord.committed
  {
    hide Signature, Digest.WorkResult;
    forall i | 0 <= i < |w.log| ensures Signature(w.log[i]) != Signature(c) {
      assert Right(w, w.log[i]);
      SignatureInjective(w.log[i], c);
    }
  }

  /** From every reachable state: a submission to a live worker, dispatched to it, answered and
      delivered before anything else happens, commits the result of its work. */
  lemma UndisturbedCommits(w: World, worker: nat, work: string)
    requires Inv(w) && !w.pending && Alive(w.coord, worker)
    ensures var c := Reply(FirstSent(w, worker, work));
            && c.result == Digest.WorkResult(work, w.coord.workers[worker].boot)
            && After(w, Undisturbed(w, worker, work)).log == w.log + [c]
  {
    hide Signature, Digest.WorkResult, OrdersOk, DispatchesOk, LogOk, After;
    var s := FirstSent(w, worker, work);
    var w1 := Next(w, Submitting(worker, work));
    var w2 := Next(w1, Dispatching(s.id, s.boot));
    var w3 := Next(w2, Answering(s));
    FourSteps(w, Submitting(worker, work), Dispatching(s.id, s.boot), Answering(s), Delivering(s));
    assert s in w2.dispatches;
    NewSignature(w, Reply(s));
    SubmitKeeps(w.coord, worker);
    AcceptedQuotesCurrent(w3.coord, Reply(s));
  }

  /** A worker that registers under some boot and is then given work, undisturbed, commits the result of
      that work under that boot: the registration is what the submission dispatches and judges by. */
  lemma RegisteredCommits(w: World, r: Registration, fd: int, work: string)
    requires Inv(w) && !w.pending
    ensures var v := Next(w, Registering(r, fd));
            && Alive(v.coord, r.id) && v.coord.workers[r.id].fd == fd && v.coord.workers[r.id].name == r.name
            && var n := w.coord.curAttempt + 1;
               var c := Completion(w.coord.epoch, n, n, n, r.id, r.boot, Digest.WorkResult(work, r.boot));
               After(v, Undisturbed(v, r.id, work)).log == w.log + [c]
  {
    hide After, Signature, Digest.WorkResult, OrdersOk, DispatchesOk, LogOk, Consistent;
    NextKeeps(w, Registering(r, fd));
    UndisturbedCommits(Next(w, Registering(r, fd)), r.id, work);
  }
}
