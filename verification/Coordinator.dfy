/** The coordinator's shared state and its handlers: apps/target_coordinator.cpp. */
module Coordinator {
  import opened Text
  import opened Payloads

  datatype Worker = Worker(id: nat, boot: nat, name: string, fd: int, alive: bool)

  /** A default-constructed entry of the worker table. */
  const NOBODY := Worker(0, 0, "", -1, false)

  datatype State = State(
    epoch: nat,
    nextAttempt: nat, nextGen: nat, nextDispatch: nat,
    curAttempt: nat, curGen: nat, curDispatch: nat, curBoot: nat, curWorker: nat, hasSubmitted: bool,
    workers: map<nat, Worker>, fdToWorker: map<int, nat>,
    committed: set<string>, sigResult: map<string, string>)

  /** A coordinator as it starts, with the epoch of its command line. */
  function Fresh(epoch: nat): State {
    State(epoch, 0, 0, 0, 0, 0, 0, 0, 0, false, map[], map[], {}, map[])
  }

  // ----- the atomic steps -----

  function Register(s: State, r: Registration, fd: int): State {
    s.(workers := s.workers[r.id := Worker(r.id, r.boot, r.name, fd, true)],
       fdToWorker := s.fdToWorker[fd := r.id])
  }

  predicate Alive(s: State, worker: nat) { worker in s.workers && s.workers[worker].alive }

  /** The part of a submission that runs under the lock. */
  function Submit(s: State, worker: nat): State
    requires Alive(s, worker)
  {
    s.(nextAttempt := s.nextAttempt + 1, nextGen := s.nextGen + 1, nextDispatch := s.nextDispatch + 1,
       curAttempt := s.nextAttempt + 1, curGen := s.nextGen + 1, curDispatch := s.nextDispatch + 1,
       curBoot := s.workers[worker].boot, curWorker := worker, hasSubmitted := true)
  }

  datatype Verdict =
    | Accepted | StaleEpoch | StaleBoot | StaleAttempt | StaleGeneration | StaleDispatch
    | NotCurrentAuthority | ConflictingDuplicate | DuplicateCurrentCompletion

  predicate CurrentAuthority(s: State, c: Completion) {
    && s.hasSubmitted && c.epoch == s.epoch && c.boot == s.curBoot
    && c.attempt == s.curAttempt && c.gen == s.curGen && c.dispatch == s.curDispatch
  }

  function Judge(s: State, c: Completion): Verdict {
    if c.epoch != s.epoch then StaleEpoch
    else if c.boot != s.curBoot then StaleBoot
    else if c.attempt != s.curAttempt then StaleAttempt
    else if c.gen != s.curGen then StaleGeneration
    else if c.dispatch != s.curDispatch then StaleDispatch
    else if !CurrentAuthority(s, c) then NotCurrentAuthority
    else if Signature(c) in s.committed then
      if Signature(c) in s.sigResult && s.sigResult[Signature(c)] == c.result then DuplicateCurrentCompletion
      else ConflictingDuplicate
    else Accepted
  }

  function Complete(s: State, c: Completion): State {
    if Judge(s, c).Accepted? then
      s.(committed := s.committed + {Signature(c)}, sigResult := s.sigResult[Signature(c) := c.result])
    else s
  }

  /** The tail of a connection: the worker last registered on it is marked dead and its entry erased. */
  function Disconnect(s: State, fd: int): State {
    if fd !in s.fdToWorker then s
    else
      var id := s.fdToWorker[fd];
      s.(workers := if id in s.workers then s.workers[id := s.workers[id].(alive := false)] else s.workers,
         fdToWorker := s.fdToWorker - {fd})
  }

  // ----- what every step keeps -----

  /** The three counters move together, and the two tables have the same keys. */
  predicate Consistent(s: State) {
    && s.nextAttempt == s.nextGen == s.nextDispatch == s.curAttempt == s.curGen == s.curDispatch
    && (s.hasSubmitted <==> s.curAttempt > 0)
    && s.committed == s.sigResult.Keys
    && (forall w :: w in s.workers ==> s.workers[w].id == w)
    && (forall fd :: fd in s.fdToWorker ==> s.fdToWorker[fd] in s.workers)
  }

  lemma FreshConsistent(epoch: nat)
    ensures Consistent(Fresh(epoch))
  {
  }

  lemma RegisterKeeps(s: State, r: Registration, fd: int)
    requires Consistent(s)
    ensures Consistent(Register(s, r, fd)) && Alive(Register(s, r, fd), r.id)
  {
  }

  lemma SubmitKeeps(s: State, worker: nat)
    requires Consistent(s) && Alive(s, worker)
    ensures Consistent(Submit(s, worker)) && Submit(s, worker).curAttempt == s.curAttempt + 1
  {
  }

  lemma CompleteKeeps(s: State, c: Completion)
    requires Consistent(s)
    ensures Consistent(Complete(s, c))
  {
    hide Signature;
  }

  lemma DisconnectKeeps(s: State, fd: int)
    requires Consistent(s)
    ensures Consistent(Disconnect(s, fd))
  {
  }

  /** Only a completion quoting one and the same number three times, the number of submissions made,
      under the current epoch and boot can be accepted: a torn tuple never is. */
  lemma AcceptedQuotesCurrent(s: State, c: Completion)
    requires Consistent(s)
    ensures Judge(s, c).Accepted? <==>
            && c.attempt == c.gen == c.dispatch == s.curAttempt && c.attempt > 0
            && c.epoch == s.epoch && c.boot == s.curBoot && Signature(c) !in s.committed
  {
    hide Signature;
  }

  /** The stored result of a signature never changes, and a commit adds exactly one entry. */
  lemma ResultsStay(s: State, c: Completion)
    requires Consistent(s)
    ensures forall sig :: sig in s.sigResult ==> sig in Complete(s, c).sigResult && Complete(s, c).sigResult[sig] == s.sigResult[sig]
    ensures |Complete(s, c).committed| == |s.committed| + if Judge(s, c).Accepted? then 1 else 0
    ensures Judge(s, c).Accepted? ==> Signature(c) in Complete(s, c).sigResult && Complete(s, c).sigResult[Signature(c)] == c.result
  {
    hide Signature;
  }

  // ----- the handlers -----

  datatype Reply = Silent | Registered(epoch: nat) | Ack | Rejected(reason: string) | Assigned(text: string) | Dead

  function Reason(v: Verdict): string {
    match v
    case Accepted => ""
    case StaleEpoch => "stale_epoch"
    case StaleBoot => "stale_boot"
    case StaleAttempt => "stale_attempt"
    case StaleGeneration => "stale_generation"
    case StaleDispatch => "stale_dispatch"
    case NotCurrentAuthority => "not_current_authority"
    case ConflictingDuplicate => "conflicting_duplicate"
    case DuplicateCurrentCompletion => "duplicate_current_completion"
  }

  class Coordinator {
    var epoch: nat
    var nextAttempt: nat
    var nextGen: nat
    var nextDispatch: nat
    var curAttempt: nat
    var curGen: nat
    var curDispatch: nat
    var curBoot: nat
    var curWorker: nat
    var hasSubmitted: bool
    var workers: map<nat, Worker>
    var fdToWorker: map<int, nat>
    var committed: set<string>
    var sigResult: map<string, string>

    ghost function Now(): State
      reads this
    {
      State(epoch, nextAttempt, nextGen, nextDispatch, curAttempt, curGen, curDispatch, curBoot, curWorker,
            hasSubmitted, workers, fdToWorker, committed, sigResult)
    }

    ghost predicate Valid()
      reads this
    {
      Consistent(Now())
    }

    constructor (epoch: nat)
      ensures Valid() && Now() == Fresh(epoch)
    {
      this.epoch := epoch;
      nextAttempt, nextGen, nextDispatch := 0, 0, 0;
      curAttempt, curGen, curDispatch, curBoot, curWorker, hasSubmitted := 0, 0, 0, 0, 0, false;
      workers, fdToWorker, committed, sigResult := map[], map[], {}, map[];
    }

    /** `first` tells a worker seen for the first time or under another boot. */
    method HandleRegister(payload: string, fd: int) returns (reply: Reply, first: bool)
      requires Valid()
      modifies this
      ensures Valid()
      ensures match ReadRegister(payload)
              case Malformed => Now() == old(Now()) && reply == Silent
              case Terminates => Now() == old(Now()) && reply == Dead
              case Value(r) =>
                && Now() == Register(old(Now()), r, fd) && reply == Registered(epoch)
                && (first <==> r.id !in old(workers) || old(workers)[r.id].fd < 0 || old(workers)[r.id].boot != r.boot)
    {
      hide ReadRegister;
      first := false;
      var m := ReadRegister(payload);
      if m.Malformed? { return Silent, first; }
      if m.Terminates? { return Dead, first; }
      var r := m.value;
      var w := if r.id in workers then workers[r.id] else NOBODY;
      first := w.fd < 0 || w.boot != r.boot;
      w := w.(id := r.id, boot := r.boot, name := r.name, fd := fd, alive := true);
      workers := workers[r.id := w];
      fdToWorker := fdToWorker[fd := r.id];
      RegisterKeeps(old(Now()), r, fd);
      reply := Registered(epoch);
    }

    /** The locked part: the worker's descriptor, if it is alive. */
    method SubmitLocked(worker: nat) returns (fd: Option<int>)
      requires Valid()
      modifies this
      ensures Valid()
      ensures !Alive(old(Now()), worker) ==> fd.None? && Now() == old(Now())
      ensures Alive(old(Now()), worker) ==> Now() == Submit(old(Now()), worker) && fd == Some(workers[worker].fd)
    {
      hide Consistent;
      if worker !in workers || !workers[worker].alive { return None; }
      SubmitKeeps(Now(), worker);
      Advance();
      curBoot, curWorker, hasSubmitted := workers[worker].boot, worker, true;
      fd := Some(workers[worker].fd);
    }

    method Advance()
      modifies this`nextAttempt, this`nextGen, this`nextDispatch, this`curAttempt, this`curGen, this`curDispatch
      ensures nextAttempt == curAttempt == old(nextAttempt) + 1
      ensures nextGen == curGen == old(nextGen) + 1
      ensures nextDispatch == curDispatch == old(nextDispatch) + 1
    {
      nextAttempt := nextAttempt + 1;
      nextGen := nextGen + 1;
      nextDispatch := nextDispatch + 1;
      curAttempt := nextAttempt;
      curGen := nextGen;
      curDispatch := nextDispatch;
    }

    /** Without another submission in between, the dispatch quotes the authority just assigned. */
    method HandleSubmit(payload: string) returns (reply: Reply, dispatch: Option<(int, string)>)
      requires Valid()
      modifies this
      ensures Valid()
      ensures match ReadSubmit(payload)
              case Malformed => Now() == old(Now()) && reply == Rejected("bad_submit") && dispatch.None?
              case Terminates => Now() == old(Now()) && reply == Dead && dispatch.None?
              case Value(m) =>
                if !Alive(old(Now()), m.worker) then
                  Now() == old(Now()) && reply == Rejected("worker_not_alive") && dispatch.None?
                else
                  var n := old(curAttempt) + 1;
                  && Now() == Submit(old(Now()), m.worker)
                  && dispatch == Some((workers[m.worker].fd, DispatchText(Dispatch(epoch, n, n, n, m.work))))
                  && reply == Assigned(Join([Decimal(epoch), Decimal(n), Decimal(n), Decimal(n)], '|'))
    {
      hide ReadSubmit, Join, Decimal;
      var r := ReadSubmit(payload);
      if r.Malformed? { return Rejected("bad_submit"), None; }
      if r.Terminates? { return Dead, None; }
      var fd := SubmitLocked(r.value.worker);
      if fd.None? { return Rejected("worker_not_alive"), None; }
      dispatch := Some((fd.value, DispatchText(Dispatch(epoch, curAttempt, curGen, curDispatch, r.value.work))));
      reply := Assigned(Join([Decimal(epoch), Decimal(curAttempt), Decimal(curGen), Decimal(curDispatch)], '|'));
    }

    method HandleComplete(payload: string) returns (reply: Reply)
      requires Valid()
      modifies this
      ensures Valid()
      ensures match ReadComplete(payload)
              case Malformed => Now() == old(Now()) && reply == Rejected("malformed")
              case Terminates => Now() == old(Now()) && reply == Dead
              case Value(c) =>
                && Now() == Complete(old(Now()), c)
                && reply == (
                     if c.epoch != old(epoch) then Rejected("stale_epoch")
                     else if c.boot != old(curBoot) then Rejected("stale_boot")
                     else if c.attempt != old(curAttempt) then Rejected("stale_attempt")
                     else if c.gen != old(curGen) then Rejected("stale_generation")
                     else if c.dispatch != old(curDispatch) then Rejected("stale_dispatch")
                     else if !old(hasSubmitted) then Rejected("not_current_authority")
                     else if Signature(c) !in old(committed) then Ack
                     else if old(sigResult)[Signature(c)] != c.result then Rejected("conflicting_duplicate")
                     else Rejected("duplicate_current_completion"))
                && reply == if Judge(old(Now()), c).Accepted? then Ack else Rejected(Reason(Judge(old(Now()), c)))
    {
      hide ReadComplete, Signature;
      var m := ReadComplete(payload);
      if m.Malformed? { return Rejected("malformed"); }
      if m.Terminates? { return Dead; }
      var c := m.value;
      var verdict := Accepted;
      if c.epoch != epoch { verdict := StaleEpoch; }
      else if c.boot != curBoot { verdict := StaleBoot; }
      else if c.attempt != curAttempt { verdict := StaleAttempt; }
      else if c.gen != curGen { verdict := StaleGeneration; }
      else if c.dispatch != curDispatch { verdict := StaleDispatch; }
      else if !hasSubmitted { verdict := NotCurrentAuthority; }
      var sig := Signature(c);
      if verdict == Accepted && sig in committed {
        verdict := if sigResult[sig] != c.result then ConflictingDuplicate else DuplicateCurrentCompletion;
      }
      CompleteKeeps(old(Now()), c);
      if verdict != Accepted { return Rejected(Reason(verdict)); }
      committed := committed + {sig};
      sigResult := sigResult[sig := c.result];
      reply := Ack;
    }

    /** Returns the worker reported dead, if any. */
    method DisconnectTail(fd: int) returns (dead: Option<nat>)
      requires Valid()
      modifies this
      ensures Valid() && Now() == Disconnect(old(Now()), fd)
      ensures dead == if fd in old(fdToWorker) then Some(old(fdToWorker)[fd]) else None
    {
      dead := None;
      if fd in fdToWorker {
        var id := fdToWorker[fd];
        if id in workers {
          workers := workers[id := workers[id].(alive := false)];
          dead := Some(id);
        }
        fdToWorker := fdToWorker - {fd};
      }
    }
  }
}
