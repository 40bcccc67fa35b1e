/** Whole runs of a chain of coordinators under increasing epochs, with completions from anybody. */
module Incarnations {
  import opened Payloads
  import opened Coordinator

  datatype Event =
    | Registering(r: Registration, fd: int)
    | Submitting(worker: nat)
    | Completing(c: Completion)
    | Disconnecting(fd: int)
    | Restarting(epoch: nat)

  /** The running coordinator, what all of them accepted so far in order, and the numbers of
      acknowledgements sent and submissions made by the running one. */
  datatype Chain = Chain(coord: State, log: seq<Completion>, acks: nat, submits: nat)

  /** Every handler runs atomically; a coordinator is replaced only by one of a later epoch. */
  function Next(ch: Chain, e: Event): Chain {
    match e
    case Registering(r, fd) => ch.(coord := Register(ch.coord, r, fd))
    case Submitting(worker) =>
      if Alive(ch.coord, worker) then ch.(coord := Submit(ch.coord, worker), submits := ch.submits + 1) else ch
    case Completing(c) =>
      if Judge(ch.coord, c).Accepted? then
        ch.(coord := Complete(ch.coord, c), log := ch.log + [c], acks := ch.acks + 1)
      else ch
    case Disconnecting(fd) => ch.(coord := Disconnect(ch.coord, fd))
    case Restarting(epoch) => if epoch > ch.coord.epoch then Chain(Fresh(epoch), ch.log, 0, 0) else ch
  }

  function After(ch: Chain, es: seq<Event>): Chain {
    if es == [] then ch else Next(After(ch, es[..|es| - 1]), es[|es| - 1])
  }

  function Start(epoch: nat): Chain { Chain(Fresh(epoch), [], 0, 0) }

  predicate Distinct(log: seq<Completion>) {
    forall i, j :: 0 <= i < j < |log| ==> Signature(log[i]) != Signature(log[j])
  }

  /** The table of the running coordinator holds the results of the log's entries of its epoch. */
  predicate Recorded(s: State, log: seq<Completion>) {
    && (forall i :: 0 <= i < |log| ==> log[i].epoch <= s.epoch)
    && (forall i :: 0 <= i < |log| && log[i].epoch == s.epoch ==>
          Signature(log[i]) in s.sigResult && s.sigResult[Signature(log[i])] == log[i].result)
    && (forall sig :: sig in s.committed ==> exists i :: 0 <= i < |log| && log[i].epoch == s.epoch && Signature(log[i]) == sig)
  }

  predicate Inv(ch: Chain) {
    && Consistent(ch.coord) && ch.submits == ch.coord.curAttempt && ch.acks == |ch.coord.committed|
    && Distinct(ch.log) && Recorded(ch.coord, ch.log)
  }

  lemma CommitDistinct(ch: Chain, c: Completion)
    requires Inv(ch) && Judge(ch.coord, c).Accepted?
    ensures Distinct(ch.log + [c])
    ensures forall i :: 0 <= i < |ch.log| ==> Signature(ch.log[i]) != Signature(c)
  {
    hide Signature;
    forall i | 0 <= i < |ch.log| ensures Signature(ch.log[i]) != Signature(c) {
      SignatureInjective(ch.log[i], c);
    }
  }

  lemma CommitRecorded(s: State, log: seq<Completion>, c: Completion)
    requires Recorded(s, log) && c.epoch == s.epoch && Judge(s, c).Accepted?
    requires forall i :: 0 <= i < |log| ==> Signature(log[i]) != Signature(c)
    ensures Recorded(Complete(s, c), log + [c])
  {
    hide Signature, Judge;
    var t, more := Complete(s, c), log + [c];
    forall sig | sig in t.committed
      ensures exists i :: 0 <= i < |more| && more[i].epoch == t.epoch && Signature(more[i]) == sig
    {
      if sig in s.committed {
        var i :| 0 <= i < |log| && log[i].epoch == s.epoch && Signature(log[i]) == sig;
        assert more[i] == log[i];
      } else {
        assert more[|log|] == c;
      }
    }
  }

  lemma CommitKeeps(ch: Chain, c: Completion)
    requires Inv(ch) && Judge(ch.coord, c).Accepted?
    ensures Inv(Next(ch, Completing(c)))
  {
    hide Signature, Distinct, Recorded, Judge;
    CompleteKeeps(ch.coord, c);
    ResultsStay(ch.coord, c);
    AcceptedQuotesCurrent(ch.coord, c);
    CommitDistinct(ch, c);
    CommitRecorded(ch.coord, ch.log, c);
  }

  /** What is on record depends on the epoch and the two tables alone. */
  lemma SameRecord(s: State, t: State, log: seq<Completion>)
    requires Recorded(s, log) && t.epoch == s.epoch && t.committed == s.committed && t.sigResult == s.sigResult
    ensures Recorded(t, log)
  {
    hide Signature;
  }

  /** A later coordinator starts with nothing on record of its own epoch. */
  lemma NewRecord(s: State, log: seq<Completion>, epoch: nat)
    requires Recorded(s, log) && epoch > s.epoch
    ensures Recorded(Fresh(epoch), log)
  {
    hide Signature;
  }

  lemma NextKeeps(ch: Chain, e: Event)
    requires Inv(ch)
    ensures Inv(Next(ch, e))
  {
    hide Signature, Judge, Distinct, Consistent, Recorded;
    var s := ch.coord;
    match e
    case Registering(r, fd) =>
      RegisterKeeps(s, r, fd);
      SameRecord(s, Register(s, r, fd), ch.log);
    case Submitting(worker) =>
      if Alive(s, worker) {
        SubmitKeeps(s, worker);
        SameRecord(s, Submit(s, worker), ch.log);
      }
    case Completing(c) => if Judge(s, c).Accepted? { CommitKeeps(ch, c); }
    case Disconnecting(fd) =>
      DisconnectKeeps(s, fd);
      SameRecord(s, Disconnect(s, fd), ch.log);
    case Restarting(epoch) =>
      FreshConsistent(epoch);
      if epoch > s.epoch { NewRecord(s, ch.log, epoch); }
  }

  /** In every reachable state the tables agree with the history: the keys of the results are the
      committed signatures, acknowledgements are as many, and no signature was ever accepted twice. */
  lemma {:induction false} RunKeeps(ch: Chain, es: seq<Event>)
    requires Inv(ch)
    ensures Inv(After(ch, es))
  {
    hide Inv, Next;
    if es != [] {
      RunKeeps(ch, es[..|es| - 1]);
      NextKeeps(After(ch, es[..|es| - 1]), es[|es| - 1]);
    }
  }

  lemma StartKeeps(epoch: nat)
    ensures Inv(Start(epoch))
  {
  }

  /** Across the whole chain no signature commits twice, though the counters restart at zero. */
  lemma NoSignatureTwice(epoch: nat, es: seq<Event>, i: nat, j: nat)
    requires i < j < |After(Start(epoch), es).log|
    ensures !SameSix(After(Start(epoch), es).log[i], After(Start(epoch), es).log[j])
  {
    hide Signature, After;
    StartKeeps(epoch);
    RunKeeps(Start(epoch), es);
    var log := After(Start(epoch), es).log;
    assert Distinct(log);
    SignatureInjective(log[i], log[j]);
  }

  // ----- what later steps cannot undo -----

  /** A later coordinator, or the same one after at least as many submissions, with no result changed. */
  predicate Later(a: Chain, b: Chain) {
    && a.log <= b.log && a.coord.epoch <= b.coord.epoch
    && (a.coord.epoch == b.coord.epoch ==>
          && a.submits <= b.submits && a.acks <= b.acks
          && forall sig :: sig in a.coord.sigResult ==>
               sig in b.coord.sigResult && b.coord.sigResult[sig] == a.coord.sigResult[sig])
  }

  lemma NextLater(ch: Chain, e: Event)
    requires Inv(ch)
    ensures Later(ch, Next(ch, e))
  {
    hide Signature, Judge, Distinct, Recorded;
    if e.Completing? { ResultsStay(ch.coord, e.c); }
  }

  lemma LaterTrans(a: Chain, b: Chain, c: Chain)
    requires Later(a, b) && Later(b, c)
    ensures Later(a, c)
  {
    if a.coord.epoch == c.coord.epoch {
      forall sig | sig in a.coord.sigResult
        ensures sig in c.coord.sigResult && c.coord.sigResult[sig] == a.coord.sigResult[sig]
      {
        assert sig in b.coord.sigResult;
      }
    }
  }

  /** Stored results never change and acknowledgements are never taken back. */
  lemma {:induction false} RunLater(ch: Chain, es: seq<Event>)
    requires Inv(ch)
    ensures Later(ch, After(ch, es))
  {
    hide Inv, Next, Later;
    if es == [] {
      LaterSelf(ch);
    } else {
      var mid := After(ch, es[..|es| - 1]);
      RunLater(ch, es[..|es| - 1]);
      RunKeeps(ch, es[..|es| - 1]);
      NextLater(mid, es[|es| - 1]);
      LaterTrans(ch, mid, After(ch, es));
    }
  }

  lemma LaterSelf(ch: Chain)
    ensures Later(ch, ch)
  {
  }

  predicate Stale(v: Verdict) {
    v.StaleEpoch? || v.StaleBoot? || v.StaleAttempt? || v.StaleGeneration? || v.StaleDispatch?
  }

  /** A completion quoting a submission that was overtaken, by a later submission or a later
      coordinator, is rejected as stale in every later state, whoever sends it. */
  lemma StaleForever(ch: Chain, c: Completion, es: seq<Event>)
    requires Inv(ch)
    requires c.epoch < ch.coord.epoch || (c.epoch == ch.coord.epoch && c.attempt < ch.submits)
    ensures Stale(Judge(After(ch, es).coord, c))
  {
    hide Signature, Next, After;
    RunLater(ch, es);
    RunKeeps(ch, es);
  }

  /** No check compares the quoted worker with the current one: after a completion is accepted, the same
      completion under another worker id is accepted too, unless that one was before. */
  lemma AnotherWorkerAccepted(s: State, c: Completion, worker: nat)
    requires Consistent(s) && Judge(s, c).Accepted?
    ensures var d := c.(worker := worker);
            Judge(Complete(s, c), d).Accepted? <==> worker != c.worker && Signature(d) !in s.committed
  {
    hide Signature, Judge;
    var d := c.(worker := worker);
    SignatureInjective(c, d);
    CompleteKeeps(s, c);
    AcceptedQuotesCurrent(s, c);
    AcceptedQuotesCurrent(Complete(s, c), d);
  }

  /** Accepted completions of one epoch and attempt quote one number and one boot; those of the current
      attempt quote the current boot. */
  predicate Agreeing(ch: Chain) {
    && (forall i :: 0 <= i < |ch.log| ==>
          && ch.log[i].attempt == ch.log[i].gen == ch.log[i].dispatch
          && ch.log[i].epoch <= ch.coord.epoch
          && (ch.log[i].epoch == ch.coord.epoch ==> ch.log[i].attempt <= ch.coord.curAttempt)
          && (ch.log[i].epoch == ch.coord.epoch && ch.log[i].attempt == ch.coord.curAttempt ==> ch.log[i].boot == ch.coord.curBoot))
    && (forall i, j :: 0 <= i < j < |ch.log| && ch.log[i].epoch == ch.log[j].epoch && ch.log[i].attempt == ch.log[j].attempt
          ==> ch.log[i].boot == ch.log[j].boot)
  }

  lemma NextAgreeing(ch: Chain, e: Event)
    requires Consistent(ch.coord) && Agreeing(ch)
    ensures Agreeing(Next(ch, e))
  {
    hide Signature, Judge;
    match e
    case Submitting(worker) => if Alive(ch.coord, worker) { SubmitKeeps(ch.coord, worker); }
    case Completing(c) => AcceptedQuotesCurrent(ch.coord, c);
    case _ =>
  }

  lemma {:induction false} RunAgreeing(epoch: nat, es: seq<Event>)
    ensures Agreeing(After(Start(epoch), es))
  {
    if es != [] {
      hide Agreeing, Next;
      var front := After(Start(epoch), es[..|es| - 1]);
      RunAgreeing(epoch, es[..|es| - 1]);
      StartKeeps(epoch);
      RunKeeps(Start(epoch), es[..|es| - 1]);
      assert Inv(front);
      NextAgreeing(front, es[|es| - 1]);
    }
  }

  /** Over whole chains, whoever completes: an attempt accepted twice was accepted under two worker ids,
      and everything else quoted was the same. */
  lemma TwiceOnlyByTwoWorkers(epoch: nat, es: seq<Event>, i: nat, j: nat)
    requires i < j < |After(Start(epoch), es).log|
    requires var log := After(Start(epoch), es).log; log[i].epoch == log[j].epoch && log[i].attempt == log[j].attempt
    ensures var log := After(Start(epoch), es).log;
            && log[i].gen == log[j].gen && log[i].dispatch == log[j].dispatch && log[i].boot == log[j].boot
            && log[i].worker != log[j].worker
  {
    hide After;
    RunAgreeing(epoch, es);
    NoSignatureTwice(epoch, es, i, j);
  }
}
