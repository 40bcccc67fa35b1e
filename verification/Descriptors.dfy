/** Descriptors, connections and the worker table over whole runs: apps/target_coordinator.cpp,
    lines 85-102 and 205-238. */
module Descriptors {
  import opened Payloads
  import opened Coordinator

  /** A connection thread serves, has erased its table entry but not closed yet, or has returned on a
      shutdown message without closing. */
  datatype Phase = Serving | Erased | Left

  /** The open descriptors with their threads. */
  datatype System = System(coord: State, conns: map<int, Phase>)

  datatype Event =
    | Accepting(fd: int)
    | Registering(r: Registration, fd: int)
    | Submitting(worker: nat)
    | Completing(c: Completion)
    | Leaving(fd: int)
    | Erasing(fd: int)
    | Closing(fd: int)

  predicate In(y: System, fd: int, p: Phase) { fd in y.conns && y.conns[fd] == p }

  /** The operating system hands out any number that is not open; a step that is not possible changes nothing. */
  function Next(y: System, e: Event): System {
    match e
    case Accepting(fd) => if fd in y.conns then y else y.(conns := y.conns[fd := Serving])
    case Registering(r, fd) => if In(y, fd, Serving) then y.(coord := Register(y.coord, r, fd)) else y
    case Submitting(worker) => if Alive(y.coord, worker) then y.(coord := Submit(y.coord, worker)) else y
    case Completing(c) => y.(coord := Complete(y.coord, c))
    case Leaving(fd) => if In(y, fd, Serving) then y.(conns := y.conns[fd := Left]) else y
    case Erasing(fd) =>
      if In(y, fd, Serving) then System(Disconnect(y.coord, fd), y.conns[fd := Erased]) else y
    case Closing(fd) => if In(y, fd, Erased) then y.(conns := y.conns - {fd}) else y
  }

  function After(y: System, es: seq<Event>): System {
    if es == [] then y else Next(After(y, es[..|es| - 1]), es[|es| - 1])
  }

  function Start(epoch: nat): System { System(Fresh(epoch), map[]) }

  predicate Usable(y: System, fd: int) { fd in y.conns && y.conns[fd] != Erased }

  /** Every entry of the descriptor table belongs to an open connection that has not erased it. */
  predicate Mapped(y: System) {
    Consistent(y.coord) && forall fd :: fd in y.coord.fdToWorker ==> Usable(y, fd)
  }

  /** Worker `w` is alive on a descriptor that is open and maps back to it. */
  predicate BackedBy(y: System, w: nat)
    requires w in y.coord.workers
  {
    var fd := y.coord.workers[w].fd;
    Usable(y, fd) && fd in y.coord.fdToWorker && y.coord.fdToWorker[fd] == w
  }

  ghost predicate Backed(y: System) { forall w :: Alive(y.coord, w) ==> BackedBy(y, w) }

  lemma NextMapped(y: System, e: Event)
    requires Mapped(y)
    ensures Mapped(Next(y, e))
  {
    hide Judge, Signature, Consistent;
    match e
    case Registering(r, fd) => RegisterKeeps(y.coord, r, fd);
    case Submitting(worker) => if Alive(y.coord, worker) { SubmitKeeps(y.coord, worker); }
    case Completing(c) => CompleteKeeps(y.coord, c);
    case Erasing(fd) => DisconnectKeeps(y.coord, fd);
    case _ =>
  }

  lemma {:induction false} RunMapped(epoch: nat, es: seq<Event>)
    ensures Mapped(After(Start(epoch), es))
  {
    if es != [] {
      hide Mapped, Next;
      RunMapped(epoch, es[..|es| - 1]);
      NextMapped(After(Start(epoch), es[..|es| - 1]), es[|es| - 1]);
    }
  }

  /** In every run, whatever connections register, a descriptor number that is about to be reused has
      no entry to inherit: the entry is erased before the close. */
  lemma ReusedStartsUnmapped(epoch: nat, es: seq<Event>, fd: int)
    requires fd !in After(Start(epoch), es).conns
    ensures fd !in After(Start(epoch), es).coord.fdToWorker
  {
    hide After;
    RunMapped(epoch, es);
  }

  /** Another worker is alive on this descriptor. */
  predicate Taken(y: System, fd: int, id: nat) {
    && fd in y.coord.fdToWorker && y.coord.fdToWorker[fd] != id
    && Alive(y.coord, y.coord.fdToWorker[fd]) && y.coord.workers[y.coord.fdToWorker[fd]].fd == fd
  }

  /** A registration keeps every live worker backed exactly when no other worker is alive on its descriptor. */
  lemma RegisterBacked(y: System, r: Registration, fd: int)
    requires Mapped(y) && Backed(y) && In(y, fd, Serving)
    ensures Backed(Next(y, Registering(r, fd))) <==> !Taken(y, fd, r.id)
  {
    var z := Next(y, Registering(r, fd));
    if Taken(y, fd, r.id) {
      var other := y.coord.fdToWorker[fd];
      assert Alive(z.coord, other) && !BackedBy(z, other);
    } else {
      forall w | Alive(z.coord, w) ensures BackedBy(z, w) {
        if w != r.id { assert Alive(y.coord, w) && BackedBy(y, w); }
      }
    }
  }

  lemma EraseBacked(y: System, fd: int)
    requires Mapped(y) && Backed(y) && In(y, fd, Serving)
    ensures Backed(Next(y, Erasing(fd)))
  {
    var z := Next(y, Erasing(fd));
    forall w | Alive(z.coord, w) ensures BackedBy(z, w) {
      assert Alive(y.coord, w) && BackedBy(y, w);
    }
  }

  lemma OtherBacked(y: System, e: Event)
    requires Mapped(y) && Backed(y) && !e.Registering? && !e.Erasing?
    ensures Backed(Next(y, e))
  {
    hide Judge, Signature, Consistent;
    var z := Next(y, e);
    forall w | Alive(z.coord, w) ensures BackedBy(z, w) {
      assert Alive(y.coord, w) && BackedBy(y, w);
    }
  }

  /** Every connection of the run registers a single worker id. */
  predicate SingleIds(epoch: nat, es: seq<Event>) {
    forall i :: 0 <= i < |es| ==> Polite(After(Start(epoch), es[..i]), es[i])
  }

  /** The connection has registered nobody yet, or this worker. */
  predicate Polite(y: System, e: Event) {
    e.Registering? && In(y, e.fd, Serving) && e.fd in y.coord.fdToWorker ==> y.coord.fdToWorker[e.fd] == e.r.id
  }

  /** If every connection registers a single id, every live worker's descriptor is open and maps back to it. */
  lemma {:induction false} AliveIsBacked(epoch: nat, es: seq<Event>)
    requires SingleIds(epoch, es)
    ensures Backed(After(Start(epoch), es))
  {
    if es != [] {
      hide Next, Backed, Mapped;
      var n := |es| - 1;
      forall i | 0 <= i < n ensures Polite(After(Start(epoch), es[..n][..i]), es[..n][i]) {
        assert es[..n][..i] == es[..i];
      }
      AliveIsBacked(epoch, es[..n]);
      RunMapped(epoch, es[..n]);
      var y, e := After(Start(epoch), es[..n]), es[n];
      assert Polite(y, e);
      PoliteBacked(y, e);
    }
  }

  lemma PoliteBacked(y: System, e: Event)
    requires Mapped(y) && Backed(y) && Polite(y, e)
    ensures Backed(Next(y, e))
  {
    hide Backed, Mapped;
    if e.Registering? {
      if In(y, e.fd, Serving) { RegisterBacked(y, e.r, e.fd); }
    } else if e.Erasing? {
      if In(y, e.fd, Serving) { EraseBacked(y, e.fd); }
    } else {
      OtherBacked(y, e);
    }
  }

  // ----- the converse: who is mapped is alive -----

  /** Every entry of the descriptor table leads to a live worker. */
  predicate Living(y: System) {
    forall fd :: fd in y.coord.fdToWorker ==> Alive(y.coord, y.coord.fdToWorker[fd])
  }

  /** The worker of this descriptor is mapped from another one too. */
  predicate MappedTwice(y: System, fd: int) {
    && fd in y.coord.fdToWorker
    && exists other :: other in y.coord.fdToWorker && other != fd && y.coord.fdToWorker[other] == y.coord.fdToWorker[fd]
  }

  /** The end of a connection leaves everybody who is mapped alive exactly when its worker is not mapped
      from another connection as well. */
  lemma EraseLiving(y: System, fd: int)
    requires Mapped(y) && Living(y) && In(y, fd, Serving)
    ensures Living(Next(y, Erasing(fd))) <==> !MappedTwice(y, fd)
  {
    var z := Next(y, Erasing(fd));
    if MappedTwice(y, fd) {
      var other :| other in y.coord.fdToWorker && other != fd && y.coord.fdToWorker[other] == y.coord.fdToWorker[fd];
      assert other in z.coord.fdToWorker && !Alive(z.coord, z.coord.fdToWorker[other]);
    } else {
      forall d | d in z.coord.fdToWorker ensures Alive(z.coord, z.coord.fdToWorker[d]) {
        assert d in y.coord.fdToWorker && d != fd;
      }
    }
  }

  /** No worker is mapped from two descriptors. */
  predicate OneEach(y: System) {
    forall a, b :: a in y.coord.fdToWorker && b in y.coord.fdToWorker && y.coord.fdToWorker[a] == y.coord.fdToWorker[b] ==> a == b
  }

  /** The worker registers only when no other connection has it on record. */
  predicate Patient(y: System, e: Event) {
    e.Registering? && In(y, e.fd, Serving) ==>
      forall d :: d in y.coord.fdToWorker && d != e.fd ==> y.coord.fdToWorker[d] != e.r.id
  }

  /** A registration keeps the mapping one-to-one exactly when the worker is on no other connection's record. */
  lemma RegisterOneEach(y: System, r: Registration, fd: int)
    requires OneEach(y) && In(y, fd, Serving)
    ensures OneEach(Next(y, Registering(r, fd))) <==> Patient(y, Registering(r, fd))
  {
    var z := Next(y, Registering(r, fd));
    if OneEach(z) {
      forall d | d in y.coord.fdToWorker && d != fd ensures y.coord.fdToWorker[d] != r.id {
        assert d in z.coord.fdToWorker && fd in z.coord.fdToWorker;
      }
    }
  }

  lemma PatientLiving(y: System, e: Event)
    requires Mapped(y) && Living(y) && OneEach(y) && Patient(y, e)
    ensures Living(Next(y, e)) && OneEach(Next(y, e))
  {
    hide Judge, Signature, Consistent;
    if e.Registering? {
      if In(y, e.fd, Serving) { RegisterOneEach(y, e.r, e.fd); }
    } else if e.Erasing? {
      if In(y, e.fd, Serving) { EraseLiving(y, e.fd); }
    }
  }

  /** Every worker of the run registers again only after its old connection has erased its entry. */
  predicate PatientRun(epoch: nat, es: seq<Event>) {
    forall i :: 0 <= i < |es| ==> Patient(After(Start(epoch), es[..i]), es[i])
  }

  /** If no worker registers anew before its old connection has ended, every mapped worker is alive. */
  lemma {:induction false} MappedIsAlive(epoch: nat, es: seq<Event>)
    requires PatientRun(epoch, es)
    ensures Living(After(Start(epoch), es)) && OneEach(After(Start(epoch), es))
  {
    if es != [] {
      hide Next, Living, OneEach, Mapped, Patient;
      var n := |es| - 1;
      forall i | 0 <= i < n ensures Patient(After(Start(epoch), es[..n][..i]), es[..n][i]) {
        assert es[..n][..i] == es[..i];
      }
      MappedIsAlive(epoch, es[..n]);
      RunMapped(epoch, es[..n]);
      PatientLiving(After(Start(epoch), es[..n]), es[n]);
    }
  }

  /** With both kinds of manners a worker is alive exactly when an open descriptor is mapped to it. */
  lemma AliveExactlyWhenMapped(epoch: nat, es: seq<Event>, w: nat)
    requires SingleIds(epoch, es) && PatientRun(epoch, es)
    ensures var y := After(Start(epoch), es);
            Alive(y.coord, w) <==> exists fd :: fd in y.coord.fdToWorker && y.coord.fdToWorker[fd] == w && Usable(y, fd)
  {
    hide After, SingleIds, PatientRun;
    AliveIsBacked(epoch, es);
    MappedIsAlive(epoch, es);
    var y := After(Start(epoch), es);
    if Alive(y.coord, w) {
      assert BackedBy(y, w);
      assert y.coord.workers[w].fd in y.coord.fdToWorker;
    }
  }

  // ----- where the guarantee ends -----

  /** The converse fails: a worker that reconnects before its old connection ends is marked dead by the
      old one, although its new descriptor is open and maps back to it. */
  lemma ReconnectedButDead(epoch: nat, r: Registration, a: int, b: int)
    requires a != b
    ensures var y0 := Next(Next(Start(epoch), Accepting(a)), Registering(r, a));
            var y1 := Next(Next(y0, Accepting(b)), Registering(r, b));
            var y := Next(y1, Erasing(a));
            Alive(y1.coord, r.id) && BackedBy(y, r.id) && y.coord.workers[r.id].fd == b && !Alive(y.coord, r.id)
  {
  }

  /** Two ids on one connection: the first stays alive after the connection is gone, and a stranger
      that gets the same descriptor number receives its dispatches without being mapped to anybody. */
  lemma TwoIdsOutlive(epoch: nat, r: Registration, q: Registration, a: int)
    requires r.id != q.id
    ensures var y0 := Next(Next(Start(epoch), Accepting(a)), Registering(r, a));
            var y1 := Next(Next(Next(y0, Registering(q, a)), Erasing(a)), Closing(a));
            var y := Next(y1, Accepting(a));
            && Alive(y1.coord, r.id) && y1.coord.workers[r.id].fd == a && a !in y1.conns
            && Alive(y.coord, r.id) && In(y, a, Serving) && a !in y.coord.fdToWorker
  {
  }
}
