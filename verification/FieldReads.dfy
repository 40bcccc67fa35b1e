/** Concurrent submissions: after the lock is released, each submission reads the current authority
    again, field by field and in no fixed order (apps/target_coordinator.cpp, lines 156-192). */
module FieldReads {
  import opened Payloads
  import opened Coordinator
  import Digest

  datatype Field = ATTEMPT | GEN | DISPATCH

  /** A submission past the lock: the number it was assigned, its work, what it has read since, and how
      many submissions had been made when it last read. */
  datatype Thread = Thread(own: nat, work: string, seen: map<Field, nat>, lastSeen: nat)

  /** A tuple put together from the reads of one submission; it goes into a dispatch or a response. */
  datatype Quote = Quote(own: nat, lastSeen: nat, d: Dispatch)

  /** `works` holds the work submitted as each attempt. */
  datatype System = System(coord: State, threads: map<nat, Thread>, quotes: seq<Quote>, works: map<nat, string>)

  datatype Event =
    | Registering(r: Registration, fd: int)
    | Locking(thread: nat, worker: nat, work: string)
    | Reading(thread: nat, field: Field)
    | Quoting(thread: nat)
    | Completing(c: Completion)
    | Disconnecting(fd: int)

  function FieldOf(s: State, f: Field): nat {
    match f
    case ATTEMPT => s.curAttempt
    case GEN => s.curGen
    case DISPATCH => s.curDispatch
  }

  predicate ReadAll(t: Thread) { ATTEMPT in t.seen && GEN in t.seen && DISPATCH in t.seen }

  function QuoteOf(s: State, t: Thread): Quote
    requires ReadAll(t)
  {
    Quote(t.own, t.lastSeen, Dispatch(s.epoch, t.seen[ATTEMPT], t.seen[GEN], t.seen[DISPATCH], t.work))
  }

  /** One atomic step; a step that is not possible changes nothing.  A thread that has quoted starts
      reading again, for its response. */
  function Next(y: System, e: Event): System {
    match e
    case Registering(r, fd) => y.(coord := Register(y.coord, r, fd))
    case Locking(thread, worker, work) =>
      if !Alive(y.coord, worker) then y
      else
        var s := Submit(y.coord, worker);
        y.(coord := s, threads := y.threads[thread := Thread(s.curAttempt, work, map[], s.curAttempt)],
           works := y.works[s.curAttempt := work])
    case Reading(thread, field) =>
      if thread !in y.threads then y
      else
        var t := y.threads[thread];
        y.(threads := y.threads[thread := t.(seen := t.seen[field := FieldOf(y.coord, field)], lastSeen := y.coord.curAttempt)])
    case Quoting(thread) =>
      if thread !in y.threads || !ReadAll(y.threads[thread]) then y
      else
        y.(quotes := y.quotes + [QuoteOf(y.coord, y.threads[thread])],
           threads := y.threads[thread := y.threads[thread].(seen := map[])])
    case Completing(c) => y.(coord := Complete(y.coord, c))
    case Disconnecting(fd) => y.(coord := Disconnect(y.coord, fd))
  }

  function After(y: System, es: seq<Event>): System {
    if es == [] then y else Next(After(y, es[..|es| - 1]), es[|es| - 1])
  }

  function Start(epoch: nat): System { System(Fresh(epoch), map[], [], map[]) }

  /** Every field read is between the assigned number and the last number seen, and the one read last is the latter. */
  predicate Between(t: Thread) {
    && t.own <= t.lastSeen
    && (forall f :: f in t.seen ==> t.own <= t.seen[f] <= t.lastSeen)
    && (t.seen != map[] ==> exists f :: f in t.seen && t.seen[f] == t.lastSeen)
  }

  predicate Sound(s: State, q: Quote) {
    && q.d.epoch == s.epoch && q.lastSeen <= s.curAttempt
    && q.own <= q.d.attempt <= q.lastSeen && q.own <= q.d.gen <= q.lastSeen
    && q.own <= q.d.dispatch <= q.lastSeen
    && (q.d.attempt == q.lastSeen || q.d.gen == q.lastSeen || q.d.dispatch == q.lastSeen)
  }

  predicate Inv(y: System) {
    && Consistent(y.coord)
    && (forall i :: i in y.threads ==> Between(y.threads[i]) && y.threads[i].lastSeen <= y.coord.curAttempt)
    && (forall i :: 0 <= i < |y.quotes| ==> Sound(y.coord, y.quotes[i]))
  }

  lemma ReadBetween(t: Thread, field: Field, v: nat)
    requires Between(t) && t.lastSeen <= v
    ensures Between(t.(seen := t.seen[field := v], lastSeen := v))
  {
    var u := t.(seen := t.seen[field := v], lastSeen := v);
    assert field in u.seen && u.seen[field] == v;
  }

  lemma QuoteSound(s: State, t: Thread)
    requires Between(t) && ReadAll(t) && t.lastSeen <= s.curAttempt
    ensures Sound(s, QuoteOf(s, t))
  {
    assert t.seen != map[];
    var f :| f in t.seen && t.seen[f] == t.lastSeen;
    assert f == ATTEMPT || f == GEN || f == DISPATCH;
  }

  lemma LockKeeps(y: System, e: Event)
    requires Inv(y) && e.Locking?
    ensures Inv(Next(y, e))
  {
    hide Between;
    if Alive(y.coord, e.worker) {
      SubmitKeeps(y.coord, e.worker);
      FreshBetween(Submit(y.coord, e.worker).curAttempt, e.work);
    }
  }

  lemma FreshBetween(n: nat, work: string)
    ensures Between(Thread(n, work, map[], n))
  {
  }

  lemma ReadKeeps(y: System, e: Event)
    requires Inv(y) && e.Reading?
    ensures Inv(Next(y, e))
  {
    hide Between, Sound;
    if e.thread in y.threads { ReadBetween(y.threads[e.thread], e.field, y.coord.curAttempt); }
  }

  lemma QuoteKeeps(y: System, e: Event)
    requires Inv(y) && e.Quoting?
    ensures Inv(Next(y, e))
  {
    hide Sound;
    if e.thread in y.threads && ReadAll(y.threads[e.thread]) { QuoteSound(y.coord, y.threads[e.thread]); }
  }

  lemma NextKeeps(y: System, e: Event)
    requires Inv(y)
    ensures Inv(Next(y, e))
  {
    match e
    case Registering(r, fd) => RegisterKeeps(y.coord, r, fd);
    case Locking(_, _, _) => LockKeeps(y, e);
    case Reading(_, _) => ReadKeeps(y, e);
    case Quoting(_) => QuoteKeeps(y, e);
    case Completing(c) => CompleteKeeps(y.coord, c);
    case Disconnecting(fd) => DisconnectKeeps(y.coord, fd);
  }

  lemma {:induction false} RunKeeps(epoch: nat, es: seq<Event>)
    ensures Inv(After(Start(epoch), es))
  {
    hide Next;
    if es != [] {
      hide Inv;
      RunKeeps(epoch, es[..|es| - 1]);
      NextKeeps(After(Start(epoch), es[..|es| - 1]), es[|es| - 1]);
    }
  }

  predicate QuotesOwn(q: Quote) { q.d.attempt == q.d.gen == q.d.dispatch == q.own }

  /** A tuple that mixes two submissions is rejected in every reachable state. */
  lemma TornRejected(epoch: nat, es: seq<Event>, c: Completion)
    requires !(c.attempt == c.gen == c.dispatch)
    ensures !Judge(After(Start(epoch), es).coord, c).Accepted?
  {
    hide After;
    RunKeeps(epoch, es);
    AcceptedQuotesCurrent(After(Start(epoch), es).coord, c);
  }

  // ----- overtaken submissions, told from the events -----

  /** The step gives a submission the lock and a number. */
  predicate LockStep(y: System, e: Event) { e.Locking? && Alive(y.coord, e.worker) }

  /** Where the thread last took the lock, or -1. */
  function LockedAt(epoch: nat, es: seq<Event>, thread: nat): (i: int)
    ensures -1 <= i < |es|
  {
    if es == [] then -1
    else
      var n := |es| - 1;
      if LockStep(After(Start(epoch), es[..n]), es[n]) && es[n].thread == thread then n
      else LockedAt(epoch, es[..n], thread)
  }

  /** Where the thread last read a field, or -1. */
  function ReadAt(es: seq<Event>, thread: nat): (i: int)
    ensures -1 <= i < |es|
  {
    if es == [] then -1
    else
      var n := |es| - 1;
      if es[n].Reading? && es[n].thread == thread then n else ReadAt(es[..n], thread)
  }

  /** Between the thread's own lock and its last read some submission took the lock. */
  predicate Overtaken(epoch: nat, es: seq<Event>, thread: nat) {
    exists m :: LockedAt(epoch, es, thread) < m < ReadAt(es, thread) && LockStep(After(Start(epoch), es[..m]), es[m])
  }

  /** How many submissions have been made after the first `n` events. */
  function CountAt(epoch: nat, es: seq<Event>, n: nat): nat
    requires n <= |es|
  {
    After(Start(epoch), es[..n]).coord.curAttempt
  }

  lemma NextCounts(y: System, e: Event)
    requires Inv(y)
    ensures Next(y, e).coord.curAttempt == y.coord.curAttempt + if LockStep(y, e) then 1 else 0
  {
    hide Between, Sound, Judge, Signature;
    if LockStep(y, e) { SubmitKeeps(y.coord, e.worker); }
  }

  lemma CountStep(epoch: nat, es: seq<Event>, n: nat)
    requires n < |es|
    ensures CountAt(epoch, es, n + 1)
            == CountAt(epoch, es, n) + if LockStep(After(Start(epoch), es[..n]), es[n]) then 1 else 0
  {
    hide Next, Inv, LockStep;
    assert es[..n + 1][..n] == es[..n];
    RunKeeps(epoch, es[..n]);
    NextCounts(After(Start(epoch), es[..n]), es[n]);
  }

  /** The count stays the same exactly while nobody takes the lock. */
  lemma {:induction false} CountStays(epoch: nat, es: seq<Event>, p: nat, q: nat)
    requires p <= q <= |es|
    ensures CountAt(epoch, es, p) <= CountAt(epoch, es, q)
    ensures CountAt(epoch, es, p) == CountAt(epoch, es, q) <==>
            forall m :: p <= m < q ==> !LockStep(After(Start(epoch), es[..m]), es[m])
  {
    hide After, LockStep, CountAt;
    if p < q {
      CountStays(epoch, es, p, q - 1);
      CountStep(epoch, es, q - 1);
    }
  }

  /** A thread's number is the count right after its lock; what it saw last is the count at its last read. */
  ghost predicate Timed(epoch: nat, es: seq<Event>, thread: nat, t: Thread) {
    var a, b := LockedAt(epoch, es, thread), ReadAt(es, thread);
    && 0 <= a && t.own == CountAt(epoch, es, a + 1)
    && t.lastSeen == (if a < b then CountAt(epoch, es, b) else t.own)
    && (t.seen != map[] ==> a < b)
  }

  lemma SamePrefix(epoch: nat, es: seq<Event>, n: nat)
    requires es != [] && n < |es|
    ensures CountAt(epoch, es[..|es| - 1], n) == CountAt(epoch, es, n)
  {
    hide After;
    assert es[..|es| - 1][..n] == es[..n];
  }

  lemma {:induction false} RunTimed(epoch: nat, es: seq<Event>, thread: nat)
    requires thread in After(Start(epoch), es).threads
    ensures Timed(epoch, es, thread, After(Start(epoch), es).threads[thread])
  {
    if es != [] {
      hide CountAt, Alive, Submit, Judge;
      var n := |es| - 1;
      var front, e := es[..n], es[n];
      var y := After(Start(epoch), front);
      LastCounts(epoch, es);
      if !LockStep(y, e) || e.thread != thread {
        NextThread(y, e, thread);
        RunTimed(epoch, front, thread);
        SamePrefix(epoch, es, LockedAt(epoch, front, thread) + 1);
        if ReadAt(front, thread) >= 0 { SamePrefix(epoch, es, ReadAt(front, thread)); }
      }
    }
  }

  lemma LastCounts(epoch: nat, es: seq<Event>)
    requires es != []
    ensures CountAt(epoch, es, |es| - 1) == After(Start(epoch), es[..|es| - 1]).coord.curAttempt
    ensures CountAt(epoch, es, |es|) == After(Start(epoch), es).coord.curAttempt
  {
    hide After;
    assert es[..|es|] == es;
  }

  /** Only its own lock makes a thread; otherwise it keeps its number. */
  lemma NextThread(y: System, e: Event, thread: nat)
    requires thread in Next(y, e).threads && !(LockStep(y, e) && e.thread == thread)
    ensures thread in y.threads
    ensures var t, u := y.threads[thread], Next(y, e).threads[thread];
            && u.own == t.own
            && (e.Reading? && e.thread == thread ==> u.lastSeen == y.coord.curAttempt)
            && (!(e.Reading? && e.thread == thread) ==> u.lastSeen == t.lastSeen && (u.seen != map[] ==> t.seen != map[]))
  {
    hide Judge, Submit;
  }

  /** A submission quotes its own authority exactly when nobody took the lock between its own lock and
      its last read. */
  lemma OwnUnlessOvertaken(epoch: nat, es: seq<Event>, thread: nat)
    requires thread in After(Start(epoch), es).threads && ReadAll(After(Start(epoch), es).threads[thread])
    ensures QuotesOwn(QuoteOf(After(Start(epoch), es).coord, After(Start(epoch), es).threads[thread]))
            <==> !Overtaken(epoch, es, thread)
  {
    hide After, LockStep, CountAt;
    RunKeeps(epoch, es);
    RunTimed(epoch, es, thread);
    var y := After(Start(epoch), es);
    var t := y.threads[thread];
    assert t.seen != map[];
    QuoteSound(y.coord, t);
    CountStays(epoch, es, LockedAt(epoch, es, thread) + 1, ReadAt(es, thread));
  }

  /** The step at which a quote was made. */
  ghost predicate MadeAt(epoch: nat, es: seq<Event>, q: Quote, k: nat, thread: nat) {
    && k < |es| && es[k] == Quoting(thread)
    && var y := After(Start(epoch), es[..k]);
       thread in y.threads && ReadAll(y.threads[thread]) && q == QuoteOf(y.coord, y.threads[thread])
  }

  lemma {:induction false} QuoteMade(epoch: nat, es: seq<Event>, i: nat) returns (k: nat, thread: nat)
    requires i < |After(Start(epoch), es).quotes|
    ensures MadeAt(epoch, es, After(Start(epoch), es).quotes[i], k, thread)
  {
    hide Judge, Submit, Register, Disconnect, FieldOf;
    var n := |es| - 1;
    var y := After(Start(epoch), es[..n]);
    if i < |y.quotes| {
      NextGrows(y, es[n]);
      k, thread := QuoteMade(epoch, es[..n], i);
      assert es[..n][..k] == es[..k];
    } else {
      k, thread := n, es[n].thread;
    }
  }

  /** In every interleaving every field a submission quotes is at least the number it was assigned, and
      all are that number exactly when nobody took the lock between its own lock and its last read. */
  lemma QuotesAtLeastAssigned(epoch: nat, es: seq<Event>, i: nat) returns (k: nat, thread: nat)
    requires i < |After(Start(epoch), es).quotes|
    ensures MadeAt(epoch, es, After(Start(epoch), es).quotes[i], k, thread)
    ensures var q := After(Start(epoch), es).quotes[i];
            && q.d.epoch == After(Start(epoch), es).coord.epoch
            && q.d.attempt >= q.own && q.d.gen >= q.own && q.d.dispatch >= q.own
            && (QuotesOwn(q) <==> !Overtaken(epoch, es[..k], thread))
  {
    hide After, Overtaken;
    RunKeeps(epoch, es);
    k, thread := QuoteMade(epoch, es, i);
    OwnUnlessOvertaken(epoch, es[..k], thread);
    assert Sound(After(Start(epoch), es).coord, After(Start(epoch), es).quotes[i]);
  }

  // ----- which work is committed -----

  /** Every attempt's work is on record, and threads and quotes carry the work of their own attempt. */
  ghost predicate WorksOk(y: System) {
    && (forall n :: n in y.works <==> 1 <= n <= y.coord.curAttempt)
    && (forall i :: i in y.threads ==> y.threads[i].own in y.works && y.works[y.threads[i].own] == y.threads[i].work)
    && (forall i :: 0 <= i < |y.quotes| ==> y.quotes[i].own in y.works && y.works[y.quotes[i].own] == y.quotes[i].d.work)
  }

  lemma NextWorks(y: System, e: Event)
    requires Inv(y) && WorksOk(y)
    ensures WorksOk(Next(y, e))
  {
    hide Between, Sound, Judge, Signature;
    NextCounts(y, e);
  }

  lemma {:induction false} RunWorks(epoch: nat, es: seq<Event>)
    ensures WorksOk(After(Start(epoch), es))
  {
    if es != [] {
      hide WorksOk, Next;
      RunWorks(epoch, es[..|es| - 1]);
      RunKeeps(epoch, es[..|es| - 1]);
      NextWorks(After(Start(epoch), es[..|es| - 1]), es[|es| - 1]);
    }
  }

  /** In every run: an honest answer to a quote that is accepted commits the result of the work submitted
      as the attempt it is committed for, exactly when the submission that quoted was not overtaken before
      its last read, or the two works have the same result anyway. */
  lemma CommitsRightWorkExactly(epoch: nat, es: seq<Event>, i: nat, id: nat, boot: nat) returns (k: nat, thread: nat)
    requires i < |After(Start(epoch), es).quotes|
    requires Judge(After(Start(epoch), es).coord, Answer(After(Start(epoch), es).quotes[i].d, id, boot)).Accepted?
    ensures MadeAt(epoch, es, After(Start(epoch), es).quotes[i], k, thread)
    ensures var y := After(Start(epoch), es);
            var q := y.quotes[i];
            var c := Answer(q.d, id, boot);
            && c.attempt in y.works && q.own in y.works
            && (c.attempt == q.own <==> !Overtaken(epoch, es[..k], thread))
            && (c.result == Digest.WorkResult(y.works[c.attempt], boot) <==>
                  !Overtaken(epoch, es[..k], thread)
                  || Digest.WorkResult(y.works[q.own], boot) == Digest.WorkResult(y.works[c.attempt], boot))
  {
    hide After, Digest.WorkResult, Signature, Overtaken;
    RunKeeps(epoch, es);
    RunWorks(epoch, es);
    k, thread := QuoteMade(epoch, es, i);
    OwnUnlessOvertaken(epoch, es[..k], thread);
    var y := After(Start(epoch), es);
    AcceptedQuotesCurrent(y.coord, Answer(y.quotes[i].d, id, boot));
  }

  /** Two quotes of one number, answered by the same worker: once the first answer is accepted, the
      second is a conflicting duplicate exactly when the two submissions' works have different results. */
  lemma QuotesConflictExactly(epoch: nat, es: seq<Event>, i: nat, j: nat, id: nat, boot: nat)
    requires i < |After(Start(epoch), es).quotes| && j < |After(Start(epoch), es).quotes|
    requires var q, p := After(Start(epoch), es).quotes[i].d, After(Start(epoch), es).quotes[j].d;
             p == q.(work := p.work)
    requires Judge(After(Start(epoch), es).coord, Answer(After(Start(epoch), es).quotes[i].d, id, boot)).Accepted?
    ensures var y := After(Start(epoch), es);
            var q, p := y.quotes[i], y.quotes[j];
            && q.own in y.works && p.own in y.works
            && Judge(Complete(y.coord, Answer(q.d, id, boot)), Answer(p.d, id, boot)) ==
               if Digest.WorkResult(y.works[q.own], boot) == Digest.WorkResult(y.works[p.own], boot)
               then DuplicateCurrentCompletion else ConflictingDuplicate
  {
    hide After, Digest.WorkResult, Signature;
    RunWorks(epoch, es);
    var y := After(Start(epoch), es);
    SignatureInjective(Answer(y.quotes[i].d, id, boot), Answer(y.quotes[j].d, id, boot));
  }

  // ----- concurrent submissions can commit the wrong work -----

  function Reads(thread: nat): seq<Event> {
    [Reading(thread, ATTEMPT), Reading(thread, GEN), Reading(thread, DISPATCH), Quoting(thread)]
  }

  lemma {:induction false} AfterConcat(y: System, es: seq<Event>, fs: seq<Event>)
    ensures After(y, es + fs) == After(After(y, es), fs)
  {
    hide Next;
    if fs == [] {
      assert es + fs == es;
    } else {
      AfterConcat(y, es, fs[..|fs| - 1]);
      assert (es + fs)[..|es + fs| - 1] == es + fs[..|fs| - 1];
    }
  }

  lemma AfterOne(y: System, e: Event)
    ensures After(y, [e]) == Next(y, e)
  {
    hide Next;
    assert [e][..0] == [];
  }

  /** Reading the three fields in a row quotes the current authority, whatever was assigned. */
  lemma ReadsQuote(y: System, thread: nat)
    requires thread in y.threads
    ensures var z := After(y, Reads(thread)); var n := y.coord;
            && z.coord == y.coord && z.works == y.works && |z.quotes| == |y.quotes| + 1
            && z.quotes[|y.quotes|].d == Dispatch(n.epoch, n.curAttempt, n.curGen, n.curDispatch, y.threads[thread].work)
            && z.quotes[|y.quotes|].own == y.threads[thread].own
            && z.threads.Keys == y.threads.Keys && z.threads[thread].own == y.threads[thread].own
            && (forall t :: t in y.threads && t != thread ==> z.threads[t] == y.threads[t])
  {
    var a, b, c := Reading(thread, ATTEMPT), Reading(thread, GEN), Reading(thread, DISPATCH);
    var y1 := Next(y, a);
    var y2 := Next(y1, b);
    var y3 := Next(y2, c);
    assert ReadAll(y3.threads[thread]);
    assert After(y, Reads(thread)) == Next(y3, Quoting(thread)) by {
      hide Next;
      AfterOne(y, a);
      AfterConcat(y, [a], [b]);
      AfterOne(y1, b);
      AfterConcat(y, [a] + [b], [c]);
      AfterOne(y2, c);
      AfterConcat(y, [a] + [b] + [c], [Quoting(thread)]);
      AfterOne(y3, Quoting(thread));
      assert Reads(thread) == [a] + [b] + [c] + [Quoting(thread)];
    }
  }

  /** Two submissions to one worker: the first takes the lock, then the second, then both read. */
  function Overlap(r: Registration, x: string, y: string): seq<Event> {
    [Registering(r, 0), Locking(1, r.id, x), Locking(2, r.id, y)]
  }

  lemma OverlapState(epoch: nat, r: Registration, x: string, y: string)
    ensures var s := After(Start(epoch), Overlap(r, x, y));
            && Consistent(s.coord) && s.coord.epoch == epoch && s.coord.curAttempt == 2 && s.coord.curBoot == r.boot
            && s.coord.committed == {} && s.quotes == []
            && 1 in s.threads && s.threads[1].own == 1 && s.threads[1].work == x
            && 2 in s.threads && s.threads[2].own == 2 && s.threads[2].work == y
            && 2 in s.works && s.works[2] == y
  {
    var a, b, c := Registering(r, 0), Locking(1, r.id, x), Locking(2, r.id, y);
    var s0 := Start(epoch);
    var s1 := Next(s0, a);
    var s2 := Next(s1, b);
    var s3 := Next(s2, c);
    assert After(s0, Overlap(r, x, y)) == s3 by {
      hide Next;
      AfterOne(s0, a);
      AfterConcat(s0, [a], [b]);
      AfterOne(s1, b);
      AfterConcat(s0, [a] + [b], [c]);
      AfterOne(s2, c);
      assert Overlap(r, x, y) == [a] + [b] + [c];
    }
    FreshConsistent(epoch);
    RegisterKeeps(s0.coord, r, 0);
    SubmitKeeps(s1.coord, r.id);
    SubmitKeeps(s2.coord, r.id);
  }

  /** For any two works: when the first submission reads after the second took the lock, the worker's
      honest answer to the first work is accepted as the result of the attempt that submitted the
      second, and the answer to the second is then a conflicting duplicate. */
  lemma OverlapCommitsWrongWork(epoch: nat, r: Registration, x: string, y: string)
    requires Digest.WorkResult(x, r.boot) != Digest.WorkResult(y, r.boot)
    ensures var t := After(After(After(Start(epoch), Overlap(r, x, y)), Reads(1)), Reads(2));
            |t.quotes| == 2 && WrongWork(t, r, x, y)
  {
    hide After, Digest.WorkResult, Signature;
    OverlapState(epoch, r, x, y);
    var s := After(Start(epoch), Overlap(r, x, y));
    ReadsQuote(s, 1);
    var u := After(s, Reads(1));
    ReadsQuote(u, 2);
    var t := After(u, Reads(2));
    KeepsFirstQuote(u, 2);
    var first, second := Answer(t.quotes[0].d, r.id, r.boot), Answer(t.quotes[1].d, r.id, r.boot);
    SignatureInjective(first, second);
  }

  predicate WrongWork(t: System, r: Registration, x: string, y: string)
    requires |t.quotes| == 2
  {
    var first, second := Answer(t.quotes[0].d, r.id, r.boot), Answer(t.quotes[1].d, r.id, r.boot);
    && t.quotes[0].own == 1 && t.quotes[0].d.work == x && t.quotes[1].own == 2 && t.quotes[1].d.work == y
    && first.attempt == 2 && 2 in t.works && t.works[2] == y
    && Judge(t.coord, first).Accepted? && first.result == Digest.WorkResult(x, r.boot)
    && Judge(Complete(t.coord, first), second) == ConflictingDuplicate
  }

  lemma KeepsFirstQuote(y: System, thread: nat)
    requires |y.quotes| == 1
    ensures After(y, Reads(thread)).quotes != [] && After(y, Reads(thread)).quotes[0] == y.quotes[0]
  {
    hide Next;
    QuotesGrow(y, Reads(thread));
  }

  lemma {:induction false} QuotesGrow(y: System, es: seq<Event>)
    ensures y.quotes <= After(y, es).quotes
  {
    if es != [] {
      QuotesGrow(y, es[..|es| - 1]);
      NextGrows(After(y, es[..|es| - 1]), es[|es| - 1]);
    }
  }

  lemma NextGrows(y: System, e: Event)
    ensures y.quotes <= Next(y, e).quotes
  {
    hide Judge;
  }
}
