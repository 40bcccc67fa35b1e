/** The text payloads exchanged by controller, coordinator and worker
    (apps/target_coordinator.cpp and apps/target_worker.cpp). */
module Payloads {
  import opened Words
  import opened Text
  import Digest

  // ----- std::stoull -----

  /** Skips white space and a sign, reads as many digits as there are and ignores the rest; `None`
      stands for the exception on no digits or a value of 2^64 or more. */
  function Stoull(s: string): (r: Option<nat>)
    ensures r.Some? ==> r.value < U64
  {
    var t := TrimStart(s);
    var signed := t != "" && (t[0] == '-' || t[0] == '+');
    var digits := if signed then t[1..] else t;
    var n := LeadingDigits(digits);
    LeadingDigitsBound(digits);
    var v := DecimalValue(digits[..n]);
    if n == 0 || v >= U64 then None
    else if signed && t[0] == '-' && v > 0 then Some(U64 - v)
    else Some(v)
  }

  lemma {:induction false} LeadingDigitsBound(s: string)
    ensures LeadingDigits(s) <= |s|
    ensures DecimalValue(s[..LeadingDigits(s)]) >= 0
  {
    var n := LeadingDigits(s);
    LeadingDigitsAre(s);
    DigitsValue(s[..n]);
  }

  lemma {:induction false} LeadingDigitsAre(s: string)
    ensures LeadingDigits(s) <= |s| && forall i :: 0 <= i < LeadingDigits(s) ==> IsDigit(s[i])
  {
    if s != "" && IsDigit(s[0]) {
      LeadingDigitsAre(s[1..]);
      forall i | 0 <= i < LeadingDigits(s) ensures IsDigit(s[i]) {
        if i > 0 { assert s[i] == s[1..][i - 1]; }
      }
    }
  }

  lemma {:induction false} DigitsValue(s: string)
    requires forall i :: 0 <= i < |s| ==> IsDigit(s[i])
    ensures DecimalValue(s) >= 0
  {
    if s != "" { DigitsValue(s[..|s| - 1]); }
  }

  lemma StoullReads(n: nat)
    requires n < U64
    ensures Stoull(Decimal(n)) == Some(n)
  {
    hide Decimal, LeadingDigits, DecimalValue;
    var s := Decimal(n);
    assert IsDigit(s[0]);
    LeadingDigitsOf(s, "");
    assert s + "" == s && s[..|s|] == s;
    DecimalReads(n);
  }

  // ----- messages -----

  datatype Completion = Completion(
    epoch: nat, attempt: nat, gen: nat, dispatch: nat, worker: nat, boot: nat, result: string)

  datatype Dispatch = Dispatch(epoch: nat, attempt: nat, gen: nat, dispatch: nat, work: string)

  datatype Registration = Registration(name: string, id: nat, boot: nat)

  datatype Submission = Submission(worker: nat, work: string)

  /** A payload with the wrong number of parts is malformed; a number that cannot be read ends the process. */
  datatype Read<T> = Malformed | Terminates | Value(value: T)

  predicate WordSized(c: Completion) {
    c.epoch < U64 && c.attempt < U64 && c.gen < U64 && c.dispatch < U64 && c.worker < U64 && c.boot < U64
  }

  function RegisterText(r: Registration): string {
    Join([r.name, Decimal(r.id), Decimal(r.boot)], '|')
  }

  function ReadRegister(payload: string): Read<Registration> {
    var parts := Split(payload, '|');
    if |parts| != 3 then Malformed
    else
      match (Stoull(parts[1]), Stoull(parts[2]))
      case (Some(id), Some(boot)) => Value(Registration(parts[0], id, boot))
      case _ => Terminates
  }

  function SubmitText(s: Submission): string {
    Join([Decimal(s.worker), s.work], '|')
  }

  function ReadSubmit(payload: string): Read<Submission> {
    var parts := Split(payload, '|');
    if |parts| != 2 then Malformed
    else
      match Stoull(parts[0])
      case Some(worker) => Value(Submission(worker, parts[1]))
      case None => Terminates
  }

  function DispatchText(d: Dispatch): string {
    Join([Decimal(d.epoch), Decimal(d.attempt), Decimal(d.gen), Decimal(d.dispatch), d.work], '|')
  }

  function CompleteText(c: Completion): string {
    Join([Decimal(c.epoch), Decimal(c.attempt), Decimal(c.gen), Decimal(c.dispatch),
          Decimal(c.worker), Decimal(c.boot), c.result], '|')
  }

  function ReadComplete(payload: string): Read<Completion> {
    var parts := Split(payload, '|');
    if |parts| != 7 then Malformed
    else
      match (Stoull(parts[0]), Stoull(parts[1]), Stoull(parts[2]), Stoull(parts[3]), Stoull(parts[4]), Stoull(parts[5]))
      case (Some(epoch), Some(attempt), Some(gen), Some(dispatch), Some(worker), Some(boot)) =>
        Value(Completion(epoch, attempt, gen, dispatch, worker, boot, parts[6]))
      case _ => Terminates
  }

  /** What a worker with this id and boot completes a dispatch with. */
  function Answer(d: Dispatch, id: nat, boot: nat): Completion {
    Completion(d.epoch, d.attempt, d.gen, d.dispatch, id, boot, Digest.WorkResult(d.work, boot))
  }

  /** `handle_dispatch`: the four numbers go back as the texts they came in. */
  method HandleDispatch(payload: string, id: nat, boot: nat) returns (reply: Option<string>)
    ensures reply == DispatchReply(payload, id, boot)
  {
    hide Split, Decimal, Join, Digest.WorkResult;
    var parts := SplitScan(payload, '|');
    if |parts| != 5 { return None; }
    var result := Digest.DoWork(parts[4], boot);
    var text := JoinScan([parts[0], parts[1], parts[2], parts[3], Decimal(id), Decimal(boot), result], '|');
    reply := Some(text);
  }

  function DispatchReply(payload: string, id: nat, boot: nat): Option<string> {
    var parts := Split(payload, '|');
    if |parts| != 5 then None
    else Some(Join([parts[0], parts[1], parts[2], parts[3], Decimal(id), Decimal(boot),
                    Digest.WorkResult(parts[4], boot)], '|'))
  }

  // ----- every message reads back -----

  lemma NoBar(n: nat)
    ensures '|' !in Decimal(n)
  {
    hide Decimal;
  }

  lemma ResultNoBar(work: string, boot: nat)
    ensures '|' !in Digest.WorkResult(work, boot)
  {
    hide Digest.Hex, Digest.ParsePairs;
    Digest.HexDigitsOnly(Digest.WorkDigest(work, boot));
  }

  lemma RegisterReads(r: Registration)
    requires r.id < U64 && r.boot < U64 && '|' !in r.name
    ensures ReadRegister(RegisterText(r)) == Value(r)
  {
    hide Decimal, Split, Join, Stoull;
    NoBar(r.id);
    NoBar(r.boot);
    SplitJoin([r.name, Decimal(r.id), Decimal(r.boot)], '|');
    StoullReads(r.id);
    StoullReads(r.boot);
  }

  lemma SubmitReads(s: Submission)
    requires s.worker < U64 && '|' !in s.work
    ensures ReadSubmit(SubmitText(s)) == Value(s)
  {
    hide Decimal, Split, Join, Stoull;
    NoBar(s.worker);
    SplitJoin([Decimal(s.worker), s.work], '|');
    StoullReads(s.worker);
  }

  /** Work that was accepted for submission never breaks a dispatch apart. */
  lemma SubmittedWorkWhole(payload: string)
    requires ReadSubmit(payload).Value?
    ensures '|' !in ReadSubmit(payload).value.work
  {
    hide Split, Stoull, Join;
    SplitPieces(payload, '|');
  }

  lemma CompleteReads(c: Completion)
    requires WordSized(c) && '|' !in c.result
    ensures ReadComplete(CompleteText(c)) == Value(c)
  {
    hide Decimal, Split, Join, Stoull;
    forall n: nat ensures '|' !in Decimal(n) { NoBar(n); }
    var parts := [Decimal(c.epoch), Decimal(c.attempt), Decimal(c.gen), Decimal(c.dispatch),
                  Decimal(c.worker), Decimal(c.boot), c.result];
    SplitJoin(parts, '|');
    StoullReads(c.epoch);
    StoullReads(c.attempt);
    StoullReads(c.gen);
    StoullReads(c.dispatch);
    StoullReads(c.worker);
    StoullReads(c.boot);
  }

  /** Coordinator to worker and back: a dispatch that crosses the wire comes back as the completion
      of the same numbers with the worker's own id and boot and the result of the work. */
  lemma DispatchAnswered(d: Dispatch, id: nat, boot: nat)
    requires WordSized(Answer(d, id, boot)) && '|' !in d.work
    ensures var reply := DispatchReply(DispatchText(d), id, boot);
            reply == Some(CompleteText(Answer(d, id, boot))) && ReadComplete(reply.value) == Value(Answer(d, id, boot))
  {
    hide Decimal, Split, Join, Digest.WorkResult, ReadComplete;
    forall n: nat ensures '|' !in Decimal(n) { NoBar(n); }
    SplitJoin([Decimal(d.epoch), Decimal(d.attempt), Decimal(d.gen), Decimal(d.dispatch), d.work], '|');
    ResultNoBar(d.work, boot);
    CompleteReads(Answer(d, id, boot));
  }

  // ----- signatures -----

  /** The key of a completion in the coordinator's tables. */
  function Signature(c: Completion): string {
    Decimal(c.epoch) + ":" + Decimal(c.attempt) + ":" + Decimal(c.gen) + ":" + Decimal(c.dispatch) + ":"
    + Decimal(c.worker) + ":" + Decimal(c.boot)
  }

  predicate SameSix(c: Completion, d: Completion) {
    && c.epoch == d.epoch && c.attempt == d.attempt && c.gen == d.gen && c.dispatch == d.dispatch
    && c.worker == d.worker && c.boot == d.boot
  }

  function FromBoot(c: Completion): string { ":" + Decimal(c.boot) }
  function FromWorker(c: Completion): string { ":" + (Decimal(c.worker) + FromBoot(c)) }
  function FromDispatch(c: Completion): string { ":" + (Decimal(c.dispatch) + FromWorker(c)) }
  function FromGen(c: Completion): string { ":" + (Decimal(c.gen) + FromDispatch(c)) }
  function FromAttempt(c: Completion): string { ":" + (Decimal(c.attempt) + FromGen(c)) }

  lemma SignatureShape(c: Completion)
    ensures Signature(c) == Decimal(c.epoch) + FromAttempt(c)
  {
    hide Decimal;
  }

  lemma NumberThen(a: nat, b: nat, x: string, y: string)
    requires x != "" && x[0] == ':' && y != "" && y[0] == ':'
    requires Decimal(a) + x == Decimal(b) + y
    ensures a == b && x[1..] == y[1..]
  {
    hide Decimal;
    DecimalPrefix(a, x, b, y);
  }

  /** The joined text tells all six numbers: equal signatures only for equal tuples. */
  lemma SignatureInjective(c: Completion, d: Completion)
    ensures Signature(c) == Signature(d) <==> SameSix(c, d)
  {
    hide Decimal, Signature;
    SignatureShape(c);
    SignatureShape(d);
    if Signature(c) == Signature(d) {
      NumberThen(c.epoch, d.epoch, FromAttempt(c), FromAttempt(d));
      assert FromAttempt(c)[1..] == Decimal(c.attempt) + FromGen(c) && FromAttempt(d)[1..] == Decimal(d.attempt) + FromGen(d);
      NumberThen(c.attempt, d.attempt, FromGen(c), FromGen(d));
      assert FromGen(c)[1..] == Decimal(c.gen) + FromDispatch(c) && FromGen(d)[1..] == Decimal(d.gen) + FromDispatch(d);
      NumberThen(c.gen, d.gen, FromDispatch(c), FromDispatch(d));
      assert FromDispatch(c)[1..] == Decimal(c.dispatch) + FromWorker(c) && FromDispatch(d)[1..] == Decimal(d.dispatch) + FromWorker(d);
      NumberThen(c.dispatch, d.dispatch, FromWorker(c), FromWorker(d));
      assert FromWorker(c)[1..] == Decimal(c.worker) + FromBoot(c) && FromWorker(d)[1..] == Decimal(d.worker) + FromBoot(d);
      NumberThen(c.worker, d.worker, FromBoot(c), FromBoot(d));
      assert FromBoot(c)[1..] == Decimal(c.boot) + "" && FromBoot(d)[1..] == Decimal(d.boot) + "";
      DecimalPrefix(c.boot, "", d.boot, "");
    }
  }
}
