/** The measurement loop that every counted probe runs, and the TCP and UDP port probes
    built on it.  The attempts and the moments of cancellation are arbitrary inputs. */
module Probing {
  import opened Types
  import opened Stats
  import Timings

  datatype Status = Unset | Success | Partial | Failure | Error {
    predicate IsUp() { Success? || Partial? }
  }

  datatype ErrorType = NoError | ProbeError | Cancelled | ResolveError

  datatype Report = Report(
    target: string, fqdn: string,
    sent: int, received: int, loss: real, rtt: Summary,
    portOpen: Option<bool>, status: Status, errorType: ErrorType, errorMsg: string)

  /** A result that is filled in through a pointer. */
  class ResultRef {
    var v: Report
    constructor (v: Report)
      ensures this.v == v
    {
      this.v := v;
    }
  }

  /** One attempt; nothing keeps an error and a reply from coming together. */
  datatype Attempt = Attempt(rtt: int, received: bool, err: Option<string>)

  predicate Replied(a: Attempt) { a.err.None? && a.received }

  /** The closure that is passed to RunLoop, with the one variable it may capture: its k-th
      call yields `attempts(k)`, and sets the variable if `opens(k)`. */
  class AttemptFn {
    const attempts: nat -> Attempt
    const opens: nat -> bool
    var calls: nat
    var openGot: bool

    constructor (attempts: nat -> Attempt, opens: nat -> bool)
      ensures this.attempts == attempts && this.opens == opens && calls == 0 && !openGot
    {
      this.attempts, this.opens, calls, openGot := attempts, opens, 0, false;
    }

    method Next() returns (a: Attempt)
      modifies this
      ensures calls == old(calls) + 1 && a == attempts(old(calls))
      ensures openGot == (old(openGot) || opens(old(calls)))
    {
      a := attempts(calls);
      if opens(calls) {
        openGot := true;
      }
      calls := calls + 1;
    }
  }

  // -------- Specification --------

  function AtLeastZero(count: int): nat { if count > 0 then count else 0 }

  /** The loop makes exactly `n` attempts: it goes on while attempts are left, the last one
      was no fatal error and the context is not done (looked at before every attempt but
      the first). */
  ghost predicate Makes(count: int, attempts: nat -> Attempt, done: nat -> bool, n: nat) {
    && n <= AtLeastZero(count)
    && (forall i :: 0 < i < n ==> !done(i))
    && (forall i :: 0 <= i < n - 1 ==> attempts(i).err.None?)
    && (n == AtLeastZero(count) || (n > 0 && (attempts(n - 1).err.Some? || done(n))))
  }

  lemma AttemptCountIsDetermined(count: int, attempts: nat -> Attempt, done: nat -> bool, n: nat, n': nat)
    requires Makes(count, attempts, done, n) && Makes(count, attempts, done, n')
    ensures n == n'
  {
  }

  /** How many waits of at most one packet interval precede or interrupt `n` attempts: one
      between each two, and one more if the context was done at the end of a wait. */
  function Waits(count: int, attempts: nat -> Attempt, n: nat): nat {
    if n == 0 then 0
    else if n < count && attempts(n - 1).err.None? then n
    else n - 1
  }

  /** For every accepted probe whose product does not wrap, all the waits of a run together
      are shorter than its timeout, and that than its period. */
  lemma {:induction false} WaitsFitTimeout(
      interval: Int64, packetInterval: Int64, timeout: Int64, count: Int64,
      attempts: nat -> Attempt, done: nat -> bool, n: nat)
    requires Timings.ValidateTimings(interval, packetInterval, timeout, count).None?
    requires Timings.ExactProduct(packetInterval, count) < TWO_63
    requires Makes(count, attempts, done, n)
    ensures Waits(count, attempts, n) <= count - 1
    ensures Timings.ExactProduct(packetInterval, Waits(count, attempts, n)) < timeout < interval
  {
    Timings.BudgetIffNoWrap(interval, packetInterval, timeout, count);
    Timings.ProductMonotone(packetInterval, Waits(count, attempts, n), count);
  }

  /** The round-trip times of the replies among the first `n` attempts, in order. */
  function Samples(attempts: nat -> Attempt, n: nat): seq<int> {
    if n == 0 then []
    else Samples(attempts, n - 1) + if Replied(attempts(n - 1)) then [attempts(n - 1).rtt] else []
  }

  ghost predicate Among(p: nat -> bool, n: nat) { exists i :: 0 <= i < n && p(i) }

  ghost predicate ReplyAmong(attempts: nat -> Attempt, n: nat) {
    exists i :: 0 <= i < n && Replied(attempts(i))
  }

  function StatusFromLoss(loss: real): Status {
    if loss == 0.0 then Success
    else if loss >= 1.0 then Failure
    else Partial
  }

  function LossRatio(sent: int, received: int): real
    requires sent != 0
  {
    1.0 - received as real / sent as real
  }

  /** The error that ended the loop, if one did. */
  function FatalError(attempts: nat -> Attempt, n: nat): Option<string> {
    if n > 0 then attempts(n - 1).err else None
  }

  function Counted(r: Report, sent: nat, received: nat): Report {
    r.(sent := r.sent + sent, received := r.received + received)
  }

  /** How counters, samples and fatal error turn into a status. */
  ghost predicate Judged(counted: Report, fatal: Option<string>, samples: seq<int>, r: Report, ok: bool) {
    if fatal.Some? && counted.received == 0 then
      !ok && r == counted.(status := Error, errorType := ProbeError, errorMsg := fatal.value)
    else if counted.sent == 0 then
      !ok && r == counted.(status := Error, errorType := Cancelled,
                           errorMsg := "no attempts made before context cancellation")
    else
      var loss := LossRatio(counted.sent, counted.received);
      && ok
      && r == counted.(loss := loss, status := StatusFromLoss(loss), rtt := r.rtt)
      && if counted.received > 0 then Reports(samples, r.rtt) else r.rtt == counted.rtt
  }

  // -------- The loop --------

  /** The attempts of RunLoop. */
  method Collect(result: ResultRef, count: int, attempt: AttemptFn, done: nat -> bool)
    returns (samples: seq<int>, lastErr: Option<string>, ghost waits: nat)
    requires attempt.calls == 0 && !attempt.openGot
    modifies result, attempt
    ensures Makes(count, attempt.attempts, done, attempt.calls)
    ensures waits == Waits(count, attempt.attempts, attempt.calls)
    ensures attempt.openGot == Among(attempt.opens, attempt.calls)
    ensures samples == Samples(attempt.attempts, attempt.calls)
    ensures lastErr == FatalError(attempt.attempts, attempt.calls)
    ensures result.v == Counted(old(result.v), attempt.calls, |samples|)
  {
    samples, lastErr, waits := [], None, 0;
    var i := 0;
    while i < count
      invariant i == attempt.calls <= AtLeastZero(count) && lastErr.None?
      invariant waits == if i == 0 then 0 else i - 1
      invariant forall k :: 0 < k < i ==> !done(k)
      invariant forall k :: 0 <= k < i ==> attempt.attempts(k).err.None?
      invariant samples == Samples(attempt.attempts, i)
      invariant attempt.openGot == Among(attempt.opens, i)
      invariant result.v == Counted(old(result.v), i, |samples|)
      decreases count - i
    {
      if i > 0 {
        waits := waits + 1;
        if done(i) {
          break;
        }
      }
      AmongStep(attempt.opens, i);
      var a := attempt.Next();
      result.v := result.v.(sent := result.v.sent + 1);
      if a.err.Some? {
        lastErr := a.err;
        break;
      }
      if a.received {
        result.v := result.v.(received := result.v.received + 1);
        samples := samples + [a.rtt];
      }
      i := i + 1;
    }
  }

  method RunLoop(result: ResultRef, count: int, attempt: AttemptFn, done: nat -> bool)
    returns (ok: bool, ghost waits: nat)
    requires attempt.calls == 0 && !attempt.openGot
    modifies result, attempt
    ensures Makes(count, attempt.attempts, done, attempt.calls)
    ensures waits == Waits(count, attempt.attempts, attempt.calls)
    ensures attempt.openGot == Among(attempt.opens, attempt.calls)
    ensures var samples := Samples(attempt.attempts, attempt.calls);
            Judged(Counted(old(result.v), attempt.calls, |samples|),
                   FatalError(attempt.attempts, attempt.calls), samples, result.v, ok)
  {
    var samples, lastErr;
    samples, lastErr, waits := Collect(result, count, attempt, done);
    if lastErr.Some? && result.v.received == 0 {
      result.v := result.v.(status := Error, errorType := ProbeError, errorMsg := lastErr.value);
      return false, waits;
    }
    if result.v.sent == 0 {
      result.v := result.v.(status := Error, errorType := Cancelled,
                            errorMsg := "no attempts made before context cancellation");
      return false, waits;
    }
    var loss := LossRatio(result.v.sent, result.v.received);
    result.v := result.v.(loss := loss, status := StatusFromLoss(loss));
    if result.v.received > 0 {
      var rtt := RTTStats(samples);
      result.v := result.v.(rtt := rtt);
    }
    return true, waits;
  }

  lemma AmongStep(p: nat -> bool, i: nat)
    ensures Among(p, i + 1) <==> Among(p, i) || p(i)
  {
    if Among(p, i + 1) && !Among(p, i) {
      var k :| 0 <= k < i + 1 && p(k);
      assert k == i;
    }
  }

  // -------- What a run says --------

  lemma {:induction false} SamplesCount(attempts: nat -> Attempt, n: nat)
    ensures |Samples(attempts, n)| <= n
    ensures |Samples(attempts, n)| == n <==> forall i :: 0 <= i < n ==> Replied(attempts(i))
    ensures |Samples(attempts, n)| > 0 <==> ReplyAmong(attempts, n)
  {
    if n > 0 {
      SamplesCount(attempts, n - 1);
      if Replied(attempts(n - 1)) {
        assert 0 <= n - 1 < n && Replied(attempts(n - 1));
      } else if i :| 0 <= i < n && Replied(attempts(i)) {
        assert 0 <= i < n - 1;
      }
    }
  }

  lemma LossStatus(sent: int, received: int)
    requires 0 <= received <= sent && sent > 0
    ensures StatusFromLoss(LossRatio(sent, received)) ==
            if received == sent then Success else if received == 0 then Failure else Partial
  {
    var q := received as real / sent as real;
    assert q * sent as real == received as real;
    if 0 < received < sent {
      assert q > 0.0;
      assert q < 1.0;
    }
  }

  predicate IsShare(loss: real, sent: int, received: int) { loss * sent as real == (sent - received) as real }

  /** The loss ratio is the share of attempts without a reply. */
  lemma LossIsShare(sent: int, received: int)
    requires sent > 0
    ensures IsShare(LossRatio(sent, received), sent, received)
  {
    var q := received as real / sent as real;
    assert q * sent as real == received as real;
  }

  /** The four statuses of a run from zeroed counters, by what the attempts brought. */
  ghost predicate StatusFits(count: int, fatal: bool, r: Report) {
    && (r.status.Success? <==> 0 < r.received == r.sent)
    && (r.status.Partial? <==> 0 < r.received < r.sent)
    && (r.status.Failure? <==> r.received == 0 < r.sent && !fatal)
    && (r.status.Error? <==> count <= 0 || (r.received == 0 && fatal))
  }

  /** RunLoop refines a simple specification: what was sent is the prefix of attempts made,
      what was received are its replies in order, and the status follows from the two
      counts.  "cancelled" is reported exactly for count <= 0: with a positive count the
      first attempt is made even in a context that is already done. */
  lemma {:induction false} StatusOfRun(
      blank: Report, count: int, attempts: nat -> Attempt, done: nat -> bool, n: nat, r: Report, ok: bool)
    requires blank.sent == 0 && blank.received == 0 && blank.errorType.NoError?
    requires Makes(count, attempts, done, n)
    requires var samples := Samples(attempts, n);
             Judged(Counted(blank, n, |samples|), FatalError(attempts, n), samples, r, ok)
    ensures r.sent == n && r.received == |Samples(attempts, n)|
    ensures StatusFits(count, FatalError(attempts, n).Some?, r)
    ensures ok <==> !r.status.Error?
    ensures r.errorType.Cancelled? <==> count <= 0
    ensures r.errorType.ProbeError? <==> r.status.Error? && count > 0
    ensures if r.received > 0 then Reports(Samples(attempts, n), r.rtt) else r.rtt == blank.rtt
    ensures ok ==> IsShare(r.loss, r.sent, r.received)
    ensures ok ==> r.errorMsg == blank.errorMsg
    ensures r.errorType.ProbeError? ==> n > 0 && attempts(n - 1).err == Some(r.errorMsg)
    ensures r.target == blank.target && r.fqdn == blank.fqdn && r.portOpen == blank.portOpen
  {
    SamplesCount(attempts, n);
    if ok {
      LossStatus(r.sent, r.received);
      LossIsShare(r.sent, r.received);
    }
    if FatalError(attempts, n).Some? { assert !Replied(attempts(n - 1)); }
  }

  // -------- Port probes --------

  /** What a TCP or UDP attempt function returns: an error, or a state and a round-trip time. */
  datatype Outcome = Fault(msg: string) | Seen(state: PortState, rtt: int)

  predicate IsOpen(o: Outcome) { o.Seen? && o.state.Open? }

  predicate Answers(o: Outcome) { o.Seen? && !o.state.Unreachable? }

  /** What the closure of probeOne makes of it. */
  function AttemptOf(o: Outcome): (a: Attempt)
    ensures Replied(a) <==> Answers(o)
    ensures a.err.Some? <==> o.Fault?
    ensures Answers(o) ==> a.rtt == o.rtt
    ensures o.Fault? ==> a.err == Some(o.msg)
  {
    if o.Fault? then Attempt(0, false, Some(o.msg))
    else if o.state.Unreachable? then Attempt(0, false, None)
    else Attempt(o.rtt, true, None)
  }

  function AttemptsOf(outcomes: nat -> Outcome): nat -> Attempt { (i: nat) => AttemptOf(outcomes(i)) }

  function OpensOf(outcomes: nat -> Outcome): nat -> bool { (i: nat) => IsOpen(outcomes(i)) }

  ghost predicate OpenAmong(outcomes: nat -> Outcome, n: nat) { exists i :: 0 <= i < n && IsOpen(outcomes(i)) }

  ghost predicate AnswerAmong(outcomes: nat -> Outcome, n: nat) { exists i :: 0 <= i < n && Answers(outcomes(i)) }

  lemma {:induction false} AmongOutcomes(outcomes: nat -> Outcome, n: nat)
    ensures Among(OpensOf(outcomes), n) <==> OpenAmong(outcomes, n)
    ensures ReplyAmong(AttemptsOf(outcomes), n) <==> AnswerAmong(outcomes, n)
    ensures OpenAmong(outcomes, n) ==> AnswerAmong(outcomes, n)
  {
    if i :| 0 <= i < n && OpensOf(outcomes)(i) { assert IsOpen(outcomes(i)); }
    if i :| 0 <= i < n && IsOpen(outcomes(i)) { assert OpensOf(outcomes)(i) && Answers(outcomes(i)); }
    if i :| 0 <= i < n && Replied(AttemptsOf(outcomes)(i)) { assert Answers(outcomes(i)); }
    if i :| 0 <= i < n && Answers(outcomes(i)) { assert Replied(AttemptsOf(outcomes)(i)); }
  }

  /** The round-trip times of the outcomes among the first `n` that are answers, in order. */
  function ReplyTimes(outcomes: nat -> Outcome, n: nat): seq<int> {
    if n == 0 then []
    else ReplyTimes(outcomes, n - 1) + if Answers(outcomes(n - 1)) then [outcomes(n - 1).rtt] else []
  }

  lemma {:induction false} SamplesAreReplyTimes(outcomes: nat -> Outcome, n: nat)
    ensures Samples(AttemptsOf(outcomes), n) == ReplyTimes(outcomes, n)
  {
    if n > 0 { SamplesAreReplyTimes(outcomes, n - 1); }
  }

  /** The loop stops after `n` outcomes: none but the last is a fault, the context was not
      done before any but the first, and there is a reason not to go on. */
  ghost predicate StopsAfter(count: int, outcomes: nat -> Outcome, done: nat -> bool, n: nat) {
    && n <= AtLeastZero(count)
    && (forall i :: 0 < i < n ==> !done(i))
    && (forall i :: 0 <= i < n - 1 ==> !outcomes(i).Fault?)
    && (n == AtLeastZero(count) || (n > 0 && (outcomes(n - 1).Fault? || done(n))))
  }

  lemma {:induction false} MakesIsStopsAfter(count: int, outcomes: nat -> Outcome, done: nat -> bool, n: nat)
    ensures Makes(count, AttemptsOf(outcomes), done, n) <==> StopsAfter(count, outcomes, done, n)
  {
    var attempts := AttemptsOf(outcomes);
    assert forall i: nat :: attempts(i).err.None? <==> !outcomes(i).Fault?;
  }

  /** The last of `n` outcomes is a fault. */
  predicate Faulted(outcomes: nat -> Outcome, n: nat) { n > 0 && outcomes(n - 1).Fault? }

  datatype WorkItem = WorkItem(ip: string, fqdn: string) {
    /** The mark ExpandTargets leaves on a name it could not resolve. */
    predicate Unresolved() { fqdn != "" && ip == fqdn }
  }

  function Blank(wi: WorkItem): Report {
    Report(wi.ip, wi.fqdn, 0, 0, 0.0, Summary(0.0, 0.0, 0.0, 0.0), None, Unset, NoError, "")
  }

  function NewResult(wi: WorkItem): (r: (Report, bool)) {
    if wi.Unresolved() then (Blank(wi).(status := Error, errorType := ResolveError, errorMsg := wi.fqdn), false)
    else (Blank(wi), true)
  }

  /** (up, port_open) as ADR-0006 tabulates them: port_open is unset exactly on an error;
      otherwise it is (1,1) iff some attempt found the port open, (1,0) iff some was
      answered but none found it open, (0,0) iff none was answered, and never (0,1). */
  ghost predicate PortTriState(outcomes: nat -> Outcome, n: nat, r: Report) {
    && (r.portOpen.None? <==> r.status.Error?)
    && (r.status.IsUp() && r.portOpen == Some(true) <==> OpenAmong(outcomes, n))
    && (r.status.IsUp() && r.portOpen == Some(false) <==> AnswerAmong(outcomes, n) && !OpenAmong(outcomes, n))
    && (!r.status.IsUp() && r.portOpen == Some(false) <==> !AnswerAmong(outcomes, n) && !r.status.Error?)
    && !(!r.status.IsUp() && r.portOpen == Some(true))
  }

  /** The report of one work item, by its outcomes alone. */
  ghost predicate PortReport(wi: WorkItem, count: int, outcomes: nat -> Outcome, done: nat -> bool, r: Report) {
    && r.target == wi.ip && r.fqdn == wi.fqdn
    && if wi.Unresolved() then
         && r.status.Error? && r.errorType.ResolveError? && r.errorMsg == wi.fqdn
         && r.sent == 0 && r.received == 0 && r.portOpen.None?
       else
         && r.sent >= 0 && StopsAfter(count, outcomes, done, r.sent)
         && r.received == |ReplyTimes(outcomes, r.sent)|
         && StatusFits(count, Faulted(outcomes, r.sent), r)
         && PortTriState(outcomes, r.sent, r)
         && (if r.received > 0 then Reports(ReplyTimes(outcomes, r.sent), r.rtt)
             else r.rtt == Summary(0.0, 0.0, 0.0, 0.0))
         && if r.status.Error? then
              if count <= 0 then r.errorType.Cancelled?
              else r.errorType.ProbeError? && Faulted(outcomes, r.sent) && r.errorMsg == outcomes(r.sent - 1).msg
            else
              r.errorType.NoError? && r.errorMsg == "" && IsShare(r.loss, r.sent, r.received)
  }

  lemma {:induction false} TriStateHolds(count: int, outcomes: nat -> Outcome, n: nat, r: Report)
    requires r.sent == n && r.received == |Samples(AttemptsOf(outcomes), n)|
    requires StatusFits(count, FatalError(AttemptsOf(outcomes), n).Some?, r) && n <= AtLeastZero(count)
    requires r.portOpen == if r.status.Error? then None else Some(OpenAmong(outcomes, n))
    ensures PortTriState(outcomes, n, r)
  {
    SamplesCount(AttemptsOf(outcomes), n);
    AmongOutcomes(outcomes, n);
  }

  /** What RunLoop leaves, with the port state set on a live run, is the report. */
  lemma {:induction false} RunGivesReport(
      wi: WorkItem, count: int, outcomes: nat -> Outcome, done: nat -> bool, n: nat, v: Report, ok: bool, r: Report)
    requires !wi.Unresolved() && Makes(count, AttemptsOf(outcomes), done, n)
    requires var samples := Samples(AttemptsOf(outcomes), n);
             Judged(Counted(Blank(wi), n, |samples|), FatalError(AttemptsOf(outcomes), n), samples, v, ok)
    requires r == if ok then v.(portOpen := Some(Among(OpensOf(outcomes), n))) else v
    ensures PortReport(wi, count, outcomes, done, r)
  {
    StatusOfRun(Blank(wi), count, AttemptsOf(outcomes), done, n, v, ok);
    AmongOutcomes(outcomes, n);
    TriStateHolds(count, outcomes, n, r);
    SamplesAreReplyTimes(outcomes, n);
    MakesIsStopsAfter(count, outcomes, done, n);
  }

  /** probeOne of the TCP and UDP probers, which differ in their attempts only. */
  method ProbeOne(wi: WorkItem, count: int, outcomes: nat -> Outcome, done: nat -> bool) returns (r: Report)
    ensures PortReport(wi, count, outcomes, done, r)
  {
    var base := NewResult(wi);
    if !base.1 {
      return base.0;
    }
    var result := new ResultRef(base.0);
    var attempt := new AttemptFn(AttemptsOf(outcomes), OpensOf(outcomes));
    var live, _ := RunLoop(result, count, attempt, done);
    ghost var v := result.v;
    if live {
      result.v := result.v.(portOpen := Some(attempt.openGot));
    }
    r := result.v;
    RunGivesReport(wi, count, outcomes, done, attempt.calls, v, live, r);
  }

  // -------- A UDP attempt --------

  /** What the connected socket did: the write failed (refused or not), was short, or the
      read failed (refused or not) or brought a reply. */
  datatype UdpIO =
    | NoSocket(msg: string)
    | WriteFailed(refused: bool)
    | ShortWrite
    | ReadFailed(refused: bool)
    | Reply(bytes: Bytes)

  function UdpAttempt(io: UdpIO, expected: Bytes, rtt: int): Outcome {
    match io
    case NoSocket(msg) => Fault(msg)
    case WriteFailed(refused) => if refused then Seen(Closed, rtt) else Seen(Unreachable, 0)
    case ShortWrite => Seen(Unreachable, 0)
    case ReadFailed(refused) => if refused then Seen(Closed, rtt) else Seen(Unreachable, 0)
    case Reply(bytes) =>
      if |expected| == 0 || expected <= bytes then Seen(Open, rtt) else Seen(Unreachable, 0)
  }

  ghost predicate Answered(io: UdpIO, expected: Bytes) { io.Reply? && expected <= io.bytes }

  ghost predicate Refused(io: UdpIO) { (io.WriteFailed? || io.ReadFailed?) && io.refused }

  function UdpOutcomes(ios: nat -> UdpIO, expected: Bytes, rtts: nat -> int): nat -> Outcome {
    (i: nat) => UdpAttempt(ios(i), expected, rtts(i))
  }

  /** The times of the attempts among the first `n` that were answered or refused, in order. */
  ghost function UdpTimes(ios: nat -> UdpIO, expected: Bytes, rtts: nat -> int, n: nat): seq<int> {
    if n == 0 then []
    else
      UdpTimes(ios, expected, rtts, n - 1)
      + if Answered(ios(n - 1), expected) || Refused(ios(n - 1)) then [rtts(n - 1)] else []
  }

  lemma {:induction false} UdpReplyTimes(ios: nat -> UdpIO, expected: Bytes, rtts: nat -> int, n: nat)
    ensures ReplyTimes(UdpOutcomes(ios, expected, rtts), n) == UdpTimes(ios, expected, rtts, n)
  {
    if n > 0 {
      UdpReplyTimes(ios, expected, rtts, n - 1);
      UdpAttemptMeaning(ios(n - 1), expected, rtts(n - 1));
    }
  }

  lemma {:induction false} UdpAttemptMeaning(io: UdpIO, expected: Bytes, rtt: int)
    ensures var o := UdpAttempt(io, expected, rtt);
            && (IsOpen(o) <==> Answered(io, expected))
            && (Answers(o) <==> Answered(io, expected) || Refused(io))
            && (Answers(o) ==> o.rtt == rtt)
            && (o.Fault? <==> io.NoSocket?) && (o.Fault? ==> o.msg == io.msg)
  {
  }

  /** A UDP probe reports the port open iff one of its attempts brought a reply that starts
      with the expected bytes, the host up iff one did or was refused, the times of just
      these, and an error iff it could not make a first attempt or, with none answered or
      refused, its last one had no socket. */
  lemma {:induction false} UdpTriState(
      wi: WorkItem, count: int, ios: nat -> UdpIO, expected: Bytes, rtts: nat -> int, done: nat -> bool, r: Report)
    requires !wi.Unresolved() && PortReport(wi, count, UdpOutcomes(ios, expected, rtts), done, r)
    ensures r.portOpen == Some(true) <==> exists i :: 0 <= i < r.sent && Answered(ios(i), expected)
    ensures r.status.IsUp() <==>
              exists i :: 0 <= i < r.sent && (Answered(ios(i), expected) || Refused(ios(i)))
    ensures r.received == |UdpTimes(ios, expected, rtts, r.sent)|
    ensures r.received > 0 ==> Reports(UdpTimes(ios, expected, rtts, r.sent), r.rtt)
    ensures r.status.Error? <==> count <= 0 || (r.received == 0 && ios(r.sent - 1).NoSocket?)
    ensures r.status.Error? && count > 0 ==> r.errorMsg == ios(r.sent - 1).msg
  {
    var outcomes := UdpOutcomes(ios, expected, rtts);
    UdpReplyTimes(ios, expected, rtts, r.sent);
    forall i: nat
      ensures IsOpen(outcomes(i)) <==> Answered(ios(i), expected)
      ensures Answers(outcomes(i)) <==> Answered(ios(i), expected) || Refused(ios(i))
      ensures outcomes(i).Fault? <==> ios(i).NoSocket?
      ensures outcomes(i).Fault? ==> outcomes(i).msg == ios(i).msg
    {
      UdpAttemptMeaning(ios(i), expected, rtts(i));
    }
    if i :| 0 <= i < r.sent && (Answered(ios(i), expected) || Refused(ios(i))) {
      assert Answers(outcomes(i));
    }
    if i :| 0 <= i < r.sent && Answered(ios(i), expected) {
      assert IsOpen(outcomes(i));
    }
    if i :| 0 <= i < r.sent && Answers(outcomes(i)) {
      assert Answered(ios(i), expected) || Refused(ios(i));
    }
    if i :| 0 <= i < r.sent && IsOpen(outcomes(i)) {
      assert Answered(ios(i), expected);
    }
  }
}
