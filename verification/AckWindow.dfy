/**
 * The acknowledgement window (sections 5.4.3 and 5.4.4 of the RTMP 1.0 specification): the receiver reports its
 * byte count each time a window has passed, the sender refuses to run too far ahead of the last report.
 * Both work on 32-bit counters that wrap.
 */
module AckWindow {
  import opened Bytes

  /** The receiver's window, the 32-bit mark it measures from, and the counts it has reported. */
  datatype Receiver = Receiver(window: U32, mark: U32, acks: seq<U32>)

  /** The check made after every chunk; `count` is the true number of bytes received. */
  function Check(r: Receiver, count: nat): Receiver {
    var c := count % LIMIT32;
    if r.window != 0 && Sub32(c, r.mark) > r.window then
      r.(mark := Add32(r.mark, r.window), acks := r.acks + [c])
    else r
  }

  function Checks(r: Receiver, counts: seq<nat>): Receiver
    decreases |counts|
  {
    if counts == [] then r else Checks(Check(r, counts[0]), counts[1..])
  }

  lemma ChecksFirst(r: Receiver, counts: seq<nat>)
    ensures Checks(r, counts) == if counts == [] then r else Checks(Check(r, counts[0]), counts[1..])
  {
  }

  lemma {:induction false} ReportsGrow(r: Receiver, counts: seq<nat>)
    ensures r.acks <= Checks(r, counts).acks
    decreases |counts|
  {
    if counts != [] {
      ReportsGrow(Check(r, counts[0]), counts[1..]);
    }
  }

  /** The sender's check before every chunk. */
  predicate Admits(enabled: bool, window: U32, ackValue: U32, count: nat) {
    !(enabled && window != 0 && Sub32(count % LIMIT32, ackValue) > window * 3 % LIMIT32 / 2)
  }

  // ---------------------------------------------------------------- the receiver on unbounded counters

  /** The same receiver on counters that never wrap. */
  datatype Ideal = Ideal(window: nat, mark: nat, acks: seq<nat>)

  function IdealCheck(i: Ideal, count: nat): Ideal {
    if count > i.mark + i.window then i.(mark := i.mark + i.window, acks := i.acks + [count]) else i
  }

  function IdealChecks(i: Ideal, counts: seq<nat>): Ideal
    decreases |counts|
  {
    if counts == [] then i else IdealChecks(IdealCheck(i, counts[0]), counts[1..])
  }

  function Wrapped(acks: seq<nat>): seq<U32> {
    seq(|acks|, k requires 0 <= k < |acks| => acks[k] % LIMIT32)
  }

  /** The wrapping receiver shows what the unbounded one holds. */
  ghost predicate Shows(r: Receiver, i: Ideal) {
    r.window == i.window && r.mark == i.mark % LIMIT32 && r.acks == Wrapped(i.acks)
  }

  /** At most one window lies behind the mark, and less than one behind the latest report. */
  predicate Tight(i: Ideal, count: nat) {
    && i.mark <= count <= i.mark + i.window
    && (i.acks != [] ==> i.acks[|i.acks| - 1] <= count < i.acks[|i.acks| - 1] + i.window)
    && (i.acks != [] ==> i.mark < i.acks[|i.acks| - 1])
  }

  /** Counts never go back, and grow by at most one window from one check to the next. */
  predicate Gradual(window: nat, from: nat, counts: seq<nat>)
    decreases |counts|
  {
    counts == [] || (from <= counts[0] <= from + window && Gradual(window, counts[0], counts[1..]))
  }

  function Final(from: nat, counts: seq<nat>): nat {
    if counts == [] then from else counts[|counts| - 1]
  }

  lemma WrapIsInvisible(i: Ideal, count: nat)
    requires 2 * i.window < LIMIT32 && i.mark <= count <= i.mark + 2 * i.window
    ensures Sub32(count % LIMIT32, i.mark % LIMIT32) == count - i.mark
  {
    SubWraps(count, i.mark);
  }

  lemma SubWraps(a: nat, b: nat)
    requires b <= a < b + LIMIT32
    ensures Sub32(a % LIMIT32, b % LIMIT32) == a - b
  {
    var qa, qb := a / LIMIT32, b / LIMIT32;
    assert a == qa * LIMIT32 + a % LIMIT32 && b == qb * LIMIT32 + b % LIMIT32;
  }

  lemma AddWraps(a: nat, b: U32)
    ensures Add32(a % LIMIT32, b) == (a + b) % LIMIT32
  {
    var q := a / LIMIT32;
    assert a == q * LIMIT32 + a % LIMIT32;
    var s := a % LIMIT32 + b;
    assert s == (s / LIMIT32) * LIMIT32 + s % LIMIT32;
  }

  lemma CheckRefines(r: Receiver, i: Ideal, from: nat, count: nat)
    requires Shows(r, i) && Tight(i, from) && 0 < i.window && 2 * i.window < LIMIT32
    requires from <= count <= from + i.window
    ensures Shows(Check(r, count), IdealCheck(i, count)) && Tight(IdealCheck(i, count), count)
  {
    WrapIsInvisible(i, count);
    AddWraps(i.mark, i.window);
    assert Wrapped(i.acks + [count]) == Wrapped(i.acks) + [count % LIMIT32];
  }

  /**
   * For every run of checks with a constant window below half the counter range: the wrapping receiver makes
   * exactly the reports of the unbounded one, the mark stays at most one window behind, and less than one window
   * has passed since the latest report.
   */
  lemma {:induction false} ReceiverRefines(r: Receiver, i: Ideal, from: nat, counts: seq<nat>)
    requires Shows(r, i) && Tight(i, from) && 0 < i.window && 2 * i.window < LIMIT32
    requires Gradual(i.window, from, counts)
    ensures Shows(Checks(r, counts), IdealChecks(i, counts))
    ensures Tight(IdealChecks(i, counts), Final(from, counts))
    decreases |counts|
  {
    if counts != [] {
      hide Shows, Tight, Check, IdealCheck;
      CheckRefines(r, i, from, counts[0]);
      ReceiverRefines(Check(r, counts[0]), IdealCheck(i, counts[0]), counts[0], counts[1..]);
      assert Final(counts[0], counts[1..]) == Final(from, counts);
      assert IdealCheck(i, counts[0]).window == i.window by { SameWindow(i, counts[0]); }
    }
  }

  lemma SameWindow(i: Ideal, count: nat)
    ensures IdealCheck(i, count).window == i.window
  {
  }

  // ---------------------------------------------------------------- sender and receiver together

  /**
   * One message crossing the connection: the counts the sender saw at its checks, those the receiver saw at its
   * own, and the count at the end of the message. Both sides may buffer, so each sees any count in between.
   */
  datatype Crossing = Crossing(sent: seq<nat>, received: seq<nat>, end: nat)

  predicate Sorted(from: nat, counts: seq<nat>, to: nat)
    decreases |counts|
  {
    if counts == [] then from <= to else from <= counts[0] && Sorted(counts[0], counts[1..], to)
  }

  lemma SortedFrom(from: nat, first: nat, counts: seq<nat>, to: nat)
    requires from <= first && Sorted(first, counts, to) && Final(first, counts) == to
    ensures Sorted(from, [first] + counts, to) && Final(from, [first] + counts) == to
  {
    assert ([first] + counts)[1..] == counts;
  }

  /** The message takes at most half a window and is read to its end. */
  predicate Fair(window: nat, start: nat, c: Crossing) {
    && start <= c.end <= start + window / 2
    && (forall k :: 0 <= k < |c.sent| ==> start <= c.sent[k] <= c.end)
    && Sorted(start, c.received, c.end)
    && Final(start, c.received) == c.end
  }

  predicate AllFair(window: nat, start: nat, cs: seq<Crossing>)
    decreases |cs|
  {
    cs == [] || (Fair(window, start, cs[0]) && AllFair(window, cs[0].end, cs[1..]))
  }

  /** The last report that reached the sender; zero before the first. */
  function AckValue(r: Receiver): U32 {
    if r.acks == [] then 0 else r.acks[|r.acks| - 1]
  }

  /** No check of the sender fails, message after message. */
  predicate NeverBlocked(r: Receiver, cs: seq<Crossing>)
    decreases |cs|
  {
    cs == [] ||
    (&& (forall k :: 0 <= k < |cs[0].sent| ==> Admits(true, r.window, AckValue(r), cs[0].sent[k]))
     && NeverBlocked(Checks(r, cs[0].received), cs[1..]))
  }

  lemma {:induction false} SortedIsGradual(window: nat, from: nat, counts: seq<nat>, to: nat)
    requires Sorted(from, counts, to) && to <= from + window
    ensures Gradual(window, from, counts)
    decreases |counts|
  {
    if counts != [] {
      SortedBelow(counts[0], counts[1..], to);
      SortedIsGradual(window, counts[0], counts[1..], to);
    }
  }

  lemma {:induction false} SortedBelow(from: nat, counts: seq<nat>, to: nat)
    requires Sorted(from, counts, to)
    ensures from <= to
    decreases |counts|
  {
    if counts != [] {
      SortedBelow(counts[0], counts[1..], to);
    }
  }

  /** A sender at most one window past the latest report is not stopped within the next half window. */
  lemma AdmitsHalfWindow(i: Ideal, start: nat, ack: nat, count: nat)
    requires 0 < i.window && 3 * i.window < LIMIT32
    requires ack <= start <= ack + i.window && start <= count <= start + i.window / 2
    ensures Admits(true, i.window, ack % LIMIT32, count)
  {
    SubWraps(count, ack);
  }

  lemma {:induction false} WindowsStay(i: Ideal, counts: seq<nat>)
    ensures IdealChecks(i, counts).window == i.window
    decreases |counts|
  {
    if counts != [] {
      WindowsStay(IdealCheck(i, counts[0]), counts[1..]);
    }
  }

  /**
   * The joint protocol, over whole runs: if every message takes at most half a window and is read, and its
   * reports delivered, before the next is written, a checking sender is never stopped.
   */
  lemma {:induction false} SenderNeverBlocked(r: Receiver, i: Ideal, start: nat, cs: seq<Crossing>)
    requires 0 < i.window && 3 * i.window < LIMIT32
    requires Shows(r, i) && Tight(i, start) && (i.acks == [] ==> i.mark == 0)
    requires AllFair(i.window, start, cs)
    ensures NeverBlocked(r, cs)
    decreases |cs|
  {
    if cs != [] {
      hide Checks, IdealChecks;
      var c := cs[0];
      var ack := if i.acks == [] then 0 else i.acks[|i.acks| - 1];
      assert AckValue(r) == ack % LIMIT32;
      forall k | 0 <= k < |c.sent|
        ensures Admits(true, r.window, AckValue(r), c.sent[k])
      {
        AdmitsHalfWindow(i, start, ack, c.sent[k]);
      }
      SortedIsGradual(i.window, start, c.received, c.end);
      ReceiverRefines(r, i, start, c.received);
      WindowsStay(i, c.received);
      var i' := IdealChecks(i, c.received);
      NoReportMeansClose(i, c.received);
      SenderNeverBlocked(Checks(r, c.received), i', c.end, cs[1..]);
    }
  }

  /** As long as nothing has been reported the mark has not moved. */
  lemma {:induction false} NoReportMeansClose(i: Ideal, counts: seq<nat>)
    ensures IdealChecks(i, counts).acks == [] ==> i.acks == [] && IdealChecks(i, counts).mark == i.mark
    decreases |counts|
  {
    if counts != [] {
      NoReportMeansClose(IdealCheck(i, counts[0]), counts[1..]);
    }
  }

  /** From the start of a connection whose first bytes fit one window. */
  lemma FreshConnection(window: U32, start: nat, cs: seq<Crossing>)
    requires 0 < window && 3 * window < LIMIT32 && start <= window && AllFair(window, start, cs)
    ensures NeverBlocked(Receiver(window, 0, []), cs)
  {
    SenderNeverBlocked(Receiver(window, 0, []), Ideal(window, 0, []), start, cs);
  }
}
