/**
  The progress stream of a create. The goroutine sends into a channel of 64
  events; a progress event that finds it full is dropped, the final event waits
  for room. One reader takes events out until the channel is closed and empty.
 */
module Progress {

  const CAPACITY: nat := 64

  datatype Event = Step(percent: int) | Failed | Done

  function PercentOf(e: Event): int {
    match e
    case Step(percent) => percent
    case Done => 100
    case Failed => 0
  }

  predicate Terminal(e: Event) {
    e.Failed? || e.Done?
  }

  // ---- what a create emits ----------------------------------------------

  /** How far a create gets. In the order of vault.Create. */
  datatype Fate = ChecksFail | AllocationFails | FormatFails | OpenFails | MkfsFails | MountFails | Succeeds

  /** Allocation by fallocate, or by dd with the file sizes its monitor sees. */
  datatype Allocation = ByFallocate | ByDd(sizes: seq<nat>)

  /** createFile's share of the progress: at most 60. */
  function DdPercent(size: nat, total: nat): nat
    requires total > 0
  {
    var pct := size * 60 / total;
    if pct > 60 then 60 else pct
  }

  function AllocationSteps(a: Allocation, total: nat, fails: bool): seq<Event>
    requires total > 0
  {
    match a
    case ByFallocate => if fails then [] else [Step(60)]
    case ByDd(sizes) => seq(|sizes|, i requires 0 <= i < |sizes| => Step(DdPercent(sizes[i], total)))
  }

  const LATER: seq<Event> := [Step(62), Step(75), Step(85), Step(95)]

  /** How many of the later steps are announced. */
  function Announced(f: Fate): nat {
    match f
    case ChecksFail => 0
    case AllocationFails => 0
    case FormatFails => 1
    case OpenFails => 2
    case MkfsFails => 3
    case MountFails => 4
    case Succeeds => 4
  }

  function Final(f: Fate): Event {
    if f.Succeeds? then Done else Failed
  }

  /** The events of one create in order; the last is the only final one. */
  function Emitted(a: Allocation, total: nat, f: Fate): seq<Event>
    requires total > 0
  {
    if f.ChecksFail? then [Final(f)]
    else [Step(0)] + AllocationSteps(a, total, f.AllocationFails?) + LATER[..Announced(f)] + [Final(f)]
  }

  lemma Quotient(n: nat, total: nat)
    requires total > 0
    ensures n / total * total <= n < n / total * total + total
  {
  }

  lemma FewerTimes(a: nat, b: nat, total: nat)
    requires a < b
    ensures a * total + total <= b * total
  {
    assert (a + 1) * total <= b * total;
  }

  /** The share of dd: the file's share of 60, rounded down, and never more than 60. */
  lemma DdPercentIsShare(size: nat, total: nat)
    requires total > 0
    ensures
      var pct := DdPercent(size, total);
      && (total <= size ==> pct == 60)
      && (size < total ==> pct < 60 && pct * total <= size * 60 < pct * total + total)
  {
    var pct := size * 60 / total;
    Quotient(size * 60, total);
    if total <= size && pct < 60 {
      FewerTimes(pct, 60, total);
    } else if size < total && pct >= 60 {
      FewerTimes(59, pct, total);
    }
  }

  /** What a create announces, event by event; `steps` is the share of the allocation. */
  lemma AnnouncedInOrder(a: Allocation, total: nat)
    requires total > 0
    ensures
      var steps := if a.ByFallocate? then [Step(60)] else AllocationSteps(a, total, false);
      && Emitted(a, total, ChecksFail) == [Failed]
      && Emitted(a, total, FormatFails) == [Step(0)] + steps + [Step(62), Failed]
      && Emitted(a, total, OpenFails) == [Step(0)] + steps + [Step(62), Step(75), Failed]
      && Emitted(a, total, MkfsFails) == [Step(0)] + steps + [Step(62), Step(75), Step(85), Failed]
      && Emitted(a, total, MountFails) == [Step(0)] + steps + [Step(62), Step(75), Step(85), Step(95), Failed]
      && Emitted(a, total, Succeeds) == [Step(0)] + steps + [Step(62), Step(75), Step(85), Step(95), Done]
    ensures
      var steps := if a.ByFallocate? then [] else AllocationSteps(a, total, true);
      Emitted(a, total, AllocationFails) == [Step(0)] + steps + [Failed]
  {
    assert LATER[..4] == LATER;
  }

  predicate NeverShrinks(sizes: seq<nat>) {
    forall i, j :: 0 <= i < j < |sizes| ==> sizes[i] <= sizes[j]
  }

  /** Percents of all events but failures, in 0..100 and never going back. */
  ghost predicate Rising(events: seq<Event>) {
    && (forall i :: 0 <= i < |events| && !events[i].Failed? ==> 0 <= PercentOf(events[i]) <= 100)
    && (forall i, j :: 0 <= i < j < |events| && !events[i].Failed? && !events[j].Failed?
          ==> PercentOf(events[i]) <= PercentOf(events[j]))
  }

  ghost predicate Between(events: seq<Event>, low: int, high: int) {
    Rising(events) && forall i :: 0 <= i < |events| && !events[i].Failed? ==> low <= PercentOf(events[i]) <= high
  }

  ghost predicate NoneFinal(events: seq<Event>) {
    forall i :: 0 <= i < |events| ==> !Terminal(events[i])
  }

  ghost predicate FinalOnlyLast(events: seq<Event>) {
    events != [] && forall i :: 0 <= i < |events| ==> (Terminal(events[i]) <==> i == |events| - 1)
  }

  lemma LargerFileLargerPercent(size: nat, size': nat, total: nat)
    requires total > 0 && size <= size'
    ensures 0 <= DdPercent(size, total) <= DdPercent(size', total) <= 60
  {
    var n, n' := size * 60, size' * 60;
    assert n / total <= n' / total by {
      assert (n / total) * total <= n <= n' < (n' / total + 1) * total;
    }
  }

  lemma AllocationRises(a: Allocation, total: nat, fails: bool)
    requires total > 0 && (a.ByDd? ==> NeverShrinks(a.sizes))
    ensures
      var steps := AllocationSteps(a, total, fails);
      Between(steps, 0, 60) && NoneFinal(steps)
  {
    if a.ByDd? {
      forall i, j | 0 <= i <= j < |a.sizes|
        ensures 0 <= DdPercent(a.sizes[i], total) <= DdPercent(a.sizes[j], total) <= 60
      {
        LargerFileLargerPercent(a.sizes[i], a.sizes[j], total);
      }
    }
  }

  lemma JoinRising(s: seq<Event>, t: seq<Event>, low: int, mid: int, high: int)
    requires Between(s, low, mid) && Between(t, mid, high) && low <= mid <= high
    ensures Between(s + t, low, high)
    ensures NoneFinal(s) && NoneFinal(t) ==> NoneFinal(s + t)
    ensures NoneFinal(s) && |t| == 1 && Terminal(t[0]) ==> FinalOnlyLast(s + t)
  {
  }

  lemma OneEvent(e: Event)
    ensures e.Failed? ==> Between([e], 95, 100)
    ensures e.Done? ==> Between([e], 95, 100)
    ensures e == Step(0) ==> Between([e], 0, 0) && NoneFinal([e])
    ensures Terminal(e) ==> FinalOnlyLast([e])
  {
  }

  lemma PipelineRises(steps: seq<Event>, later: seq<Event>, final: Event)
    requires Between(steps, 0, 60) && NoneFinal(steps) && Between(later, 60, 95) && NoneFinal(later) && Terminal(final)
    ensures Rising([Step(0)] + steps + later + [final]) && FinalOnlyLast([Step(0)] + steps + later + [final])
  {
    OneEvent(Step(0));
    OneEvent(final);
    JoinRising([Step(0)], steps, 0, 0, 60);
    JoinRising([Step(0)] + steps, later, 0, 60, 95);
    JoinRising([Step(0)] + steps + later, [final], 0, 95, 100);
  }

  /** Whatever happens to a create: its percents rise, and exactly its last event is final. */
  lemma EmittedRises(a: Allocation, total: nat, f: Fate)
    requires total > 0 && (a.ByDd? ==> NeverShrinks(a.sizes))
    ensures Rising(Emitted(a, total, f)) && FinalOnlyLast(Emitted(a, total, f))
  {
    if f.ChecksFail? {
      OneEvent(Final(f));
    } else {
      AllocationRises(a, total, f.AllocationFails?);
      LaterRises(Announced(f));
      PipelineRises(AllocationSteps(a, total, f.AllocationFails?), LATER[..Announced(f)], Final(f));
    }
  }

  lemma LaterRises(n: nat)
    requires n <= |LATER|
    ensures Between(LATER[..n], 60, 95) && NoneFinal(LATER[..n])
  {
  }

  // ---- the channel ------------------------------------------------------

  class Channel {
    var buffer: seq<Event>
    var closed: bool

    constructor ()
      ensures buffer == [] && !closed
    {
      buffer, closed := [], false;
    }

    /** send: nothing in the channel is lost or moved; the event joins at the end exactly if there was room. */
    method TrySend(e: Event)
      requires !closed && |buffer| <= CAPACITY
      modifies this
      ensures old(buffer) <= buffer && |buffer| <= CAPACITY && closed == old(closed)
      ensures |buffer| == |old(buffer)| + 1 && buffer[|buffer| - 1] == e <==> |old(buffer)| < CAPACITY
      ensures |old(buffer)| == CAPACITY ==> buffer == old(buffer)
      ensures buffer == old(buffer) + [e] <==> |old(buffer)| < 64
      ensures buffer == Offered(old(buffer), e)
    {
      if |buffer| < CAPACITY {
        buffer := buffer + [e];
      }
    }

    /** The reader's loop body; false once the channel is closed and empty. */
    method Receive() returns (e: Event, more: bool)
      requires buffer != [] || closed
      modifies this
      ensures more <==> old(buffer) != []
      ensures more ==> e == old(buffer)[0] && buffer == old(buffer)[1..]
      ensures !more ==> buffer == old(buffer)
      ensures closed == old(closed)
    {
      if buffer == [] {
        return Failed, false;
      }
      e, more := buffer[0], true;
      buffer := buffer[1..];
    }
  }

  function Offered(buffer: seq<Event>, e: Event): seq<Event> {
    if |buffer| < CAPACITY then buffer + [e] else buffer
  }

  // ---- sender and reader together ---------------------------------------

  /** What is still to be emitted, what lies in the channel, what the reader has seen. */
  datatype Stream = Stream(left: seq<Event>, buffer: seq<Event>, delivered: seq<Event>, gaveUp: bool)

  /** GiveUp: the final send leaves by its timeout or by shutdown. */
  datatype Action = Produce | Consume | GiveUp

  function Then(s: Stream, a: Action): Stream {
    match a
    case Produce =>
      if s.left == [] || (Terminal(s.left[0]) && |s.buffer| >= CAPACITY) then s
      else s.(left := s.left[1..], buffer := Offered(s.buffer, s.left[0]))
    case Consume =>
      if s.buffer == [] then s else s.(buffer := s.buffer[1..], delivered := s.delivered + [s.buffer[0]])
    case GiveUp =>
      if s.left != [] && Terminal(s.left[0]) then s.(left := s.left[1..], gaveUp := true) else s
  }

  function After(s: Stream, actions: seq<Action>): Stream
    decreases |actions|
  {
    if actions == [] then s else After(Then(s, actions[0]), actions[1..])
  }

  predicate Subsequence(s: seq<Event>, t: seq<Event>)
    decreases |t|
  {
    if s == [] then true
    else if t == [] then false
    else
      var n, m := |s| - 1, |t| - 1;
      (s[n] == t[m] && Subsequence(s[..n], t[..m])) || Subsequence(s, t[..m])
  }

  lemma SubsequenceGrows(s: seq<Event>, t: seq<Event>, e: Event)
    requires Subsequence(s, t)
    ensures Subsequence(s, t + [e]) && Subsequence(s + [e], t + [e])
  {
    assert (t + [e])[..|t|] == t && (s + [e])[..|s|] == s;
  }

  lemma {:induction false} SubsequenceMembers(s: seq<Event>, t: seq<Event>, i: nat)
    requires Subsequence(s, t) && i < |s|
    ensures s[i] in t
    decreases |t|
  {
    var n, m := |s| - 1, |t| - 1;
    if s[n] == t[m] && Subsequence(s[..n], t[..m]) {
      if i < n { SubsequenceMembers(s[..n], t[..m], i); }
    } else {
      SubsequenceMembers(s, t[..m], i);
    }
  }

  lemma {:induction false} SubsequenceRises(s: seq<Event>, t: seq<Event>)
    requires Subsequence(s, t) && Rising(t)
    ensures Rising(s)
    decreases |t|
  {
    if s != [] {
      var n, m := |s| - 1, |t| - 1;
      if s[n] == t[m] && Subsequence(s[..n], t[..m]) {
        SubsequenceRises(s[..n], t[..m]);
        forall i | 0 <= i < n && !s[i].Failed? && !s[n].Failed? ensures PercentOf(s[i]) <= PercentOf(s[n]) {
          SubsequenceMembers(s[..n], t[..m], i);
          var k :| 0 <= k < m && t[..m][k] == s[i];
          assert t[k] == s[i];
        }
      } else {
        SubsequenceRises(s, t[..m]);
      }
    }
  }

  function Seen(s: Stream): seq<Event> {
    s.delivered + s.buffer
  }

  ghost predicate EndsIn(events: seq<Event>, final: Event) {
    FinalOnlyLast(events) && events[|events| - 1] == final
  }

  /** The final event is still to come, or the last thing seen, or was given up. */
  ghost predicate FinalPending(s: Stream, final: Event) {
    if s.left != [] then EndsIn(s.left, final) && NoneFinal(Seen(s)) && !s.gaveUp
    else if s.gaveUp then NoneFinal(Seen(s))
    else EndsIn(Seen(s), final)
  }

  ghost predicate InOrder(s: Stream, all: seq<Event>) {
    && |s.left| <= |all| && s.left == all[|all| - |s.left|..]
    && Subsequence(Seen(s), all[..|all| - |s.left|])
  }

  ghost predicate Flowing(s: Stream, all: seq<Event>, final: Event) {
    InOrder(s, all) && FinalPending(s, final)
  }

  lemma ConsumeSeesSame(s: Stream)
    ensures Seen(Then(s, Consume)) == Seen(s) && Then(s, Consume).left == s.left
  {
    if s.buffer != [] {
      assert s.buffer == [s.buffer[0]] + s.buffer[1..];
    }
  }

  lemma ActionKeepsOrder(s: Stream, all: seq<Event>, a: Action)
    requires InOrder(s, all)
    ensures InOrder(Then(s, a), all)
  {
    ConsumeSeesSame(s);
    var s', done := Then(s, a), |all| - |s.left|;
    if !a.Consume? && s' != s {
      assert all[done] == s.left[0];
      assert all[..done + 1] == all[..done] + [s.left[0]];
      SubsequenceGrows(Seen(s), all[..done], s.left[0]);
      assert s'.buffer != s.buffer ==> Seen(s') == Seen(s) + [s.left[0]];
    }
  }

  lemma FinalTail(events: seq<Event>, final: Event)
    requires EndsIn(events, final)
    ensures Terminal(events[0]) <==> |events| == 1
    ensures |events| > 1 ==> EndsIn(events[1..], final)
  {
  }

  lemma ActionKeepsFinal(s: Stream, final: Event, a: Action)
    requires FinalPending(s, final)
    ensures FinalPending(Then(s, a), final)
  {
    ConsumeSeesSame(s);
    var s' := Then(s, a);
    if !a.Consume? && s' != s {
      FinalTail(s.left, final);
      assert s'.buffer != s.buffer ==> Seen(s') == Seen(s) + [s.left[0]];
    }
  }

  lemma {:induction false} RunsKeepFlow(s: Stream, all: seq<Event>, final: Event, actions: seq<Action>)
    requires Flowing(s, all, final)
    ensures Flowing(After(s, actions), all, final)
    decreases |actions|
  {
    if actions != [] {
      ActionKeepsOrder(s, all, actions[0]);
      ActionKeepsFinal(s, final, actions[0]);
      RunsKeepFlow(Then(s, actions[0]), all, final, actions[1..]);
    }
  }

  /**
    For any create and any interleaving of sender and reader: the reader sees
    the events in order with some left out, and percents that only rise. Once
    the channel is closed and drained, the final event was the last one seen
    and the only final one, unless its send gave up.
   */
  lemma StreamIsFaithful(a: Allocation, total: nat, f: Fate, actions: seq<Action>)
    requires total > 0 && (a.ByDd? ==> NeverShrinks(a.sizes))
    ensures
      var all := Emitted(a, total, f);
      var s := After(Stream(all, [], [], false), actions);
      && Subsequence(Seen(s), all) && Rising(s.delivered)
      && (s.left == [] && s.buffer == [] && !s.gaveUp ==> EndsIn(s.delivered, Final(f)))
  {
    EmittedRises(a, total, f);
    FlowIsFaithful(Emitted(a, total, f), Final(f), actions);
  }

  lemma FlowIsFaithful(all: seq<Event>, final: Event, actions: seq<Action>)
    requires Rising(all) && EndsIn(all, final)
    ensures
      var s := After(Stream(all, [], [], false), actions);
      && Subsequence(Seen(s), all) && Rising(s.delivered)
      && (s.left == [] && s.buffer == [] && !s.gaveUp ==> EndsIn(s.delivered, final))
  {
    var s0 := Stream(all, [], [], false);
    assert all[|all| - |s0.left|..] == all;
    RunsKeepFlow(s0, all, final, actions);
    var s := After(s0, actions);
    SubsequenceExtends(Seen(s), all, |all| - |s.left|);
    SubsequenceRises(Seen(s), all);
    DeliveredRises(s);
    assert s.buffer == [] ==> Seen(s) == s.delivered;
  }

  lemma DeliveredRises(s: Stream)
    requires Rising(Seen(s))
    ensures Rising(s.delivered)
  {
    assert forall i :: 0 <= i < |s.delivered| ==> Seen(s)[i] == s.delivered[i];
  }

  lemma {:induction false} SubsequenceExtends(s: seq<Event>, t: seq<Event>, n: nat)
    requires n <= |t| && Subsequence(s, t[..n])
    ensures Subsequence(s, t)
    decreases |t| - n
  {
    if n == |t| {
      assert t[..n] == t;
    } else {
      assert t[..n + 1] == t[..n] + [t[n]];
      SubsequenceGrows(s, t[..n], t[n]);
      SubsequenceExtends(s, t, n + 1);
    }
  }

  /** Everything announced so far is still to be emitted, in the channel or delivered. */
  predicate Complete(s: Stream, all: seq<Event>) {
    Seen(s) + s.left == all && |s.buffer| + |s.left| <= 64 && !s.gaveUp
  }

  lemma ActionLosesNothing(s: Stream, all: seq<Event>, a: Action)
    requires Complete(s, all) && !a.GiveUp?
    ensures Complete(Then(s, a), all)
  {
    ConsumeSeesSame(s);
    if a.Produce? && s.left != [] {
      var e := s.left[0];
      assert s.left == [e] + s.left[1..];
      assert Then(s, a).buffer == s.buffer + [e];
      assert Seen(s) + s.left == s.delivered + (s.buffer + [e]) + s.left[1..];
    }
  }

  /** What fits into the channel is never lost, however slow the reader, unless the final send is given up. */
  lemma {:induction false} ShortStreamsAreComplete(s: Stream, all: seq<Event>, actions: seq<Action>)
    requires Complete(s, all) && forall i :: 0 <= i < |actions| ==> !actions[i].GiveUp?
    ensures Complete(After(s, actions), all)
    decreases |actions|
  {
    if actions != [] {
      ActionLosesNothing(s, all, actions[0]);
      ShortStreamsAreComplete(Then(s, actions[0]), all, actions[1..]);
    }
  }

  function Repeat(a: Action, n: nat): seq<Action> {
    if n == 0 then [] else [a] + Repeat(a, n - 1)
  }

  /** A reader that goes on reading gets all that lies in the channel. */
  lemma {:induction false} ReadingDrains(s: Stream)
    ensures After(s, Repeat(Consume, |s.buffer|)) == Stream(s.left, [], s.delivered + s.buffer, s.gaveUp)
    decreases |s.buffer|
  {
    if s.buffer != [] {
      var actions := Repeat(Consume, |s.buffer|);
      assert actions[0] == Consume && actions[1..] == Repeat(Consume, |s.buffer| - 1);
      var next := Stream(s.left, s.buffer[1..], s.delivered + [s.buffer[0]], s.gaveUp);
      assert Then(s, Consume) == next;
      ReadingDrains(next);
      assert s.delivered + [s.buffer[0]] + s.buffer[1..] == s.delivered + s.buffer;
    } else {
      assert s.delivered + s.buffer == s.delivered;
    }
  }

  /** A sender that goes on sending into a channel with room puts everything in. */
  lemma {:induction false} SendingFills(s: Stream)
    requires |s.buffer| + |s.left| <= 64
    ensures After(s, Repeat(Produce, |s.left|)) == Stream([], s.buffer + s.left, s.delivered, s.gaveUp)
    decreases |s.left|
  {
    if s.left != [] {
      var actions := Repeat(Produce, |s.left|);
      assert actions[0] == Produce && actions[1..] == Repeat(Produce, |s.left| - 1);
      var next := Stream(s.left[1..], s.buffer + [s.left[0]], s.delivered, s.gaveUp);
      assert Then(s, Produce) == next;
      SendingFills(next);
      assert s.buffer + [s.left[0]] + s.left[1..] == s.buffer + s.left;
    } else {
      assert s.buffer + s.left == s.buffer;
    }
  }
}
