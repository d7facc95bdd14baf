/** Merging decoded audio with the queue of timed events, whatever the chunks the audio comes in. */
module WaveMerge {
  import opened Numbers
  import opened Sorting

  /** A synthesis event and its place on the audio time line, in ticks of 100 nanoseconds. */
  datatype Timed = Timed(tick: nat, metadata: string)

  datatype Entry = Audio(sample: bv8) | Event(info: Timed)

  /** The two fields of the wave format that count; a block is never empty. */
  datatype WaveFormat = WaveFormat(avgBytesPerSec: nat, blockAlign: nat)

  type Format = f: WaveFormat | f.blockAlign > 0 witness WaveFormat(0, 1)

  const UINT64 := 0x1_0000_0000_0000_0000

  /** The byte position of a tick, in 64-bit unsigned arithmetic, down to the start of its block. */
  function EventBytes(fmt: Format, tick: nat): nat {
    AlignDown(tick * fmt.avgBytesPerSec % UINT64 / 10_000_000, fmt.blockAlign)
  }

  function AlignDown(bytes: nat, block: nat): (r: nat)
    requires block > 0
    ensures r <= bytes < r + block
  {
    bytes - bytes % block
  }

  lemma Aligned(bytes: nat, block: nat)
    requires block > 0
    ensures AlignDown(bytes, block) == bytes / block * block
  {
  }

  /**
   Where a tick lies: the start of the block that the moment falls in. `tick` counts 100 nanoseconds, so the bytes up to
   it are tick * avgBytesPerSec / 10^7.
   */
  lemma PositionOfTick(fmt: Format, tick: nat)
    requires tick * fmt.avgBytesPerSec < 0x1_0000_0000_0000_0000
    ensures var r := EventBytes(fmt, tick);
      && r % fmt.blockAlign == 0
      && r * 10_000_000 <= tick * fmt.avgBytesPerSec < (r + fmt.blockAlign) * 10_000_000
  {
    var product := tick * fmt.avgBytesPerSec;
    var bytes := product / 10_000_000;
    Unwrapped(product);
    Aligned(bytes, fmt.blockAlign);
    MultipleOf(bytes / fmt.blockAlign, fmt.blockAlign);
    hide AlignDown;
    assert bytes * 10_000_000 <= product < (bytes + 1) * 10_000_000;
  }

  /** Beyond 64 bits the product wraps around. */
  lemma PositionWraps(fmt: Format, tick: nat)
    ensures EventBytes(fmt, tick) * 10_000_000 < 0x1_0000_0000_0000_0000
  {
  }

  lemma MultipleOf(q: nat, block: nat)
    requires block > 0
    ensures q * block % block == 0
  {
    var x := q * block;
    var d, m := x / block, x % block;
    assert x == d * block + m && m < block;
    assert (d + 1) * block == d * block + block;
    assert d < q ==> x >= (d + 1) * block by { ScaleIf(d + 1, q, block); }
    assert d > q ==> x + block <= d * block by { ScaleIf(q + 1, d, block); assert (q + 1) * block == x + block; }
  }

  /** While no product overflows, later ticks never come at earlier bytes. */
  lemma EventBytesMonotone(fmt: Format, t: nat, u: nat)
    requires t <= u && u * fmt.avgBytesPerSec < UINT64
    ensures EventBytes(fmt, t) <= EventBytes(fmt, u)
  {
    var x, y := t * fmt.avgBytesPerSec, u * fmt.avgBytesPerSec;
    Scale(t, u, fmt.avgBytesPerSec);
    Unwrapped(x);
    Unwrapped(y);
    hide AlignDown;
    AlignMonotone(x / 10_000_000, y / 10_000_000, fmt.blockAlign);
  }

  lemma Unwrapped(x: nat)
    requires x < UINT64
    ensures x % UINT64 == x
  {
  }

  lemma Scale(a: nat, b: nat, k: nat)
    requires a <= b
    ensures a * k <= b * k
  {
  }

  lemma ScaleIf(a: nat, b: nat, k: nat)
    ensures a <= b ==> a * k <= b * k
  {
  }

  lemma AlignMonotone(a: nat, b: nat, block: nat)
    requires block > 0 && a <= b
    ensures AlignDown(a, block) <= AlignDown(b, block)
  {
    Aligned(a, block);
    Aligned(b, block);
    if a / block > b / block {
      Scale(b / block + 1, a / block, block);
    }
    Scale(a / block, b / block, block);
  }

  // ---- The event queue: least tick first ----

  /** The key of the queue's order. */
  function Tick(e: Timed): int {
    e.tick
  }

  predicate SortedEvents(q: seq<Timed>) {
    SortedBy(Tick, q)
  }

  // ---- The plain form: sample by sample ----

  /** Before every sample come the events whose position has been reached; those at or past the end stay queued. */
  function Interleave(fmt: Format, at: nat, data: seq<bv8>, events: seq<Timed>): seq<Entry>
    decreases |data| + |events|
  {
    if events != [] && EventBytes(fmt, events[0].tick) < at + (if data == [] then 0 else 1) then
      [Event(events[0])] + Interleave(fmt, at, data, events[1..])
    else if data == [] then []
    else [Audio(data[0])] + Interleave(fmt, at + 1, data[1..], events)
  }

  /** The events still queued afterwards. */
  function Queued(fmt: Format, end: nat, events: seq<Timed>): seq<Timed>
    decreases |events|
  {
    if events != [] && EventBytes(fmt, events[0].tick) < end then Queued(fmt, end, events[1..]) else events
  }

  function Samples(trace: seq<Entry>): seq<bv8> {
    if trace == [] then []
    else Samples(trace[..|trace| - 1]) + if trace[|trace| - 1].Audio? then [trace[|trace| - 1].sample] else []
  }

  function Events(trace: seq<Entry>): seq<Timed> {
    if trace == [] then []
    else Events(trace[..|trace| - 1]) + if trace[|trace| - 1].Event? then [trace[|trace| - 1].info] else []
  }

  function AudioOf(data: seq<bv8>): (r: seq<Entry>)
    ensures |r| == |data| && forall i :: 0 <= i < |r| ==> r[i] == Audio(data[i])
  {
    seq(|data|, i requires 0 <= i < |data| => Audio(data[i]))
  }

  lemma {:induction false} ProjectConcat(a: seq<Entry>, b: seq<Entry>)
    ensures Samples(a + b) == Samples(a) + Samples(b)
    ensures Events(a + b) == Events(a) + Events(b)
  {
    if b == [] {
      assert a + b == a;
    } else {
      ProjectConcat(a, b[..|b| - 1]);
      assert (a + b)[..|a + b| - 1] == a + b[..|b| - 1];
    }
  }

  lemma ProjectOne(e: Entry)
    ensures Samples([e]) == if e.Audio? then [e.sample] else []
    ensures Events([e]) == if e.Event? then [e.info] else []
  {
    assert [e][..0] == [];
    assert Samples([]) == [] && Events([]) == [];
  }

  lemma {:induction false} ProjectAudio(data: seq<bv8>)
    ensures Samples(AudioOf(data)) == data && Events(AudioOf(data)) == []
  {
    if data != [] {
      ProjectAudio(data[..|data| - 1]);
      assert AudioOf(data)[..|data| - 1] == AudioOf(data[..|data| - 1]);
    }
  }

  // ---- One call, turn by turn ----

  /**
   A call in progress. `arrivals` are the batches of events other threads queue, one each time the lock is free;
   `replies` are the byte counts the audio sink accepts, in full once they run out.
   */
  datatype Job = Job(
    written: nat, data: seq<bv8>, events: seq<Timed>, trace: seq<Entry>, waited: bool,
    arrivals: seq<seq<Timed>>, replies: seq<nat>)

  function Arrive(j: Job): Job {
    if j.arrivals == [] then j else j.(events := InsertAll(Tick, j.events, j.arrivals[0]), arrivals := j.arrivals[1..])
  }

  /** How many of `n` bytes the sink takes. */
  function Accepted(j: Job, n: nat): (r: nat)
    ensures r <= n
  {
    if j.replies == [] then n else Min(j.replies[0], n)
  }

  function Replied(j: Job): seq<nat> {
    if j.replies == [] then [] else j.replies[1..]
  }

  function Write(j: Job, n: nat): Job
    requires n <= |j.data|
  {
    var k := Accepted(j, n);
    j.(written := j.written + k, data := j.data[k..], trace := j.trace + AudioOf(j.data[..k]), replies := Replied(j))
  }

  /** No queued event lies within the audio at hand. */
  predicate NothingDue(fmt: Format, j: Job) {
    j.events == [] || j.written + |j.data| <= EventBytes(fmt, j.events[0].tick)
  }

  /** The bytes before the first queued event. */
  function Split(fmt: Format, j: Job): (n: nat)
    requires !NothingDue(fmt, j)
    ensures j.data != [] ==> n < |j.data|
    ensures n <= |j.data|
  {
    var at := EventBytes(fmt, j.events[0].tick);
    if at >= j.written then at - j.written else 0
  }

  function Dispatch(fmt: Format, j: Job): Job
    requires !NothingDue(fmt, j)
  {
    var popped := j.(events := j.events[1..]);
    var n := Split(fmt, j);
    var w := if n != 0 then Write(popped, n) else popped;
    w.(trace := w.trace + [Event(j.events[0])])
  }

  function Total(arrivals: seq<seq<Timed>>): nat {
    if arrivals == [] then 0 else |arrivals[0]| + Total(arrivals[1..])
  }

  lemma ArriveTotal(j: Job)
    ensures |Arrive(j).events| + Total(Arrive(j).arrivals) == |j.events| + Total(j.arrivals)
    ensures Arrive(j) == j.(events := Arrive(j).events, arrivals := Arrive(j).arrivals)
  {
    if j.arrivals != [] {
      InsertAllKeeps(Tick, j.events, j.arrivals[0]);
    }
  }

  /** Turns until nothing is due; `waits` tells whether a call with nothing due waits once for late events. */
  function Loop(fmt: Format, waits: bool, j: Job): Job
    decreases |j.events| + Total(j.arrivals), if j.waited then 0 else 1
  {
    ArriveTotal(j);
    var a := Arrive(j);
    if !NothingDue(fmt, a) then Loop(fmt, waits, Dispatch(fmt, a))
    else if waits && !a.waited then Loop(fmt, waits, a.(waited := true))
    else a
  }

  /** What is left is written and counted, whether the sink takes it or not. */
  function Rest(j: Job): Job {
    if j.data == [] then j
    else Write(j, |j.data|).(written := j.written + |j.data|, data := [])
  }

  function Merge(fmt: Format, waits: bool, j: Job): Job {
    Rest(Loop(fmt, waits, j.(waited := false)))
  }

  // ---- Audio accounting, for any replies and arrivals ----

  /** What every turn keeps: the bytes accounted for, the samples in order, every event in one place. */
  predicate Conserves(a: Job, b: Job) {
    && b.written + |b.data| == a.written + |a.data|
    && Samples(b.trace) + b.data == Samples(a.trace) + a.data
    && multiset(Events(b.trace)) + multiset(b.events) + Arriving(b.arrivals)
       == multiset(Events(a.trace)) + multiset(a.events) + Arriving(a.arrivals)
    && (SortedEvents(a.events) ==> SortedEvents(b.events))
    && (a.data != [] ==> b.data != [])
  }

  function Arriving(arrivals: seq<seq<Timed>>): multiset<Timed> {
    if arrivals == [] then multiset{} else multiset(arrivals[0]) + Arriving(arrivals[1..])
  }

  lemma ArriveConserves(j: Job)
    ensures Conserves(j, Arrive(j))
  {
    if j.arrivals != [] {
      InsertAllKeeps(Tick, j.events, j.arrivals[0]);
    }
  }

  lemma Split3(a: seq<bv8>, b: seq<bv8>, k: nat)
    requires k <= |b|
    ensures (a + b[..k]) + b[k..] == a + b
  {
  }

  lemma WriteConserves(j: Job, n: nat)
    requires n <= |j.data|
    ensures n < |j.data| ==> Conserves(j, Write(j, n))
    ensures Samples(Write(j, n).trace) + Write(j, n).data == Samples(j.trace) + j.data
    ensures Events(Write(j, n).trace) == Events(j.trace)
  {
    hide Samples, Events, AudioOf, SortedEvents, Arriving;
    var k := Accepted(j, n);
    ProjectConcat(j.trace, AudioOf(j.data[..k]));
    ProjectAudio(j.data[..k]);
    Split3(Samples(j.trace), j.data, k);
    assert Events(j.trace) + [] == Events(j.trace);
  }

  lemma DispatchConserves(fmt: Format, j: Job)
    requires !NothingDue(fmt, j)
    ensures Conserves(j, Dispatch(fmt, j))
  {
    hide Accepted, EventBytes, AudioOf, Samples, Events, Arriving;
    var popped, n := j.(events := j.events[1..]), Split(fmt, j);
    var w := if n != 0 then Write(popped, n) else popped;
    if n != 0 {
      WriteConserves(popped, n);
    }
    ProjectConcat(w.trace, [Event(j.events[0])]);
    ProjectOne(Event(j.events[0]));
    assert j.events == [j.events[0]] + j.events[1..];
    assert Samples(w.trace) + [] == Samples(w.trace);
  }

  lemma {:induction false} LoopConserves(fmt: Format, waits: bool, j: Job)
    ensures var r := Loop(fmt, waits, j); Conserves(j, r) && NothingDue(fmt, r)
    decreases |j.events| + Total(j.arrivals), if j.waited then 0 else 1
  {
    hide Conserves, NothingDue, Dispatch, Arrive;
    ArriveTotal(j);
    ArriveConserves(j);
    var a := Arrive(j);
    if !NothingDue(fmt, a) {
      DispatchTotal(fmt, a);
      DispatchConserves(fmt, a);
      LoopConserves(fmt, waits, Dispatch(fmt, a));
      ConservesChain(j, a, Dispatch(fmt, a));
      ConservesChain(j, Dispatch(fmt, a), Loop(fmt, waits, j));
    } else if waits && !a.waited {
      var b := a.(waited := true);
      LoopConserves(fmt, waits, b);
      ConservesWait(j, a);
      ConservesChain(j, b, Loop(fmt, waits, j));
    }
  }

  lemma DispatchTotal(fmt: Format, j: Job)
    requires !NothingDue(fmt, j)
    ensures |Dispatch(fmt, j).events| == |j.events| - 1 && Dispatch(fmt, j).arrivals == j.arrivals
    ensures Dispatch(fmt, j).waited == j.waited
  {
    hide EventBytes;
  }

  lemma ConservesChain(a: Job, b: Job, c: Job)
    requires Conserves(a, b) && Conserves(b, c)
    ensures Conserves(a, c)
  {
    hide SortedEvents, Samples, Events, Arriving;
  }

  lemma ConservesWait(a: Job, b: Job)
    requires Conserves(a, b)
    ensures Conserves(a, b.(waited := true))
  {
  }

  /**
   For any replies and any arrivals: the byte count rises by exactly the chunk size; the samples delivered are a
   prefix of the chunk in order, missing only what the last write could not take; every event is delivered or
   still queued, once; and no event left in the queue lies within the audio counted.
   */
  lemma MergeAccounts(fmt: Format, waits: bool, j: Job)
    ensures var r := Merge(fmt, waits, j);
      && r.written == j.written + |j.data| && r.data == []
      && Samples(j.trace) <= Samples(r.trace) <= Samples(j.trace) + j.data
      && (j.replies == [] ==> Samples(r.trace) == Samples(j.trace) + j.data)
      && multiset(Events(r.trace)) + multiset(r.events) + Arriving(r.arrivals)
         == multiset(Events(j.trace)) + multiset(j.events) + Arriving(j.arrivals)
      && (SortedEvents(j.events) ==> SortedEvents(r.events))
      && NothingDue(fmt, r)
  {
    var start := j.(waited := false);
    var l := Loop(fmt, waits, start);
    LoopConserves(fmt, waits, start);
    LoopGrows(fmt, waits, start);
    if l.data != [] {
      WriteConserves(l, |l.data|);
      ProjectConcat(l.trace, AudioOf(l.data[..Accepted(l, |l.data|)]));
    }
    hide Loop, Samples, Events, Arriving, EventBytes, AudioOf, SortedEvents;
  }

  lemma {:induction false} LoopGrows(fmt: Format, waits: bool, j: Job)
    ensures Samples(j.trace) <= Samples(Loop(fmt, waits, j).trace)
    ensures j.replies == [] ==> Loop(fmt, waits, j).replies == []
    decreases |j.events| + Total(j.arrivals), if j.waited then 0 else 1
  {
    hide NothingDue, Dispatch, Arrive, Samples;
    ArriveTotal(j);
    var a := Arrive(j);
    if !NothingDue(fmt, a) {
      DispatchTotal(fmt, a);
      DispatchGrows(fmt, a);
      LoopGrows(fmt, waits, Dispatch(fmt, a));
    } else if waits && !a.waited {
      LoopGrows(fmt, waits, a.(waited := true));
    }
  }

  lemma DispatchGrows(fmt: Format, j: Job)
    requires !NothingDue(fmt, j)
    ensures Samples(j.trace) <= Samples(Dispatch(fmt, j).trace)
    ensures j.replies == [] ==> Dispatch(fmt, j).replies == []
  {
    hide EventBytes, Samples, AudioOf;
    var popped, n := j.(events := j.events[1..]), Split(fmt, j);
    var w := if n != 0 then Write(popped, n) else popped;
    if n != 0 {
      ProjectConcat(j.trace, AudioOf(j.data[..Accepted(popped, n)]));
    }
    ProjectConcat(w.trace, [Event(j.events[0])]);
  }

  // ---- Turns ----

  /** How many turns at the lock a job has taken up. */
  function Taken(before: Job, after: Job): int {
    |before.arrivals| - |after.arrivals|
  }

  lemma {:induction false} LoopTurns(fmt: Format, waits: bool, j: Job)
    ensures var r := Loop(fmt, waits, j);
      var turns := |Events(r.trace)| - |Events(j.trace)| + 1 + (if waits && !j.waited then 1 else 0);
      && |Events(r.trace)| >= |Events(j.trace)|
      && Taken(j, r) == Min(|j.arrivals|, turns)
    decreases |j.events| + Total(j.arrivals), if j.waited then 0 else 1
  {
    hide NothingDue, Dispatch, Arrive, Events;
    ArriveTotal(j);
    ArriveTaken(j);
    var a := Arrive(j);
    if !NothingDue(fmt, a) {
      DispatchTotal(fmt, a);
      DispatchOne(fmt, a);
      LoopTurns(fmt, waits, Dispatch(fmt, a));
    } else if waits && !a.waited {
      LoopTurns(fmt, waits, a.(waited := true));
    }
  }

  lemma ArriveTaken(j: Job)
    ensures |Arrive(j).arrivals| == if j.arrivals == [] then 0 else |j.arrivals| - 1
  {
  }

  lemma DispatchOne(fmt: Format, j: Job)
    requires !NothingDue(fmt, j)
    ensures |Events(Dispatch(fmt, j).trace)| == |Events(j.trace)| + 1
  {
    hide EventBytes, AudioOf, Events;
    var popped, n := j.(events := j.events[1..]), Split(fmt, j);
    if n != 0 {
      WriteConserves(popped, n);
      ProjectConcat(Write(popped, n).trace, [Event(j.events[0])]);
    } else {
      ProjectConcat(popped.trace, [Event(j.events[0])]);
    }
    ProjectOne(Event(j.events[0]));
  }

  /**
   The lock is taken once for every event delivered and once to find nothing due; a call that waits for late events takes
   it just once more. So what other threads queue while it waits is still looked at before the rest of the audio goes.
   */
  lemma MergeTurns(fmt: Format, waits: bool, j: Job)
    ensures var r := Merge(fmt, waits, j);
      var delivered := |Events(r.trace)| - |Events(j.trace)|;
      delivered >= 0 && |j.arrivals| - |r.arrivals| == Min(|j.arrivals|, delivered + 1 + if waits then 1 else 0)
  {
    var start := j.(waited := false);
    LoopTurns(fmt, waits, start);
    var l := Loop(fmt, waits, start);
    if l.data != [] {
      WriteConserves(l, |l.data|);
    }
    hide Loop, Events;
  }

  /** The byte position of entry `i` of a trace that a call from `start` on has written. */
  function PositionAt(start: Job, trace: seq<Entry>, i: nat): int
    requires i <= |trace|
  {
    start.written + |Samples(trace[..i])| - |Samples(start.trace)|
  }

  /** An event comes out no earlier than its position, and exactly there when a sample of the same call comes right before it. */
  predicate OnTime(fmt: Format, start: Job, trace: seq<Entry>, i: nat)
    requires i < |trace|
  {
    trace[i].Event? ==>
      && PositionAt(start, trace, i) >= EventBytes(fmt, trace[i].info.tick)
      && (i > |start.trace| && trace[i - 1].Audio? ==> PositionAt(start, trace, i) == EventBytes(fmt, trace[i].info.tick))
  }

  predicate Timely(fmt: Format, start: Job, j: Job) {
    && start.trace <= j.trace && j.written == PositionAt(start, j.trace, |j.trace|)
    && (|j.trace| > |start.trace| ==> j.trace[|j.trace| - 1].Event?)
    && forall i :: |start.trace| <= i < |j.trace| ==> OnTime(fmt, start, j.trace, i)
  }

  /** What comes later does not matter. */
  lemma OnTimeBefore(fmt: Format, start: Job, a: seq<Entry>, b: seq<Entry>, i: nat)
    requires i < |a| && a <= b && OnTime(fmt, start, a, i)
    ensures OnTime(fmt, start, b, i)
  {
    hide EventBytes, Samples;
    assert a[..i] == b[..i];
  }

  lemma DispatchTimely(fmt: Format, start: Job, j: Job)
    requires j.replies == [] && !NothingDue(fmt, j) && Timely(fmt, start, j)
    ensures Timely(fmt, start, Dispatch(fmt, j)) && Dispatch(fmt, j).replies == []
  {
    var n, d, e := Split(fmt, j), Dispatch(fmt, j), j.events[0];
    DispatchTrace(fmt, j);
    hide Dispatch, OnTime, EventBytes, Samples, AudioOf;
    var spoken := j.trace + AudioOf(j.data[..n]);
    forall i | |start.trace| <= i < |d.trace| ensures OnTime(fmt, start, d.trace, i) {
      if i < |j.trace| {
        OnTimeBefore(fmt, start, j.trace, d.trace, i);
      } else if i < |spoken| {
        AudioOnTime(fmt, start, d.trace, i);
      } else {
        EventHere(fmt, start, j, n);
      }
    }
    PositionsEnd(start, j, n, e);
  }

  lemma AudioOnTime(fmt: Format, start: Job, trace: seq<Entry>, i: nat)
    requires i < |trace| && trace[i].Audio?
    ensures OnTime(fmt, start, trace, i)
  {
  }

  lemma DispatchTrace(fmt: Format, j: Job)
    requires j.replies == [] && !NothingDue(fmt, j)
    ensures var d, n := Dispatch(fmt, j), Split(fmt, j);
      && d.trace == (j.trace + AudioOf(j.data[..n])) + [Event(j.events[0])] && d.replies == []
      && d.written == j.written + n == Max(j.written, EventBytes(fmt, j.events[0].tick))
  {
    hide EventBytes;
    assert j.trace + AudioOf(j.data[..0]) == j.trace;
  }

  lemma PositionsEnd(start: Job, j: Job, n: nat, e: Timed)
    requires n <= |j.data| && j.written == PositionAt(start, j.trace, |j.trace|)
    ensures var spoken := j.trace + AudioOf(j.data[..n]);
      && PositionAt(start, spoken, |spoken|) == j.written + n
      && PositionAt(start, spoken + [Event(e)], |spoken|) == j.written + n
      && PositionAt(start, spoken + [Event(e)], |spoken| + 1) == j.written + n
  {
    hide *;
    var spoken := j.trace + AudioOf(j.data[..n]);
    ProjectConcat(j.trace, AudioOf(j.data[..n]));
    ProjectAudio(j.data[..n]);
    ProjectConcat(spoken, [Event(e)]);
    ProjectOne(Event(e));
    PositionIs(start, j.trace, [], |j.trace|);
    PositionIs(start, spoken, [], |spoken|);
    PositionIs(start, spoken, [Event(e)], |spoken|);
    PositionIs(start, spoken + [Event(e)], [], |spoken| + 1);
    Nothing(j.trace);
    Nothing(spoken);
    Nothing(spoken + [Event(e)]);
    Nothing(Samples(spoken));
  }

  lemma Nothing<T>(s: seq<T>)
    ensures s + [] == s
  {
  }

  lemma PositionIs(start: Job, trace: seq<Entry>, more: seq<Entry>, i: nat)
    requires i == |trace|
    ensures PositionAt(start, trace + more, i) == start.written + |Samples(trace)| - |Samples(start.trace)|
  {
    hide Samples;
    assert (trace + more)[..i] == trace;
  }

  lemma EventHere(fmt: Format, start: Job, j: Job, n: nat)
    requires !NothingDue(fmt, j) && n == Split(fmt, j) && j.written == PositionAt(start, j.trace, |j.trace|)
    requires |j.trace| > |start.trace| ==> j.trace[|j.trace| - 1].Event?
    requires |start.trace| <= |j.trace|
    ensures var spoken := j.trace + AudioOf(j.data[..n]);
      OnTime(fmt, start, spoken + [Event(j.events[0])], |spoken|)
  {
    PositionsEnd(start, j, n, j.events[0]);
    hide EventBytes, PositionAt;
  }

  lemma {:induction false} LoopTimely(fmt: Format, waits: bool, start: Job, j: Job)
    requires j.replies == [] && Timely(fmt, start, j)
    ensures Timely(fmt, start, Loop(fmt, waits, j))
    decreases |j.events| + Total(j.arrivals), if j.waited then 0 else 1
  {
    hide NothingDue, Dispatch, Arrive, Timely;
    ArriveTotal(j);
    var a := Arrive(j);
    TimelySame(fmt, start, j, a);
    if !NothingDue(fmt, a) {
      DispatchTotal(fmt, a);
      DispatchTimely(fmt, start, a);
      LoopTimely(fmt, waits, start, Dispatch(fmt, a));
    } else if waits && !a.waited {
      TimelySame(fmt, start, a, a.(waited := true));
      LoopTimely(fmt, waits, start, a.(waited := true));
    }
  }

  lemma TimelySame(fmt: Format, start: Job, a: Job, b: Job)
    requires Timely(fmt, start, a) && a.written == b.written && a.trace == b.trace
    ensures Timely(fmt, start, b)
  {
    hide OnTime, PositionAt;
  }

  /** Whatever arrives when, with full writes: every event a call delivers is on time. */
  lemma MergeTimely(fmt: Format, waits: bool, j: Job)
    requires j.replies == []
    ensures var r := Merge(fmt, waits, j);
      j.trace <= r.trace && forall i :: |j.trace| <= i < |r.trace| ==> OnTime(fmt, j, r.trace, i)
  {
    var start := j.(waited := false);
    TimelyStart(fmt, start);
    LoopTimely(fmt, waits, start, start);
    var l, r := Loop(fmt, waits, start), Merge(fmt, waits, j);
    RestOnlyAudio(l);
    hide Loop, Rest, OnTime;
    forall i | |j.trace| <= i < |r.trace| ensures OnTime(fmt, j, r.trace, i) {
      if i < |l.trace| {
        OnTimeBefore(fmt, start, l.trace, r.trace, i);
        OnTimeStart(fmt, start, j, r.trace, i);
      } else {
        AudioOnTime(fmt, j, r.trace, i);
      }
    }
  }

  lemma OnTimeStart(fmt: Format, start: Job, j: Job, trace: seq<Entry>, i: nat)
    requires i < |trace| && start.written == j.written && start.trace == j.trace && OnTime(fmt, start, trace, i)
    ensures OnTime(fmt, j, trace, i)
  {
    hide EventBytes;
  }

  lemma TimelyStart(fmt: Format, j: Job)
    ensures Timely(fmt, j, j)
  {
    hide OnTime, Samples;
    assert j.trace[..|j.trace|] == j.trace;
  }

  lemma RestOnlyAudio(j: Job)
    ensures j.trace <= Rest(j).trace
    ensures forall i :: |j.trace| <= i < |Rest(j).trace| ==> Rest(j).trace[i].Audio?
  {
  }

  // ---- Chunk independence ----

  /** The plain form writes audio undisturbed up to the first event. */
  lemma {:induction false} SkipAudio(fmt: Format, at: nat, data: seq<bv8>, events: seq<Timed>, n: nat)
    requires n <= |data|
    requires events == [] || at + n <= EventBytes(fmt, events[0].tick)
    ensures Interleave(fmt, at, data, events) == AudioOf(data[..n]) + Interleave(fmt, at + n, data[n..], events)
    decreases n
  {
    hide EventBytes;
    if n == 0 {
      assert data[0..] == data;
    } else {
      SkipAudio(fmt, at + 1, data[1..], events, n - 1);
      SkipOne(fmt, at, data, events);
      hide *;
      AudioFirst(data, n);
      assert data[1..][n - 1..] == data[n..];
      Join3([Audio(data[0])], AudioOf(data[1..][..n - 1]), Interleave(fmt, at + n, data[n..], events));
    }
  }

  lemma SkipOne(fmt: Format, at: nat, data: seq<bv8>, events: seq<Timed>)
    requires data != [] && (events == [] || at < EventBytes(fmt, events[0].tick))
    ensures Interleave(fmt, at, data, events) == [Audio(data[0])] + Interleave(fmt, at + 1, data[1..], events)
  {
    hide EventBytes;
  }

  lemma AudioFirst(data: seq<bv8>, n: nat)
    requires 0 < n <= |data|
    ensures AudioOf(data[..n]) == [Audio(data[0])] + AudioOf(data[1..][..n - 1])
  {
  }

  lemma Join3(a: seq<Entry>, b: seq<Entry>, c: seq<Entry>)
    ensures (a + b) + c == a + (b + c)
  {
  }

  /** Cutting the audio anywhere does not change the trace. */
  lemma {:induction false} InterleaveSplits(fmt: Format, at: nat, a: seq<bv8>, b: seq<bv8>, events: seq<Timed>)
    ensures Interleave(fmt, at, a + b, events)
         == Interleave(fmt, at, a, events) + Interleave(fmt, at + |a|, b, Queued(fmt, at + |a|, events))
    ensures Queued(fmt, at + |a| + |b|, events) == Queued(fmt, at + |a| + |b|, Queued(fmt, at + |a|, events))
    decreases |a| + |events|
  {
    hide EventBytes;
    if events != [] && EventBytes(fmt, events[0].tick) < at + (if a == [] then 0 else 1) {
      InterleaveSplits(fmt, at, a, b, events[1..]);
    } else if a == [] {
      assert a + b == b;
    } else {
      InterleaveSplits(fmt, at + 1, a[1..], b, events);
      assert (a + b)[1..] == a[1..] + b;
    }
  }

  /** With everything queued beforehand and every write accepted, a call yields the plain form's trace. */
  lemma {:induction false} LoopInterleaves(fmt: Format, waits: bool, j: Job)
    requires j.arrivals == [] && j.replies == []
    ensures var r := Rest(Loop(fmt, waits, j));
      && r.trace == j.trace + Interleave(fmt, j.written, j.data, j.events)
      && r.events == Queued(fmt, j.written + |j.data|, j.events)
      && r.written == j.written + |j.data| && r.arrivals == [] && r.replies == []
    decreases |j.events|, if j.waited then 0 else 1
  {
    hide EventBytes, Interleave, Queued, Rest;
    if !NothingDue(fmt, j) {
      DispatchTotal(fmt, j);
      LoopInterleaves(fmt, waits, Dispatch(fmt, j));
      DispatchInterleaves(fmt, j);
    } else if waits && !j.waited {
      LoopInterleaves(fmt, waits, j.(waited := true));
    } else {
      RestInterleaves(fmt, j);
    }
  }

  lemma RestInterleaves(fmt: Format, j: Job)
    requires j.arrivals == [] && j.replies == [] && NothingDue(fmt, j)
    ensures Rest(j).trace == j.trace + Interleave(fmt, j.written, j.data, j.events)
    ensures Rest(j).events == Queued(fmt, j.written + |j.data|, j.events)
    ensures Rest(j).written == j.written + |j.data| && Rest(j).arrivals == [] && Rest(j).replies == []
  {
    hide EventBytes;
    SkipAudio(fmt, j.written, j.data, j.events, |j.data|);
    assert j.data[..|j.data|] == j.data;
    assert Interleave(fmt, j.written + |j.data|, [], j.events) == [];
  }

  lemma DispatchInterleaves(fmt: Format, j: Job)
    requires j.arrivals == [] && j.replies == [] && !NothingDue(fmt, j)
    ensures var d := Dispatch(fmt, j);
      && d.trace + Interleave(fmt, d.written, d.data, d.events) == j.trace + Interleave(fmt, j.written, j.data, j.events)
      && Queued(fmt, d.written + |d.data|, d.events) == Queued(fmt, j.written + |j.data|, j.events)
      && d.written + |d.data| == j.written + |j.data| && d.arrivals == [] && d.replies == []
  {
    hide EventBytes, Interleave, Queued, AudioOf;
    var n, rest, first := Split(fmt, j), j.events[1..], [Event(j.events[0])];
    var later := Interleave(fmt, j.written + n, j.data[n..], rest);
    DueFirst(fmt, j.written + n, j.data[n..], j.events);
    if n > 0 {
      SkipAudio(fmt, j.written, j.data, j.events, n);
      Join3(j.trace, AudioOf(j.data[..n]), first + later);
      Join3(j.trace + AudioOf(j.data[..n]), first, later);
    } else {
      assert j.data[0..] == j.data;
      Join3(j.trace, first, later);
    }
  }

  /** An event that is due comes first. */
  lemma DueFirst(fmt: Format, at: nat, data: seq<bv8>, events: seq<Timed>)
    requires events != [] && EventBytes(fmt, events[0].tick) < at + (if data == [] then 0 else 1)
    ensures Interleave(fmt, at, data, events) == [Event(events[0])] + Interleave(fmt, at, data, events[1..])
    ensures Queued(fmt, at + |data|, events) == Queued(fmt, at + |data|, events[1..])
  {
    hide EventBytes;
  }

  function Flat(chunks: seq<seq<bv8>>): seq<bv8> {
    if chunks == [] then [] else Flat(chunks[..|chunks| - 1]) + chunks[|chunks| - 1]
  }

  /** One call after another, one chunk each. */
  function AfterChunks(fmt: Format, waits: bool, j: Job, chunks: seq<seq<bv8>>): Job {
    if chunks == [] then j
    else Merge(fmt, waits, AfterChunks(fmt, waits, j, chunks[..|chunks| - 1]).(data := chunks[|chunks| - 1]))
  }

  lemma MergeInterleaves(fmt: Format, waits: bool, j: Job)
    requires j.arrivals == [] && j.replies == []
    ensures var r := Merge(fmt, waits, j);
      && r.trace == j.trace + Interleave(fmt, j.written, j.data, j.events)
      && r.events == Queued(fmt, j.written + |j.data|, j.events)
      && r.written == j.written + |j.data| && r.arrivals == [] && r.replies == []
  {
    LoopInterleaves(fmt, waits, j.(waited := false));
  }

  /** The chunks do not matter: trace, queue and byte count depend on the whole audio only, waiting or not. */
  lemma {:induction false} ChunkIndependent(fmt: Format, waits: bool, j: Job, chunks: seq<seq<bv8>>)
    requires j.arrivals == [] && j.replies == [] && chunks != []
    ensures var r := AfterChunks(fmt, waits, j, chunks);
      && r.trace == j.trace + Interleave(fmt, j.written, Flat(chunks), j.events)
      && r.events == Queued(fmt, j.written + |Flat(chunks)|, j.events)
      && r.written == j.written + |Flat(chunks)| && r.arrivals == [] && r.replies == []
  {
    hide EventBytes, Interleave, Queued, Merge;
    var early, last := chunks[..|chunks| - 1], chunks[|chunks| - 1];
    if early == [] {
      assert Flat(chunks) == Flat([]) + last == last;
      MergeInterleaves(fmt, waits, j.(data := last));
    } else {
      ChunkIndependent(fmt, waits, j, early);
      MergeInterleaves(fmt, waits, AfterChunks(fmt, waits, j, early).(data := last));
      InterleaveSplits(fmt, j.written, Flat(early), last, j.events);
    }
  }

  // ---- Where events come out ----

  /** Queued positions do not decrease, as when ticks are sorted and no product overflows. */
  predicate InOrder(fmt: Format, events: seq<Timed>) {
    forall i, j :: 0 <= i <= j < |events| ==> EventBytes(fmt, events[i].tick) <= EventBytes(fmt, events[j].tick)
  }

  lemma SortedInOrder(fmt: Format, events: seq<Timed>)
    requires SortedEvents(events) && forall e :: e in events ==> e.tick * fmt.avgBytesPerSec < UINT64
    ensures InOrder(fmt, events)
  {
    hide EventBytes;
    forall i, j | 0 <= i <= j < |events| ensures EventBytes(fmt, events[i].tick) <= EventBytes(fmt, events[j].tick) {
      assert events[j] in events;
      EventBytesMonotone(fmt, events[i].tick, events[j].tick);
    }
  }

  /** Every event comes out at its block-aligned byte position, or at once when that is already past. */
  lemma {:induction false} EventPlace(fmt: Format, at: nat, data: seq<bv8>, events: seq<Timed>, i: nat)
    requires InOrder(fmt, events)
    requires i < |Interleave(fmt, at, data, events)| && Interleave(fmt, at, data, events)[i].Event?
    ensures var trace := Interleave(fmt, at, data, events);
      at + |Samples(trace[..i])| == Max(at, EventBytes(fmt, trace[i].info.tick))
    decreases |data| + |events|
  {
    hide EventBytes, Samples;
    var trace := Interleave(fmt, at, data, events);
    if events != [] && EventBytes(fmt, events[0].tick) < at + (if data == [] then 0 else 1) {
      if i == 0 {
        NoSamples(trace);
      } else {
        EventPlace(fmt, at, data, events[1..], i - 1);
        SamplesShift(trace, i);
        EventFrom(fmt, at, data, events[1..], i - 1);
      }
    } else {
      EventPlace(fmt, at + 1, data[1..], events, i - 1);
      SamplesShift(trace, i);
      EventFrom(fmt, at + 1, data[1..], events, i - 1);
    }
  }

  /**
   In time: an event that follows a sample, and the event before it or the beginning, comes out in the block its tick
   falls in; one that does not was due when it was reached.
   */
  lemma EventOnTime(fmt: Format, at: nat, data: seq<bv8>, events: seq<Timed>, i: nat)
    requires InOrder(fmt, events)
    requires i < |Interleave(fmt, at, data, events)| && Interleave(fmt, at, data, events)[i].Event?
    requires Interleave(fmt, at, data, events)[i].info.tick * fmt.avgBytesPerSec < 0x1_0000_0000_0000_0000
    ensures var trace := Interleave(fmt, at, data, events);
      var pos, moment := at + |Samples(trace[..i])|, trace[i].info.tick * fmt.avgBytesPerSec;
      && moment < (pos + fmt.blockAlign) * 10_000_000
      && (pos > at ==> pos % fmt.blockAlign == 0 && pos * 10_000_000 <= moment)
  {
    var tick := Interleave(fmt, at, data, events)[i].info.tick;
    EventPlace(fmt, at, data, events, i);
    PositionOfTick(fmt, tick);
    var pos, r := at + |Samples(Interleave(fmt, at, data, events)[..i])|, EventBytes(fmt, tick);
    hide EventBytes, Interleave, Samples;
    assert pos == Max(at, r);
    assert (r + fmt.blockAlign) * 10_000_000 <= (pos + fmt.blockAlign) * 10_000_000;
  }

  /** Delivered are exactly the events whose moment lies before the end of the audio, when that ends with a block. */
  lemma DeliveredInTime(fmt: Format, at: nat, data: seq<bv8>, events: seq<Timed>) returns (k: nat)
    requires SortedEvents(events) && forall e :: e in events ==> e.tick * fmt.avgBytesPerSec < 0x1_0000_0000_0000_0000
    requires (at + |data|) % fmt.blockAlign == 0
    ensures k <= |events|
    ensures forall i :: 0 <= i < |events| ==>
              (i < k <==> events[i].tick * fmt.avgBytesPerSec < (at + |data|) * 10_000_000)
    ensures Events(Interleave(fmt, at, data, events)) == events[..k]
    ensures Queued(fmt, at + |data|, events) == events[k..]
  {
    SortedInOrder(fmt, events);
    k := DeliveredOrQueued(fmt, at, data, events);
    hide EventBytes, Interleave, Queued, Events, InOrder;
    forall i | 0 <= i < |events|
      ensures EventBytes(fmt, events[i].tick) < at + |data|
         <==> events[i].tick * fmt.avgBytesPerSec < (at + |data|) * 10_000_000
    {
      assert events[i] in events;
      PositionOfTick(fmt, events[i].tick);
      BeforeBlock(EventBytes(fmt, events[i].tick), at + |data|, fmt.blockAlign);
    }
  }

  /** Of two starts of blocks the lesser is at least a block before the other. */
  lemma BeforeBlock(r: nat, end: nat, block: nat)
    requires block > 0 && r % block == 0 && end % block == 0
    ensures r < end ==> r + block <= end
  {
    var p, q := r / block, end / block;
    assert r == p * block && end == q * block;
    if r < end {
      if q <= p {
        Scale(q, p, block);
      }
      Scale(p + 1, q, block);
      assert (p + 1) * block == p * block + block;
    }
  }

  lemma NoSamples(trace: seq<Entry>)
    ensures Samples(trace[..0]) == []
  {
  }

  lemma SamplesShift(trace: seq<Entry>, i: nat)
    requires 0 < i <= |trace|
    ensures |Samples(trace[..i])| == |Samples(trace[1..][..i - 1])| + if trace[0].Audio? then 1 else 0
  {
    assert trace[..i] == [trace[0]] + trace[1..][..i - 1];
    ProjectConcat([trace[0]], trace[1..][..i - 1]);
    ProjectOne(trace[0]);
  }

  /** What comes out was queued. */
  lemma {:induction false} EventFrom(fmt: Format, at: nat, data: seq<bv8>, events: seq<Timed>, i: nat)
    requires i < |Interleave(fmt, at, data, events)| && Interleave(fmt, at, data, events)[i].Event?
    ensures Interleave(fmt, at, data, events)[i].info in events
    decreases |data| + |events|
  {
    hide EventBytes;
    if events != [] && EventBytes(fmt, events[0].tick) < at + (if data == [] then 0 else 1) {
      if i > 0 {
        EventFrom(fmt, at, data, events[1..], i - 1);
      }
    } else {
      EventFrom(fmt, at + 1, data[1..], events, i - 1);
    }
  }

  lemma {:induction false} QueuedIsSuffix(fmt: Format, end: nat, events: seq<Timed>) returns (k: nat)
    requires InOrder(fmt, events)
    ensures k <= |events| && Queued(fmt, end, events) == events[k..]
    ensures forall i :: 0 <= i < |events| ==> (i < k <==> EventBytes(fmt, events[i].tick) < end)
    decreases |events|
  {
    hide EventBytes;
    k := 0;
    if events != [] && EventBytes(fmt, events[0].tick) < end {
      var m := QueuedIsSuffix(fmt, end, events[1..]);
      k := m + 1;
      assert forall i :: 0 < i < |events| ==> events[i] == events[1..][i - 1];
    }
  }

  lemma {:induction false} DeliveredThenQueued(fmt: Format, at: nat, data: seq<bv8>, events: seq<Timed>)
    requires InOrder(fmt, events)
    ensures Events(Interleave(fmt, at, data, events)) + Queued(fmt, at + |data|, events) == events
    decreases |data| + |events|
  {
    hide EventBytes, Events;
    NoEvents();
    if events != [] && EventBytes(fmt, events[0].tick) < at + (if data == [] then 0 else 1) {
      DeliveredThenQueued(fmt, at, data, events[1..]);
      DeliverFirst(fmt, at, data, events);
    } else if data != [] {
      DeliveredThenQueued(fmt, at + 1, data[1..], events);
      SkipOne(fmt, at, data, events);
      NoneDelivered(data[0], Interleave(fmt, at + 1, data[1..], events));
    }
  }

  lemma NoneDelivered(sample: bv8, rest: seq<Entry>)
    ensures Events([Audio(sample)] + rest) == Events(rest)
  {
    hide Events;
    ProjectConcat([Audio(sample)], rest);
    ProjectOne(Audio(sample));
    assert [] + Events(rest) == Events(rest);
  }

  lemma DeliverFirst(fmt: Format, at: nat, data: seq<bv8>, events: seq<Timed>)
    requires events != [] && EventBytes(fmt, events[0].tick) < at + (if data == [] then 0 else 1)
    requires Events(Interleave(fmt, at, data, events[1..])) + Queued(fmt, at + |data|, events[1..]) == events[1..]
    ensures Events(Interleave(fmt, at, data, events)) + Queued(fmt, at + |data|, events) == events
  {
    hide EventBytes, Events, Interleave, Queued;
    var rest := Interleave(fmt, at, data, events[1..]);
    DueFirst(fmt, at, data, events);
    ProjectConcat([Event(events[0])], rest);
    ProjectOne(Event(events[0]));
    PutFirst(events, Events(rest), Queued(fmt, at + |data|, events));
  }

  lemma PutFirst(events: seq<Timed>, early: seq<Timed>, late: seq<Timed>)
    requires events != [] && early + late == events[1..]
    ensures ([events[0]] + early) + late == events
  {
  }

  /** The events delivered are exactly those before the end of the audio, in order; the others stay queued. */
  lemma DeliveredOrQueued(fmt: Format, at: nat, data: seq<bv8>, events: seq<Timed>) returns (k: nat)
    requires InOrder(fmt, events)
    ensures k <= |events|
    ensures forall i :: 0 <= i < |events| ==> (i < k <==> EventBytes(fmt, events[i].tick) < at + |data|)
    ensures Events(Interleave(fmt, at, data, events)) == events[..k]
    ensures Queued(fmt, at + |data|, events) == events[k..]
  {
    hide EventBytes, Events, Interleave, Queued;
    k := QueuedIsSuffix(fmt, at + |data|, events);
    DeliveredThenQueued(fmt, at, data, events);
    var d := Events(Interleave(fmt, at, data, events));
    assert |d| == k && d == (d + events[k..])[..k];
  }

  lemma NoEvents()
    ensures Events([]) == []
  {
  }

  // ---- The object ----

  class Merger {
    const fmt: Format
    const waits: bool
    var events: seq<Timed>
    var waveBytesWritten: nat
    var delivered: seq<Entry>

    constructor (fmt: Format, waits: bool)
      ensures this.fmt == fmt && this.waits == waits
      ensures events == [] && waveBytesWritten == 0 && delivered == []
    {
      this.fmt, this.waits := fmt, waits;
      events, waveBytesWritten, delivered := [], 0, [];
    }

    function Now(data: seq<bv8>, waited: bool, arrivals: seq<seq<Timed>>, replies: seq<nat>): Job
      reads this
    {
      Job(waveBytesWritten, data, events, delivered, waited, arrivals, replies)
    }

    method Push(e: Timed)
      modifies this`events
      ensures multiset(events) == multiset(old(events)) + multiset{e}
      ensures SortedEvents(old(events)) ==> SortedEvents(events)
    {
      InsertSame(Tick, events, e);
      if SortedEvents(events) {
        InsertSorted(Tick, events, e);
      }
      events := Insert(Tick, events, e);
    }

    /** Hands bytes to the sink; the reply is how many it took. */
    method Deliver(data: seq<bv8>, n: nat, replies: seq<nat>) returns (written: nat, later: seq<nat>)
      requires n <= |data|
      modifies this`delivered
      ensures written == Accepted(Now(data, false, [], replies), n) && later == Replied(Now(data, false, [], replies))
      ensures delivered == old(delivered) + AudioOf(data[..written])
    {
      written, later := n, replies;
      if replies != [] {
        written, later := Min(replies[0], n), replies[1..];
      }
      delivered := delivered + AudioOf(data[..written]);
    }

    /** Sends the audio before the first queued event, as far as the sink takes it, and then the event. */
    method DispatchFirst(data: seq<bv8>, ghost waited: bool, ghost pending: seq<seq<Timed>>, replies: seq<nat>)
      returns (waveData: seq<bv8>, later: seq<nat>)
      requires !NothingDue(fmt, Now(data, waited, pending, replies))
      modifies this
      ensures Now(waveData, waited, pending, later) == Dispatch(fmt, old(Now(data, waited, pending, replies)))
    {
      hide EventBytes, AudioOf;
      waveData, later := data, replies;
      var evtBytes := EventBytes(fmt, events[0].tick);
      var evt := events[0];
      events := events[1..];
      var waveSizeBefore := if evtBytes >= waveBytesWritten then evtBytes - waveBytesWritten else 0;
      if waveSizeBefore != 0 {
        var written;
        written, later := Deliver(waveData, waveSizeBefore, replies);
        waveBytesWritten := waveBytesWritten + written;
        waveData := waveData[written..];
      }
      delivered := delivered + [Event(evt)];
    }

    /** What other threads queued while the lock was free. */
    method TakeArrivals(ghost data: seq<bv8>, ghost waited: bool, arrivals: seq<seq<Timed>>, ghost replies: seq<nat>)
      returns (pending: seq<seq<Timed>>)
      modifies this`events
      ensures Now(data, waited, pending, replies) == Arrive(old(Now(data, waited, arrivals, replies)))
    {
      hide InsertAll;
      pending := arrivals;
      if arrivals != [] {
        events, pending := InsertAll(Tick, events, arrivals[0]), arrivals[1..];
      }
    }

    method WriteRest(data: seq<bv8>, ghost waited: bool, ghost pending: seq<seq<Timed>>, replies: seq<nat>)
      modifies this`waveBytesWritten, this`delivered
      ensures var r := Rest(old(Now(data, waited, pending, replies)));
        r.written == waveBytesWritten && r.events == events && r.trace == delivered
    {
      hide AudioOf;
      if |data| != 0 {
        var _, _ := Deliver(data, |data|, replies);
        waveBytesWritten := waveBytesWritten + |data|;
      }
    }

    /** Writes a chunk of audio, dispatching the events that fall due. */
    method ProcessWaveData(chunk: seq<bv8>, arrivals: seq<seq<Timed>>, replies: seq<nat>)
      modifies this
      ensures var r := Merge(fmt, waits, old(Now(chunk, false, arrivals, replies)));
        r.written == waveBytesWritten && r.events == events && r.trace == delivered
      ensures waveBytesWritten == old(waveBytesWritten) + |chunk|
      ensures arrivals == [] && replies == [] ==>
        && delivered == old(delivered) + Interleave(fmt, old(waveBytesWritten), chunk, old(events))
        && events == Queued(fmt, waveBytesWritten, old(events))
    {
      hide EventBytes, Interleave, Queued, Dispatch, Arrive, Loop, Rest, Total, Samples, Events, Arriving, SortedEvents;
      ghost var start := Now(chunk, false, arrivals, replies);
      var waveData, hasWaited, pending, answers := chunk, false, arrivals, replies;
      while true
        invariant Loop(fmt, waits, start) == Loop(fmt, waits, Now(waveData, hasWaited, pending, answers))
        decreases |events| + Total(pending), if hasWaited then 0 else 1
      {
        LoopTurn(fmt, waits, Now(waveData, hasWaited, pending, answers));
        pending := TakeArrivals(waveData, hasWaited, pending, answers);
        if events == [] || waveBytesWritten + |waveData| <= EventBytes(fmt, events[0].tick) {
          if waits && !hasWaited {
            hasWaited := true;
            continue;
          }
          break;
        }
        waveData, answers := DispatchFirst(waveData, hasWaited, pending, answers);
      }
      WriteRest(waveData, hasWaited, pending, answers);
      MergeAccounts(fmt, waits, start);
      if arrivals == [] && replies == [] {
        MergeInterleaves(fmt, waits, start);
      }
    }
  }

  /** One turn of the loop, and its progress. */
  lemma LoopTurn(fmt: Format, waits: bool, j: Job)
    ensures var a := Arrive(j);
      && a == j.(events := a.events, arrivals := a.arrivals)
      && |a.events| + Total(a.arrivals) == |j.events| + Total(j.arrivals)
      && if !NothingDue(fmt, a) then
           var d := Dispatch(fmt, a);
           && Loop(fmt, waits, j) == Loop(fmt, waits, d)
           && |d.events| == |a.events| - 1 && d.arrivals == a.arrivals && d.waited == a.waited
         else if waits && !a.waited then Loop(fmt, waits, j) == Loop(fmt, waits, a.(waited := true))
         else Loop(fmt, waits, j) == a
  {
    ArriveTotal(j);
    if !NothingDue(fmt, Arrive(j)) {
      DispatchTotal(fmt, Arrive(j));
    }
    hide NothingDue, Dispatch, Arrive;
  }
}
