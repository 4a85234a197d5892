/** Conservation, invariants and termination of the continuous-batching loop. */
module BatchingProofs {
  import opened Batching
  import opened Options

  /** A request apart from its progress. */
  function Base(r: Request): Request {
    r.(remaining := 0, recomputes := 0)
  }

  /** How often the request `b` (given by its base) occurs in a queue. */
  ghost function Count(rs: seq<Request>, b: Request): nat {
    if rs == [] then 0 else Count(rs[..|rs| - 1], b) + if Base(rs[|rs| - 1]) == b then 1 else 0
  }

  /** How often it occurs in the four stores together. */
  ghost function Population(s: State, b: Request): nat {
    Count(s.prefill, b) + Count(s.decode, b) + Count(s.recompute, b) + Count(s.decoded, b)
  }

  ghost predicate SamePopulation(s: State, t: State) {
    forall b :: Population(t, b) == Population(s, b)
  }

  /** A request that still has tokens to generate. */
  predicate Live(r: Request) {
    r.input <= MAX_NUM_BATCH_TOKENS && 1 <= r.remaining <= r.output
  }

  ghost predicate AllLive(rs: seq<Request>) {
    forall r :: r in rs ==> Live(r)
  }

  ghost predicate AllDone(rs: seq<Request>) {
    forall r :: r in rs ==> r.remaining == 0
  }

  ghost predicate SortedById(rs: seq<Request>) {
    forall i, j :: 0 <= i < j < |rs| ==> rs[i].id <= rs[j].id
  }

  function SizeIf(l: Lora, loras: set<Lora>): nat {
    if l in loras then LoraSize(l) else 0
  }

  function LoadedSize(loras: set<Lora>): nat {
    SizeIf(Tweet, loras) + SizeIf(Sql, loras) + SizeIf(Dummy1, loras) + SizeIf(Dummy2, loras)
  }

  ghost predicate Inv(s: State) {
    && |s.decode| <= MAX_NUM_SEQ
    && AllLive(s.prefill) && AllLive(s.decode) && AllLive(s.recompute)
    && AllDone(s.decoded)
    && SortedById(s.recompute)
    && s.allowed == MAX_NUM_TOKENS_ALLOWED - LoadedSize(s.loras)
  }

  lemma {:induction false} InvAllowed(s: State)
    requires s.allowed == MAX_NUM_TOKENS_ALLOWED - LoadedSize(s.loras)
    ensures s.allowed > 0
  {}

  /** The tokens still to be generated by requests that have not finished. */
  function Work(s: State): int {
    Remaining(s.prefill) + Remaining(s.decode) + Remaining(s.recompute)
  }

  // ---- Sums over queues

  lemma {:induction false} CountAppend(x: seq<Request>, y: seq<Request>, b: Request)
    ensures Count(x + y, b) == Count(x, b) + Count(y, b)
  {
    if y == [] {
      assert x + y == x;
    } else {
      assert (x + y)[..|x + y| - 1] == x + y[..|y| - 1];
      CountAppend(x, y[..|y| - 1], b);
    }
  }

  lemma {:induction false} RemainingAppend(x: seq<Request>, y: seq<Request>)
    ensures Remaining(x + y) == Remaining(x) + Remaining(y)
  {
    if y == [] {
      assert x + y == x;
    } else {
      assert (x + y)[..|x + y| - 1] == x + y[..|y| - 1];
      RemainingAppend(x, y[..|y| - 1]);
    }
  }

  lemma {:induction false} CountSplit(rs: seq<Request>, n: nat, b: Request)
    requires n <= |rs|
    ensures Count(rs, b) == Count(rs[..n], b) + Count(rs[n..], b)
  {
    assert rs == rs[..n] + rs[n..];
    CountAppend(rs[..n], rs[n..], b);
  }

  lemma {:induction false} RemainingSplit(rs: seq<Request>, n: nat)
    requires n <= |rs|
    ensures Remaining(rs) == Remaining(rs[..n]) + Remaining(rs[n..])
  {
    assert rs == rs[..n] + rs[n..];
    RemainingAppend(rs[..n], rs[n..]);
  }

  lemma {:induction false} RemainingNonNegative(rs: seq<Request>)
    requires AllLive(rs)
    ensures Remaining(rs) >= |rs|
  {
    if rs != [] {
      assert Live(rs[|rs| - 1]);
      RemainingNonNegative(rs[..|rs| - 1]);
    }
  }

  lemma {:induction false} SteppedCount(rs: seq<Request>, b: Request)
    ensures Count(SteppedAll(rs), b) == Count(rs, b)
  {
    if rs != [] {
      assert SteppedAll(rs)[..|rs| - 1] == SteppedAll(rs[..|rs| - 1]);
      SteppedCount(rs[..|rs| - 1], b);
    }
  }

  lemma {:induction false} SteppedRemaining(rs: seq<Request>)
    ensures Remaining(SteppedAll(rs)) == Remaining(rs) - |rs|
  {
    if rs != [] {
      assert SteppedAll(rs)[..|rs| - 1] == SteppedAll(rs[..|rs| - 1]);
      SteppedRemaining(rs[..|rs| - 1]);
    }
  }

  /** Nothing is lost between those that finish and those that go on. */
  lemma {:induction false} PartitionCount(rs: seq<Request>, b: Request)
    ensures Count(Unfinished(rs), b) + Count(Finished(rs), b) == Count(rs, b)
  {
    if rs != [] {
      var front, last := rs[..|rs| - 1], rs[|rs| - 1];
      PartitionCount(front, b);
      if last.remaining == 0 {
        CountAppend(Finished(front), [last], b);
        CountAppend(Unfinished(front), [], b);
      } else {
        CountAppend(Finished(front), [], b);
        CountAppend(Unfinished(front), [last], b);
      }
    }
  }

  lemma {:induction false} PartitionMembers(rs: seq<Request>)
    ensures forall x :: x in Finished(rs) <==> x in rs && x.remaining == 0
    ensures forall x :: x in Unfinished(rs) <==> x in rs && x.remaining != 0
  {
    if rs != [] {
      PartitionMembers(rs[..|rs| - 1]);
      assert rs == rs[..|rs| - 1] + [rs[|rs| - 1]];
    }
  }

  lemma {:induction false} PartitionRemaining(rs: seq<Request>)
    ensures Remaining(Unfinished(rs)) == Remaining(rs)
  {
    if rs != [] {
      var front, last := rs[..|rs| - 1], rs[|rs| - 1];
      PartitionRemaining(front);
      RemainingAppend(Unfinished(front), if last.remaining != 0 then [last] else []);
    }
  }

  lemma {:induction false} EnqueueCount(q: seq<Request>, r: Request, b: Request)
    ensures Count(Enqueue(q, r), b) == Count(q, b) + if Base(r) == b then 1 else 0
  {
    if q == [] || r.id <= q[0].id {
      CountAppend([r], q, b);
    } else {
      EnqueueCount(q[1..], r, b);
      CountAppend([q[0]], Enqueue(q[1..], r), b);
      CountSplit(q, 1, b);
      assert q[..1] == [q[0]];
    }
  }

  lemma {:induction false} EnqueueRemaining(q: seq<Request>, r: Request)
    ensures Remaining(Enqueue(q, r)) == Remaining(q) + r.remaining
  {
    if q == [] || r.id <= q[0].id {
      RemainingAppend([r], q);
    } else {
      EnqueueRemaining(q[1..], r);
      RemainingAppend([q[0]], Enqueue(q[1..], r));
      RemainingSplit(q, 1);
      assert q[..1] == [q[0]];
    }
  }

  lemma {:induction false} EnqueueMembers(q: seq<Request>, r: Request)
    ensures forall x :: x in Enqueue(q, r) <==> x in q || x == r
  {
    if q != [] && r.id > q[0].id {
      EnqueueMembers(q[1..], r);
      assert q == [q[0]] + q[1..];
    }
  }

  lemma {:induction false} EnqueueSorted(q: seq<Request>, r: Request)
    requires SortedById(q)
    ensures SortedById(Enqueue(q, r))
  {
    if q != [] && r.id > q[0].id {
      var tail := Enqueue(q[1..], r);
      EnqueueSorted(q[1..], r);
      EnqueueMembers(q[1..], r);
      forall i | 0 <= i < |tail| ensures q[0].id <= tail[i].id {
        assert tail[i] in q[1..] || tail[i] == r;
      }
    }
  }

  lemma {:induction false} LiveSlices(rs: seq<Request>, n: nat)
    requires AllLive(rs) && n <= |rs|
    ensures AllLive(rs[..n]) && AllLive(rs[n..])
  {}

  // ---- One generated token for each request of a batch

  lemma {:induction false} AdvanceCount(rs: seq<Request>, b: Request)
    ensures Count(Unfinished(SteppedAll(rs)), b) + Count(Finished(SteppedAll(rs)), b) == Count(rs, b)
  {
    SteppedCount(rs, b);
    PartitionCount(SteppedAll(rs), b);
  }

  lemma {:induction false} AdvanceRemaining(rs: seq<Request>)
    ensures Remaining(Unfinished(SteppedAll(rs))) == Remaining(rs) - |rs|
  {
    SteppedRemaining(rs);
    PartitionRemaining(SteppedAll(rs));
  }

  lemma {:induction false} AdvanceLive(rs: seq<Request>)
    requires AllLive(rs)
    ensures AllLive(Unfinished(SteppedAll(rs))) && AllDone(Finished(SteppedAll(rs)))
  {
    PartitionMembers(SteppedAll(rs));
    forall x | x in SteppedAll(rs) && x.remaining != 0 ensures Live(x) {
      var i :| 0 <= i < |rs| && x == Stepped(rs[i]);
      assert Live(rs[i]);
    }
  }

  // ---- Loading adapters

  lemma {:induction false} LoadLorasKeeps(s: State, rs: seq<Request>)
    requires s.allowed == MAX_NUM_TOKENS_ALLOWED - LoadedSize(s.loras)
    ensures var t := LoadLoras(s, rs);
            && t.allowed == MAX_NUM_TOKENS_ALLOWED - LoadedSize(t.loras)
            && t == s.(loras := t.loras, allowed := t.allowed)
  {
    if rs != [] {
      LoadLorasKeeps(s, rs[..|rs| - 1]);
    }
  }

  /** The adapters loaded afterwards are the ones loaded before and the ones asked for. */
  lemma {:induction false} LoadedAre(s: State, rs: seq<Request>, l: Lora)
    ensures l in LoadLoras(s, rs).loras <==> l in s.loras || exists r :: r in rs && r.lora == Some(l)
  {
    if rs != [] {
      var front, last := rs[..|rs| - 1], rs[|rs| - 1];
      LoadedAre(s, front, l);
      assert rs == front + [last];
    }
  }

  // ---- Prefill

  /** The batch is non-empty exactly when the loop believes it can prefill. */
  lemma {:induction false} CanPrefillIff(s: State)
    requires s.allowed > 0
    ensures CanPrefill(s) <==> Batch(s) != []
  {
    if FromRecompute(s) == 0 {
      assert s.recompute[..0] == [];
    }
  }

  /** With nothing decoding, whatever is queued can be prefilled. */
  lemma {:induction false} EmptyDecodeCanPrefill(s: State)
    requires Inv(s) && s.decode == [] && !Idle(s)
    ensures s.allowed > 0 && CanPrefill(s)
  {
    InvAllowed(s);
    assert s.prefill != [] ==> Live(s.prefill[0]);
    assert s.recompute != [] ==> Live(s.recompute[0]);
  }

  lemma {:induction false} PrefillCount(s: State, b: Request)
    requires s.allowed == MAX_NUM_TOKENS_ALLOWED - LoadedSize(s.loras) && s.allowed > 0
    ensures Population(Prefilled(Fetched(s), Batch(s)), b) == Population(s, b)
  {
    var r, p, batch := FromRecompute(s), FromPrefill(s), Batch(s);
    CountSplit(s.recompute, r, b);
    CountSplit(s.prefill, p, b);
    CountAppend(s.recompute[..r], s.prefill[..p], b);
    AdvanceCount(batch, b);
    LoadLorasKeeps(Fetched(s), batch);
    CountAppend(s.decode, Unfinished(SteppedAll(batch)), b);
    CountAppend(s.decoded, Finished(SteppedAll(batch)), b);
  }

  lemma {:induction false} PrefillWork(s: State)
    requires s.allowed == MAX_NUM_TOKENS_ALLOWED - LoadedSize(s.loras) && s.allowed > 0
    ensures Work(Prefilled(Fetched(s), Batch(s))) == Work(s) - |Batch(s)|
  {
    var r, p, batch := FromRecompute(s), FromPrefill(s), Batch(s);
    RemainingSplit(s.recompute, r);
    RemainingSplit(s.prefill, p);
    RemainingAppend(s.recompute[..r], s.prefill[..p]);
    AdvanceRemaining(batch);
    LoadLorasKeeps(Fetched(s), batch);
    RemainingAppend(s.decode, Unfinished(SteppedAll(batch)));
  }

  lemma {:induction false} PrefillInv(s: State)
    requires Inv(s) && s.allowed > 0 && CanPrefill(s)
    ensures Inv(Prefilled(Fetched(s), Batch(s)))
  {
    var r, p, batch := FromRecompute(s), FromPrefill(s), Batch(s);
    LiveSlices(s.recompute, r);
    LiveSlices(s.prefill, p);
    assert AllLive(batch);
    AdvanceLive(batch);
    LoadLorasKeeps(Fetched(s), batch);
    assert |s.decode| + |batch| <= MAX_NUM_SEQ;
  }

  // ---- Eviction and decoding

  lemma {:induction false} EvictNewestCount(s: State, b: Request)
    requires s.decode != []
    ensures Population(EvictNewest(s), b) == Population(s, b)
  {
    var r := s.decode[|s.decode| - 1];
    EnqueueCount(s.recompute, r.(recomputes := r.recomputes + 1), b);
  }

  lemma {:induction false} EvictNewestKeeps(s: State)
    requires Inv(s) && s.decode != []
    ensures Inv(EvictNewest(s)) && SamePopulation(s, EvictNewest(s)) && Work(EvictNewest(s)) == Work(s)
  {
    forall b ensures Population(EvictNewest(s), b) == Population(s, b) {
      EvictNewestCount(s, b);
    }
    var r := s.decode[|s.decode| - 1];
    var r' := r.(recomputes := r.recomputes + 1);
    assert Live(r) && Live(r');
    EnqueueRemaining(s.recompute, r');
    EnqueueSorted(s.recompute, r');
    EnqueueMembers(s.recompute, r');
    LiveSlices(s.decode, |s.decode| - 1);
  }

  lemma {:induction false} EvictedKeeps(s: State)
    requires Inv(s) && s.allowed > 0
    ensures var t := Evicted(s);
            && Inv(t) && SamePopulation(s, t) && Work(t) == Work(s)
            && |t.decode| <= |s.decode| && t.allowed == s.allowed
            && (s.decode != [] && ShouldRecompute(s) ==> |t.decode| < |s.decode|)
            && !ShouldRecompute(t)
    decreases |s.decode|
  {
    if s.decode != [] && ShouldRecompute(s) {
      EvictNewestKeeps(s);
      EvictedKeeps(EvictNewest(s));
    } else if s.decode == [] {
      assert Tokens(s.decode) == 0;
    }
  }

  lemma {:induction false} DecodedKeeps(s: State)
    requires Inv(s)
    ensures Inv(Decoded(s)) && SamePopulation(s, Decoded(s)) && Work(Decoded(s)) == Work(s) - |s.decode|
  {
    var t, rs := Decoded(s), s.decode;
    forall b ensures Population(t, b) == Population(s, b) {
      AdvanceCount(rs, b);
      CountAppend(s.decoded, Finished(SteppedAll(rs)), b);
    }
    AdvanceRemaining(rs);
    AdvanceLive(rs);
  }

  // ---- Whole runs

  ghost predicate Decreases(s: State, t: State) {
    Work(t) < Work(s) || (Work(t) == Work(s) && |t.decode| < |s.decode|)
  }

  /** One iteration keeps every request and the invariant, and makes progress unless idle. */
  lemma {:induction false} IterateKeeps(s: State)
    requires Inv(s)
    ensures s.allowed > 0
    ensures Inv(Iterate(s)) && SamePopulation(s, Iterate(s))
    ensures !Idle(s) ==> Decreases(s, Iterate(s))
  {
    InvAllowed(s);
    if !Idle(s) {
      if CanPrefill(s) {
        CanPrefillIff(s);
        PrefillInv(s);
        PrefillWork(s);
        forall b ensures Population(Iterate(s), b) == Population(s, b) {
          PrefillCount(s, b);
        }
      } else {
        if s.decode == [] {
          EmptyDecodeCanPrefill(s);
        }
        EvictedKeeps(s);
        DecodedKeeps(Evicted(s));
      }
    }
  }

  lemma {:induction false} WorkNonNegative(s: State)
    requires Inv(s)
    ensures Work(s) >= 0
  {
    RemainingNonNegative(s.prefill);
    RemainingNonNegative(s.decode);
    RemainingNonNegative(s.recompute);
  }

  /** The loop run until it idles, with nothing arriving. */
  ghost function Drain(s: State): State
    requires Inv(s)
    decreases Work(s), |s.decode|
  {
    IterateKeeps(s);
    WorkNonNegative(s);
    if Idle(s) then s else Drain(Iterate(s))
  }

  /** Every request ends in the decoded store, exactly once and with nothing left to generate. */
  lemma {:induction false} DrainsCompletely(s: State)
    requires Inv(s)
    ensures Idle(Drain(s)) && Inv(Drain(s)) && AllDone(Drain(s).decoded)
    ensures forall b :: Count(Drain(s).decoded, b) == Population(s, b)
    decreases Work(s), |s.decode|
  {
    IterateKeeps(s);
    WorkNonNegative(s);
    if !Idle(s) {
      DrainsCompletely(Iterate(s));
    }
  }

  // ---- Runs with arrivals

  datatype Event = Arrival(r: Request) | Tick

  function Step(s: State, e: Event): State
    requires e.Tick? ==> s.allowed > 0
  {
    match e
    case Arrival(r) => s.(prefill := s.prefill + [r])
    case Tick => Iterate(s)
  }

  ghost predicate ValidEvent(e: Event) {
    e.Arrival? ==> Live(e.r) && e.r.remaining == e.r.output
  }

  ghost predicate ValidEvents(es: seq<Event>) {
    forall e :: e in es ==> ValidEvent(e)
  }

  ghost function Run(s: State, es: seq<Event>): State
    requires Inv(s) && ValidEvents(es)
    decreases |es|
  {
    if es == [] then s
    else
      StepKeeps(s, es[0]);
      Run(Step(s, es[0]), es[1..])
  }

  ghost function Arrived(es: seq<Event>, b: Request): nat {
    if es == [] then 0 else (if es[0].Arrival? && Base(es[0].r) == b then 1 else 0) + Arrived(es[1..], b)
  }

  lemma {:induction false} StepKeeps(s: State, e: Event)
    requires Inv(s) && ValidEvent(e)
    ensures s.allowed > 0 && Inv(Step(s, e))
  {
    IterateKeeps(s);
  }

  lemma {:induction false} StepCount(s: State, e: Event, b: Request)
    requires Inv(s) && ValidEvent(e) && s.allowed > 0
    ensures Population(Step(s, e), b) == Population(s, b) + if e.Arrival? && Base(e.r) == b then 1 else 0
  {
    IterateKeeps(s);
    if e.Arrival? {
      CountAppend(s.prefill, [e.r], b);
    }
  }

  /** In every reachable state the stores together hold exactly what arrived, and the invariant
      holds. */
  lemma {:induction false} EveryRun(s: State, es: seq<Event>, b: Request)
    requires Inv(s) && ValidEvents(es)
    ensures Inv(Run(s, es))
    ensures Population(Run(s, es), b) == Population(s, b) + Arrived(es, b)
    decreases |es|
  {
    if es != [] {
      StepKeeps(s, es[0]);
      StepCount(s, es[0], b);
      EveryRun(Step(s, es[0]), es[1..], b);
    }
  }

  // ---- One place for each request

  /** Ids are unique over all four stores: a request stands in one store, once. */
  ghost predicate UniqueIds(s: State) {
    forall b, c :: Population(s, b) > 0 && Population(s, c) > 0 && b.id == c.id ==> b == c && Population(s, b) == 1
  }

  ghost predicate DistinctArrivals(es: seq<Event>) {
    forall i, j :: 0 <= i < j < |es| && es[i].Arrival? && es[j].Arrival? ==> es[i].r.id != es[j].r.id
  }

  const INITIAL: State := State([], [], [], [], {}, MAX_NUM_TOKENS_ALLOWED)

  lemma {:induction false} ArrivedOnce(es: seq<Event>, b: Request)
    requires DistinctArrivals(es)
    ensures Arrived(es, b) <= 1
    ensures Arrived(es, b) == 1 <==> exists e :: e in es && e.Arrival? && Base(e.r) == b
  {
    if es != [] {
      ArrivedOnce(es[1..], b);
      assert es == [es[0]] + es[1..];
    }
  }

  /** Started empty and fed distinct ids, the actor always has each request in exactly one place. */
  lemma {:induction false} AlwaysUnique(es: seq<Event>)
    requires ValidEvents(es) && DistinctArrivals(es)
    ensures UniqueIds(Run(INITIAL, es))
  {
    forall b ensures Population(Run(INITIAL, es), b) == Arrived(es, b) <= 1 {
      EveryRun(INITIAL, es, b);
      ArrivedOnce(es, b);
    }
    forall b, c | Arrived(es, b) == 1 && Arrived(es, c) == 1 && b.id == c.id ensures b == c {
      ArrivedOnce(es, b);
      ArrivedOnce(es, c);
      var i :| 0 <= i < |es| && es[i].Arrival? && Base(es[i].r) == b;
      var j :| 0 <= j < |es| && es[j].Arrival? && Base(es[j].r) == c;
    }
  }

  lemma UniqueKept(s: State, t: State)
    requires UniqueIds(s) && SamePopulation(s, t)
    ensures UniqueIds(t)
  {}

  lemma {:induction false} CountAtLeast(rs: seq<Request>, i: nat)
    requires i < |rs|
    ensures Count(rs, Base(rs[i])) >= 1
  {
    CountSplit(rs, i, Base(rs[i]));
    CountSplit(rs[i..], 1, Base(rs[i]));
    assert rs[i..][..1] == [rs[i]];
  }

  /** Within the decode store the newest id identifies the newest request. */
  lemma {:induction false} DecodeIdsDiffer(s: State, i: nat, j: nat)
    requires UniqueIds(s) && i < j < |s.decode|
    ensures s.decode[i].id != s.decode[j].id
  {
    var rs, b := s.decode, Base(s.decode[j]);
    CountAtLeast(rs[..j], i);
    CountAtLeast(rs[j..], 0);
    CountSplit(rs, j, Base(rs[i]));
    CountSplit(rs, j, b);
  }
}
