/** The simulator's continuous-batching actor, as functions on its state.

A request waits in `prefill`, runs in `decode`, may be evicted to `recompute` when the key-value
cache would overflow, and ends in `decoded`. One iteration of the actor loop is `Iterate`.
*/
module Batching {
  import opened Options

  const MAX_NUM_SEQ: nat := 256
  const MAX_NUM_BATCH_TOKENS: nat := 512
  const MAX_NUM_TOKENS_ALLOWED: nat := 2810 * 16 - 512
  const MAX_MEMORY_BEFORE_RECOMPUTE: real := 0.9

  /** The adapters that the simulator knows, and their size in cache tokens. */
  datatype Lora = Tweet | Sql | Dummy1 | Dummy2

  function LoraSize(l: Lora): nat {
    match l
    case Tweet => 1600
    case Sql => 1600
    case Dummy1 => 0
    case Dummy2 => 0
  }

  datatype Request = Request(id: nat, input: nat, output: nat, remaining: int, lora: Option<Lora>, recomputes: nat)

  datatype State = State(prefill: seq<Request>, decode: seq<Request>, recompute: seq<Request>,
                         decoded: seq<Request>, loras: set<Lora>, allowed: int)

  // ---- Counters

  /** The cache tokens a request occupies: its prompt and what it has generated. */
  function Held(r: Request): int {
    r.input + r.output - r.remaining
  }

  function Tokens(rs: seq<Request>): int {
    if rs == [] then 0 else Tokens(rs[..|rs| - 1]) + Held(rs[|rs| - 1])
  }

  function Remaining(rs: seq<Request>): int {
    if rs == [] then 0 else Remaining(rs[..|rs| - 1]) + rs[|rs| - 1].remaining
  }

  predicate Full(used: int, allowed: int)
    requires allowed > 0
  {
    used as real / allowed as real >= MAX_MEMORY_BEFORE_RECOMPUTE
  }

  predicate ShouldRecompute(s: State)
    requires s.allowed > 0
  {
    (|s.decode| + Tokens(s.decode)) as real / s.allowed as real > MAX_MEMORY_BEFORE_RECOMPUTE
  }

  // ---- Prefill

  /** May `r` join the batch already taken? */
  predicate Admits(s: State, batch: seq<Request>, r: Request)
    requires s.allowed > 0
  {
    && |s.decode| + |batch| + 1 <= MAX_NUM_SEQ
    && Tokens(batch) + r.input <= MAX_NUM_BATCH_TOKENS
    && !Full(Tokens(batch) + |batch| + Tokens(s.decode), s.allowed)
  }

  predicate CanPrefill(s: State)
    requires s.allowed > 0
  {
    || (s.recompute != [] && Admits(s, [], s.recompute[0]))
    || (s.prefill != [] && Admits(s, [], s.prefill[0]))
  }

  /** How many requests from the front of `queue` join a batch that holds `batch`. */
  function Admitted(s: State, batch: seq<Request>, queue: seq<Request>): (n: nat)
    requires s.allowed > 0
    ensures n <= |queue|
    ensures n > 0 ==> |s.decode| + |batch| + n <= MAX_NUM_SEQ
    decreases |queue|
  {
    if queue != [] && Admits(s, batch, queue[0]) then 1 + Admitted(s, batch + [queue[0]], queue[1..]) else 0
  }

  /** Evicted requests come first, then new ones. */
  function FromRecompute(s: State): (n: nat)
    requires s.allowed > 0
    ensures n <= |s.recompute|
  {
    Admitted(s, [], s.recompute)
  }

  function FromPrefill(s: State): (n: nat)
    requires s.allowed > 0
    ensures n <= |s.prefill|
  {
    Admitted(s, s.recompute[..FromRecompute(s)], s.prefill)
  }

  function Batch(s: State): seq<Request>
    requires s.allowed > 0
  {
    s.recompute[..FromRecompute(s)] + s.prefill[..FromPrefill(s)]
  }

  function Fetched(s: State): State
    requires s.allowed > 0
  {
    s.(recompute := s.recompute[FromRecompute(s)..], prefill := s.prefill[FromPrefill(s)..])
  }

  // ---- Generating one token for each of some requests

  function Stepped(r: Request): Request {
    r.(remaining := r.remaining - 1)
  }

  function SteppedAll(rs: seq<Request>): (r: seq<Request>)
    ensures |r| == |rs| && forall i :: 0 <= i < |rs| ==> r[i] == Stepped(rs[i])
  {
    seq(|rs|, i requires 0 <= i < |rs| => Stepped(rs[i]))
  }

  function Finished(rs: seq<Request>): (r: seq<Request>)
    ensures |r| <= |rs|
  {
    if rs == [] then []
    else Finished(rs[..|rs| - 1]) + if rs[|rs| - 1].remaining == 0 then [rs[|rs| - 1]] else []
  }

  function Unfinished(rs: seq<Request>): (r: seq<Request>)
    ensures |r| <= |rs|
  {
    if rs == [] then []
    else Unfinished(rs[..|rs| - 1]) + if rs[|rs| - 1].remaining != 0 then [rs[|rs| - 1]] else []
  }

  function LoadLora(s: State, l: Option<Lora>): State {
    if l.Some? && l.value !in s.loras then s.(loras := s.loras + {l.value}, allowed := s.allowed - LoraSize(l.value))
    else s
  }

  function LoadLoras(s: State, rs: seq<Request>): State {
    if rs == [] then s else LoadLora(LoadLoras(s, rs[..|rs| - 1]), rs[|rs| - 1].lora)
  }

  function Prefilled(s: State, batch: seq<Request>): State {
    var done := SteppedAll(batch);
    LoadLoras(s, batch).(decode := s.decode + Unfinished(done), decoded := s.decoded + Finished(done))
  }

  function Decoded(s: State): State {
    var done := SteppedAll(s.decode);
    s.(decode := Unfinished(done), decoded := s.decoded + Finished(done))
  }

  // ---- Eviction

  /** The recompute queue serves the smallest id first. */
  function Enqueue(q: seq<Request>, r: Request): seq<Request> {
    if q == [] || r.id <= q[0].id then [r] + q else [q[0]] + Enqueue(q[1..], r)
  }

  function EvictNewest(s: State): State
    requires s.decode != []
  {
    var r := s.decode[|s.decode| - 1];
    s.(decode := s.decode[..|s.decode| - 1], recompute := Enqueue(s.recompute, r.(recomputes := r.recomputes + 1)))
  }

  /** The newest requests leave until the next decoding step fits. */
  function Evicted(s: State): State
    requires s.allowed > 0
    decreases |s.decode|
  {
    if s.decode != [] && ShouldRecompute(s) then Evicted(EvictNewest(s)) else s
  }

  // ---- The loop

  predicate Idle(s: State) {
    s.prefill == [] && s.decode == [] && s.recompute == []
  }

  function Iterate(s: State): State
    requires s.allowed > 0
  {
    if Idle(s) then s
    else if CanPrefill(s) then Prefilled(Fetched(s), Batch(s))
    else
      var t := Evicted(s);
      if t.decode != [] then Decoded(t) else t
  }
}
