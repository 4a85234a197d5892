/** Splitting a body into streamed chunks of bounded size. */
module Chunker {
  import Arith

  type Bytes = seq<bv8>

  const BODY_BYTE_LIMIT: nat := 62000

  datatype Chunk = Chunk(body: Bytes, eos: bool)

  function Chunks(body: Bytes, limit: nat, setEos: bool): (cs: seq<Chunk>)
    requires limit >= 1
    ensures cs != []
    decreases |body|
  {
    if |body| <= limit then [Chunk(body, setEos)]
    else [Chunk(body[..limit], false)] + Chunks(body[limit..], limit, setEos)
  }

  function Concat(cs: seq<Chunk>): Bytes {
    if cs == [] then [] else cs[0].body + Concat(cs[1..])
  }

  /** End of stream is set on no chunk but the last. */
  ghost predicate EosOnlyLast(cs: seq<Chunk>) {
    forall i :: 0 <= i < |cs| - 1 ==> !cs[i].eos
  }

  /** The number of chunks of a body of `n` bytes. */
  function ChunkCount(n: nat, limit: nat): nat
    requires limit >= 1
  {
    if n == 0 then 1 else (n + limit - 1) / limit
  }

  lemma {:induction false} ConcatAppend(a: seq<Chunk>, b: seq<Chunk>)
    ensures Concat(a + b) == Concat(a) + Concat(b)
  {
    if a == [] {
      assert a + b == b;
    } else {
      assert (a + b)[1..] == a[1..] + b;
      ConcatAppend(a[1..], b);
    }
  }

  lemma {:induction false} ChunksCounted(body: Bytes, limit: nat, setEos: bool)
    requires limit >= 1
    ensures |Chunks(body, limit, setEos)| == ChunkCount(|body|, limit)
    decreases |body|
  {
    if 0 < |body| <= limit {
      Arith.Quotient(|body| + limit - 1, limit, 1);
    } else if |body| > limit {
      ChunksCounted(body[limit..], limit, setEos);
      Arith.DivStep(|body| + limit - 1, limit);
    }
  }

  lemma {:induction false} ChunksConcat(body: Bytes, limit: nat, setEos: bool)
    requires limit >= 1
    ensures Concat(Chunks(body, limit, setEos)) == body
    decreases |body|
  {
    var cs := Chunks(body, limit, setEos);
    if |body| > limit {
      ChunksConcat(body[limit..], limit, setEos);
      assert cs[1..] == Chunks(body[limit..], limit, setEos);
    }
  }

  lemma {:induction false} ChunksMarked(body: Bytes, limit: nat, setEos: bool)
    requires limit >= 1
    ensures var cs := Chunks(body, limit, setEos); EosOnlyLast(cs) && cs[|cs| - 1].eos == setEos
    decreases |body|
  {
    if |body| > limit {
      var rest := Chunks(body[limit..], limit, setEos);
      ChunksMarked(body[limit..], limit, setEos);
      assert Chunks(body, limit, setEos) == [Chunk(body[..limit], false)] + rest;
    }
  }

  lemma {:induction false} ChunksSized(body: Bytes, limit: nat, setEos: bool)
    requires limit >= 1
    ensures var cs := Chunks(body, limit, setEos);
            && (forall i :: 0 <= i < |cs| - 1 ==> |cs[i].body| == limit)
            && |cs[|cs| - 1].body| <= limit
            && (body != [] ==> cs[|cs| - 1].body != [])
    decreases |body|
  {
    if |body| > limit {
      var rest := Chunks(body[limit..], limit, setEos);
      ChunksSized(body[limit..], limit, setEos);
      assert Chunks(body, limit, setEos) == [Chunk(body[..limit], false)] + rest;
    }
  }

  /** The chunks are the body, cut into full pieces and a last one that carries the flag. */
  lemma {:induction false} ChunksSplit(body: Bytes, limit: nat, setEos: bool)
    requires limit >= 1
    ensures var cs := Chunks(body, limit, setEos);
            && Concat(cs) == body
            && EosOnlyLast(cs) && cs[|cs| - 1].eos == setEos
            && (forall i :: 0 <= i < |cs| - 1 ==> |cs[i].body| == limit)
            && |cs[|cs| - 1].body| <= limit
            && (body != [] ==> cs[|cs| - 1].body != [])
  {
    ChunksConcat(body, limit, setEos);
    ChunksMarked(body, limit, setEos);
    ChunksSized(body, limit, setEos);
  }

  /** The chunks of the body from `start` on; none at its end. */
  ghost function Todo(body: Bytes, start: nat, limit: nat, setEos: bool): seq<Chunk>
    requires limit >= 1 && start <= |body|
  {
    if start == |body| then [] else Chunks(body[start..], limit, setEos)
  }

  lemma NextChunk(body: Bytes, start: nat, limit: nat, setEos: bool, len: nat)
    requires limit >= 1 && start < |body|
    requires len == if |body| - start <= limit then |body| - start else limit
    ensures Todo(body, start, limit, setEos) ==
              [Chunk(body[start..len + start], setEos && len + start >= |body|)] + Todo(body, start + len, limit, setEos)
  {
    var rest := body[start..];
    assert rest[..len] == body[start..len + start] && rest[len..] == body[start + len..];
    if len == |rest| {
      assert rest[..len] == rest;
    }
  }

  lemma Regroup(a: seq<Chunk>, b: seq<Chunk>, c: seq<Chunk>)
    ensures a + (b + c) == a + b + c
  {}

  /** The index loop that builds the chunks. */
  method BuildCommonResponses(body: Bytes, byteLimit: nat, setEos: bool) returns (responses: seq<Chunk>)
    requires byteLimit >= 1
    ensures responses == Chunks(body, byteLimit, setEos)
  {
    responses := [];
    var start := 0;
    if |body| == 0 {
      return [Chunk(body, setEos)];
    }
    ghost var todo := Todo(body, 0, byteLimit, setEos);
    assert body[0..] == body;
    while start < |body|
      invariant 0 <= start <= |body|
      invariant todo == Todo(body, start, byteLimit, setEos)
      invariant responses + todo == Chunks(body, byteLimit, setEos)
    {
      var len := if |body| - start <= byteLimit then |body| - start else byteLimit;
      NextChunk(body, start, byteLimit, setEos, len);
      var eos := setEos && len + start >= |body|;
      var chunk := Chunk(body[start..len + start], eos);
      start := start + len;
      todo := Todo(body, start, byteLimit, setEos);
      Regroup(responses, [chunk], todo);
      responses := responses + [chunk];
    }
    assert responses + [] == responses;
  }
}
