/** Data cut into pieces of one size, the last of which may be short. */
module Chunks {
  import opened Arithmetic

  /** Where piece k starts. */
  function Lo(size: nat, data: seq<byte>, k: nat): (n: nat)
    ensures n <= |data|
  {
    if k * size <= |data| then k * size else |data|
  }

  lemma LoSteps(size: nat, data: seq<byte>, k: nat)
    ensures Lo(size, data, k) <= Lo(size, data, k + 1) <= Lo(size, data, k) + size
    ensures Lo(size, data, 0) == 0
    ensures k * size <= |data| ==> Lo(size, data, k) == k * size
    ensures k * size >= |data| ==> Lo(size, data, k) == |data|
    ensures (k + 1) * size == k * size + size
  {
    MulSplit(k, 1, size);
  }

  function Chunk(size: nat, data: seq<byte>, k: nat): (c: seq<byte>)
    ensures |c| <= size
  {
    LoSteps(size, data, k);
    data[Lo(size, data, k)..Lo(size, data, k + 1)]
  }

  /** Pieces joined, each perhaps followed by filling, give back the data exactly if each is right,
      if only the last piece is short. */
  lemma JoinChunk(size: nat, data: seq<byte>, r: seq<byte>, block: seq<byte>, k: nat)
    requires |r| == k * size && k * size <= |data| && |block| == size
    ensures |r + block| == (k + 1) * size
    ensures (r + block)[..Lo(size, data, k + 1)] == data[..Lo(size, data, k + 1)]
      <==> r[..Lo(size, data, k)] == data[..Lo(size, data, k)] && block[..|Chunk(size, data, k)|] == Chunk(size, data, k)
  {
    LoSteps(size, data, k);
    var before, c := data[..Lo(size, data, k)], Chunk(size, data, k);
    assert data[..Lo(size, data, k + 1)] == before + c;
    assert (r + block)[..Lo(size, data, k + 1)] == r + block[..|c|];
    if r + block[..|c|] == before + c {
      assert (r + block[..|c|])[..|r|] == r && (before + c)[..|r|] == before;
      assert (r + block[..|c|])[|r|..] == block[..|c|] && (before + c)[|r|..] == c;
    }
  }
}
