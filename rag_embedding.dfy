/** `generateEmbedding` of src/lib/rag-service.ts: a 32-bit rolling hash over the UTF-8
    bytes of the text seeds a vector of 1536 entries `Math.sin(hash + i) * 0.5`. The
    floating-point sine is not modelled: an entry is kept as the integer it is computed
    from. */
module RagEmbedding {
  import opened JsBuiltins
  import opened TextEncoder

  const Dimensions: nat := 1536

  /** Stands for the Number `Math.sin(arg) * 0.5`. */
  datatype Component = HalfSine(arg: int)

  type Vector = seq<Component>

  /** One turn of the hash loop, `hash = ((hash << 5) - hash) + byte; hash = hash & hash`:
      `<<` and `&` convert to Int32, the subtraction and addition are exact. */
  function HashStep(hash: int, b: Byte): (h: int)
    ensures IsInt32(h)
  {
    ToInt32(ToInt32(hash * 32) - hash + b)
  }

  /** The hash of a byte string: the fold of `h <- ToInt32(31 * h + b)` from 0. */
  function HashBytes(data: seq<Byte>): (h: int)
    ensures IsInt32(h)
    decreases |data|
  {
    if data == [] then 0 else ToInt32(31 * HashBytes(data[..|data| - 1]) + data[|data| - 1])
  }

  /** The shift-and-subtract the source writes is the multiplication by 31, modulo 2^32. */
  lemma HashStepIsTimes31(hash: int, b: Byte)
    ensures HashStep(hash, b) == ToInt32(31 * hash + b)
  {
    var x := ToInt32(hash * 32) - hash + b;
    var y := 31 * hash + b;
    assert x - y == ToInt32(hash * 32) - hash * 32;
    assert (hash * 32 - ToInt32(hash * 32)) % TwoTo32 == 0;
    NegatedMultiple(hash * 32 - ToInt32(hash * 32));
    ToInt32Congruent(x, y);
  }

  lemma NegatedMultiple(d: int)
    requires d % TwoTo32 == 0
    ensures (-d) % TwoTo32 == 0
  {
    var k := d / TwoTo32;
    assert d == k * TwoTo32;
    assert -d == (-k) * TwoTo32;
  }

  /** The hash of the text's UTF-8 bytes. */
  function TextHash(text: string): (h: int)
    ensures IsInt32(h)
  {
    HashBytes(Encode(text))
  }

  /** The vector `generateEmbedding` returns for `text`. */
  function Embedding(text: string): (v: Vector)
    ensures |v| == Dimensions
  {
    var h := TextHash(text);
    seq(Dimensions, i requires 0 <= i < Dimensions => HalfSine(h + i))
  }

  /** The hash loop as the source runs it. */
  method HashText(text: string) returns (hash: int)
    ensures hash == TextHash(text)
    ensures IsInt32(hash)
  {
    var data := Encode(text);
    hash := 0;
    for i := 0 to |data|
      invariant hash == HashBytes(data[..i])
    {
      assert data[..i + 1][..i] == data[..i];
      HashStepIsTimes31(hash, data[i]);
      hash := ToInt32(ToInt32(hash * 32) - hash + data[i]);
    }
    assert data[..|data|] == data;
  }

  method GenerateEmbedding(text: string) returns (embedding: Vector)
    ensures embedding == Embedding(text)
    ensures |embedding| == Dimensions
  {
    var hash := HashText(text);
    embedding := [];
    for i := 0 to Dimensions
      invariant |embedding| == i
      invariant forall k :: 0 <= k < i ==> embedding[k] == HalfSine(hash + k)
    {
      embedding := embedding + [HalfSine(hash + i)];
    }
  }

  /** Two texts get the same vector exactly when their hashes agree. */
  lemma EmbeddingDeterminedByHash(a: string, b: string)
    ensures Embedding(a) == Embedding(b) <==> TextHash(a) == TextHash(b)
  {
    if Embedding(a) == Embedding(b) {
      assert Embedding(a)[0] == Embedding(b)[0];
    }
  }

  /** Different texts can share a vector: "Aa" and "BB" hash alike (65 * 31 + 97 == 66 * 31 + 66). */
  lemma EmbeddingCollision()
    ensures Embedding("Aa") == Embedding("BB")
  {
    EncodeAscii("Aa");
    EncodeAscii("BB");
    assert Encode("Aa") == [65, 97];
    assert Encode("BB") == [66, 66];
    assert [65, 97][..1] == [65];
    assert [66, 66][..1] == [66];
    assert HashBytes([65]) == 65 by { assert [65][..0] == []; }
    assert HashBytes([66]) == 66 by { assert [66][..0] == []; }
    IsInt32Fixed(31 * 65 + 97);
    IsInt32Fixed(31 * 66 + 66);
    EmbeddingDeterminedByHash("Aa", "BB");
  }
}
