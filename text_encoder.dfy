/** `new TextEncoder().encode(text)`: the UTF-8 form of a string (RFC 3629, section 3). */
module TextEncoder {
  import opened JsBuiltins

  type Byte = x: int | 0 <= x < 256

  predicate IsContinuation(b: int) { 0x80 <= b < 0xC0 }

  /** Number of bytes a UTF-8 sequence with lead byte `lead` occupies, or 0 for a byte that
      cannot start one (RFC 3629, section 4). */
  function SequenceLength(lead: int): int
  {
    if 0 <= lead < 0x80 then 1
    else if 0xC2 <= lead < 0xE0 then 2
    else if 0xE0 <= lead < 0xF0 then 3
    else if 0xF0 <= lead < 0xF5 then 4
    else 0
  }

  /** The bytes of one scalar value. */
  function EncodeScalar(c: char): (bs: seq<Byte>)
    ensures 1 <= |bs| <= 4
    ensures |bs| == SequenceLength(bs[0])
    ensures forall k :: 1 <= k < |bs| ==> IsContinuation(bs[k])
    ensures |bs| == 1 <==> c as int < 0x80
  {
    var v := c as int;
    if v < 0x80 then [v]
    else if v < 0x800 then [0xC0 + v / 64, 0x80 + v % 64]
    else if v < 0x10000 then [0xE0 + v / 4096, 0x80 + (v / 64) % 64, 0x80 + v % 64]
    else [0xF0 + v / 262144, 0x80 + (v / 4096) % 64, 0x80 + (v / 64) % 64, 0x80 + v % 64]
  }

  function Encode(s: string): (bs: seq<Byte>)
    ensures |s| <= |bs| <= 4 * |s|
  {
    if s == [] then [] else EncodeScalar(s[0]) + Encode(s[1..])
  }

  lemma {:induction false} EncodeConcat(s: string, t: string)
    ensures Encode(s + t) == Encode(s) + Encode(t)
    decreases |s|
  {
    if s == [] {
      assert s + t == t;
    } else {
      assert (s + t)[0] == s[0];
      assert (s + t)[1..] == s[1..] + t;
      EncodeConcat(s[1..], t);
    }
  }

  /** Text made only of ASCII characters encodes to one byte per character, its code. */
  lemma {:induction false} EncodeAscii(s: string)
    requires forall i :: 0 <= i < |s| ==> s[i] as int < 0x80
    ensures |Encode(s)| == |s|
    ensures forall i :: 0 <= i < |s| ==> Encode(s)[i] == s[i] as int
    decreases |s|
  {
    if s != [] {
      EncodeAscii(s[1..]);
    }
  }

  /** The scalar value a well-formed byte sequence of length 1 to 4 carries. */
  function DecodeScalar(bs: seq<Byte>): int
    requires 1 <= |bs| <= 4
  {
    var b := seq(|bs|, i requires 0 <= i < |bs| => bs[i] as int);
    if |b| == 1 then b[0]
    else if |b| == 2 then (b[0] - 0xC0) * 64 + (b[1] - 0x80)
    else if |b| == 3 then (b[0] - 0xE0) * 4096 + (b[1] - 0x80) * 64 + (b[2] - 0x80)
    else (b[0] - 0xF0) * 262144 + (b[1] - 0x80) * 4096 + (b[2] - 0x80) * 64 + (b[3] - 0x80)
  }

  /** Reads a byte sequence back into scalar values, sequence by sequence; None when a lead
      byte is not one or a sequence is cut short or lacks its continuation bytes. */
  function Decode(bs: seq<Byte>): Option<seq<int>>
    decreases |bs|
  {
    if bs == [] then Some([])
    else
      var n := SequenceLength(bs[0]);
      if n == 0 || |bs| < n || exists k :: 1 <= k < n && !IsContinuation(bs[k]) then None
      else
        match Decode(bs[n..])
        case None => None
        case Some(rest) => Some([DecodeScalar(bs[..n])] + rest)
  }

  lemma DecodeEncodeScalar(c: char)
    ensures DecodeScalar(EncodeScalar(c)) == c as int
  {
    var v := c as int;
    if v >= 0x800 && v < 0x10000 {
      assert v == (v / 4096) * 4096 + ((v / 64) % 64) * 64 + v % 64;
    } else if v >= 0x10000 {
      assert v == (v / 262144) * 262144 + ((v / 4096) % 64) * 4096 + ((v / 64) % 64) * 64 + v % 64;
    }
  }

  function Scalars(s: string): seq<int>
  {
    seq(|s|, i requires 0 <= i < |s| => s[i] as int)
  }

  /** The encoding loses nothing: decoding it gives back every scalar value, in order. */
  lemma {:induction false} DecodeEncode(s: string)
    ensures Decode(Encode(s)) == Some(Scalars(s))
    decreases |s|
  {
    if s != [] {
      var head := EncodeScalar(s[0]);
      var bs := Encode(s);
      assert bs == head + Encode(s[1..]);
      assert bs[0] == head[0];
      assert bs[..|head|] == head;
      assert SequenceLength(bs[0]) == |head|;
      assert forall k :: 1 <= k < |head| ==> IsContinuation(bs[k]);
      assert bs[|head|..] == Encode(s[1..]);
      DecodeEncode(s[1..]);
      DecodeEncodeScalar(s[0]);
      assert Scalars(s) == [s[0] as int] + Scalars(s[1..]);
    }
  }
}
