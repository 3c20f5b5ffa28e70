/** Copies into part of a buffer. */
module Buffers {

  /** A sequence with some of it replaced. */
  function Spliced<V>(s: seq<V>, src: seq<V>, at: nat): (t: seq<V>)
    requires at + |src| <= |s|
    ensures |t| == |s| && forall x :: 0 <= x < |s| ==> t[x] == if at <= x < at + |src| then src[x - at] else s[x]
  {
    s[..at] + src + s[at + |src|..]
  }

  method Copy<V>(src: seq<V>, dst: array<V>, at: nat)
    requires at + |src| <= dst.Length
    modifies dst
    ensures dst[..] == Spliced(old(dst[..]), src, at)
  {
    forall x | at <= x < at + |src| {
      dst[x] := src[x - at];
    }
  }
}
