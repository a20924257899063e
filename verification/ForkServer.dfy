/** The server that forks one child per connection: the child reads, upper-cases and writes back until end of file. */
module ForkServer {
  import opened Prelude
  import opened SelectSpec

  function Concat(chunks: seq<seq<byte>>): seq<byte> {
    if chunks == [] then [] else chunks[0] + Concat(chunks[1..])
  }

  /** A connection is the chunks its reads return up to the first empty one. */
  predicate Connection(chunks: seq<seq<byte>>) {
    forall k :: 0 <= k < |chunks| ==> 0 < |chunks[k]| <= MAXLINE
  }

  /** What the child of a connection writes, however its input is chunked. */
  function ChildOutput(chunks: seq<seq<byte>>): seq<byte> {
    Upper(Concat(chunks))
  }

  /** Upper-cases the first `n` bytes of the buffer in place. */
  method UpperInPlace(buf: array<byte>, n: nat)
    requires n <= buf.Length
    modifies buf
    ensures buf[..n] == Upper(old(buf[..n])) && InCapitals(old(buf[..n]), buf[..n])
    ensures buf[n..] == old(buf[n..])
  {
    var j := 0;
    while j < n
      invariant 0 <= j <= n
      invariant forall k :: 0 <= k < j ==> buf[k] == ToUpper(old(buf[k]))
      invariant forall k :: j <= k < buf.Length ==> buf[k] == old(buf[k])
    {
      buf[j] := ToUpper(buf[j]);
      j := j + 1;
    }
    assert buf[..n] == Upper(old(buf[..n]));
    UpperMeans(old(buf[..n]));
  }

  /** read: `chunk` arrives at the start of the buffer. */
  method ReadInto(buf: array<byte>, chunk: seq<byte>) returns (n: nat)
    requires |chunk| <= buf.Length
    modifies buf
    ensures n == |chunk| && buf[..n] == chunk && buf[n..] == old(buf[n..])
  {
    n := |chunk|;
    forall k | 0 <= k < n {
      buf[k] := chunk[k];
    }
  }

  lemma {:induction false} ConcatAppend(a: seq<seq<byte>>, b: seq<byte>)
    ensures Concat(a + [b]) == Concat(a) + b
  {
    if a == [] {
      assert a + [b] == [b];
    } else {
      assert (a + [b])[0] == a[0] && (a + [b])[1..] == a[1..] + [b];
      ConcatAppend(a[1..], b);
    }
  }

  lemma UpperAppend(a: seq<byte>, b: seq<byte>)
    ensures Upper(a + b) == Upper(a) + Upper(b)
  {
  }

  /** The child of one connection: all it writes is the whole input in upper case, however it was chunked. */
  method ServeChild(chunks: seq<seq<byte>>) returns (output: seq<byte>)
    requires Connection(chunks)
    ensures output == ChildOutput(chunks) && InCapitals(Concat(chunks), output)
  {
    var buf := new byte[MAXLINE](_ => 0);
    output := [];
    var c := 0;
    while true
      invariant 0 <= c <= |chunks| && buf.Length == MAXLINE && fresh(buf)
      invariant output == Upper(Concat(chunks[..c]))
      decreases |chunks| - c
    {
      var n := ReadInto(buf, if c < |chunks| then chunks[c] else []);
      if n == 0 {
        break;
      }
      UpperInPlace(buf, n);
      ghost var before := chunks[..c];
      assert chunks[..c + 1] == before + [chunks[c]];
      ConcatAppend(before, chunks[c]);
      UpperAppend(Concat(before), chunks[c]);
      output := output + buf[..n];
      c := c + 1;
    }
    assert chunks[..c] == chunks;
    UpperMeans(Concat(chunks));
  }
}
