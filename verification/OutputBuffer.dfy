/** The captured-output buffer: a list of chunks that keeps only the last bytes. */
module OutputBuffer {
  import opened Common

  type Bytes = seq<bv8>

  function Flat(chunks: seq<Bytes>): Bytes {
    if chunks == [] then [] else chunks[0] + Flat(chunks[1..])
  }

  lemma {:induction false} FlatAppend(chunks: seq<Bytes>, chunk: Bytes)
    ensures Flat(chunks + [chunk]) == Flat(chunks) + chunk
  {
    if chunks == [] {
      assert [chunk][1..] == [];
    } else {
      assert (chunks + [chunk])[1..] == chunks[1..] + [chunk];
      FlatAppend(chunks[1..], chunk);
    }
  }

  /** The last n bytes, or all of them when there are no more. */
  function Tail(s: Bytes, n: nat): (r: Bytes)
    ensures |r| == if |s| <= n then |s| else n
  {
    if |s| <= n then s else s[|s| - n..]
  }

  /** Only the last bytes of what is kept can still matter. */
  lemma TailOfTail(s: Bytes, more: Bytes, n: nat)
    ensures Tail(Tail(s, n) + more, n) == Tail(s + more, n)
  {
    var kept := Tail(s, n);
    if |kept + more| > n {
      assert (kept + more)[|kept + more| - n..] == (s + more)[|s + more| - n..];
    } else if |s| > n {
      assert more == [] && s + more == s && kept + more == kept;
    }
  }

  lemma DropTwice(s: Bytes, a: nat, b: nat)
    requires a + b <= |s|
    ensures s[a..][b..] == s[a + b..]
  {
  }

  lemma {:induction false} FlatTrim(chunks: seq<Bytes>, drop: nat)
    requires chunks != [] && drop < |chunks[0]|
    ensures Flat(chunks[0 := chunks[0][drop..]]) == Flat(chunks)[drop..]
  {
    assert chunks[0 := chunks[0][drop..]][1..] == chunks[1..];
  }

  datatype CapturedOutput = CapturedOutput(text: string, truncated: bool, totalBytes: nat)

  /** What a reader gets of everything written so far. */
  function Captured(all: Bytes, limit: nat, decode: Bytes -> string): CapturedOutput {
    var body := decode(Tail(all, limit));
    if |all| <= limit then CapturedOutput(body, false, |all|)
    else CapturedOutput(
      "[output truncated to last " + Decimal(limit) + " bytes; total " + Decimal(|all|) + " bytes]\n" + body, true, |all|)
  }

  class CapturedOutputBuffer {
    const limit: nat
    var chunks: seq<Bytes>
    var bufferedBytes: nat
    var totalBytes: nat
    var truncated: bool
    ghost var all: Bytes // everything that was ever appended

    ghost predicate Valid()
      reads this
    {
      && limit >= 1
      && Flat(chunks) == Tail(all, limit)
      && bufferedBytes == |Flat(chunks)|
      && totalBytes == |all|
      && (truncated <==> |all| > limit)
    }

    /** maxBytes after truncation to an integer. */
    constructor (maxBytes: int)
      ensures Valid() && limit == (if maxBytes < 1 then 1 else maxBytes) && all == []
    {
      limit := if maxBytes < 1 then 1 else maxBytes;
      chunks, bufferedBytes, totalBytes, truncated := [], 0, 0, false;
      all := [];
    }

    /** None stands for null and undefined. */
    method Append(chunk: Option<Bytes>)
      requires Valid()
      modifies this
      ensures Valid()
      ensures all == old(all) + if chunk.Some? then chunk.value else []
    {
      if chunk.None? || chunk.value == [] {
        assert all + [] == all;
        return;
      }
      var buffer := chunk.value;
      FlatAppend(chunks, buffer);
      TailOfTail(all, buffer, limit);
      chunks := chunks + [buffer];
      bufferedBytes := bufferedBytes + |buffer|;
      totalBytes := totalBytes + |buffer|;
      all := all + buffer;
      Trim();
    }

    /** The loop at the end of an append: whole chunks go first, then part of the oldest one left. */
    method Trim()
      requires bufferedBytes == |Flat(chunks)|
      modifies `chunks, `bufferedBytes, `truncated
      ensures Flat(chunks) == Tail(old(Flat(chunks)), limit) && bufferedBytes == |Flat(chunks)|
      ensures truncated <==> old(truncated) || old(bufferedBytes) > limit
    {
      ghost var held := Flat(chunks);
      ghost var dropped: nat := 0;
      while bufferedBytes > limit && |chunks| > 0
        invariant dropped <= |held| && Flat(chunks) == held[dropped..]
        invariant bufferedBytes == |held| - dropped && (bufferedBytes >= limit || dropped == 0)
        invariant old(truncated) || dropped > 0 ==> truncated
        invariant truncated ==> old(truncated) || |held| > limit
        decreases bufferedBytes, |chunks|
      {
        var overflow := bufferedBytes - limit;
        var head := chunks[0];
        if |head| <= overflow {
          DropTwice(held, dropped, |head|);
          chunks := chunks[1..];
          bufferedBytes := bufferedBytes - |head|;
          truncated := true;
          dropped := dropped + |head|;
          continue;
        }
        FlatTrim(chunks, overflow);
        DropTwice(held, dropped, overflow);
        chunks := chunks[0 := head[overflow..]];
        bufferedBytes := bufferedBytes - overflow;
        truncated := true;
        dropped := dropped + overflow;
      }
    }

    method Finish(decode: Bytes -> string) returns (r: CapturedOutput)
      requires Valid()
      ensures r == Captured(all, limit, decode)
    {
      var body := decode(Flat(chunks));
      if !truncated {
        return CapturedOutput(body, truncated, totalBytes);
      }
      return CapturedOutput(
        "[output truncated to last " + Decimal(limit) + " bytes; total " + Decimal(totalBytes) + " bytes]\n" + body,
        truncated, totalBytes);
    }
  }
}
