/** The reading thread: the file after its header, cut into reads of a fixed size. */
module Prefetch {
  import opened Nom
  import opened Sequences

  /** Reads are full, except the last, which is the rest of the file; none is empty. */
  ghost predicate CutInto(chunks: seq<Bytes>, readSize: nat) {
    forall k :: 0 <= k < |chunks| ==>
                  0 < |chunks[k]| <= readSize && (k < |chunks| - 1 ==> |chunks[k]| == readSize)
  }

  /** The reads so far are the file from `from` to `to`, all full until the file ends. */
  ghost predicate ReadUpTo(file: Bytes, from: nat, to: nat, readSize: nat, sent: seq<Bytes>) {
    && from <= to <= |file|
    && Flatten(sent) == file[from..to]
    && CutInto(sent, readSize)
    && (to < |file| ==> forall k :: 0 <= k < |sent| ==> |sent[k]| == readSize)
  }

  /** One more read continues the file where the reads before it ended. */
  lemma NextRead(file: Bytes, from: nat, to: nat, readSize: nat, sent: seq<Bytes>, size: nat)
    requires ReadUpTo(file, from, to, readSize, sent)
    requires 0 < size <= readSize && to + size <= |file| && (to + size < |file| ==> size == readSize)
    ensures ReadUpTo(file, from, to + size, readSize, sent + [file[to..to + size]])
  {
    var chunk := file[to..to + size];
    FlattenPush(sent, chunk);
    assert file[from..to + size] == file[from..to] + chunk;
  }

  lemma NoReadYet(file: Bytes, from: nat, readSize: nat)
    requires from <= |file|
    ensures ReadUpTo(file, from, from, readSize, [])
  {
  }

  lemma AllRead(file: Bytes, from: nat, readSize: nat, sent: seq<Bytes>)
    requires ReadUpTo(file, from, |file|, readSize, sent)
    ensures Flatten(sent) == file[from..] && CutInto(sent, readSize)
  {
  }

  class PrefetchReader {
    const file: Bytes
    const readSize: nat
    var processedLen: nat

    constructor (file: Bytes, processedLen: nat, readSize: nat)
      ensures this.file == file && this.readSize == readSize && this.processedLen == processedLen
    {
      this.file, this.readSize, this.processedLen := file, readSize, processedLen;
    }

    /** A buffer of the given size, filled. */
    method ReadExact(size: nat) returns (chunk: Bytes)
      requires processedLen + size <= |file|
      ensures chunk == file[processedLen..processedLen + size]
    {
      var pooledBuffer := new byte[size];
      Fill(pooledBuffer);
      chunk := pooledBuffer[..];
    }

    /** The recycled buffer is overwritten to its end: its old contents do not show. */
    method Fill(pooledBuffer: array<byte>)
      requires processedLen + pooledBuffer.Length <= |file|
      modifies pooledBuffer
      ensures pooledBuffer[..] == file[processedLen..processedLen + pooledBuffer.Length]
    {
      for k := 0 to pooledBuffer.Length
        invariant pooledBuffer[..k] == file[processedLen..processedLen + k]
      {
        pooledBuffer[k] := file[processedLen + k];
      }
      assert pooledBuffer[..pooledBuffer.Length] == pooledBuffer[..];
    }

    /** The whole loop: what is sent, put together, is the rest of the file. */
    method Start() returns (sent: seq<Bytes>)
      requires processedLen <= |file| && readSize > 0
      modifies this
      ensures Flatten(sent) == file[old(processedLen)..]
      ensures CutInto(sent, readSize)
      ensures processedLen == |file|
    {
      hide ReadUpTo, CutInto, Flatten;
      NoReadYet(file, processedLen, readSize);
      sent := [];
      while processedLen != |file|
        invariant processedLen <= |file|
        invariant ReadUpTo(file, old(processedLen), processedLen, readSize, sent)
        decreases |file| - processedLen
      {
        var remaining := |file| - processedLen;
        var nextSize := if remaining < readSize then remaining else readSize;
        var chunk := ReadExact(nextSize);
        NextRead(file, old(processedLen), processedLen, readSize, sent, nextSize);
        sent := sent + [chunk];
        processedLen := processedLen + nextSize;
      }
      AllRead(file, old(processedLen), readSize, sent);
    }
  }
}
