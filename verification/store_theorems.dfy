/** The store over whole runs, and the writer that keeps packets readable. */
module StoreTheorems {
  import opened Store
  import opened StoreSafety
  import opened Wrappers

  lemma RunStep(codec: Codec, states: seq<State>, i: nat) returns (a: Action)
    requires Sound(codec) && Run(codec, states) && 0 < i < |states|
    ensures Step(codec, states[i - 1], a) == Some(states[i])
    ensures Good(codec, states[i - 1], a.p, states[i])
  {
    assert NextAt(codec, states, i);
    a :| Step(codec, states[i - 1], a) == Some(states[i]);
    ReachableInv(codec, states, i - 1);
    StepGood(codec, states[i - 1], a, states[i]);
  }

  /** No complete object is ever changed, and it hashes to its name. */
  lemma {:induction false} CompleteForever(codec: Codec, states: seq<State>, i: nat, j: nat, h: Digest)
    requires Sound(codec) && Run(codec, states) && i <= j < |states| && Complete(states[i], h)
    ensures Complete(states[j], h) && states[j].objects[h] == states[i].objects[h]
    ensures codec.digest(states[j].objects[h]) == h
    decreases j - i
  {
    if i == j {
      ReachableInv(codec, states, i);
      assert ObjectFits(codec, states[i], h);
    } else {
      CompleteForever(codec, states, i, j - 1, h);
      var a := RunStep(codec, states, j);
      CompleteStays(codec, states[j - 1], a.p, states[j], h);
    }
  }

  lemma PublishedOverStep(codec: Codec, states: seq<State>, j: nat, path: Id)
    requires Sound(codec) && Run(codec, states) && 0 < j < |states| && path in states[j - 1].published
    ensures path in states[j].published && states[j].published[path] == states[j - 1].published[path]
  {
    var a := RunStep(codec, states, j);
    ReachablePublished(codec, states, j - 1, path);
    if a.p in states[j - 1].publishers { ReachableFits(codec, states, j - 1, a.p); }
    PublishedStays(codec, states[j - 1], a.p, states[j], path);
  }

  lemma {:induction false} PublishedForever(codec: Codec, states: seq<State>, i: nat, j: nat, path: Id)
    requires Sound(codec) && Run(codec, states) && i <= j < |states| && path in states[i].published
    ensures path in states[j].published && states[j].published[path] == states[i].published[path]
    decreases j - i
  {
    if i < j {
      PublishedForever(codec, states, i, j - 1, path);
      PublishedOverStep(codec, states, j, path);
    }
  }

  lemma ReachableFits(codec: Codec, states: seq<State>, i: nat, p: Publisher)
    requires Sound(codec) && Run(codec, states) && i < |states| && p in states[i].publishers
    ensures Fits(codec, states[i], p)
  {
    ReachableInv(codec, states, i);
  }

  /** Every published reference names an object that is complete and hashes to its name. */
  lemma ReachablePublished(codec: Codec, states: seq<State>, i: nat, path: Id)
    requires Sound(codec) && Run(codec, states) && i < |states| && path in states[i].published
    ensures PublishedFits(codec, states[i], path)
  {
    ReachableInv(codec, states, i);
  }

  /** Once a reference is published, every later load of it gives the persisted result,
      whoever else publishes, fails or crashes. */
  lemma PublishedLoadsForever(codec: Codec, states: seq<State>, i: nat, j: nat, path: Id)
    requires Sound(codec) && Run(codec, states) && i <= j < |states| && path in states[i].published
    ensures path in states[j].runs
    ensures LoadFile(codec, states[j].runs[path], states[j].objects) == Ok(states[i].published[path])
  {
    PublishedForever(codec, states, i, j, path);
    ReachablePublished(codec, states, j, path);
    EncodedReopens(codec, states[j].published[path], states[j].objects);
  }

  /** There is no other file in `runs/`: every reference there was published, so it loads. */
  lemma {:induction false} OnlyPublishedReferences(codec: Codec, states: seq<State>, i: nat)
    requires Sound(codec) && Run(codec, states) && i < |states|
    ensures states[i].runs.Keys == states[i].published.Keys
  {
    if i > 0 {
      OnlyPublishedReferences(codec, states, i - 1);
      var a := RunStep(codec, states, i);
    }
  }

  // ----- an interrupted upload -----

  /** Object `h` is incomplete and its creator has stopped. */
  ghost predicate Interrupted(s: State, h: Digest) {
    h in s.objects && !Complete(s, h) && forall p :: p in s.publishers ==> !Owns(s.publishers[p], h)
  }

  lemma StaysInterrupted(codec: Codec, s: State, p: Publisher, t: State, h: Digest)
    requires Good(codec, s, p, t) && Interrupted(s, h) && ObjectFits(codec, s, h)
    ensures Interrupted(t, h)
  {
    assert p in s.publishers ==> !Owns(s.publishers[p], h);
    forall q | q in t.publishers ensures !Owns(t.publishers[q], h) {
      assert q != p ==> t.publishers[q] == s.publishers[q];
    }
  }

  /** An interrupted upload is never completed by anyone, and its packet can never be
      published: nothing in the store repairs or removes the partial object. */
  lemma {:induction false} InterruptedForever(codec: Codec, states: seq<State>, i: nat, j: nat, h: Digest)
    requires Sound(codec) && Run(codec, states) && i <= j < |states| && Interrupted(states[i], h)
    ensures Interrupted(states[j], h)
    ensures forall path :: path in states[j].published && Encoded(codec, states[j].published[path]).Some? ==>
      codec.digest(Encoded(codec, states[j].published[path]).value) != h
    decreases j - i
  {
    ReachableInv(codec, states, j);
    if i < j {
      InterruptedForever(codec, states, i, j - 1, h);
      ReachableInv(codec, states, j - 1);
      var a := RunStep(codec, states, j);
      assert ObjectFits(codec, states[j - 1], h);
      StaysInterrupted(codec, states[j - 1], a.p, states[j], h);
    }
    forall path | path in states[j].published && Encoded(codec, states[j].published[path]).Some?
      ensures codec.digest(Encoded(codec, states[j].published[path]).value) != h
    {
      assert PublishedFits(codec, states[j], path);
    }
  }

  // ----- the bounded writer -----

  function Flatten(chunks: seq<Bytes>): Bytes {
    if chunks == [] then [] else chunks[0] + Flatten(chunks[1..])
  }

  lemma {:induction false} FlattenAppend(chunks: seq<Bytes>, chunk: Bytes)
    ensures Flatten(chunks + [chunk]) == Flatten(chunks) + chunk
  {
    if chunks == [] {
      assert Flatten([chunk]) == chunk + Flatten([]);
    } else {
      assert (chunks + [chunk])[1..] == chunks[1..] + [chunk];
      FlattenAppend(chunks[1..], chunk);
    }
  }

  lemma {:induction false} FlattenPrefix(chunks: seq<Bytes>, n: nat)
    requires n <= |chunks|
    ensures |Flatten(chunks[..n])| <= |Flatten(chunks)|
  {
    if n > 0 {
      assert chunks[..n][1..] == chunks[1..][..n - 1];
      FlattenPrefix(chunks[1..], n - 1);
    }
  }

  /** `Limited` of `encode_limited`: passes bytes on to an inner writer that may take fewer
      than offered, and refuses an offer larger than what remains. */
  class Limited {
    var accepted: Bytes
    var remaining: nat

    constructor (limit: nat)
      ensures accepted == [] && remaining == limit
    {
      accepted := [];
      remaining := limit;
    }

    /** One `write`; `None` is the storage-limit error. */
    method Write(bytes: Bytes) returns (count: Option<nat>)
      requires bytes != []
      modifies this
      ensures |bytes| > old(remaining) ==> count.None? && accepted == old(accepted) && remaining == old(remaining)
      ensures |bytes| <= old(remaining) ==>
        && count.Some? && 0 < count.value <= |bytes|
        && accepted == old(accepted) + bytes[..count.value] && remaining == old(remaining) - count.value
    {
      if |bytes| > remaining {
        return None;
      }
      var taken: nat :| 0 < taken <= |bytes|;
      accepted := accepted + bytes[..taken];
      remaining := remaining - taken;
      return Some(taken);
    }

    /** `write_all`: offers the rest again until the inner writer has taken everything. */
    method WriteAll(bytes: Bytes) returns (ok: bool)
      modifies this
      ensures ok == (|bytes| <= old(remaining))
      ensures ok ==> accepted == old(accepted) + bytes && remaining == old(remaining) - |bytes|
    {
      var done := 0;
      while done < |bytes|
        invariant done <= |bytes| && accepted == old(accepted) + bytes[..done]
        invariant remaining + done == old(remaining)
      {
        var count := Write(bytes[done..]);
        if count.None? { return false; }
        assert bytes[..done] + bytes[done..][..count.value] == bytes[..done + count.value];
        done := done + count.value;
      }
      assert bytes[..done] == bytes;
      return true;
    }
  }

  /** `encode_limited` on the chunks in which the serializer emits the JSON: however they
      are cut and however short the inner writes are, it succeeds exactly when both the JSON
      and its compression fit, and then returns the compression of the JSON. */
  method EncodeLimited(codec: Codec, chunks: seq<Bytes>, limit: nat) returns (packet: Option<Bytes>)
    ensures packet.Some? <==> |Flatten(chunks)| <= limit && |codec.gzip(Flatten(chunks))| <= limit
    ensures packet.Some? ==> packet.value == codec.gzip(Flatten(chunks))
  {
    var limited := new Limited(limit);
    for i := 0 to |chunks|
      invariant limited.accepted == Flatten(chunks[..i])
      invariant limited.remaining + |Flatten(chunks[..i])| == limit
    {
      var ok := limited.WriteAll(chunks[i]);
      assert chunks[..i + 1] == chunks[..i] + [chunks[i]];
      FlattenAppend(chunks[..i], chunks[i]);
      if !ok {
        FlattenPrefix(chunks, i + 1);
        return None;
      }
    }
    assert chunks[..|chunks|] == chunks;
    var bytes := codec.gzip(limited.accepted);
    packet := if |bytes| > limit then None else Some(bytes);
  }
}
