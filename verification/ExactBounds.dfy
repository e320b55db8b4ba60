/** The two limits under which a normal return of `write` can be trusted are exact. */
module ExactBounds {
  import opened Bytes
  import opened Sequencing
  import opened Endpoint
  import opened TwoParty
  import opened TightBound
  import opened OldCopy

  /** A write on the stream in focus may return normally. */
  ghost predicate Returns(f: Focus, labels: seq<Label>, w: World) {
    f.c < CHANNELS && Reached(f, labels, w) && WorldShaped(w) && MayReturn(At(w, f.x)) && At(w, f.x).job.channel == f.c
  }

  /** The peer has got everything sent before the current write, and the whole payload behind it. */
  ghost predicate Delivered(f: Focus, w: World)
    requires f.c < CHANNELS && WorldShaped(w)
  {
    var s, r := At(w, f.x), At(w, Other(f.x));
    && s.job.Writing? && s.base[f.c] <= |s.sent[f.c]|
    && r.consumed[f.c] + r.ep.channels[f.c].buffer == Concat(s.sent[f.c][..s.base[f.c]]) + s.job.payload
  }

  /** A normal return means delivery in every run within the limits of the focus. */
  ghost predicate Secure(f: Focus) {
    forall labels, w | Returns(f, labels, w) :: Delivered(f, w)
  }

  lemma ShortAndYoung(f: Focus)
    requires f.limit <= REORDER_LIMIT + 1 && f.age <= HALF
    ensures Secure(f)
  {
    forall labels, w | Returns(f, labels, w)
      ensures Delivered(f, w)
    {
      ReturnMeansDelivered(f, labels, w);
    }
  }

  /** The run of `LongWriteCanFail`, seen as a return that cannot be trusted. */
  lemma LongIsLost(f: Focus, payload: bytes) returns (labels: seq<Label>, w: World)
    requires |Chunks(payload)| > STUCK && Wide(f, Chunks(payload))
    ensures Returns(f, labels, w) && !Delivered(f, w) && w.near.job == Writing(0, payload, [])
  {
    hide Reached, Exchange.Link, MayReturn;
    labels, w := LongWriteCanFail(f, payload);
    assert w.near.sent[0][..0] == [];
  }

  lemma OldIsWrong(f: Focus) returns (labels: seq<Label>, w: World)
    requires Slow(f)
    ensures Returns(f, labels, w) && !Delivered(f, w)
  {
    hide Reached, MayReturn, Concat;
    var all := seq(MODULUS + 1, i requires 0 <= i <= MODULUS => if i == 0 then [1] else [0]);
    labels, w := OldCopyMisleads(f, all);
    var front := Concat(all[..MODULUS]);
    assert (front + all[0])[|front|] != (front + all[MODULUS])[|front|];
  }

  /** For every limit on the chunks of a write and every age a data copy may reach, from 66 up, a
      normal return means delivery if and only if the limit is at most 65 and the age at most 2^15. */
  lemma SecureIff(f: Focus)
    requires f.x == Near && f.c == 0 && f.limit >= 1 && f.age >= 66
    ensures Secure(f) <==> f.limit <= 65 && f.age <= 0x8000
  {
    if f.limit > STUCK {
      var payload: bytes := seq((STUCK + 1) * CHUNK_BYTES, i => 0);
      ChunksWhole(payload);
      var labels, w := LongIsLost(f, payload);
    } else if f.age > HALF {
      var labels, w := OldIsWrong(f);
    } else {
      ShortAndYoung(f);
    }
  }

  /** Every run whose writes on the channel are no longer than this one delivers it. */
  ghost predicate SecurePayload(f: Focus, payload: bytes) {
    forall labels, w | Returns(f, labels, w) && At(w, f.x).job == Writing(f.c, payload, []) :: Delivered(f, w)
  }

  /** Payload by payload: one is delivered in every run if and only if it has at most 65 KiB. */
  lemma SecurePayloadIff(f: Focus, payload: bytes)
    requires f.x == Near && f.c == 0 && f.limit == |Chunks(payload)| && 65 < f.age <= 0x8000
    ensures SecurePayload(f, payload) <==> |payload| <= 65 * 1024
  {
    ChunksWhole(payload);
    if |Chunks(payload)| <= STUCK {
      ShortAndYoung(f);
    } else {
      var labels, w := LongIsLost(f, payload);
    }
  }
}
