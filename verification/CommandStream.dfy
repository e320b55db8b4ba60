/** The commands of `Commands` on the channel of `AnyWrites`: what a reader of the channel gets is what
    the peer wrote, whatever the network does to the packets. */
module CommandStream {
  import opened Bytes
  import opened Sequencing
  import opened Endpoint
  import TwoParty
  import opened AnyWrites
  import opened Commands
  import ExactBounds

  /** So far `x` has sent the front of the framed commands `written`, cut into chunks in any way, and
      its peer has read exactly the commands `read` off the channel. */
  ghost predicate Reads(w: Net, x: TwoParty.Side, written: seq<Command>, read: seq<Command>)
    requires NetShaped(w)
  {
    && AllFramable(written) && AllFramable(read)
    && Concat(Of(w, x).sent[0]) <= Frames(written)
    && Of(w, TwoParty.Other(x)).consumed[0] == Frames(read)
  }

  lemma FrontOfFrames(consumed: bytes, buffered: bytes, sent: bytes, all: bytes)
    requires consumed + buffered <= sent <= all
    ensures consumed + all[|consumed|..] == all
  {
    assert consumed == (consumed + buffered)[..|consumed|] == sent[..|consumed|] == all[..|consumed|];
  }

  /** In every run, of any segmentation, loss, duplication and order of arrival, the commands read
      are the first of the commands written. */
  lemma ReadIsWritten(moves: seq<Move>, w: Net, x: TwoParty.Side, written: seq<Command>, read: seq<Command>)
    requires Comes(moves, w) && NetShaped(w) && Reads(w, x, written, read)
    ensures |read| <= |written| && read == written[..|read|]
  {
    AnyRunIsPrefix(moves, w, x, 0);
    var r := Of(w, TwoParty.Other(x));
    FrontOfFrames(r.consumed[0], r.ep.channels[0].buffer, Concat(Of(w, x).sent[0]), Frames(written));
    FramesPrefix(read, written, Frames(written)[|Frames(read)|..]);
  }

  /** So the answer that `_read_response` returns is, in every run, the first command written that
      answers, of those not read before, and the commands behind it are still to be read. */
  lemma AnswerIsFirstWritten(moves: seq<Move>, w: Net, x: TwoParty.Side, ids: seq<nat>,
                             written: seq<Command>, earlier: seq<Command>, read: seq<Command>)
    returns (ahead: seq<Command>)
    requires Comes(moves, w) && NetShaped(w) && AllFramable(earlier) && AllFramable(read)
    requires Reads(w, x, written, earlier + read)
    requires read != [] && NoneAnswers(ids, read[..|read| - 1]) && Answers(ids, read[|read| - 1])
    ensures written == earlier + ahead && |read| <= |ahead|
    ensures NoneAnswers(ids, ahead[..|read| - 1]) && Answers(ids, ahead[|read| - 1])
    ensures AllFramable(ahead[|read|..])
    ensures Of(w, TwoParty.Other(x)).consumed[0] + Frames(ahead[|read|..]) == Frames(written)
  {
    AnyRunIsPrefix(moves, w, x, 0);
    hide Frames, NoneAnswers, Answers, Comes;
    var r := Of(w, TwoParty.Other(x));
    FrontOfFrames(r.consumed[0], r.ep.channels[0].buffer, Concat(Of(w, x).sent[0]), Frames(written));
    var rest := Frames(written)[|r.consumed[0]|..];
    FramesAppend(earlier, read);
    Associates(Frames(earlier), Frames(read), rest);
    ahead := Ahead(earlier, written, Frames(read) + rest);
    AnswerIsFirst(ids, read, ahead, rest);
  }

  lemma Associates(a: bytes, b: bytes, c: bytes)
    ensures a + b + c == a + (b + c)
  {
  }

  lemma Ahead(read: seq<Command>, written: seq<Command>, rest: bytes) returns (ahead: seq<Command>)
    requires AllFramable(read) && AllFramable(written) && Frames(read) + rest == Frames(written)
    ensures written == read + ahead && AllFramable(ahead) && rest == Frames(ahead)
  {
    FramesPrefix(read, written, rest);
    ahead := written[|read|..];
  }

  /** Every request that `make_cgi_request` makes has at most four chunks, so a normal return of the
      write of one can be trusted on a channel that carries such requests. */
  lemma RequestIsShort(path: string, user: string, password: string, f: TwoParty.Focus)
    requires MakeCgiRequest(path, user, password).Some?
    ensures |Chunks(MakeCgiRequest(path, user, password).value)| <= 4
    ensures f.limit == 4 && f.age <= HALF ==> ExactBounds.Secure(f)
  {
    EncodeAt(CgiText(path, user, password));
    var request := MakeCgiRequest(path, user, password).value;
    assert |request| == 55 + |path| + |user| + |password|;
    ChunksWhole(request);
    if f.limit == 4 && f.age <= HALF {
      ExactBounds.ShortAndYoung(f);
    }
  }
}
