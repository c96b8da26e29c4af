/** What a slot's stream reads and writes, and what is lost once it has failed. */
module FileStreams {
  import opened InfoText
  import opened FileStore
  import opened FileManager
  import opened FileSafety
  import Bytes

  function Repeated<T>(x: T, n: nat): seq<T> {
    seq(n, _ => x)
  }

  /** Writing leaves what was there before and behind, and fills a gap with zeros. */
  lemma OverwriteAt(content: Content, position: nat, data: Content)
    ensures var r := Overwrite(content, position, data);
            && |r| == (if position + |data| < |content| then |content| else position + |data|)
            && forall k | 0 <= k < |r| ::
                 r[k] == if position <= k < position + |data| then data[k - position]
                         else if k < |content| then content[k] else 0
  {
  }

  /** A chunk read in the middle of a piece is the next 1024 bytes of it, or all that is left. */
  lemma NextChunk(nd: Node, id: nat, f: string, piece: nat, position: nat)
    requires (id, f) in nd.slots && !nd.slots[(id, f)].failed && nd.slots[(id, f)].stream == Reading(piece, position)
    requires (f, piece) in nd.store.pieces && nd.slots[(id, f)].size == |nd.store.pieces[(f, piece)]|
    requires position < |nd.store.pieces[(f, piece)]| < Bytes.U32_LIMIT
    ensures var bytes := nd.store.pieces[(f, piece)];
            var end := if position + 1024 < |bytes| then position + 1024 else |bytes|;
            NextBody(nd, (id, f)) ==
            nd.(sent := nd.sent + [(id, FileBody(f, bytes[position..end]))],
                slots := nd.slots[(id, f) := nd.slots[(id, f)].(stream := Reading(piece, end))])
  {
  }

  /** When less of the piece is there than its size was, the rest of the chunk is zeros, and the stream has failed. */
  lemma ShortPieceFails(nd: Node, id: nat, f: string, piece: nat, position: nat)
    requires (id, f) in nd.slots && !nd.slots[(id, f)].failed && nd.slots[(id, f)].stream == Reading(piece, position)
    requires (f, piece) in nd.store.pieces && nd.slots[(id, f)].size < Bytes.U32_LIMIT
    requires position <= |nd.store.pieces[(f, piece)]| < nd.slots[(id, f)].size
    requires |nd.store.pieces[(f, piece)]| < position + 1024
    ensures var there, size := nd.store.pieces[(f, piece)][position..], nd.slots[(id, f)].size;
            var n := if size - position < 1024 then size - position else 1024;
            NextBody(nd, (id, f)) ==
            nd.(sent := nd.sent + [(id, FileBody(f, there + Repeated(0, n - |there|)))],
                slots := nd.slots[(id, f) := nd.slots[(id, f)].(stream := Reading(piece, position + n), failed := true)])
  {
  }

  /** Bytes that come to a stream that was open already when the piece was asked for are written nowhere. */
  lemma {:induction false} FailedWritesNothing(nd: Node, id: nat, f: string, chunks: seq<Content>)
    requires (id, f) in nd.slots && nd.slots[(id, f)].failed
    ensures var events := seq(|chunks|, i requires 0 <= i < |chunks| => Message(id, FileBody(f, chunks[i])));
            AfterAll(nd, events).store == nd.store && AfterAll(nd, events).slots == nd.slots
  {
    var events := seq(|chunks|, i requires 0 <= i < |chunks| => Message(id, FileBody(f, chunks[i])));
    if chunks != [] {
      var init := chunks[..|chunks| - 1];
      FailedWritesNothing(nd, id, f, init);
      assert events[..|events| - 1] == seq(|init|, i requires 0 <= i < |init| => Message(id, FileBody(f, init[i])));
    }
  }

  /** A second request that comes while a piece is being sent makes the stream fail, and from then on every credit is
      spent on the same number of zero bytes; no end of the piece is ever sent. */
  lemma SecondRequestSendsZeros(nd: Node, id: nat, f: string, piece: nat)
    requires (id, f) in nd.slots && !nd.slots[(id, f)].stream.Closed? && Complete(nd.store, f)
    requires (f, piece) in nd.store.pieces && |nd.store.pieces[(f, piece)]| + 1 < Bytes.U32_LIMIT
    ensures var size := |nd.store.pieces[(f, piece)]|;
            var n := if size + 1 < 1024 then size + 1 else 1024;
            Handle(nd, id, FileRequest(f, piece)) ==
            nd.(slots := nd.slots[(id, f) := nd.slots[(id, f)].(failed := true, size := size)],
                sent := nd.sent + Repeated((id, FileBody(f, Repeated(0, n))), 128))
  {
    var size := |nd.store.pieces[(f, piece)]|;
    var asked := nd.(slots := nd.slots[(id, f) := nd.slots[(id, f)].(failed := true, size := size)]);
    FailedPack(asked, id, f, 128);
    hide Pack, Complete;
  }

  /** So does every credit that comes then. */
  lemma FailedSendsZeros(nd: Node, id: nat, f: string)
    requires (id, f) in nd.slots && !nd.slots[(id, f)].stream.Closed? && nd.slots[(id, f)].failed
    requires nd.slots[(id, f)].size + 1 < Bytes.U32_LIMIT
    ensures var n := if nd.slots[(id, f)].size + 1 < 1024 then nd.slots[(id, f)].size + 1 else 1024;
            Handle(nd, id, FileBodyResp(f)) ==
            nd.(sent := nd.sent + Repeated((id, FileBody(f, Repeated(0, n))), 128))
  {
    FailedPack(nd, id, f, 128);
    hide Pack;
  }

  lemma FailedNext(nd: Node, id: nat, f: string)
    requires (id, f) in nd.slots && !nd.slots[(id, f)].stream.Closed? && nd.slots[(id, f)].failed
    requires nd.slots[(id, f)].size + 1 < Bytes.U32_LIMIT
    ensures var n := if nd.slots[(id, f)].size + 1 < 1024 then nd.slots[(id, f)].size + 1 else 1024;
            NextBody(nd, (id, f)) == nd.(sent := nd.sent + [(id, FileBody(f, Repeated(0, n)))])
  {
    var slot := nd.slots[(id, f)];
    assert BytesLeft(slot) == slot.size + 1;
    assert nd.slots[(id, f) := slot] == nd.slots;
    var n := if slot.size + 1 < 1024 then slot.size + 1 else 1024;
    assert ZeroBytes(n) == Repeated(0, n);
  }

  lemma {:induction false} FailedPack(nd: Node, id: nat, f: string, credit: nat)
    requires (id, f) in nd.slots && !nd.slots[(id, f)].stream.Closed? && nd.slots[(id, f)].failed
    requires nd.slots[(id, f)].size + 1 < Bytes.U32_LIMIT
    ensures var n := if nd.slots[(id, f)].size + 1 < 1024 then nd.slots[(id, f)].size + 1 else 1024;
            Pack(nd, (id, f), credit) == nd.(sent := nd.sent + Repeated((id, FileBody(f, Repeated(0, n))), credit))
    decreases credit
  {
    var n := if nd.slots[(id, f)].size + 1 < 1024 then nd.slots[(id, f)].size + 1 else 1024;
    var out := (id, FileBody(f, Repeated(0, n)));
    if credit == 0 {
      assert nd.sent + Repeated(out, 0) == nd.sent;
    } else {
      FailedNext(nd, id, f);
      hide NextBody;
      FailedPack(NextBody(nd, (id, f)), id, f, credit - 1);
      assert [out] + Repeated(out, credit - 1) == Repeated(out, credit);
      assert nd.sent + [out] + Repeated(out, credit - 1) == nd.sent + ([out] + Repeated(out, credit - 1));
    }
  }

  /** Bytes that come while a piece is being read are not written anywhere, but stop the reading: the stream has failed. */
  lemma BodyStopsReading(nd: Node, id: nat, f: string, data: Content)
    requires (id, f) in nd.slots && nd.slots[(id, f)].stream.Reading?
    ensures var nd' := Handle(nd, id, FileBody(f, data));
            nd'.store == nd.store && nd'.slots == nd.slots[(id, f) := nd.slots[(id, f)].(failed := true)]
  {
  }

  /** Making a session ready for a file it already has a slot for leaves its stream where it is, but the next end of a piece
      takes piece 0 in, whatever the stream wrote. */
  lemma ReadyAgainForgetsPiece(nd: Node, id: nat, f: string)
    ensures var nd' := After(nd, ReadyFor(id, f));
            && (id, f) in nd'.slots && nd' == nd.(slots := nd.slots[(id, f) := nd'.slots[(id, f)]])
            && ((id, f) in nd.slots ==> nd'.slots[(id, f)] == nd.slots[(id, f)].(piece := 0))
            && ((id, f) !in nd.slots ==> nd'.slots[(id, f)] == Slot(Closed, false, 0, 0))
    ensures Handle(After(nd, ReadyFor(id, f)), id, FileEnd(f)) ==
            RequestNext(Closing(After(nd, ReadyFor(id, f)), (id, f)).(store := AddedPiece(nd.store, f, 0)), (id, f))
  {
    EndIsRequest(After(nd, ReadyFor(id, f)), (id, f));
    hide RequestNext, AddedPiece, Handle;
  }

  /** A session whose stream is closed takes no bytes and counts none; any other counts up to 128, and then gives a
      credit back and starts again. */
  lemma BodyCounts(nd: Node, id: nat, f: string, data: Content)
    requires (id, f) in nd.slots
    ensures var nd' := Handle(nd, id, FileBody(f, data));
            if nd.slots[(id, f)].stream.Closed? then nd' == nd
            else if nd.packs == 127 then nd'.packs == 0 && nd'.sent == nd.sent + [(id, FileBodyResp(f))]
            else nd.packs < 127 ==> nd'.packs == nd.packs + 1 && nd'.sent == nd.sent
  {
    hide Overwrite;
  }

  /** A credit that comes to a session that is writing a piece either closes its stream, or makes it fail. */
  lemma CreditStopsWriting(nd: Node, id: nat, f: string, piece: nat, position: nat)
    requires (id, f) in nd.slots && nd.slots[(id, f)].stream == Writing(piece, position) && !nd.slots[(id, f)].failed
    requires position < Bytes.U32_LIMIT && nd.slots[(id, f)].size + 1 < Bytes.U32_LIMIT
    ensures var nd' := Handle(nd, id, FileBodyResp(f));
            && (id, f) in nd'.slots && nd'.store == nd.store
            && (nd.slots[(id, f)].size == position ==> nd'.slots[(id, f)].stream == Closed && nd'.sent == nd.sent + [(id, FileEnd(f))])
            && (nd.slots[(id, f)].size != position ==>
                  nd'.slots[(id, f)].stream == Writing(piece, position) && nd'.slots[(id, f)].failed)
  {
    var key := (id, f);
    var next := NextBody(nd, key);
    assert Pack(nd, key, 128) == if next.slots[key].stream.Closed? then next else Pack(next, key, 127);
    if nd.slots[key].size != position {
      assert BytesLeft(nd.slots[key]) != 0 by { hide *; LeftOf(nd.slots[key], position); }
      assert next.slots[key].failed && next.slots[key].stream == Writing(piece, position) && next.slots[key].size == nd.slots[key].size;
      FailedPack(next, id, f, 127);
    }
    hide Pack;
  }

  lemma LeftOf(slot: Slot, position: nat)
    requires !slot.stream.Closed? && slot.stream.position == position && !slot.failed
    requires position < Bytes.U32_LIMIT && slot.size + 1 < Bytes.U32_LIMIT
    ensures BytesLeft(slot) == 0 <==> slot.size == position
  {
  }
}
