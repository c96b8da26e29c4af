/** A download over one reliable session that keeps the order of messages: an uploader that has the whole file and a
    downloader that lacks pieces of it. */
module Transfer {
  import opened InfoText
  import opened FileStore
  import opened FileTheorems
  import opened FileManager
  import opened Sha1Spec
  import Bytes

  /** The session's number at the uploader and at the downloader, and the file. */
  datatype Ends = Ends(u: nat, d: nat, f: string)

  /** The two nodes and the messages on their way between them. */
  datatype Link = Link(up: Node, down: Node, toUp: seq<FileMessage>, toDown: seq<FileMessage>)

  function Outbox(sent: seq<(nat, FileMessage)>): seq<FileMessage> {
    seq(|sent|, i requires 0 <= i < |sent| => sent[i].1)
  }

  function DeliverDown(e: Ends, l: Link): Link
    requires l.toDown != []
  {
    var down := Handle(l.down.(sent := []), e.d, l.toDown[0]);
    Link(l.up, down, l.toUp + Outbox(down.sent), l.toDown[1..])
  }

  function DeliverUp(e: Ends, l: Link): Link
    requires l.toUp != []
  {
    var up := Handle(l.up.(sent := []), e.u, l.toUp[0]);
    Link(up, l.down, l.toUp[1..], l.toDown + Outbox(up.sent))
  }

  /** The first message one way or the other is handled. */
  predicate Step(e: Ends, l: Link, l': Link) {
    (l.toDown != [] && l' == DeliverDown(e, l)) || (l.toUp != [] && l' == DeliverUp(e, l))
  }

  // ---------------------------------------------------------------- the two stores

  /** Everything the uploader has of the file matches its record, and its sizes fit in 32 bits. */
  ghost predicate UploaderOk(s: Store, f: string) {
    && Complete(s, f) && s.files[f].fileId == f && |s.files[f].pieces| <= NO_PIECE
    && forall i | 0 <= i < |s.files[f].pieces| ::
         PieceOk(s.pieces, s.files[f], i) && |s.pieces[(f, i)]| < Bytes.U32_LIMIT
  }

  function PieceAt(s: Store, f: string, i: nat): Content {
    PieceBytes(s, f, i)
  }

  predicate SamePiece(a: PieceInfo, b: PieceInfo) {
    a.size == b.size && a.sha1 == b.sha1
  }

  /** The two records agree, and the pieces the downloader has are the uploader's. */
  ghost predicate Matches(up: Store, down: Store, f: string) {
    && f in up.files && f in down.files && down.files[f].fileId == f
    && |down.files[f].pieces| == |up.files[f].pieces|
    && forall i | 0 <= i < |down.files[f].pieces| :: PieceMatches(up, down, f, i)
  }

  ghost predicate PieceMatches(up: Store, down: Store, f: string, i: nat)
    requires f in up.files && f in down.files && i < |down.files[f].pieces| == |up.files[f].pieces|
  {
    && SamePiece(down.files[f].pieces[i], up.files[f].pieces[i])
    && (down.files[f].pieces[i].state == Have ==>
          (f, i) in down.pieces && down.pieces[(f, i)] == PieceAt(up, f, i))
  }

  ghost predicate NoneOpen(s: Store, f: string) {
    f in s.files && forall p <- s.files[f].pieces :: p.state != Open
  }

  ghost predicate OnlyOpen(s: Store, f: string, i: nat) {
    && f in s.files && i < |s.files[f].pieces| && s.files[f].pieces[i].state == Open
    && forall j | 0 <= j < |s.files[f].pieces| && j != i :: s.files[f].pieces[j].state != Open
  }

  predicate MergedOk(s: Store, f: string) {
    f in s.files && s.files[f].fileName in s.merged
    && s.merged[s.files[f].fileName] == MergedFrom(s.pieces, s.files[f], 0)
  }

  // ---------------------------------------------------------------- phases

  /** How far the download has come.  `acks` counts the credits on their way to the uploader, `chunks` the bytes on
      their way to the downloader; `ended` says that the uploader has sent the end of the piece; `credit` is what the
      downloader's counter stood at when it asked for the piece. */
  datatype Phase =
    | Beginning
    | Asked(i: nat, acks: nat)
    | Fetching(i: nat, acks: nat, chunks: seq<Content>, ended: bool, credit: nat)
    | Finished(acks: nat)
    | Done

  function Acks(f: string, n: nat): seq<FileMessage> {
    seq(n, _ => FileBodyResp(f))
  }

  function Bodies(f: string, chunks: seq<Content>): seq<FileMessage> {
    seq(|chunks|, i requires 0 <= i < |chunks| => FileBody(f, chunks[i]))
  }

  function Ending(f: string, ended: bool): seq<FileMessage> {
    if ended then [FileEnd(f)] else []
  }

  predicate Idle(slots: map<Key, Slot>, key: Key) {
    key in slots && slots[key].stream.Closed?
  }

  /** The downloader writes at the end of what it has of piece `i`. */
  predicate WritesOn(down: Node, key: Key, i: nat) {
    && key in down.slots && (key.1, i) in down.store.pieces
    && down.slots[key].piece == i && !down.slots[key].failed
    && down.slots[key].stream == Writing(i, |down.store.pieces[(key.1, i)]|)
  }

  /** The uploader reads piece `i` at a position. */
  predicate ReadsOn(up: Node, key: Key, i: nat, position: nat) {
    && key in up.slots && !up.slots[key].failed && up.slots[key].stream == Reading(i, position)
    && up.slots[key].size == |PieceAt(up.store, key.1, i)| && position <= up.slots[key].size
  }

  /** What was received and what is on its way is what the uploader has read; every chunk sent on credit is on its
      way, counted, or given back. */
  ghost predicate Flow(e: Ends, l: Link, i: nat, acks: nat, chunks: seq<Content>, ended: bool, credit: nat)
    requires (e.f, i) in l.down.store.pieces
  {
    var came := l.down.store.pieces[(e.f, i)] + Concat(chunks);
    if ended then
      && Idle(l.up.slots, (e.u, e.f)) && came == PieceAt(l.up.store, e.f, i)
      && |chunks| + l.down.packs + PACK_SIZE * acks <= PACK_SIZE + credit
    else
      && |came| <= |PieceAt(l.up.store, e.f, i)| && ReadsOn(l.up, (e.u, e.f), i, |came|)
      && came == PieceAt(l.up.store, e.f, i)[..|came|]
      && |chunks| + l.down.packs + PACK_SIZE * acks == PACK_SIZE + credit
  }

  ghost predicate At(e: Ends, l: Link, ph: Phase) {
    match ph
    case Beginning =>
      && l.toUp == [] && l.toDown == [FileBegin(e.f)]
      && Idle(l.up.slots, (e.u, e.f)) && Idle(l.down.slots, (e.d, e.f))
      && NoneOpen(l.down.store, e.f) && !Complete(l.down.store, e.f)
    case Asked(i, acks) =>
      && l.toUp == Acks(e.f, acks) + [FileRequest(e.f, i)] && l.toDown == []
      && Idle(l.up.slots, (e.u, e.f)) && WritesOn(l.down, (e.d, e.f), i)
      && l.down.store.pieces[(e.f, i)] == [] && OnlyOpen(l.down.store, e.f, i)
    case Fetching(i, acks, chunks, ended, credit) =>
      && l.toUp == Acks(e.f, acks) && l.toDown == Bodies(e.f, chunks) + Ending(e.f, ended)
      && WritesOn(l.down, (e.d, e.f), i) && OnlyOpen(l.down.store, e.f, i)
      && credit < PACK_SIZE && Flow(e, l, i, acks, chunks, ended, credit)
    case Finished(acks) =>
      && l.toUp == Acks(e.f, acks) + [FileRequestEnd(e.f)] && l.toDown == []
      && Idle(l.up.slots, (e.u, e.f)) && (e.d, e.f) !in l.down.slots
      && Complete(l.down.store, e.f) && MergedOk(l.down.store, e.f)
    case Done =>
      && l.toUp == [] && l.toDown == []
      && (e.u, e.f) !in l.up.slots && (e.d, e.f) !in l.down.slots
      && Complete(l.down.store, e.f) && MergedOk(l.down.store, e.f)
  }

  ghost predicate InPhase(e: Ends, l: Link, ph: Phase) {
    && UploaderOk(l.up.store, e.f) && Matches(l.up.store, l.down.store, e.f) && l.down.packs < PACK_SIZE
    && At(e, l, ph)
  }

  // ---------------------------------------------------------------- what a pack sends

  /** A pack read from `position` on: its chunks, and whether it reached the end. */
  ghost predicate Packed(nd: Node, nd': Node, key: Key, i: nat, position: nat, credit: nat,
                         chunks: seq<Content>, ended: bool)
  {
    var bytes := PieceAt(nd.store, key.1, i);
    && nd'.store == nd.store && key in nd'.slots
    && Outbox(nd'.sent) == Outbox(nd.sent) + Bodies(key.1, chunks) + Ending(key.1, ended)
    && position + |Concat(chunks)| <= |bytes| && Concat(chunks) == bytes[position..position + |Concat(chunks)|]
    && (if ended then Idle(nd'.slots, key) && position + |Concat(chunks)| == |bytes| && |chunks| <= credit
        else ReadsOn(nd', key, i, position + |Concat(chunks)|) && |chunks| == credit)
    && (credit > 0 && !ended ==> Concat(chunks) != [])
  }

  lemma NextReads(nd: Node, key: Key, i: nat, position: nat)
    requires ReadsOn(nd, key, i, position) && |PieceAt(nd.store, key.1, i)| < Bytes.U32_LIMIT
    ensures var bytes, nd' := PieceAt(nd.store, key.1, i), NextBody(nd, key);
            var n := if |bytes| - position < CHUNK_SIZE then |bytes| - position else CHUNK_SIZE;
            && nd'.store == nd.store && key in nd'.slots
            && if position == |bytes| then
                 Idle(nd'.slots, key) && nd'.sent == nd.sent + [(key.0, FileEnd(key.1))]
               else
                 && ReadsOn(nd', key, i, position + n)
                 && nd'.sent == nd.sent + [(key.0, FileBody(key.1, bytes[position..position + n]))]
  {
    assert BytesLeft(nd.slots[key]) == |PieceAt(nd.store, key.1, i)| - position;
  }

  lemma OutboxNext(sent: seq<(nat, FileMessage)>, id: nat, msg: FileMessage)
    ensures Outbox(sent + [(id, msg)]) == Outbox(sent) + [msg]
  {
  }

  lemma BodiesNext(f: string, first: Content, others: seq<Content>)
    ensures Bodies(f, [first] + others) == [FileBody(f, first)] + Bodies(f, others)
  {
  }

  lemma {:induction false} PackSends(nd: Node, key: Key, i: nat, position: nat, credit: nat)
      returns (chunks: seq<Content>, ended: bool)
    requires ReadsOn(nd, key, i, position) && |PieceAt(nd.store, key.1, i)| < Bytes.U32_LIMIT
    ensures Packed(nd, Pack(nd, key, credit), key, i, position, credit, chunks, ended)
    decreases credit
  {
    var bytes := PieceAt(nd.store, key.1, i);
    chunks, ended := [], false;
    if credit == 0 {
      assert Outbox(nd.sent) + Bodies(key.1, []) + Ending(key.1, false) == Outbox(nd.sent);
      return;
    }
    NextReads(nd, key, i, position);
    var nd' := NextBody(nd, key);
    if position == |bytes| {
      ended := true;
      OutboxNext(nd.sent, key.0, FileEnd(key.1));
      assert Outbox(nd'.sent) == Outbox(nd.sent) + Bodies(key.1, []) + Ending(key.1, true);
    } else {
      var n := if |bytes| - position < CHUNK_SIZE then |bytes| - position else CHUNK_SIZE;
      var first := bytes[position..position + n];
      assert Pack(nd, key, credit) == Pack(nd', key, credit - 1);
      var others;
      others, ended := PackSends(nd', key, i, position + n, credit - 1);
      chunks := [first] + others;
      OutboxNext(nd.sent, key.0, FileBody(key.1, first));
      hide NextBody, Pack, PieceAt;
      PackJoins(nd, nd', Pack(nd', key, credit - 1), key, i, position, credit, first, others, ended);
    }
  }

  lemma PackJoins(nd: Node, nd': Node, nd'': Node, key: Key, i: nat, position: nat, credit: nat,
                  first: Content, others: seq<Content>, ended: bool)
    requires credit > 0 && nd'.store == nd.store && first != []
    requires var bytes := PieceAt(nd.store, key.1, i);
             position + |first| <= |bytes| && first == bytes[position..position + |first|]
    requires Outbox(nd'.sent) == Outbox(nd.sent) + [FileBody(key.1, first)]
    requires Packed(nd', nd'', key, i, position + |first|, credit - 1, others, ended)
    ensures Packed(nd, nd'', key, i, position, credit, [first] + others, ended)
  {
    hide PieceAt, ReadsOn, Idle, Outbox, Bodies;
    var chunks := [first] + others;
    assert chunks[0] == first && chunks[1..] == others;
    assert Concat(chunks) == first + Concat(others);
    BodiesNext(key.1, first, others);
    var out := Outbox(nd.sent);
    assert out + [FileBody(key.1, first)] + Bodies(key.1, others) == out + Bodies(key.1, chunks);
  }

  // ---------------------------------------------------------------- the uploader's steps

  lemma AcksFirst(f: string, n: nat, rest: seq<FileMessage>)
    requires n > 0
    ensures (Acks(f, n) + rest)[0] == FileBodyResp(f) && (Acks(f, n) + rest)[1..] == Acks(f, n - 1) + rest
  {
    assert (Acks(f, n) + rest)[1..] == Acks(f, n)[1..] + rest;
    assert Acks(f, n)[1..] == Acks(f, n - 1);
  }

  /** A credit for a piece already sent changes nothing. */
  lemma IdleCredit(nd: Node, id: nat, f: string)
    requires Idle(nd.slots, (id, f))
    ensures Handle(nd, id, FileBodyResp(f)) == nd
  {
    assert NextBody(nd, (id, f)) == nd;
  }

  /** The uploader opens the piece asked for and sends a first pack. */
  lemma Serves(nd: Node, id: nat, f: string, i: nat) returns (chunks: seq<Content>, ended: bool)
    requires UploaderOk(nd.store, f) && Idle(nd.slots, (id, f)) && nd.sent == []
    requires i < |nd.store.files[f].pieces|
    ensures var nd' := Handle(nd, id, FileRequest(f, i));
            && nd'.store == nd.store && Outbox(nd'.sent) == Bodies(f, chunks) + Ending(f, ended)
            && Concat(chunks) <= PieceAt(nd.store, f, i)
            && (if ended then Idle(nd'.slots, (id, f)) && Concat(chunks) == PieceAt(nd.store, f, i) && |chunks| <= PACK_SIZE
                else ReadsOn(nd', (id, f), i, |Concat(chunks)|) && |chunks| == PACK_SIZE)
  {
    var key := (id, f);
    assert PieceOk(nd.store.pieces, nd.store.files[f], i);
    hide Complete, Sha1Hex;
    var slot := OpenForReading(nd.slots[key], i, |nd.store.pieces[(f, i)]|);
    var nd1 := nd.(slots := nd.slots[key := slot]);
    assert ReadsOn(nd1, key, i, 0);
    assert Handle(nd, id, FileRequest(f, i)) == Pack(nd1, key, PACK_SIZE);
    hide Handle, Pack, UploaderOk;
    chunks, ended := PackSends(nd1, key, i, 0, PACK_SIZE);
    assert Outbox(nd1.sent) == [];
  }

  /** A credit while the uploader is reading makes it send another pack. */
  lemma ServesMore(nd: Node, id: nat, f: string, i: nat, position: nat) returns (chunks: seq<Content>, ended: bool)
    requires ReadsOn(nd, (id, f), i, position) && nd.sent == [] && |PieceAt(nd.store, f, i)| < Bytes.U32_LIMIT
    ensures var nd' := Handle(nd, id, FileBodyResp(f));
            && nd'.store == nd.store && Outbox(nd'.sent) == Bodies(f, chunks) + Ending(f, ended)
            && Packed(nd, nd', (id, f), i, position, PACK_SIZE, chunks, ended)
  {
    hide NextBody;
    chunks, ended := PackSends(nd, (id, f), i, position, PACK_SIZE);
    hide Pack, Packed;
    assert Packed(nd, Pack(nd, (id, f), PACK_SIZE), (id, f), i, position, PACK_SIZE, chunks, ended);
    PackedParts(nd, Pack(nd, (id, f), PACK_SIZE), (id, f), i, position, PACK_SIZE, chunks, ended);
    assert Outbox(nd.sent) == [];
  }

  lemma PackedParts(nd: Node, nd': Node, key: Key, i: nat, position: nat, credit: nat, chunks: seq<Content>, ended: bool)
    requires Packed(nd, nd', key, i, position, credit, chunks, ended)
    ensures nd'.store == nd.store && Outbox(nd'.sent) == Outbox(nd.sent) + Bodies(key.1, chunks) + Ending(key.1, ended)
  {
  }

  // ---------------------------------------------------------------- the downloader's steps

  function CountMissing(pieces: seq<PieceInfo>): nat {
    if pieces == [] then 0 else (if pieces[0].state == Have then 0 else 1) + CountMissing(pieces[1..])
  }

  lemma {:induction false} MissingChange(pieces: seq<PieceInfo>, i: nat, p: PieceInfo)
    requires i < |pieces|
    ensures CountMissing(pieces[i := p]) + (if pieces[i].state == Have then 0 else 1) ==
            CountMissing(pieces) + (if p.state == Have then 0 else 1)
  {
    if i > 0 {
      assert pieces[i := p][1..] == pieces[1..][i - 1 := p];
      MissingChange(pieces[1..], i - 1, p);
    } else {
      assert pieces[i := p][1..] == pieces[1..];
    }
  }

  function Missing(s: Store, f: string): nat {
    if f in s.files then CountMissing(s.files[f].pieces) else 0
  }

  /** The downloader, with no piece open and some missing, asks for the first of them. */
  lemma Asks(up: Store, nd: Node, key: Key) returns (i: nat)
    requires UploaderOk(up, key.1) && Matches(up, nd.store, key.1) && Idle(nd.slots, key)
    requires NoneOpen(nd.store, key.1) && !Complete(nd.store, key.1)
    ensures var nd' := RequestNext(nd, key);
            && WritesOn(nd', key, i) && nd'.store.pieces[(key.1, i)] == [] && OnlyOpen(nd'.store, key.1, i)
            && Matches(up, nd'.store, key.1) && nd'.packs == nd.packs
            && nd'.sent == nd.sent + [(key.0, FileRequest(key.1, i))]
            && Missing(nd'.store, key.1) == Missing(nd.store, key.1)
  {
    i := FirstMissing(up, nd.store, key.1);
    MissingChange(nd.store.files[key.1].pieces, i, nd.store.files[key.1].pieces[i].(state := Open));
    AskedMatches(up, nd.store, key.1, i);
    hide UploaderOk, FirstNone, Complete, Matches, CountMissing, Idle;
    AskedNode(nd, key, i);
  }

  lemma AskedNode(nd: Node, key: Key, i: nat)
    requires key.1 in nd.store.files && i < |nd.store.files[key.1].pieces| && i < NO_PIECE && !Complete(nd.store, key.1)
    requires ClaimNone(nd.store, key.1) == (SetState(nd.store, key.1, i, Open), Bytes.Some(i))
    requires Idle(nd.slots, key) && NoneOpen(nd.store, key.1)
    ensures var nd', s' := RequestNext(nd, key), SetState(nd.store, key.1, i, Open);
            && nd'.store == s'.(pieces := s'.pieces[(key.1, i) := []])
            && WritesOn(nd', key, i) && nd'.packs == nd.packs && OnlyOpen(nd'.store, key.1, i)
            && nd'.sent == nd.sent + [(key.0, FileRequest(key.1, i))]
  {
    assert i % Bytes.U16_LIMIT == i;
    hide Complete, ClaimNone;
  }

  lemma FirstMissing(up: Store, s: Store, f: string) returns (i: nat)
    requires UploaderOk(up, f) && Matches(up, s, f) && NoneOpen(s, f) && !Complete(s, f)
    ensures i < |s.files[f].pieces| && s.files[f].pieces[i].state == None && i < NO_PIECE
    ensures i == FirstNone(s.files[f].pieces) && ClaimNone(s, f) == (SetState(s, f, i, Open), Bytes.Some(i))
  {
    var pieces := s.files[f].pieces;
    i := FirstNone(pieces);
    var p :| p in pieces && p.state != Have;
    assert p.state == None && i < |pieces|;
  }

  lemma AskedMatches(up: Store, s: Store, f: string, i: nat)
    requires Matches(up, s, f) && i < |s.files[f].pieces| && s.files[f].pieces[i].state == None
    ensures var s' := SetState(s, f, i, Open);
            Matches(up, s'.(pieces := s'.pieces[(f, i) := []]), f)
  {
    var s' := SetState(s, f, i, Open);
    var s'' := s'.(pieces := s'.pieces[(f, i) := []]);
    forall j | 0 <= j < |s''.files[f].pieces|
      ensures PieceMatches(up, s'', f, j)
    {
      assert PieceMatches(up, s, f, j);
    }
  }

  lemma WrittenMatches(up: Store, s: Store, f: string, i: nat, content: Content)
    requires Matches(up, s, f) && i < |s.files[f].pieces| && s.files[f].pieces[i].state == Open
    ensures Matches(up, s.(pieces := s.pieces[(f, i) := content]), f)
  {
    var s' := s.(pieces := s.pieces[(f, i) := content]);
    forall j | 0 <= j < |s'.files[f].pieces|
      ensures PieceMatches(up, s', f, j)
    {
      assert PieceMatches(up, s, f, j);
    }
  }

  /** A chunk goes to the end of the piece and is counted. */
  lemma Takes(up: Store, nd: Node, key: Key, i: nat, data: Content)
    requires Matches(up, nd.store, key.1) && WritesOn(nd, key, i) && OnlyOpen(nd.store, key.1, i)
    requires nd.packs < PACK_SIZE && nd.sent == []
    ensures var nd' := Handle(nd, key.0, FileBody(key.1, data));
            && WritesOn(nd', key, i) && nd'.store.pieces[(key.1, i)] == nd.store.pieces[(key.1, i)] + data
            && OnlyOpen(nd'.store, key.1, i) && Matches(up, nd'.store, key.1)
            && nd'.store.files == nd.store.files
            && (if nd.packs + 1 == PACK_SIZE then nd'.packs == 0 && Outbox(nd'.sent) == Acks(key.1, 1)
                else nd'.packs == nd.packs + 1 && Outbox(nd'.sent) == Acks(key.1, 0))
  {
    var was := nd.store.pieces[(key.1, i)];
    assert Overwrite(was, |was|, data) == was + data;
    WrittenMatches(up, nd.store, key.1, i, was + data);
    hide Matches;
  }

  /** The last byte has come: the piece checks, and the downloader has it. */
  lemma EndAdds(up: Store, s: Store, f: string, i: nat)
    requires UploaderOk(up, f) && Matches(up, s, f) && OnlyOpen(s, f, i)
    requires (f, i) in s.pieces && s.pieces[(f, i)] == PieceAt(up, f, i)
    ensures var s' := AddedPiece(s, f, i);
            && Matches(up, s', f) && NoneOpen(s', f) && Missing(s', f) + 1 == Missing(s, f)
            && (Complete(s', f) ==> MergedOk(s', f))
  {
    EndChecks(up, s, f, i);
    hide PieceOk, UploaderOk, MergedFrom;
    var s' := AddedPiece(s, f, i);
    MissingChange(s.files[f].pieces, i, s.files[f].pieces[i].(state := Have));
    assert s'.files[f] == SetState(s, f, i, Have).files[f] && s'.pieces == s.pieces;
    hide AddedPiece, CountMissing;
    forall j | 0 <= j < |s'.files[f].pieces|
      ensures PieceMatches(up, s', f, j) && s'.files[f].pieces[j].state != Open
    {
      assert PieceMatches(up, s, f, j);
    }
  }

  lemma EndChecks(up: Store, s: Store, f: string, i: nat)
    requires UploaderOk(up, f) && Matches(up, s, f) && OnlyOpen(s, f, i)
    requires (f, i) in s.pieces && s.pieces[(f, i)] == PieceAt(up, f, i)
    ensures PieceOk(s.pieces, s.files[f], i)
  {
    hide Sha1Hex;
    assert PieceMatches(up, s, f, i) && PieceOk(up.pieces, up.files[f], i);
  }

  // ---------------------------------------------------------------- what every step counts down

  /** 3 before the downloader has asked for anything, 2 while a request is on its way, 0 when all is over. */
  function Stage(e: Ends, l: Link): nat {
    if l.toDown != [] && l.toDown[0].FileBegin? then 3
    else if l.toUp != [] && l.toUp[|l.toUp| - 1].FileRequest? then 2
    else if (e.u, e.f) in l.up.slots then 1
    else 0
  }

  /** One more than the bytes the uploader still has to read, or nothing when its stream is closed. */
  function Left(up: Node, key: Key): nat {
    if key in up.slots && up.slots[key].stream.Reading? && up.slots[key].stream.position <= up.slots[key].size then
      up.slots[key].size - up.slots[key].stream.position + 1
    else 0
  }

  datatype Rank = Rank(missing: nat, stage: nat, left: nat, messages: nat)

  /** What is still to do: pieces, then requests, then bytes, then messages. */
  function RankOf(e: Ends, l: Link): Rank {
    Rank(Missing(l.down.store, e.f), Stage(e, l), Left(l.up, (e.u, e.f)), |l.toUp| + 2 * |l.toDown|)
  }

  predicate Less(a: Rank, b: Rank) {
    || a.missing < b.missing
    || (a.missing == b.missing && a.stage < b.stage)
    || (a.missing == b.missing && a.stage == b.stage && a.left < b.left)
    || (a.missing == b.missing && a.stage == b.stage && a.left == b.left && a.messages < b.messages)
  }

  /** The credit of a piece is what the downloader's counter stood at when the uploader took the request. */
  predicate SameCredit(l: Link, ph: Phase, ph': Phase) {
    && (ph.Fetching? && ph'.Fetching? ==> ph'.i == ph.i && ph'.credit == ph.credit)
    && (ph.Asked? && ph'.Fetching? ==> ph'.i == ph.i && ph'.credit == l.down.packs)
    && (ph'.Fetching? ==> ph.Fetching? || ph.Asked?)
  }

  ghost predicate Moves(e: Ends, l: Link, l': Link, ph: Phase, ph': Phase) {
    InPhase(e, l', ph') && Less(RankOf(e, l'), RankOf(e, l)) && SameCredit(l, ph, ph')
  }

  /** The phase after the downloader has asked for a piece or given the file up. */
  lemma AfterAsking(e: Ends, up: Node, down: Node, acks: nat) returns (ph: Phase)
    requires UploaderOk(up.store, e.f) && Matches(up.store, down.store, e.f) && down.packs < PACK_SIZE
    requires Idle(up.slots, (e.u, e.f)) && Idle(down.slots, (e.d, e.f)) && down.sent == []
    requires NoneOpen(down.store, e.f) && (Complete(down.store, e.f) ==> MergedOk(down.store, e.f))
    ensures var down' := RequestNext(down, (e.d, e.f));
            var l' := Link(up, down', Acks(e.f, acks) + Outbox(down'.sent), []);
            && InPhase(e, l', ph) && (ph.Asked? || ph.Finished?)
            && Missing(down'.store, e.f) == Missing(down.store, e.f) && Stage(e, l') <= 2
  {
    hide UploaderOk, MergedOk, OnlyOpen, WritesOn, Matches;
    var down' := RequestNext(down, (e.d, e.f));
    if Complete(down.store, e.f) {
      assert Outbox(down'.sent) == [FileRequestEnd(e.f)];
      ph := Finished(acks);
    } else {
      var i := Asks(up.store, down, (e.d, e.f));
      hide RequestNext, NoneOpen, Complete;
      assert Outbox(down'.sent) == [FileRequest(e.f, i)];
      ph := Asked(i, acks);
    }
  }

  lemma FromBeginning(e: Ends, l: Link, l': Link, ph: Phase) returns (ph': Phase)
    requires InPhase(e, l, ph) && ph.Beginning? && Step(e, l, l')
    ensures Moves(e, l, l', ph, ph')
  {
    hide UploaderOk, MergedOk, OnlyOpen, WritesOn, Matches, RequestNext, NoneOpen, Complete;
    var down := l.down.(sent := []);
    ph' := AfterAsking(e, l.up, down, 0);
    assert l' == DeliverDown(e, l);
    var down' := RequestNext(down, (e.d, e.f));
    assert l'.down == down' && l'.toUp == Outbox(down'.sent) && l'.toDown == [];
    assert Acks(e.f, 0) + Outbox(down'.sent) == l'.toUp;
    assert l' == Link(l.up, down', Acks(e.f, 0) + Outbox(down'.sent), []);
  }

  /** An idle uploader throws a credit away. */
  lemma CreditDropped(e: Ends, l: Link, n: nat, rest: seq<FileMessage>)
    requires n > 0 && l.toUp == Acks(e.f, n) + rest && Idle(l.up.slots, (e.u, e.f))
    ensures var l' := DeliverUp(e, l);
            && l' == l.(up := l.up.(sent := []), toUp := Acks(e.f, n - 1) + rest)
            && Left(l'.up, (e.u, e.f)) == Left(l.up, (e.u, e.f)) && |l'.toUp| + 1 == |l.toUp|
  {
    AcksFirst(e.f, n, rest);
    IdleCredit(l.up.(sent := []), e.u, e.f);
    hide Handle;
    assert Outbox([]) == [];
    assert l.toDown + [] == l.toDown;
  }

  lemma FromAsked(e: Ends, l: Link, l': Link, ph: Phase) returns (ph': Phase)
    requires InPhase(e, l, ph) && ph.Asked? && Step(e, l, l')
    ensures Moves(e, l, l', ph, ph')
  {
    hide UploaderOk, OnlyOpen, WritesOn, Matches, Handle;
    if ph.acks > 0 {
      CreditDropped(e, l, ph.acks, [FileRequest(e.f, ph.i)]);
      ph' := Asked(ph.i, ph.acks - 1);
    } else {
      ph' := FromRequest(e, l, l', ph);
    }
  }

  lemma FlowStarts(e: Ends, l: Link, i: nat, chunks: seq<Content>, ended: bool)
    requires (e.f, i) in l.down.store.pieces && l.down.store.pieces[(e.f, i)] == []
    requires Concat(chunks) <= PieceAt(l.up.store, e.f, i)
    requires if ended then
               Idle(l.up.slots, (e.u, e.f)) && Concat(chunks) == PieceAt(l.up.store, e.f, i) && |chunks| <= PACK_SIZE
             else ReadsOn(l.up, (e.u, e.f), i, |Concat(chunks)|) && |chunks| == PACK_SIZE
    ensures Flow(e, l, i, 0, chunks, ended, l.down.packs)
  {
    assert [] + Concat(chunks) == Concat(chunks);
    hide PieceAt, Concat, ReadsOn, Idle;
  }

  lemma PieceCounts(up: Store, down: Store, f: string, i: nat)
    requires Matches(up, down, f) && OnlyOpen(down, f, i)
    ensures f in up.files && i < |up.files[f].pieces|
  {
  }

  lemma FromRequest(e: Ends, l: Link, l': Link, ph: Phase) returns (ph': Phase)
    requires InPhase(e, l, ph) && ph.Asked? && ph.acks == 0 && Step(e, l, l')
    ensures Moves(e, l, l', ph, ph')
  {
    RequestArrives(e, l, l', ph);
    hide *;
    var chunks, ended := Serves(l.up.(sent := []), e.u, e.f, ph.i);
    ph' := Fetching(ph.i, 0, chunks, ended, l.down.packs);
    FlowStarts(e, l', ph.i, chunks, ended);
    Fetches(e, l, l', ph, ph');
  }

  lemma RequestArrives(e: Ends, l: Link, l': Link, ph: Phase)
    requires InPhase(e, l, ph) && ph.Asked? && ph.acks == 0 && Step(e, l, l')
    ensures var up := l.up.(sent := []);
            && UploaderOk(up.store, e.f) && Idle(up.slots, (e.u, e.f)) && up.sent == []
            && e.f in up.store.files && ph.i < |up.store.files[e.f].pieces|
            && (e.f, ph.i) in l.down.store.pieces && l.down.store.pieces[(e.f, ph.i)] == []
            && l.toUp == [FileRequest(e.f, ph.i)] && l.toDown == []
            && var up' := Handle(up, e.u, FileRequest(e.f, ph.i));
            l' == Link(up', l.down, Acks(e.f, 0), Outbox(up'.sent))
  {
    PieceCounts(l.up.store, l.down.store, e.f, ph.i);
    hide UploaderOk, Matches, Handle, OnlyOpen, Outbox;
    assert l.toUp == [FileRequest(e.f, ph.i)];
    assert l.toUp[1..] == Acks(e.f, 0);
    var up' := Handle(l.up.(sent := []), e.u, FileRequest(e.f, ph.i));
    assert [] + Outbox(up'.sent) == Outbox(up'.sent);
  }

  lemma Fetches(e: Ends, l: Link, l': Link, ph: Phase, ph': Phase)
    requires InPhase(e, l, ph) && ph.Asked? && l.toUp != [] && l.toUp[|l.toUp| - 1].FileRequest? && l.toDown == []
    requires l'.down == l.down && l'.up.store == l.up.store && l'.toUp == Acks(e.f, 0)
    requires ph'.Fetching? && ph' == Fetching(ph.i, 0, ph'.chunks, ph'.ended, l.down.packs)
    requires l'.toDown == Bodies(e.f, ph'.chunks) + Ending(e.f, ph'.ended)
    requires (e.f, ph.i) in l.down.store.pieces && Flow(e, l', ph.i, 0, ph'.chunks, ph'.ended, l.down.packs)
    ensures Moves(e, l, l', ph, ph')
  {
    hide UploaderOk, Matches, OnlyOpen, WritesOn, Flow, Bodies, Missing;
    NotBeginning(e.f, ph'.chunks, ph'.ended);
  }

  lemma NotBeginning(f: string, chunks: seq<Content>, ended: bool)
    ensures var msgs := Bodies(f, chunks) + Ending(f, ended); msgs == [] || !msgs[0].FileBegin?
  {
  }

  lemma FromFinished(e: Ends, l: Link, l': Link, ph: Phase) returns (ph': Phase)
    requires InPhase(e, l, ph) && ph.Finished? && Step(e, l, l')
    ensures Moves(e, l, l', ph, ph')
  {
    hide UploaderOk, MergedOk, Matches, Complete;
    if ph.acks > 0 {
      hide Handle;
      CreditDropped(e, l, ph.acks, [FileRequestEnd(e.f)]);
      ph' := Finished(ph.acks - 1);
    } else {
      assert l.toUp == [FileRequestEnd(e.f)];
      assert Outbox([]) == [];
      ph' := Done;
    }
  }

  // ---------------------------------------------------------------- while a piece is on its way

  lemma {:induction false} ConcatJoins(a: seq<Content>, b: seq<Content>)
    ensures Concat(a + b) == Concat(a) + Concat(b)
  {
    if a == [] {
      assert a + b == b;
    } else {
      assert (a + b)[1..] == a[1..] + b;
      ConcatJoins(a[1..], b);
    }
  }

  lemma AcksJoin(f: string, m: nat, n: nat)
    ensures Acks(f, m) + Acks(f, n) == Acks(f, m + n)
  {
  }

  lemma BodiesFirst(f: string, chunks: seq<Content>, ended: bool)
    requires chunks != []
    ensures var msgs := Bodies(f, chunks) + Ending(f, ended);
            msgs[0] == FileBody(f, chunks[0]) && msgs[1..] == Bodies(f, chunks[1..]) + Ending(f, ended)
  {
    assert (Bodies(f, chunks) + Ending(f, ended))[1..] == Bodies(f, chunks)[1..] + Ending(f, ended);
    assert Bodies(f, chunks)[1..] == Bodies(f, chunks[1..]);
  }

  lemma BodiesJoin(f: string, a: seq<Content>, b: seq<Content>)
    ensures Bodies(f, a + b) == Bodies(f, a) + Bodies(f, b)
  {
  }

  /** While a piece is fetched, the stage is 1. */
  lemma FetchingStage(e: Ends, l: Link, acks: nat, chunks: seq<Content>, ended: bool)
    requires l.toUp == Acks(e.f, acks) && l.toDown == Bodies(e.f, chunks) + Ending(e.f, ended)
    requires (e.u, e.f) in l.up.slots
    ensures Stage(e, l) == 1
  {
    NotBeginning(e.f, chunks, ended);
  }

  lemma WritesPlace(down: Node, key: Key, i: nat)
    requires WritesOn(down, key, i)
    ensures (key.1, i) in down.store.pieces
  {
  }

  lemma FlowSlot(e: Ends, l: Link, i: nat, acks: nat, chunks: seq<Content>, ended: bool, credit: nat)
    requires (e.f, i) in l.down.store.pieces && Flow(e, l, i, acks, chunks, ended, credit)
    ensures (e.u, e.f) in l.up.slots
  {
  }

  /** A chunk moves from the session to the piece. */
  lemma FlowTakes(e: Ends, l: Link, l': Link, i: nat, acks: nat, acks': nat, chunks: seq<Content>, ended: bool, credit: nat)
    requires (e.f, i) in l.down.store.pieces && (e.f, i) in l'.down.store.pieces && chunks != []
    requires Flow(e, l, i, acks, chunks, ended, credit) && l'.up == l.up
    requires l'.down.store.pieces[(e.f, i)] == l.down.store.pieces[(e.f, i)] + chunks[0]
    requires l'.down.packs + PACK_SIZE * acks' == l.down.packs + 1 + PACK_SIZE * acks
    ensures Flow(e, l', i, acks', chunks[1..], ended, credit)
  {
    var was := l.down.store.pieces[(e.f, i)];
    assert was + chunks[0] + Concat(chunks[1..]) == was + Concat(chunks);
    hide PieceAt, ReadsOn, Idle;
  }

  lemma FromChunk(e: Ends, l: Link, ph: Phase) returns (ph': Phase)
    requires InPhase(e, l, ph) && ph.Fetching? && ph.chunks != []
    ensures l.toDown != [] && Moves(e, l, DeliverDown(e, l), ph, ph')
  {
    hide UploaderOk, Matches, OnlyOpen, WritesOn, Flow, Handle, Missing;
    BodiesFirst(e.f, ph.chunks, ph.ended);
    var down := l.down.(sent := []);
    TakesHere(e, l, ph);
    var l' := DeliverDown(e, l);
    WritesPlace(l'.down, (e.d, e.f), ph.i);
    var more := if l.down.packs + 1 == PACK_SIZE then 1 else 0;
    AcksJoin(e.f, ph.acks, more);
    ph' := Fetching(ph.i, ph.acks + more, ph.chunks[1..], ph.ended, ph.credit);
    FlowTakes(e, l, l', ph.i, ph.acks, ph.acks + more, ph.chunks, ph.ended, ph.credit);
    FlowSlot(e, l, ph.i, ph.acks, ph.chunks, ph.ended, ph.credit);
    FetchingStage(e, l, ph.acks, ph.chunks, ph.ended);
    FetchingStage(e, l', ph'.acks, ph'.chunks, ph'.ended);
    MissingSame(l.down.store, l'.down.store, e.f);
  }

  lemma MissingSame(s: Store, s': Store, f: string)
    requires s'.files == s.files
    ensures Missing(s', f) == Missing(s, f)
  {
  }

  lemma TakesHere(e: Ends, l: Link, ph: Phase)
    requires InPhase(e, l, ph) && ph.Fetching? && ph.chunks != [] && l.toDown != []
    requires l.toDown[0] == FileBody(e.f, ph.chunks[0])
    ensures var l' := DeliverDown(e, l);
            var more := if l.down.packs + 1 == PACK_SIZE then 1 else 0;
            && l'.toUp == l.toUp + Acks(e.f, more) && l'.up == l.up && l'.toDown == l.toDown[1..]
            && (e.f, ph.i) in l.down.store.pieces && WritesOn(l'.down, (e.d, e.f), ph.i)
            && l'.down.store.pieces[(e.f, ph.i)] == l.down.store.pieces[(e.f, ph.i)] + ph.chunks[0]
            && OnlyOpen(l'.down.store, e.f, ph.i) && Matches(l.up.store, l'.down.store, e.f)
            && l'.down.store.files == l.down.store.files && l'.down.packs < PACK_SIZE
            && l'.down.packs + PACK_SIZE * more == l.down.packs + 1
  {
    hide UploaderOk, Matches, OnlyOpen, Flow, Handle, Bodies;
    Takes(l.up.store, l.down.(sent := []), (e.d, e.f), ph.i, ph.chunks[0]);
  }

  lemma FromEnd(e: Ends, l: Link, ph: Phase) returns (ph': Phase)
    requires InPhase(e, l, ph) && ph.Fetching? && ph.chunks == [] && ph.ended
    ensures l.toDown != [] && Moves(e, l, DeliverDown(e, l), ph, ph')
  {
    assert l.toDown == [FileEnd(e.f)];
    EndArrives(e, l, ph);
    FlowSlot(e, l, ph.i, ph.acks, ph.chunks, ph.ended, ph.credit);
    var down := Ended(e, l.down, ph.i);
    EndParts(e, l, ph);
    hide *;
    ph' := AfterAsking(e, l.up, down, ph.acks);
    EndMoves(e, l, DeliverDown(e, l), ph, ph');
  }

  lemma EndParts(e: Ends, l: Link, ph: Phase)
    requires InPhase(e, l, ph) && ph.Fetching? && (e.d, e.f) in l.down.slots
    ensures UploaderOk(l.up.store, e.f) && l.toUp == Acks(e.f, ph.acks)
    ensures var down := Ended(e, l.down, ph.i); down.packs == l.down.packs < PACK_SIZE && down.sent == []
  {
    hide UploaderOk, Matches, OnlyOpen, WritesOn, Flow, AddedPiece;
  }

  lemma EndMoves(e: Ends, l: Link, l': Link, ph: Phase, ph': Phase)
    requires InPhase(e, l', ph') && ph.Fetching? && (ph'.Asked? || ph'.Finished?)
    requires Missing(l'.down.store, e.f) < Missing(l.down.store, e.f)
    ensures Moves(e, l, l', ph, ph')
  {
    hide InPhase, Missing, Stage, Left;
  }

  /** The downloader's node when the piece has been closed and added. */
  function Ended(e: Ends, down: Node, i: nat): Node
    requires (e.d, e.f) in down.slots
  {
    down.(slots := down.slots[(e.d, e.f) := Close(down.slots[(e.d, e.f)])],
          store := AddedPiece(down.store, e.f, i), sent := [])
  }

  lemma EndArrives(e: Ends, l: Link, ph: Phase)
    requires InPhase(e, l, ph) && ph.Fetching? && ph.chunks == [] && ph.ended && l.toDown == [FileEnd(e.f)]
    ensures (e.d, e.f) in l.down.slots && Idle(l.up.slots, (e.u, e.f))
    ensures var down := Ended(e, l.down, ph.i);
            && DeliverDown(e, l) == Link(l.up, RequestNext(down, (e.d, e.f)),
                                         l.toUp + Outbox(RequestNext(down, (e.d, e.f)).sent), [])
            && Idle(down.slots, (e.d, e.f)) && Matches(l.up.store, down.store, e.f) && NoneOpen(down.store, e.f)
            && Missing(down.store, e.f) + 1 == Missing(l.down.store, e.f)
            && (Complete(down.store, e.f) ==> MergedOk(down.store, e.f))
  {
    hide UploaderOk, Matches, OnlyOpen, RequestNext, NoneOpen, MergedOk, AddedPiece, Missing, PieceAt, Complete;
    assert Concat([]) == [];
    EndAdds(l.up.store, l.down.store, e.f, ph.i);
  }

  lemma JoinsPrefix(bytes: Content, was: Content, came: Content, more: Content)
    requires |was + came| + |more| <= |bytes| && was + came == bytes[..|was + came|]
    requires more == bytes[|was + came|..|was + came| + |more|]
    ensures was + (came + more) == bytes[..|was + came| + |more|]
  {
    assert was + (came + more) == was + came + more;
  }

  /** What is known of a piece still being read. */
  lemma FlowReads(e: Ends, l: Link, i: nat, acks: nat, chunks: seq<Content>, credit: nat)
    requires (e.f, i) in l.down.store.pieces && Flow(e, l, i, acks, chunks, false, credit)
    ensures var came := l.down.store.pieces[(e.f, i)] + Concat(chunks);
            && |came| <= |PieceAt(l.up.store, e.f, i)| && came == PieceAt(l.up.store, e.f, i)[..|came|]
            && ReadsOn(l.up, (e.u, e.f), i, |came|)
            && Left(l.up, (e.u, e.f)) == |PieceAt(l.up.store, e.f, i)| - |came| + 1
            && |chunks| + l.down.packs + PACK_SIZE * acks == PACK_SIZE + credit
  {
    hide PieceAt, Concat;
  }

  /** What a pack leaves, piece by piece of its definition. */
  lemma PackedBytes(nd: Node, nd': Node, key: Key, i: nat, position: nat, credit: nat, chunks: seq<Content>, ended: bool)
    requires credit > 0 && Packed(nd, nd', key, i, position, credit, chunks, ended)
    ensures var bytes, after := PieceAt(nd.store, key.1, i), position + |Concat(chunks)|;
            && nd'.store == nd.store && after <= |bytes| && Concat(chunks) == bytes[position..after]
            && (if ended then Idle(nd'.slots, key) && after == |bytes| && |chunks| <= credit && Left(nd', key) == 0
                else ReadsOn(nd', key, i, after) && |chunks| == credit && Left(nd', key) == |bytes| - after + 1 &&
                     after > position)
  {
    hide PieceAt, Concat, Bodies, Outbox;
  }

  lemma FlowAgain(e: Ends, l: Link, i: nat, acks: nat, chunks: seq<Content>, ended: bool, credit: nat)
    requires (e.f, i) in l.down.store.pieces
    requires var bytes, came := PieceAt(l.up.store, e.f, i), l.down.store.pieces[(e.f, i)] + Concat(chunks);
             && |came| <= |bytes| && came == bytes[..|came|]
             && if ended then
                  && Idle(l.up.slots, (e.u, e.f)) && |came| == |bytes|
                  && |chunks| + l.down.packs + PACK_SIZE * acks <= PACK_SIZE + credit
                else
                  && ReadsOn(l.up, (e.u, e.f), i, |came|)
                  && |chunks| + l.down.packs + PACK_SIZE * acks == PACK_SIZE + credit
    ensures Flow(e, l, i, acks, chunks, ended, credit)
  {
    hide PieceAt, Concat, ReadsOn, Idle;
  }

  lemma FlowServes(e: Ends, l: Link, l': Link, i: nat, acks: nat, chunks: seq<Content>, credit: nat,
                   more: seq<Content>, ended: bool)
    requires (e.f, i) in l.down.store.pieces && acks > 0 && Flow(e, l, i, acks, chunks, false, credit)
    requires l'.down == l.down
    requires Packed(l.up.(sent := []), l'.up, (e.u, e.f), i, |l.down.store.pieces[(e.f, i)] + Concat(chunks)|, PACK_SIZE,
                    more, ended)
    ensures Flow(e, l', i, acks - 1, chunks + more, ended, credit)
    ensures Left(l'.up, (e.u, e.f)) < Left(l.up, (e.u, e.f))
  {
    FlowReads(e, l, i, acks, chunks, credit);
    ConcatJoins(chunks, more);
    PackedBytes(l.up.(sent := []), l'.up, (e.u, e.f), i,
                |l.down.store.pieces[(e.f, i)] + Concat(chunks)|, PACK_SIZE, more, ended);
    JoinsPrefix(PieceAt(l.up.store, e.f, i), l.down.store.pieces[(e.f, i)], Concat(chunks), Concat(more));
    hide Flow, PieceAt, Concat, Bodies, Outbox, Packed, ReadsOn, Idle;
    FlowAgain(e, l', i, acks - 1, chunks + more, ended, credit);
  }

  lemma FromCreditEnded(e: Ends, l: Link, ph: Phase) returns (ph': Phase)
    requires InPhase(e, l, ph) && ph.Fetching? && ph.acks > 0 && ph.ended
    ensures l.toUp != [] && Moves(e, l, DeliverUp(e, l), ph, ph')
  {
    WritesPlace(l.down, (e.d, e.f), ph.i);
    FlowSlot(e, l, ph.i, ph.acks, ph.chunks, ph.ended, ph.credit);
    FetchingStage(e, l, ph.acks, ph.chunks, ph.ended);
    hide UploaderOk, Matches, OnlyOpen, WritesOn, Handle, Missing, Bodies, PieceAt, Concat, DeliverUp, Stage, Left;
    assert l.toUp == Acks(e.f, ph.acks) + [];
    CreditDropped(e, l, ph.acks, []);
    ph' := Fetching(ph.i, ph.acks - 1, ph.chunks, true, ph.credit);
    assert DeliverUp(e, l).toUp == Acks(e.f, ph'.acks);
    FetchingStage(e, DeliverUp(e, l), ph'.acks, ph'.chunks, ph'.ended);
  }

  lemma FromCredit(e: Ends, l: Link, ph: Phase) returns (ph': Phase)
    requires InPhase(e, l, ph) && ph.Fetching? && ph.acks > 0
    ensures l.toUp != [] && Moves(e, l, DeliverUp(e, l), ph, ph')
  {
    WritesPlace(l.down, (e.d, e.f), ph.i);
    hide UploaderOk, Matches, OnlyOpen, WritesOn, Handle, Missing, Bodies, PieceAt, Concat, Moves, DeliverUp, Flow;
    if ph.ended {
      ph' := FromCreditEnded(e, l, ph);
    } else {
      ph' := FromCreditReading(e, l, ph);
    }
  }

  lemma FromCreditReading(e: Ends, l: Link, ph: Phase) returns (ph': Phase)
    requires InPhase(e, l, ph) && ph.Fetching? && ph.acks > 0 && !ph.ended
    ensures l.toUp != [] && Moves(e, l, DeliverUp(e, l), ph, ph')
  {
    var up, position := l.up.(sent := []), |l.down.store.pieces[(e.f, ph.i)] + Concat(ph.chunks)|;
    PieceSmall(l.up.store, l.down.store, e.f, ph.i);
    assert ReadsOn(up, (e.u, e.f), ph.i, position);
    FirstCredit(l.toUp, e.f, ph.acks);
    hide *;
    ph' := ServesHere(e, l, ph, position);
  }

  lemma FirstCredit(msgs: seq<FileMessage>, f: string, acks: nat)
    requires acks > 0 && msgs == Acks(f, acks)
    ensures msgs != [] && msgs[0] == FileBodyResp(f) && msgs[1..] == Acks(f, acks - 1)
  {
  }

  lemma ServesHere(e: Ends, l: Link, ph: Phase, position: nat) returns (ph': Phase)
    requires InPhase(e, l, ph) && ph.Fetching? && ph.acks > 0 && !ph.ended
    requires (e.f, ph.i) in l.down.store.pieces && position == |l.down.store.pieces[(e.f, ph.i)] + Concat(ph.chunks)|
    requires ReadsOn(l.up.(sent := []), (e.u, e.f), ph.i, position) && |PieceAt(l.up.store, e.f, ph.i)| < Bytes.U32_LIMIT
    requires l.toUp != [] && l.toUp[0] == FileBodyResp(e.f) && l.toUp[1..] == Acks(e.f, ph.acks - 1)
    requires l.toDown == Bodies(e.f, ph.chunks) + Ending(e.f, ph.ended)
    ensures Moves(e, l, DeliverUp(e, l), ph, ph')
  {
    hide InPhase, Handle, Bodies, PieceAt, Concat, ReadsOn, Packed, Moves;
    var more, ended := ServesMore(l.up.(sent := []), e.u, e.f, ph.i, position);
    ph' := Fetching(ph.i, ph.acks - 1, ph.chunks + more, ended, ph.credit);
    BodiesJoin(e.f, ph.chunks, more);
    var l' := DeliverUp(e, l);
    assert l'.toDown == Bodies(e.f, ph'.chunks) + Ending(e.f, ended);
    hide *;
    ServesOn(e, l, l', ph, ph', more);
  }

  lemma ServesOn(e: Ends, l: Link, l': Link, ph: Phase, ph': Phase, more: seq<Content>)
    requires InPhase(e, l, ph) && ph.Fetching? && ph.acks > 0 && !ph.ended
    requires ph'.Fetching? && ph' == Fetching(ph.i, ph.acks - 1, ph.chunks + more, ph'.ended, ph.credit)
    requires l'.down == l.down && l'.up.store == l.up.store && (e.f, ph.i) in l.down.store.pieces
    requires Packed(l.up.(sent := []), l'.up, (e.u, e.f), ph.i,
                    |l.down.store.pieces[(e.f, ph.i)] + Concat(ph.chunks)|, PACK_SIZE, more, ph'.ended)
    requires l'.toUp == Acks(e.f, ph'.acks) && l'.toDown == Bodies(e.f, ph'.chunks) + Ending(e.f, ph'.ended)
    ensures Moves(e, l, l', ph, ph')
  {
    hide UploaderOk, Matches, OnlyOpen, WritesOn, Missing, Bodies, Concat, Flow, Packed, Acks, Left, Stage;
    FlowServes(e, l, l', ph.i, ph.acks, ph.chunks, ph.credit, more, ph'.ended);
    FlowSlot(e, l, ph.i, ph.acks, ph.chunks, ph.ended, ph.credit);
    FlowSlot(e, l', ph'.i, ph'.acks, ph'.chunks, ph'.ended, ph'.credit);
    FetchingStage(e, l, ph.acks, ph.chunks, ph.ended);
    FetchingStage(e, l', ph'.acks, ph'.chunks, ph'.ended);
  }

  lemma PieceSmall(up: Store, down: Store, f: string, i: nat)
    requires UploaderOk(up, f) && Matches(up, down, f) && OnlyOpen(down, f, i)
    ensures |PieceAt(up, f, i)| < Bytes.U32_LIMIT
  {
    hide PieceOk;
  }

  lemma FromFetching(e: Ends, l: Link, l': Link, ph: Phase) returns (ph': Phase)
    requires InPhase(e, l, ph) && ph.Fetching? && Step(e, l, l')
    ensures Moves(e, l, l', ph, ph')
  {
    hide UploaderOk, Matches, OnlyOpen, WritesOn, Handle, Flow, Moves, DeliverUp, DeliverDown;
    if l.toUp != [] && l' == DeliverUp(e, l) {
      ph' := FromCredit(e, l, ph);
    } else if ph.chunks != [] {
      ph' := FromChunk(e, l, ph);
    } else {
      ph' := FromEnd(e, l, ph);
    }
  }

  /** Every step leads from phase to phase and has less left to do. */
  lemma StepMoves(e: Ends, l: Link, l': Link, ph: Phase) returns (ph': Phase)
    requires InPhase(e, l, ph) && Step(e, l, l')
    ensures Moves(e, l, l', ph, ph')
  {
    match ph
    case Beginning => ph' := FromBeginning(e, l, l', ph);
    case Asked(_, _) => ph' := FromAsked(e, l, l', ph);
    case Fetching(_, _, _, _, _) => ph' := FromFetching(e, l, l', ph);
    case Finished(_) => ph' := FromFinished(e, l, l', ph);
    case Done => ph' := Done;
  }
}
