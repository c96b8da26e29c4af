/** Pieces that have been verified stay so, whatever the sessions of a node do in whatever order. */
module FileSafety {
  import opened Sequences
  import opened InfoText
  import opened Sha1Spec
  import opened FileStore
  import opened FileTheorems
  import opened FileManager
  import Bytes

  /** Piece numbers fit in 16 bits, with one to spare for no piece. */
  predicate Small(nd: Node) {
    forall f <- nd.store.files :: |nd.store.files[f].pieces| <= NO_PIECE
  }

  /** A stream open for writing is on a piece that is being fetched. */
  predicate OnOpenPiece(nd: Node, key: Key)
    requires key in nd.slots && nd.slots[key].stream.Writing?
  {
    var i := nd.slots[key].stream.piece;
    && key.1 in nd.store.files && i < |nd.store.files[key.1].pieces|
    && nd.store.files[key.1].pieces[i].state == Open
  }

  predicate Writes(nd: Node, key: Key, i: nat) {
    key in nd.slots && nd.slots[key].stream.Writing? && nd.slots[key].stream.piece == i
  }

  /** Every stream open for writing is on a piece being fetched, and no other stream writes that piece. */
  ghost predicate Exclusive(nd: Node) {
    && (forall k <- nd.slots | nd.slots[k].stream.Writing? :: OnOpenPiece(nd, k))
    && (forall j <- nd.slots, k <- nd.slots | j != k && j.1 == k.1 && nd.slots[j].stream.Writing? ::
          !Writes(nd, k, nd.slots[j].stream.piece))
  }

  ghost predicate Safe(nd: Node) {
    Consistent(nd.store) && Exclusive(nd) && Small(nd)
  }

  // ---------------------------------------------------------------- steps that open nothing for writing

  /** Whatever is open for writing was so before, on the same piece. */
  ghost predicate WritersShrink(slots: map<Key, Slot>, slots': map<Key, Slot>) {
    forall k <- slots' | slots'[k].stream.Writing? ::
      k in slots && slots[k].stream.Writing? && slots[k].stream.piece == slots'[k].stream.piece
  }

  lemma ShrinkKeeps(nd: Node, nd': Node)
    requires Safe(nd) && nd'.store == nd.store && WritersShrink(nd.slots, nd'.slots)
    ensures Safe(nd')
  {
    forall j <- nd'.slots, k <- nd'.slots | j != k && j.1 == k.1 && nd'.slots[j].stream.Writing?
      ensures !Writes(nd', k, nd'.slots[j].stream.piece)
    {
      assert !Writes(nd, k, nd.slots[j].stream.piece);
    }
    forall k <- nd'.slots | nd'.slots[k].stream.Writing?
      ensures OnOpenPiece(nd', k)
    {
      assert OnOpenPiece(nd, k);
    }
  }

  lemma {:induction false} PackShrinks(nd: Node, key: Key, credit: nat)
    requires key in nd.slots
    ensures var nd' := Pack(nd, key, credit); nd'.store == nd.store && WritersShrink(nd.slots, nd'.slots)
    decreases credit
  {
    if credit > 0 {
      var nd' := NextBody(nd, key);
      assert nd'.store == nd.store && WritersShrink(nd.slots, nd'.slots);
      hide NextBody;
      if !nd'.slots[key].stream.Closed? {
        PackShrinks(nd', key, credit - 1);
      }
    }
  }

  // ---------------------------------------------------------------- claiming and writing

  /** A piece not trusted may be written. */
  lemma WriteKeeps(s: Store, f: string, i: nat, content: Content)
    requires Consistent(s) && f in s.files && i < |s.files[f].pieces| && s.files[f].pieces[i].state != Have
    ensures Consistent(s.(pieces := s.pieces[(f, i) := content]))
  {
    hide Sha1Hex;
    var s' := s.(pieces := s.pieces[(f, i) := content]);
    forall g <- s'.files
      ensures s'.files[g].fileId == g && Trusted(s'.pieces, s'.files[g])
    {
      assert Trusted(s.pieces, s.files[g]);
    }
  }

  lemma ExclusiveByFiles(nd: Node, nd': Node)
    requires Exclusive(nd) && nd'.slots == nd.slots
    requires forall k <- nd.slots | nd.slots[k].stream.Writing? ::
               k.1 in nd'.store.files && k.1 in nd.store.files
               && |nd'.store.files[k.1].pieces| == |nd.store.files[k.1].pieces|
               && var i := nd.slots[k].stream.piece;
               i < |nd.store.files[k.1].pieces| ==>
                 nd'.store.files[k.1].pieces[i].state == nd.store.files[k.1].pieces[i].state
    ensures Exclusive(nd')
  {
    forall k <- nd'.slots | nd'.slots[k].stream.Writing?
      ensures OnOpenPiece(nd', k)
    {
      assert OnOpenPiece(nd, k);
    }
    forall j <- nd'.slots, k <- nd'.slots | j != k && j.1 == k.1 && nd'.slots[j].stream.Writing?
      ensures !Writes(nd', k, nd'.slots[j].stream.piece)
    {
      assert !Writes(nd, k, nd.slots[j].stream.piece);
    }
  }

  lemma OpenKeeps(nd: Node, key: Key, i: nat)
    requires Safe(nd) && key.1 in nd.store.files && i < |nd.store.files[key.1].pieces|
    requires nd.store.files[key.1].pieces[i].state == Open
    requires forall k <- nd.slots | k.1 == key.1 :: !Writes(nd, k, i)
    ensures Safe(OpenForWriting(nd, key, i))
  {
    hide Consistent;
    WriteKeeps(nd.store, key.1, i, []);
    var nd' := OpenForWriting(nd, key, i);
    forall k <- nd'.slots | nd'.slots[k].stream.Writing?
      ensures OnOpenPiece(nd', k)
    {
      if k != key {
        assert OnOpenPiece(nd, k);
      } else if key in nd.slots && nd.slots[key].stream.Writing? {
        assert OnOpenPiece(nd, key);
      }
    }
    forall j <- nd'.slots, k <- nd'.slots | j != k && j.1 == k.1 && nd'.slots[j].stream.Writing?
      ensures !Writes(nd', k, nd'.slots[j].stream.piece)
    {
      if j in nd.slots && nd.slots[j].stream.Writing? && k in nd.slots {
        assert !Writes(nd, k, nd.slots[j].stream.piece);
      }
    }
  }

  lemma ClaimSafe(nd: Node, f: string)
    requires Safe(nd) && f in nd.store.files
    requires FirstNone(nd.store.files[f].pieces) < |nd.store.files[f].pieces|
    ensures var i := FirstNone(nd.store.files[f].pieces);
            var nd' := nd.(store := SetState(nd.store, f, i, Open));
            && Safe(nd') && f in nd'.store.files && i < |nd'.store.files[f].pieces|
            && nd'.store.files[f].pieces[i].state == Open && i < NO_PIECE
            && |nd'.store.files[f].pieces| == |nd.store.files[f].pieces|
            && forall k <- nd'.slots | k.1 == f :: !Writes(nd', k, i)
  {
    hide Consistent;
    ClaimKeeps(nd.store, f);
    var i := FirstNone(nd.store.files[f].pieces);
    forall k <- nd.slots | nd.slots[k].stream.Writing?
      ensures k.1 in nd.store.files && (k.1 == f ==> nd.slots[k].stream.piece != i)
    {
      assert OnOpenPiece(nd, k);
    }
    ExclusiveByFiles(nd, nd.(store := SetState(nd.store, f, i, Open)));
  }

  lemma RequestNextKeeps(nd: Node, key: Key)
    requires Safe(nd)
    ensures Safe(RequestNext(nd, key))
  {
    hide Safe, Consistent, OpenForWriting, SetState;
    if Complete(nd.store, key.1) {
      ShrinkKeeps(nd, RequestNext(nd, key));
    } else if key.1 !in nd.store.files || FirstNone(nd.store.files[key.1].pieces) == |nd.store.files[key.1].pieces| {
      ShrinkKeeps(nd, RequestNext(nd, key));
    } else {
      var i := FirstNone(nd.store.files[key.1].pieces);
      ClaimSafe(nd, key.1);
      var nd' := nd.(store := SetState(nd.store, key.1, i, Open));
      assert i % Bytes.U16_LIMIT == i;
      OpenKeeps(nd', key, i);
      ShrinkKeeps(OpenForWriting(nd', key, i), RequestNext(nd, key));
    }
  }

  lemma ReceiveKeeps(nd: Node, key: Key, data: Content)
    requires Safe(nd) && key in nd.slots
    ensures Safe(Receive(nd, key, data))
  {
    hide Consistent, Overwrite;
    var slot, nd' := nd.slots[key], Receive(nd, key, data);
    if slot.stream.Writing? && !slot.failed {
      assert OnOpenPiece(nd, key);
      var content := Overwrite(PieceBytes(nd.store, key.1, slot.stream.piece), slot.stream.position, data);
      WriteKeeps(nd.store, key.1, slot.stream.piece, content);
      var written := nd.(store := nd.store.(pieces := nd.store.pieces[(key.1, slot.stream.piece) := content]));
      ExclusiveByFiles(nd, written);
      ShrinkKeeps(written, nd');
    } else {
      ShrinkKeeps(nd, nd');
    }
  }

  // ---------------------------------------------------------------- the end of a piece

  /** No other session writes the piece that a session's slot names. */
  predicate NoOtherWriter(nd: Node, id: nat, f: string) {
    (id, f) in nd.slots ==>
      forall k <- nd.slots | k != (id, f) && k.1 == f :: !Writes(nd, k, nd.slots[(id, f)].piece)
  }

  function Closing(nd: Node, key: Key): Node
    requires key in nd.slots
  {
    nd.(slots := nd.slots[key := Close(nd.slots[key])])
  }

  lemma AddKeeps(nd: Node, f: string, i: nat)
    requires Safe(nd) && forall k <- nd.slots | k.1 == f :: !Writes(nd, k, i)
    ensures Safe(nd.(store := AddedPiece(nd.store, f, i)))
  {
    AddedPieceKeeps(nd.store, f, i);
    hide Consistent, PieceOk;
    forall k <- nd.slots | nd.slots[k].stream.Writing?
      ensures k.1 in nd.store.files && (k.1 == f ==> nd.slots[k].stream.piece != i)
    {
      assert OnOpenPiece(nd, k);
    }
    ExclusiveByFiles(nd, nd.(store := AddedPiece(nd.store, f, i)));
  }

  lemma EndKeeps(nd: Node, id: nat, f: string)
    requires Safe(nd) && NoOtherWriter(nd, id, f)
    ensures Safe(Handle(nd, id, FileEnd(f)))
  {
    hide Safe, RequestNext, AddedPiece;
    var key := (id, f);
    if key in nd.slots {
      ShrinkKeeps(nd, Closing(nd, key));
      AddKeeps(Closing(nd, key), f, nd.slots[key].piece);
      RequestNextKeeps(Closing(nd, key).(store := AddedPiece(nd.store, f, nd.slots[key].piece)), key);
    }
  }

  /** A piece that a request for the next one leaves open is one that the session now writes. */
  lemma OpenedByRequest(nd: Node, key: Key, i: nat)
    requires Small(nd) && key in nd.slots && nd.slots[key].stream.Closed? && key.1 in nd.store.files
    requires i < |nd.store.files[key.1].pieces| && nd.store.files[key.1].pieces[i].state != Open
    ensures var nd' := RequestNext(nd, key);
            && (&& key.1 in nd'.store.files && i < |nd'.store.files[key.1].pieces|
                && nd'.store.files[key.1].pieces[i].state == Open
                ==> Writes(nd', key, i))
            && forall k <- nd.slots | k != key :: k in nd'.slots && nd'.slots[k] == nd.slots[k]
  {
    var claimed := FirstNone(nd.store.files[key.1].pieces);
    assert claimed < NO_PIECE ==> claimed % Bytes.U16_LIMIT == claimed;
  }

  lemma AddedState(s: Store, f: string, i: nat)
    requires f in s.files && i < |s.files[f].pieces|
    ensures var s' := AddedPiece(s, f, i);
            && s'.files.Keys == s.files.Keys && |s'.files[f].pieces| == |s.files[f].pieces|
            && s'.files[f].pieces[i].state != Open
            && forall g <- s.files | g != f :: s'.files[g] == s.files[g]
  {
    hide PieceOk, MergedFrom;
  }

  lemma EndIsRequest(nd: Node, key: Key)
    requires key in nd.slots
    ensures Handle(nd, key.0, FileEnd(key.1)) ==
            RequestNext(Closing(nd, key).(store := AddedPiece(nd.store, key.1, nd.slots[key].piece)), key)
  {
    hide RequestNext, AddedPiece;
  }

  /** A stream on a piece that is open only if another stream is on it too. */
  lemma Collides(nd: Node, k: Key, key: Key, i: nat)
    requires k in nd.slots && Writes(nd, k, i) && k != key && k.1 == key.1
    requires (&& key.1 in nd.store.files && i < |nd.store.files[key.1].pieces|
              && nd.store.files[key.1].pieces[i].state == Open) ==> Writes(nd, key, i)
    ensures !Safe(nd)
  {
    hide Consistent;
    assert OnOpenPiece(nd, k) ==> Writes(nd, key, i);
  }

  /** With another session writing the piece, its end leaves a stream on a piece that is not being fetched, or two
      streams on it. */
  lemma EndBreaks(nd: Node, id: nat, f: string)
    requires Safe(nd) && !NoOtherWriter(nd, id, f)
    ensures !Safe(Handle(nd, id, FileEnd(f)))
  {
    var key := (id, f);
    var i := nd.slots[key].piece;
    var k :| k in nd.slots && k != key && k.1 == f && Writes(nd, k, i);
    assert OnOpenPiece(nd, k);
    AddedState(nd.store, f, i);
    var added := Closing(nd, key).(store := AddedPiece(nd.store, f, i));
    assert Writes(added, k, i) && nd.slots[k] == added.slots[k];
    var nd' := Handle(nd, id, FileEnd(f));
    EndIsRequest(nd, key);
    hide Consistent, AddedPiece, RequestNext, Handle;
    OpenedByRequest(added, key, i);
    hide *;
    Collides(nd', k, key, i);
  }

  /** The end of a piece keeps every guarantee exactly when no other session writes the piece. */
  lemma EndIsSafeWhenAlone(nd: Node, id: nat, f: string)
    requires Safe(nd)
    ensures Safe(Handle(nd, id, FileEnd(f))) <==> NoOtherWriter(nd, id, f)
  {
    hide Safe, Handle, NoOtherWriter;
    if NoOtherWriter(nd, id, f) {
      EndKeeps(nd, id, f);
    } else {
      EndBreaks(nd, id, f);
    }
  }

  // ---------------------------------------------------------------- every event

  datatype Event =
    | Message(id: nat, msg: FileMessage)
    | Timeout
    | ReadyFor(id: nat, fileId: string)
    | BeginFor(id: nat, fileId: string)
    | Upload(path: string, content: Bytes.Option<Content>, unset: nat)
    | AddInfo(text: Bytes.Option<string>, unset: nat, unset': nat)

  function After(nd: Node, e: Event): Node {
    match e
    case Message(id, msg) => Handle(nd, id, msg)
    case Timeout => Expire(nd)
    case ReadyFor(id, f) => Ready(nd, (id, f))
    case BeginFor(id, f) => Begin(nd, (id, f))
    case Upload(path, content, unset) => nd.(store := Uploaded(nd.store, path, content, unset))
    case AddInfo(text, unset, unset') => nd.(store := Added(nd.store, text, unset, unset').0)
  }

  /** The end of a piece comes while no other session writes it, and files have no more pieces than can be numbered. */
  predicate Allowed(nd: Node, e: Event) {
    match e
    case Message(id, msg) => msg.FileEnd? ==> NoOtherWriter(nd, id, msg.fileId)
    case Upload(_, content, _) => content.Some? ==> PieceCount(|content.value|, PIECE_SIZE) <= NO_PIECE
    case AddInfo(text, unset, unset') =>
      text.Some? ==> ReadHead(text.value, unset).1 <= NO_PIECE && ReadHead(text.value, unset').1 <= NO_PIECE
    case _ => true
  }

  lemma MessageKeeps(nd: Node, id: nat, msg: FileMessage)
    requires Safe(nd) && (msg.FileEnd? ==> NoOtherWriter(nd, id, msg.fileId))
    ensures Safe(Handle(nd, id, msg))
  {
    hide Safe, RequestNext, Pack, Receive, NoOtherWriter, AddedPiece, Complete;
    var key := (id, msg.fileId);
    if key in nd.slots {
      match msg
      case FileBegin(_) => RequestNextKeeps(nd, key);
      case FileRequest(f, piece) =>
        if Complete(nd.store, f) && (f, piece) in nd.store.pieces {
          var slot := OpenForReading(nd.slots[key], piece, |nd.store.pieces[(f, piece)]|);
          var opened' := nd.(slots := nd.slots[key := slot]);
          ShrinkKeeps(nd, opened');
          PackShrinks(opened', key, PACK_SIZE);
          ShrinkKeeps(opened', Handle(nd, id, msg));
        } else {
          ShrinkKeeps(nd, Handle(nd, id, msg));
        }
      case FileEnd(f) => EndKeeps(nd, id, f);
      case FileBody(_, data) =>
        if !nd.slots[key].stream.Closed? {
          ReceiveKeeps(nd, key, data);
          ShrinkKeeps(Receive(nd, key, data), Handle(nd, id, msg));
        }
      case FileBodyResp(_) =>
        PackShrinks(nd, key, PACK_SIZE);
        ShrinkKeeps(nd, Handle(nd, id, msg));
      case FileRequestEnd(_) => ShrinkKeeps(nd, Handle(nd, id, msg));
    }
  }

  /** A record taken in under a new id disturbs nothing. */
  lemma NewFileKeeps(nd: Node, s': Store, f: string)
    requires Safe(nd) && Consistent(s') && f !in nd.store.files
    requires s'.files.Keys == nd.store.files.Keys + {f} && |s'.files[f].pieces| <= NO_PIECE
    requires forall g <- nd.store.files :: s'.files[g] == nd.store.files[g]
    ensures Safe(nd.(store := s'))
  {
    hide Consistent;
    forall k <- nd.slots | nd.slots[k].stream.Writing?
      ensures k.1 in nd.store.files
    {
      assert OnOpenPiece(nd, k);
    }
    ExclusiveByFiles(nd, nd.(store := s'));
  }

  lemma UploadRecord(s: Store, path: string, content: Content, unset: nat)
    requires PieceCount(|content|, PIECE_SIZE) <= NO_PIECE && Sha1Hex(content) !in s.files
    ensures var s', f := Uploaded(s, path, Bytes.Some(content), unset), Sha1Hex(content);
            && s'.files.Keys == s.files.Keys + {f} && |s'.files[f].pieces| <= NO_PIECE
            && forall g <- s.files :: s'.files[g] == s.files[g]
  {
    hide Sha1Hex, ReadInfo, WriteInfo, WithPieces, FileNameOf, NameRead, SplitPieces, CheckedPiece;
    SplitInfoIsRead(path, content, unset, s.files);
    assert |SplitPieces(content, PIECE_SIZE)| == PieceCount(|content|, PIECE_SIZE) by { SplitCount(content, PIECE_SIZE); }
  }

  lemma SplitCount(content: Content, size: nat)
    requires size > 0
    ensures |SplitPieces(content, size)| == PieceCount(|content|, size)
  {
  }

  lemma UploadIsSafe(nd: Node, path: string, content: Bytes.Option<Content>, unset: nat)
    requires Safe(nd) && (content.Some? ==> PieceCount(|content.value|, PIECE_SIZE) <= NO_PIECE)
    ensures Safe(nd.(store := Uploaded(nd.store, path, content, unset)))
  {
    UploadedKeeps(nd.store, path, content, unset);
    if content.Some? && Sha1Hex(content.value) !in nd.store.files {
      var s', f := Uploaded(nd.store, path, content, unset), Sha1Hex(content.value);
      UploadRecord(nd.store, path, content.value, unset);
      hide *;
      NewFileKeeps(nd, s', f);
    }
  }

  lemma AddIsSafe(nd: Node, text: Bytes.Option<string>, unset: nat, unset': nat)
    requires Safe(nd) && Allowed(nd, AddInfo(text, unset, unset'))
    ensures Safe(nd.(store := Added(nd.store, text, unset, unset').0))
  {
    AddedKeeps(nd.store, text, unset, unset');
    if text.Some? && ReadHead(text.value, unset).0 !in nd.store.files {
      var f := ReadHead(text.value, unset).0;
      assert ReadHead(text.value, unset').0 == f;
      hide Safe, Consistent, ReadHead, CheckedPiece, CopyInfo;
      NewFileKeeps(nd, Added(nd.store, text, unset, unset').0, f);
    }
  }

  lemma EventKeeps(nd: Node, e: Event)
    requires Safe(nd) && Allowed(nd, e)
    ensures Safe(After(nd, e))
  {
    hide Safe, Handle, RequestNext, NoOtherWriter, Uploaded, Added;
    match e
    case Message(id, msg) => MessageKeeps(nd, id, msg);
    case Timeout =>
      if nd.timer.Some? {
        ShrinkKeeps(nd, nd.(timer := Bytes.None));
        RequestNextKeeps(nd.(timer := Bytes.None), nd.timer.value);
      }
    case ReadyFor(id, f) => ShrinkKeeps(nd, After(nd, e));
    case BeginFor(id, f) => ShrinkKeeps(nd, After(nd, e));
    case Upload(path, content, unset) => UploadIsSafe(nd, path, content, unset);
    case AddInfo(text, unset, unset') => AddIsSafe(nd, text, unset, unset');
  }

  /** The node after all of the events. */
  function AfterAll(nd: Node, events: seq<Event>): Node {
    if events == [] then nd else After(AfterAll(nd, events[..|events| - 1]), events[|events| - 1])
  }

  ghost predicate AllAllowed(nd: Node, events: seq<Event>) {
    forall i | 0 <= i < |events| :: Allowed(AfterAll(nd, events[..i]), events[i])
  }

  lemma {:induction false} AllKeep(nd: Node, events: seq<Event>)
    requires Safe(nd) && AllAllowed(nd, events)
    ensures Safe(AfterAll(nd, events))
  {
    if events != [] {
      var init := events[..|events| - 1];
      forall i | 0 <= i < |init|
        ensures Allowed(AfterAll(nd, init[..i]), init[i])
      {
        assert init[..i] == events[..i];
      }
      hide Safe, Allowed, After;
      AllKeep(nd, init);
      assert Allowed(AfterAll(nd, init), events[|events| - 1]);
      EventKeeps(AfterAll(nd, init), events[|events| - 1]);
    }
  }

  /** After any events from any sessions, every piece had is on disk with its recorded size and hash, and so is every
      piece of a complete file; and no two streams write one piece. */
  lemma VerifiedPiecesStay(nd: Node, events: seq<Event>)
    requires Safe(nd) && AllAllowed(nd, events)
    ensures var s := AfterAll(nd, events).store;
            forall f <- s.files ::
              forall i | 0 <= i < |s.files[f].pieces| && (s.files[f].pieces[i].state == Have || Complete(s, f)) ::
                && (f, i) in s.pieces && |s.pieces[(f, i)]| == s.files[f].pieces[i].size
                && Sha1Hex(s.pieces[(f, i)]) == s.files[f].pieces[i].sha1
    ensures Exclusive(AfterAll(nd, events))
  {
    AllKeep(nd, events);
    var s := AfterAll(nd, events).store;
    hide PieceOk, AfterAll, AllAllowed, Exclusive, Sha1Hex;
    forall f <- s.files
      ensures forall i | 0 <= i < |s.files[f].pieces| && (s.files[f].pieces[i].state == Have || Complete(s, f)) ::
                && (f, i) in s.pieces && |s.pieces[(f, i)]| == s.files[f].pieces[i].size
                && Sha1Hex(s.pieces[(f, i)]) == s.files[f].pieces[i].sha1
    {
      assert Trusted(s.pieces, s.files[f]);
      forall i | 0 <= i < |s.files[f].pieces| && (s.files[f].pieces[i].state == Have || Complete(s, f))
        ensures (f, i) in s.pieces && |s.pieces[(f, i)]| == s.files[f].pieces[i].size
        ensures Sha1Hex(s.pieces[(f, i)]) == s.files[f].pieces[i].sha1
      {
        assert s.files[f].pieces[i] in s.files[f].pieces;
        PieceOkMeans(s.pieces, s.files[f], i);
      }
    }
  }

  lemma PieceOkMeans(pieces: PieceMap, info: FileInfo, i: nat)
    requires i < |info.pieces| && PieceOk(pieces, info, i)
    ensures (info.fileId, i) in pieces && |pieces[(info.fileId, i)]| == info.pieces[i].size
    ensures Sha1Hex(pieces[(info.fileId, i)]) == info.pieces[i].sha1
  {
  }

  // ---------------------------------------------------------------- exceptions

  lemma {:induction false} PackThrown(nd: Node, key: Key, credit: nat)
    requires key in nd.slots
    ensures Pack(nd, key, credit).thrown == nd.thrown
    decreases credit
  {
    if credit > 0 {
      var nd' := NextBody(nd, key);
      assert nd'.thrown == nd.thrown;
      hide NextBody;
      if !nd'.slots[key].stream.Closed? {
        PackThrown(nd', key, credit - 1);
      }
    }
  }

  lemma RequestThrown(nd: Node, key: Key)
    ensures RequestNext(nd, key).thrown == nd.thrown
  {
    hide Complete, ClaimNone;
  }

  /** A handler throws exactly on a request for a piece that a complete file does not have on disk. */
  lemma ThrowsExactlyWhenMissing(nd: Node, id: nat, msg: FileMessage)
    requires !nd.thrown
    ensures Handle(nd, id, msg).thrown <==>
            (&& msg.FileRequest? && (id, msg.fileId) in nd.slots && Complete(nd.store, msg.fileId)
             && (msg.fileId, msg.piece) !in nd.store.pieces)
  {
    hide RequestNext, Pack, Receive, AddedPiece, Complete;
    var key := (id, msg.fileId);
    if key in nd.slots {
      match msg
      case FileBegin(_) => RequestThrown(nd, key);
      case FileRequest(f, piece) =>
        if Complete(nd.store, f) && (f, piece) in nd.store.pieces {
          var slot := OpenForReading(nd.slots[key], piece, |nd.store.pieces[(f, piece)]|);
          PackThrown(nd.(slots := nd.slots[key := slot]), key, PACK_SIZE);
        }
      case FileEnd(f) =>
        var closed := Closing(nd, key);
        RequestThrown(closed.(store := AddedPiece(closed.store, f, closed.slots[key].piece)), key);
      case FileBody(_, data) =>
        assert Receive(nd, key, data).thrown == nd.thrown by { ReceiveThrown(nd, key, data); }
      case FileBodyResp(_) => PackThrown(nd, key, PACK_SIZE);
      case FileRequestEnd(_) =>
    }
  }

  lemma ReceiveThrown(nd: Node, key: Key, data: Content)
    requires key in nd.slots
    ensures Receive(nd, key, data).thrown == nd.thrown
  {
  }

  /** A safe node does not throw over a piece its file has. */
  lemma SafeDoesNotThrow(nd: Node, id: nat, msg: FileMessage)
    requires Safe(nd) && !nd.thrown
    requires msg.FileRequest? && msg.fileId in nd.store.files ==> msg.piece < |nd.store.files[msg.fileId].pieces|
    ensures !Handle(nd, id, msg).thrown
  {
    ThrowsExactlyWhenMissing(nd, id, msg);
    hide Handle, Sha1Hex, Exclusive;
    if msg.FileRequest? && Complete(nd.store, msg.fileId) {
      CompleteVerifies(nd.store, msg.fileId);
      assert PieceOk(nd.store.pieces, nd.store.files[msg.fileId], msg.piece);
    }
  }

  // ---------------------------------------------------------------- sessions that ask before they end

  /** The session's stream is open for writing on the piece its slot names. */
  predicate WritesOwn(nd: Node, key: Key) {
    key in nd.slots && Writes(nd, key, nd.slots[key].piece)
  }

  /** The end of a piece is allowed from a session that writes the piece it names. */
  lemma OwnEndIsAllowed(nd: Node, id: nat, f: string)
    requires Safe(nd) && WritesOwn(nd, (id, f))
    ensures Allowed(nd, Message(id, FileEnd(f)))
  {
    hide Consistent;
    forall k <- nd.slots | k != (id, f) && k.1 == f
      ensures !Writes(nd, k, nd.slots[(id, f)].piece)
    {
      assert !Writes(nd, k, nd.slots[(id, f)].stream.piece);
    }
  }

  /** A session whose stream is closed and that asks for a piece writes the piece it asked for. */
  lemma AskingWritesOwn(nd: Node, key: Key)
    requires Small(nd) && SlotAt(nd.slots, key).stream.Closed? && key.1 in nd.store.files
    requires !Complete(nd.store, key.1) && FirstNone(nd.store.files[key.1].pieces) < |nd.store.files[key.1].pieces|
    ensures var nd' := RequestNext(nd, key);
            && WritesOwn(nd', key)
            && nd'.sent == nd.sent + [(key.0, FileRequest(key.1, nd'.slots[key].piece))]
  {
    var i := FirstNone(nd.store.files[key.1].pieces);
    assert i % Bytes.U16_LIMIT == i;
    hide FirstNone, Complete;
  }

  /** The events that make a session leave the piece it writes: those of its own that begin, end or give up. */
  predicate Leaves(nd: Node, e: Event, key: Key) {
    match e
    case Message(id, msg) => (id, msg.fileId) == key && !msg.FileBody?
    case Timeout => nd.timer == Bytes.Some(key)
    case ReadyFor(id, f) => (id, f) == key
    case BeginFor(id, f) => (id, f) == key
    case _ => false
  }

  /** Until then, whatever the other sessions do, the session goes on writing the piece it names. */
  lemma OwnStays(nd: Node, e: Event, key: Key)
    requires WritesOwn(nd, key) && !Leaves(nd, e, key)
    ensures WritesOwn(After(nd, e), key)
  {
    hide RequestNext, Pack, Receive, AddedPiece, Complete, Uploaded, Added;
    match e
    case Message(id, msg) => OwnStaysMessage(nd, id, msg, key);
    case Timeout =>
      if nd.timer.Some? {
        OthersUntouched(nd.(timer := Bytes.None), nd.timer.value, key);
      }
    case _ =>
  }

  lemma OwnStaysMessage(nd: Node, id: nat, msg: FileMessage, key: Key)
    requires WritesOwn(nd, key) && ((id, msg.fileId) == key ==> msg.FileBody?)
    ensures WritesOwn(Handle(nd, id, msg), key)
  {
    hide RequestNext, Pack, Receive, AddedPiece, Complete;
    var own := (id, msg.fileId);
    if own in nd.slots {
      match msg
      case FileBegin(_) => OthersUntouched(nd, own, key);
      case FileRequest(f, piece) =>
        if Complete(nd.store, f) && (f, piece) in nd.store.pieces {
          var slot := OpenForReading(nd.slots[own], piece, |nd.store.pieces[(f, piece)]|);
          PackUntouched(nd.(slots := nd.slots[own := slot]), own, PACK_SIZE, key);
        }
      case FileEnd(f) =>
        var closed := Closing(nd, own);
        OthersUntouched(closed.(store := AddedPiece(closed.store, f, closed.slots[own].piece)), own, key);
      case FileBody(_, data) => ReceiveUntouched(nd, own, data, key);
      case FileBodyResp(_) => PackUntouched(nd, own, PACK_SIZE, key);
      case FileRequestEnd(_) =>
    }
  }

  lemma OthersUntouched(nd: Node, own: Key, key: Key)
    requires key in nd.slots && key != own
    ensures var nd' := RequestNext(nd, own); key in nd'.slots && nd'.slots[key] == nd.slots[key]
  {
    hide Complete, ClaimNone;
  }

  lemma {:induction false} PackUntouched(nd: Node, own: Key, credit: nat, key: Key)
    requires own in nd.slots && key in nd.slots && key != own
    ensures var nd' := Pack(nd, own, credit); key in nd'.slots && nd'.slots[key] == nd.slots[key]
    decreases credit
  {
    if credit > 0 {
      var nd' := NextBody(nd, own);
      assert key in nd'.slots && nd'.slots[key] == nd.slots[key];
      hide NextBody;
      if !nd'.slots[own].stream.Closed? {
        PackUntouched(nd', own, credit - 1, key);
      }
    }
  }

  lemma ReceiveUntouched(nd: Node, own: Key, data: Content, key: Key)
    requires own in nd.slots && WritesOwn(nd, key)
    ensures WritesOwn(Receive(nd, own, data), key)
  {
    hide Overwrite;
  }

  // ---------------------------------------------------------------- starting again after any events

  /** The id and the count of an added text can be read. */
  predicate Readable(e: Event) {
    e.AddInfo? && e.text.Some? ==> ReadHead(e.text.value, e.unset).2.good
  }

  lemma SameRecordsPersist(s: Store, s': Store)
    requires Persisted(s) && s'.files == s.files && s'.infos == s.infos
    ensures Persisted(s')
  {
    hide ReadInfo, Stripped;
  }

  lemma RequestPersists(nd: Node, key: Key)
    requires Persisted(nd.store)
    ensures Persisted(RequestNext(nd, key).store)
  {
    ClaimPersists(nd.store, key.1);
    hide Persisted, Complete, ClaimNone;
    if !Complete(nd.store, key.1) {
      SameRecordsPersist(ClaimNone(nd.store, key.1).0, RequestNext(nd, key).store);
    }
  }

  lemma MessagePersists(nd: Node, id: nat, msg: FileMessage)
    requires Persisted(nd.store)
    ensures Persisted(Handle(nd, id, msg).store)
  {
    hide Persisted, RequestNext, Pack, Receive, AddedPiece, Complete;
    var key := (id, msg.fileId);
    if key in nd.slots {
      match msg
      case FileBegin(_) => RequestPersists(nd, key);
      case FileRequest(f, piece) =>
        if Complete(nd.store, f) && (f, piece) in nd.store.pieces {
          var slot := OpenForReading(nd.slots[key], piece, |nd.store.pieces[(f, piece)]|);
          PackShrinks(nd.(slots := nd.slots[key := slot]), key, PACK_SIZE);
        }
      case FileEnd(f) =>
        var closed := Closing(nd, key);
        AddedPiecePersists(nd.store, f, closed.slots[key].piece);
        RequestPersists(closed.(store := AddedPiece(closed.store, f, closed.slots[key].piece)), key);
      case FileBody(_, data) =>
        ReceiveRecords(nd, key, data);
        SameRecordsPersist(nd.store, Handle(nd, id, msg).store);
      case FileBodyResp(_) => PackShrinks(nd, key, PACK_SIZE);
      case FileRequestEnd(_) =>
    }
  }

  lemma ReceiveRecords(nd: Node, key: Key, data: Content)
    requires key in nd.slots
    ensures var s' := Receive(nd, key, data).store; s'.files == nd.store.files && s'.infos == nd.store.infos
  {
  }

  lemma EventPersists(nd: Node, e: Event)
    requires Persisted(nd.store) && Allowed(nd, e) && Readable(e)
    ensures Persisted(After(nd, e).store)
  {
    hide Persisted, Handle, RequestNext, NoOtherWriter, Uploaded, Added, ReadHead;
    match e
    case Message(id, msg) => MessagePersists(nd, id, msg);
    case Timeout =>
      if nd.timer.Some? {
        RequestPersists(nd.(timer := Bytes.None), nd.timer.value);
      }
    case Upload(path, content, unset) =>
      if content.Some? {
        UploadedPersists(nd.store, path, content.value, unset);
      } else {
        assert Uploaded(nd.store, path, content, unset) == nd.store by { NothingUploaded(nd.store, path, unset); }
      }
    case AddInfo(text, unset, unset') =>
      if text.Some? {
        AddedPersists(nd.store, text.value, unset, unset');
      } else {
        assert Added(nd.store, text, unset, unset').0 == nd.store by { NothingAdded(nd.store, unset, unset'); }
      }
    case _ =>
  }

  lemma NothingUploaded(s: Store, path: string, unset: nat)
    ensures Uploaded(s, path, Bytes.None, unset) == s
  {
  }

  lemma NothingAdded(s: Store, unset: nat, unset': nat)
    ensures Added(s, Bytes.None, unset, unset').0 == s
  {
  }

  lemma {:induction false} AllPersist(nd: Node, events: seq<Event>)
    requires Persisted(nd.store) && AllAllowed(nd, events) && forall e <- events :: Readable(e)
    ensures Persisted(AfterAll(nd, events).store)
  {
    if events != [] {
      var init := events[..|events| - 1];
      forall i | 0 <= i < |init|
        ensures Allowed(AfterAll(nd, init[..i]), init[i])
      {
        assert init[..i] == events[..i];
      }
      assert Readable(events[|events| - 1]);
      hide Persisted, Allowed, After, Readable;
      AllPersist(nd, init);
      assert Allowed(AfterAll(nd, init), events[|events| - 1]);
      EventPersists(AfterAll(nd, init), events[|events| - 1]);
    }
  }

  /** After any allowed events, a node that starts again from its disk is safe, has the same records, and has every
      piece that was had. */
  lemma RestartLosesNothing(nd: Node, events: seq<Event>, listing: seq<string>, unset: nat)
    requires Safe(nd) && Persisted(nd.store) && AllAllowed(nd, events) && forall e <- events :: Readable(e)
    requires var infos := AfterAll(nd, events).store.infos;
             && (forall f <- listing :: f in infos) && (forall f <- infos :: f in listing)
             && Distinct(listing)
    ensures var s := AfterAll(nd, events).store;
            var r := Loaded(s.(files := map[]), listing, unset);
            && Safe(Node(r, map[], 0, Bytes.None, [], false)) && r.files.Keys == s.files.Keys
            && forall f <- s.files :: Recovered(s, s.files[f], r.files[f])
  {
    AllKeep(nd, events);
    AllPersist(nd, events);
    var s := AfterAll(nd, events).store;
    hide AfterAll, AllAllowed, Readable, Consistent, Persisted, Loaded, Recovered, Exclusive;
    StartIsSafe(s, listing, unset);
    RestartKeeps(s, listing, unset);
  }

  // ---------------------------------------------------------------- what an early end does

  const EMPTY_STORE := Store(map[], map[], map[], map[])
  const FRESH := Node(EMPTY_STORE, map[], 0, Bytes.None, [], false)

  /** A file of one byte. */
  const BYTE: Content := [7]
  const ONE_BYTE := Record(None)

  function Record(state: PieceState): FileInfo {
    FileInfo("n", "f", [PieceInfo(state, 1, Sha1Hex(BYTE))])
  }

  /** Two sessions are ready to fetch the file, and one of them has begun. */
  const EARLY: seq<Event> := [
    AddInfo(Bytes.Some(WriteInfo(ONE_BYTE)), 0, 0), ReadyFor(1, "f"), ReadyFor(2, "f"), Message(1, FileBegin("f"))]

  lemma AddsOneByte()
    ensures ReadHead(WriteInfo(ONE_BYTE), 0).1 == 1
    ensures var s := Added(EMPTY_STORE, Bytes.Some(WriteInfo(ONE_BYTE)), 0, 0).0;
            s.files == map["f" := ONE_BYTE] && s.pieces == map[]
  {
    Sha1HexIsWord(BYTE);
    hide ReadPieces, ReadWord, ReadNumber, Sha1Hex;
    InfoRoundTrip(ONE_BYTE, 0, map[]);
    HeadIsRead("f", 1, Lines(ONE_BYTE.pieces, "n"), 0);
    assert ReadHead(WriteInfo(ONE_BYTE), 0).1 == 1 && ReadHead(WriteInfo(ONE_BYTE), 0).0 == "f";
    hide ReadHead, ReadInfo, WriteInfo;
    assert Checked(map[], ONE_BYTE).pieces == ONE_BYTE.pieces;
  }

  lemma AfterOneMore(nd: Node, events: seq<Event>, e: Event)
    ensures AfterAll(nd, events + [e]) == After(AfterAll(nd, events), e)
    ensures AllAllowed(nd, events) && Allowed(AfterAll(nd, events), e) ==> AllAllowed(nd, events + [e])
  {
    hide After, Allowed;
    assert (events + [e])[..|events|] == events;
    if AllAllowed(nd, events) && Allowed(AfterAll(nd, events), e) {
      forall i | 0 <= i < |events + [e]|
        ensures Allowed(AfterAll(nd, (events + [e])[..i]), (events + [e])[i])
      {
        if i < |events| {
          assert (events + [e])[..i] == events[..i];
        }
      }
    }
  }

  lemma TwoEvents(nd: Node, events: seq<Event>, a: Event, b: Event)
    ensures AfterAll(nd, events + [a, b]) == After(After(AfterAll(nd, events), a), b)
    ensures (AllAllowed(nd, events) && Allowed(AfterAll(nd, events), a) &&
             Allowed(After(AfterAll(nd, events), a), b)) ==> AllAllowed(nd, events + [a, b])
  {
    hide *;
    AfterOneMore(nd, events, a);
    AfterOneMore(nd, events + [a], b);
    assert events + [a] + [b] == events + [a, b];
  }

  lemma FourEvents(nd: Node, a: Event, b: Event, c: Event, d: Event)
    ensures AfterAll(nd, [a, b, c, d]) == After(After(After(After(nd, a), b), c), d)
    ensures (Allowed(nd, a) && Allowed(After(nd, a), b) && Allowed(After(After(nd, a), b), c) &&
             Allowed(After(After(After(nd, a), b), c), d)) ==> AllAllowed(nd, [a, b, c, d])
  {
    TwoEvents(nd, [], a, b);
    TwoEvents(nd, [a, b], c, d);
    assert [] + [a, b] == [a, b] && [a, b] + [c, d] == [a, b, c, d];
    assert AfterAll(nd, []) == nd && AllAllowed(nd, []);
    hide *;
  }

  /** What is known of the file, and where the two sessions' streams are. */
  predicate Stands(nd: Node, state: PieceState, content: Content, first: Stream, second: Stream) {
    && nd.store.files == map["f" := Record(state)] && PieceBytes(nd.store, "f", 0) == content
    && (1, "f") in nd.slots && nd.slots[(1, "f")] == Slot(first, false, 0, 0)
    && (2, "f") in nd.slots && nd.slots[(2, "f")] == Slot(second, false, 0, 0)
  }

  /** Where the four events lead: the first session writes piece 0, which the second session's slot names too. */
  lemma EarlyState()
    ensures AllAllowed(FRESH, EARLY) && Stands(AfterAll(FRESH, EARLY), Open, [], Writing(0, 0), Closed)
  {
    AddsOneByte();
    hide Added, ReadHead, AllAllowed, AfterAll, Handle, Sha1Hex;
    EarlySlots(After(FRESH, EARLY[0]));
    FourEvents(FRESH, EARLY[0], EARLY[1], EARLY[2], EARLY[3]);
    assert EARLY == [EARLY[0], EARLY[1], EARLY[2], EARLY[3]];
  }

  /** Asking for the only piece, once it is free. */
  lemma AsksForOne(nd: Node, id: nat)
    requires nd.store.files == map["f" := Record(None)] && SlotAt(nd.slots, (id, "f")).stream.Closed?
    ensures var nd' := RequestNext(nd, (id, "f"));
            && nd'.store.files == map["f" := Record(Open)] && PieceBytes(nd'.store, "f", 0) == []
            && nd'.slots == nd.slots[(id, "f") :=
                 SlotAt(nd.slots, (id, "f")).(stream := Writing(0, 0), failed := false, piece := 0)]
  {
    hide Sha1Hex;
    assert FirstNone(Record(None).pieces) == 0;
    assert Record(None).pieces[0] in Record(None).pieces && !Complete(nd.store, "f");
    assert SetState(nd.store, "f", 0, Open).files["f"].pieces == Record(Open).pieces;
  }

  lemma EarlySlots(n1: Node)
    requires n1.store.files == map["f" := ONE_BYTE] && n1.slots == map[]
    ensures Stands(After(After(After(n1, EARLY[1]), EARLY[2]), EARLY[3]), Open, [], Writing(0, 0), Closed)
  {
    var n2 := After(n1, EARLY[1]);
    var n3 := After(n2, EARLY[2]);
    assert n2.slots == map[(1, "f") := NEW_SLOT] && n2.store == n1.store;
    assert n3.slots == n2.slots[(2, "f") := NEW_SLOT] && n3.store == n1.store;
    hide RequestNext, Sha1Hex, Complete;
    assert After(n3, EARLY[3]) == RequestNext(n3, (1, "f"));
    AsksForOne(n3, 1);
  }

  /** A piece whose bytes do not match is free again. */
  lemma AddsUnmatched(s: Store)
    requires s.files == map["f" := Record(Open)] && |PieceBytes(s, "f", 0)| != 1
    ensures AddedPiece(s, "f", 0).files == map["f" := Record(None)]
  {
    hide Sha1Hex;
    assert SetState(s, "f", 0, None).files["f"].pieces == Record(None).pieces;
    assert Record(None).pieces[0] in Record(None).pieces;
  }

  lemma AddsMatched(s: Store)
    requires s.files == map["f" := Record(Open)] && PieceBytes(s, "f", 0) == BYTE
    ensures var s' := AddedPiece(s, "f", 0); s'.files == map["f" := Record(Have)] && s'.pieces == s.pieces
  {
    hide Sha1Hex, MergedFrom;
    assert SetState(s, "f", 0, Have).files["f"].pieces == Record(Have).pieces;
  }

  lemma SecondEnds(nd: Node)
    requires Stands(nd, Open, [], Writing(0, 0), Closed)
    ensures Stands(After(nd, Message(2, FileEnd("f"))), Open, [], Writing(0, 0), Writing(0, 0))
  {
    EndIsRequest(nd, (2, "f"));
    AddsUnmatched(nd.store);
    hide RequestNext, AddedPiece, Handle;
    AsksForOne(Closing(nd, (2, "f")).(store := AddedPiece(nd.store, "f", 0)), 2);
  }

  /** The end of a piece from the session that has not begun puts both sessions' streams on the one piece: every
      event before it is allowed, and the node is not safe after it. */
  lemma EarlyEndBreaks()
    ensures Safe(FRESH) && AllAllowed(FRESH, EARLY)
    ensures !Allowed(AfterAll(FRESH, EARLY), Message(2, FileEnd("f")))
    ensures var nd := AfterAll(FRESH, EARLY + [Message(2, FileEnd("f"))]);
            !Safe(nd) && Writes(nd, (1, "f"), 0) && Writes(nd, (2, "f"), 0)
  {
    assert Safe(FRESH);
    EarlyState();
    SecondEnds(AfterAll(FRESH, EARLY));
    hide Handle, Safe, AfterAll, AllAllowed, Sha1Hex;
    AllKeep(FRESH, EARLY);
    AfterOneMore(FRESH, EARLY, Message(2, FileEnd("f")));
    EndIsSafeWhenAlone(AfterAll(FRESH, EARLY), 2, "f");
  }

  /** The first session gets its byte and its end; then bytes for the second one come. */
  const LATER: seq<Event> := [
    Message(2, FileEnd("f")), Message(1, FileBody("f", BYTE)), Message(1, FileEnd("f")),
    Message(2, FileBody("f", BYTE + BYTE))]

  lemma FirstReceives(nd: Node)
    requires Stands(nd, Open, [], Writing(0, 0), Writing(0, 0))
    ensures Stands(After(nd, Message(1, FileBody("f", BYTE))), Open, BYTE, Writing(0, 1), Writing(0, 0))
  {
    hide Sha1Hex;
    assert Overwrite([], 0, BYTE) == BYTE;
  }

  lemma FirstEnds(nd: Node)
    requires Stands(nd, Open, BYTE, Writing(0, 1), Writing(0, 0))
    ensures var s := After(nd, Message(1, FileEnd("f")));
            && s.store.files == map["f" := Record(Have)] && PieceBytes(s.store, "f", 0) == BYTE
            && (2, "f") in s.slots && s.slots[(2, "f")] == Slot(Writing(0, 0), false, 0, 0)
  {
    EndIsRequest(nd, (1, "f"));
    AddsMatched(nd.store);
    hide AddedPiece, Sha1Hex;
    assert Complete(AddedPiece(nd.store, "f", 0), "f");
  }

  lemma SecondReceives(nd: Node)
    requires nd.store.files == map["f" := Record(Have)] && PieceBytes(nd.store, "f", 0) == BYTE
    requires (2, "f") in nd.slots && nd.slots[(2, "f")] == Slot(Writing(0, 0), false, 0, 0)
    ensures var s := After(nd, Message(2, FileBody("f", BYTE + BYTE))).store;
            s.files == map["f" := Record(Have)] && !PieceOk(s.pieces, s.files["f"], 0)
  {
    hide Sha1Hex;
    assert Overwrite(BYTE, 0, BYTE + BYTE) == BYTE + BYTE;
  }

  /** So a piece that is had need not match its record any more. */
  lemma EarlyEndSpoils()
    ensures var s := AfterAll(FRESH, EARLY + LATER).store;
            && "f" in s.files && |s.files["f"].pieces| == 1 && s.files["f"].pieces[0].state == Have
            && !PieceOk(s.pieces, s.files["f"], 0)
  {
    EarlyState();
    var n0 := AfterAll(FRESH, EARLY);
    hide Stands, Handle, AfterAll, PieceOk, Sha1Hex;
    SecondEnds(n0);
    var n1 := After(n0, LATER[0]);
    FirstReceives(n1);
    FirstEnds(After(n1, LATER[1]));
    SecondReceives(After(After(n1, LATER[1]), LATER[2]));
    hide After;
    AfterOneMore(FRESH, EARLY, LATER[0]);
    AfterOneMore(FRESH, EARLY + [LATER[0]], LATER[1]);
    AfterOneMore(FRESH, EARLY + [LATER[0]] + [LATER[1]], LATER[2]);
    AfterOneMore(FRESH, EARLY + [LATER[0]] + [LATER[1]] + [LATER[2]], LATER[3]);
    assert EARLY + [LATER[0]] + [LATER[1]] + [LATER[2]] + [LATER[3]] == EARLY + LATER;
  }

  lemma StartSmall(s: Store, r: Store)
    requires Consistent(r) && r.files.Keys == s.files.Keys
    requires forall f <- s.files :: |s.files[f].pieces| <= NO_PIECE && Recovered(s, s.files[f], r.files[f])
    ensures Safe(Node(r, map[], 0, Bytes.None, [], false))
  {
    hide Consistent, Recovered;
    forall f <- r.files
      ensures |r.files[f].pieces| <= NO_PIECE
    {
      RecoveredCount(s, s.files[f], r.files[f]);
    }
  }

  /** A node that has just started from a disk with small records is safe. */
  lemma StartIsSafe(s: Store, listing: seq<string>, unset: nat)
    requires Consistent(s) && Persisted(s)
    requires (forall f <- listing :: f in s.infos) && (forall f <- s.infos :: f in listing)
    requires Distinct(listing)
    requires forall f <- s.files :: |s.files[f].pieces| <= NO_PIECE
    ensures Safe(Node(Loaded(s.(files := map[]), listing, unset), map[], 0, Bytes.None, [], false))
  {
    RestartKeeps(s, listing, unset);
    var r := Loaded(s.(files := map[]), listing, unset);
    hide *;
    StartSmall(s, r);
  }

  lemma RecoveredCount(s: Store, was: FileInfo, now: FileInfo)
    requires Recovered(s, was, now)
    ensures |now.pieces| == |was.pieces|
  {
  }
}
