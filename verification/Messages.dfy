/** The messages of the file and path managers as bytes: what is pushed comes back, and what is sent passes the session's
    reader. */
module Messages {
  import opened Bytes
  import opened Frames
  import opened FileManager
  import opened FileSafety
  import PathSearch
  import Codec
  import Sha1Spec

  // ---------------------------------------------------------------- values

  function TextOf(text: string): Codec.Value {
    Codec.Text(seq(|text|, i requires 0 <= i < |text| => ByteOf(text[i] as int)))
  }

  function Chars(bytes: seq<Byte>): string {
    seq(|bytes|, i requires 0 <= i < |bytes| => ValueOf(bytes[i]) as char)
  }

  /** A byte as a number, and back. */
  function Code(b: Sha1Spec.Byte): nat {
    b as int
  }

  function ByCode(n: nat): Sha1Spec.Byte
    requires n < 256
  {
    n as Sha1Spec.Byte
  }

  lemma CodeBound(b: Sha1Spec.Byte)
    ensures Code(b) < 256
  {
  }

  lemma CodeReturns(b: Sha1Spec.Byte)
    ensures Code(b) < 256 && ByCode(Code(b)) == b
  {
    CodeBound(b);
  }

  function Octet(b: Sha1Spec.Byte): Byte {
    ByteOf(Code(b))
  }

  function BufferOf(data: seq<Sha1Spec.Byte>): Codec.Value {
    Codec.Vector(seq(|data|, i requires 0 <= i < |data| => Codec.Fixed([Octet(data[i])])))
  }

  /** The bytes a value takes. */
  function Width(v: Codec.Value): nat
    decreases v, 1
  {
    match v
    case Fixed(bytes) => |bytes|
    case Text(chars) => |chars| + 4
    case Vector(items) => Widths(items) + 4
  }

  function Widths(vs: seq<Codec.Value>): nat
    decreases vs, 0
  {
    if vs == [] then 0 else Width(vs[0]) + Widths(vs[1..])
  }

  lemma {:induction false} PushWidth(body: seq<Byte>, v: Codec.Value)
    ensures |Codec.Push(body, v)| == |body| + Width(v)
    decreases v, 1
  {
    if v.Vector? {
      PushWidths(body, v.items);
    }
  }

  lemma {:induction false} PushWidths(body: seq<Byte>, vs: seq<Codec.Value>)
    ensures |Codec.PushAll(body, vs)| == |body| + Widths(vs)
    decreases vs, 0
  {
    if vs != [] {
      PushWidth(body, vs[0]);
      PushWidths(Codec.Push(body, vs[0]), vs[1..]);
    }
  }

  lemma {:induction false} OneByteEach(vs: seq<Codec.Value>)
    requires forall v <- vs :: Width(v) == 1
    ensures Widths(vs) == |vs|
  {
    if vs != [] {
      assert vs[0] in vs && forall v <- vs[1..] :: v in vs;
      OneByteEach(vs[1..]);
    }
  }

  lemma BufferWidth(data: seq<Sha1Spec.Byte>)
    ensures Width(BufferOf(data)) == |data| + 4
  {
    OneByteEach(BufferOf(data).items);
  }

  // ---------------------------------------------------------------- file messages

  function FileKind(m: FileMessage): nat {
    match m
    case FileBegin(_) => 3
    case FileRequest(_, _) => 4
    case FileBody(_, _) => 5
    case FileBodyResp(_) => 6
    case FileEnd(_) => 7
    case FileRequestEnd(_) => 8
  }

  /** The values, in the order they are pushed: the id of the file comes last, and is read first. */
  function FileValues(m: FileMessage): seq<Codec.Value> {
    match m
    case FileRequest(f, piece) => [Codec.Fixed(LeBytes(piece, 2)), TextOf(f)]
    case FileBody(f, data) => [BufferOf(data), TextOf(f)]
    case _ => [TextOf(m.fileId)]
  }

  function FileBytes(m: FileMessage): Message {
    WithBody(FileKind(m), Codec.PushAll([], FileValues(m)))
  }

  /** The bytes before the id of the file. */
  function Before(m: FileMessage): nat {
    if m.FileRequest? then 2 else if m.FileBody? then |m.data| + 4 else 0
  }

  lemma FileWidth(m: FileMessage)
    ensures |FileBytes(m).body| == Before(m) + |m.fileId| + 4
  {
    var vs := FileValues(m);
    PushWidths([], vs);
    if m.FileBody? {
      BufferWidth(m.data);
    }
    assert Widths(vs[|vs| - 1..]) == |m.fileId| + 4;
    assert |vs| == 2 ==> vs[1..] == [TextOf(m.fileId)];
  }

  /** A file message passes the reader of a session exactly when what it carries, its id, and 13 bytes more fit the
      bound on packets. */
  lemma FileFits(m: FileMessage)
    ensures Fits(FileBytes(m)) <==> Before(m) + |m.fileId| + 13 <= 32768
  {
    FileWidth(m);
  }

  function FileShapes(kind: nat): seq<Codec.Shape> {
    if kind == 4 then [Codec.FixedShape(2), Codec.TextShape]
    else if kind == 5 then [Codec.VectorShape(Codec.FixedShape(1)), Codec.TextShape]
    else [Codec.TextShape]
  }

  function AsText(v: Codec.Value): string {
    if v.Text? then Chars(v.chars) else ""
  }

  function AsNumber(v: Codec.Value): nat {
    if v.Fixed? then LeValue(v.bytes) else 0
  }

  function AsOctet(v: Codec.Value): Sha1Spec.Byte {
    if AsNumber(v) < 256 then ByCode(AsNumber(v)) else 0
  }

  function AsBuffer(v: Codec.Value): seq<Sha1Spec.Byte> {
    if v.Vector? then seq(|v.items|, i requires 0 <= i < |v.items| => AsOctet(v.items[i])) else []
  }

  /** What the receiving manager makes of a message: the values come off the end of the body. */
  function ReadFile(m: Message): Option<FileMessage> {
    match Codec.PopAll(m.body, FileShapes(m.kind))
    case None => None
    case Some((_, vs)) => Rebuilt(m.kind, vs)
  }

  function Rebuilt(kind: nat, vs: seq<Codec.Value>): Option<FileMessage> {
    if vs == [] then None
    else
      var f := AsText(vs[|vs| - 1]);
      match kind
      case 3 => Some(FileBegin(f))
      case 4 => Some(FileRequest(f, AsNumber(vs[0])))
      case 5 => Some(FileBody(f, AsBuffer(vs[0])))
      case 6 => Some(FileBodyResp(f))
      case 7 => Some(FileEnd(f))
      case 8 => Some(FileRequestEnd(f))
      case _ => None
  }

  /** Text of one byte a character. */
  predicate Narrow(text: string) {
    |text| < U32_LIMIT && forall c <- text :: c as int < 256
  }

  lemma TextReturns(text: string)
    requires Narrow(text)
    ensures AsText(TextOf(text)) == text
  {
    var back := Chars(TextOf(text).chars);
    forall i | 0 <= i < |text|
      ensures back[i] == text[i]
    {
      assert text[i] in text;
      ByteRoundTrip(text[i] as int);
    }
  }

  lemma OctetReturns(b: Sha1Spec.Byte)
    ensures AsOctet(Codec.Fixed([Octet(b)])) == b
  {
    CodeReturns(b);
    hide Code, ByCode;
    ByteRoundTrip(Code(b));
    assert LeValue([Octet(b)]) == ValueOf(Octet(b)) + 256 * LeValue([]);
  }

  lemma BufferReturns(data: seq<Sha1Spec.Byte>)
    ensures AsBuffer(BufferOf(data)) == data
  {
    hide AsOctet, Octet;
    forall i | 0 <= i < |data|
      ensures AsBuffer(BufferOf(data))[i] == data[i]
    {
      OctetReturns(data[i]);
    }
  }

  lemma BufferShape(data: seq<Sha1Spec.Byte>)
    requires |data| < U32_LIMIT
    ensures Codec.HasShape(BufferOf(data), Codec.VectorShape(Codec.FixedShape(1))) && Codec.Short(BufferOf(data))
  {
    hide Octet;
    assert forall x <- BufferOf(data).items :: x.Fixed? && |x.bytes| == 1;
  }

  /** The values have the shapes they are read as. */
  lemma FileValuesShape(m: FileMessage)
    requires |m.fileId| < U32_LIMIT && (m.FileBody? ==> |m.data| < U32_LIMIT)
    ensures var vs, ts := FileValues(m), FileShapes(FileKind(m));
            && |vs| == |ts| && (forall i | 0 <= i < |vs| :: Codec.HasShape(vs[i], ts[i]))
            && forall x <- vs :: Codec.Short(x)
  {
    if m.FileBody? {
      BufferShape(m.data);
    }
    assert Codec.HasShape(TextOf(m.fileId), Codec.TextShape) && Codec.Short(TextOf(m.fileId));
    hide TextOf, BufferOf;
  }

  lemma ValuesReturn(m: FileMessage)
    requires Narrow(m.fileId) && (m.FileRequest? ==> m.piece < 65536)
    ensures Rebuilt(FileKind(m), FileValues(m)) == Some(m)
  {
    TextReturns(m.fileId);
    if m.FileRequest? {
      assert Pow256(2) == 65536;
      LeRoundTrip(m.piece, 2);
    }
    if m.FileBody? {
      BufferReturns(m.data);
    }
    hide TextOf, AsText, BufferOf, AsBuffer;
  }

  /** The receiving manager reads every message as it was sent, piece numbers of 16 bits and fewer than 2^32 bytes
      provided. */
  lemma FileMessageReturns(m: FileMessage)
    requires |m.fileId| < U32_LIMIT && (forall c <- m.fileId :: c as int < 256)
    requires (m.FileRequest? ==> m.piece < 65536) && (m.FileBody? ==> |m.data| < U32_LIMIT)
    ensures ReadFile(FileBytes(m)) == Some(m)
  {
    ValuesReturn(m);
    FileValuesShape(m);
    hide FileValues, FileShapes, FileKind, Rebuilt, Codec.HasShape, Codec.Short, Codec.PopAll, Codec.PushAll;
    Codec.RoundTripAll([], FileValues(m), FileShapes(FileKind(m)));
  }

  // ---------------------------------------------------------------- what a node sends

  /** Ids are the 40 digits of a hash. */
  predicate Named(nd: Node) {
    && (forall k <- nd.slots :: |k.1| == 40)
    && (nd.timer.Some? ==> |nd.timer.value.1| == 40)
  }

  predicate NamedEvent(e: Event) {
    && (e.ReadyFor? ==> |e.fileId| == 40)
    && (e.BeginFor? ==> |e.fileId| == 40)
  }

  predicate SentOk(nd: Node) {
    forall out <- nd.sent :: |out.1.fileId| == 40 && (out.1.FileBody? ==> |out.1.data| <= 1024)
  }

  predicate Fine(nd: Node) {
    Named(nd) && SentOk(nd)
  }

  lemma ChunkBound(s: FileStore.Store, f: string, slot: Slot)
    requires !slot.stream.Closed?
    ensures |ReadChunk(s, f, slot).1| <= 1024
  {
  }

  lemma NextBodyFine(nd: Node, key: Key)
    requires Fine(nd) && key in nd.slots
    ensures Fine(NextBody(nd, key))
  {
    var slot := nd.slots[key];
    if !slot.stream.Closed? {
      ChunkBound(nd.store, key.1, slot);
    }
    hide ReadChunk;
  }

  lemma {:induction false} PackFine(nd: Node, key: Key, credit: nat)
    requires Fine(nd) && key in nd.slots
    ensures Fine(Pack(nd, key, credit))
    decreases credit
  {
    if credit > 0 {
      NextBodyFine(nd, key);
      hide NextBody, Fine;
      if !NextBody(nd, key).slots[key].stream.Closed? {
        PackFine(NextBody(nd, key), key, credit - 1);
      }
    }
  }

  lemma RequestNextFine(nd: Node, key: Key)
    requires Fine(nd) && |key.1| == 40
    ensures Fine(RequestNext(nd, key))
  {
    hide FileStore.Complete, FileStore.ClaimNone;
  }

  lemma HandleFine(nd: Node, id: nat, msg: FileMessage)
    requires Fine(nd)
    ensures Fine(Handle(nd, id, msg))
  {
    var key := (id, msg.fileId);
    if key in nd.slots {
      assert |key.1| == 40;
      match msg
      case FileBegin(_) =>
        hide RequestNext;
        RequestNextFine(nd, key);
      case FileRequest(f, piece) =>
        hide Pack, FileStore.Complete;
        if FileStore.Complete(nd.store, f) && (f, piece) in nd.store.pieces {
          var slot := OpenForReading(nd.slots[key], piece, |nd.store.pieces[(f, piece)]|);
          var opened' := nd.(slots := nd.slots[key := slot]);
          assert Fine(opened');
          PackFine(opened', key, PACK_SIZE);
        }
      case FileEnd(f) =>
        EndIsRequest(nd, key);
        var ended := Closing(nd, key).(store := FileStore.AddedPiece(nd.store, f, nd.slots[key].piece));
        assert Fine(ended);
        hide Handle, RequestNext;
        RequestNextFine(ended, key);
      case FileBody(_, data) => hide Overwrite;
      case FileBodyResp(_) =>
        hide Pack;
        PackFine(nd, key, PACK_SIZE);
      case FileRequestEnd(_) =>
    }
  }

  lemma AfterFine(nd: Node, e: Event)
    requires Fine(nd) && NamedEvent(e)
    ensures Fine(After(nd, e))
  {
    hide Handle, RequestNext, FileStore.Uploaded, FileStore.Added;
    match e
    case Message(id, msg) => HandleFine(nd, id, msg);
    case Timeout =>
      if nd.timer.Some? {
        RequestNextFine(nd.(timer := None), nd.timer.value);
      }
    case _ =>
  }

  lemma {:induction false} AllFine(nd: Node, events: seq<Event>)
    requires Fine(nd) && forall e <- events :: NamedEvent(e)
    ensures Fine(AfterAll(nd, events))
  {
    if events != [] {
      var init, last := events[..|events| - 1], events[|events| - 1];
      assert last in events && forall e <- init :: e in events;
      AllFine(nd, init);
      hide Fine, After;
      AfterFine(AfterAll(nd, init), last);
    }
  }

  /** Whatever happens at a node whose files are named by their hashes, every message it sends passes the reader of the
      session it goes to. */
  lemma EverythingSentFits(store: FileStore.Store, events: seq<Event>)
    requires forall e <- events :: (e.ReadyFor? ==> |e.fileId| == 40) && (e.BeginFor? ==> |e.fileId| == 40)
    ensures forall out <- AfterAll(Node(store, map[], 0, None, [], false), events).sent :: Fits(FileBytes(out.1))
  {
    var nd := Node(store, map[], 0, None, [], false);
    AllFine(nd, events);
    forall out <- AfterAll(nd, events).sent
      ensures Fits(FileBytes(out.1))
    {
      FileFits(out.1);
    }
  }

  // ---------------------------------------------------------------- path messages

  function PathKind(m: PathSearch.PathMessage): nat {
    match m
    case PathRequest(_, _, _) => 15
    case PathResponse(_, _, _) => 16
    case PathAddress(_, _) => 17
  }

  /** The values in the order they are pushed; `address` and `port` are those of the node the message names. */
  function PathValues(m: PathSearch.PathMessage, address: string, port: nat): seq<Codec.Value> {
    match m
    case PathRequest(reqId, ttl, f) => [TextOf(f), Codec.Fixed(LeBytes(ttl, 1)), TextOf(reqId)]
    case PathResponse(respId, reqId, _) =>
      [TextOf(address), Codec.Fixed(LeBytes(port, 2)), TextOf(reqId), TextOf(respId)]
    case PathAddress(respId, _) => [TextOf(address), Codec.Fixed(LeBytes(port, 2)), TextOf(respId)]
  }

  function PathShapes(m: PathSearch.PathMessage): seq<Codec.Shape> {
    match m
    case PathRequest(_, _, _) => [Codec.TextShape, Codec.FixedShape(1), Codec.TextShape]
    case PathResponse(_, _, _) => [Codec.TextShape, Codec.FixedShape(2), Codec.TextShape, Codec.TextShape]
    case PathAddress(_, _) => [Codec.TextShape, Codec.FixedShape(2), Codec.TextShape]
  }

  function PathBytes(m: PathSearch.PathMessage, address: string, port: nat): Message {
    WithBody(PathKind(m), Codec.PushAll([], PathValues(m, address, port)))
  }

  lemma PathWidth(m: PathSearch.PathMessage, address: string, port: nat)
    ensures |PathBytes(m, address, port).body| ==
            match m
            case PathRequest(reqId, _, f) => |f| + |reqId| + 9
            case PathResponse(respId, reqId, _) => |address| + |reqId| + |respId| + 14
            case PathAddress(respId, _) => |address| + |respId| + 10
  {
    var vs := PathValues(m, address, port);
    PushWidths([], vs);
    hide Codec.PushAll, Widths;
    TextWidths(vs);
  }

  /** The widths of up to four values add up. */
  lemma TextWidths(vs: seq<Codec.Value>)
    ensures |vs| == 3 ==> Widths(vs) == Width(vs[0]) + Width(vs[1]) + Width(vs[2])
    ensures |vs| == 4 ==> Widths(vs) == Width(vs[0]) + Width(vs[1]) + Width(vs[2]) + Width(vs[3])
  {
    if |vs| >= 3 {
      assert Widths(vs[1..]) == Width(vs[1]) + Widths(vs[1..][1..]);
      assert Widths(vs[1..][1..]) == Width(vs[2]) + Widths(vs[1..][1..][1..]);
      if |vs| == 4 {
        assert Widths(vs[1..][1..][1..]) == Width(vs[3]);
      }
    }
  }

  lemma PathValuesShape(m: PathSearch.PathMessage, address: string, port: nat)
    requires |address| < U32_LIMIT && |PathBytes(m, address, port).body| < U32_LIMIT
    ensures var vs, ts := PathValues(m, address, port), PathShapes(m);
            && |vs| == |ts| && (forall i | 0 <= i < |vs| :: Codec.HasShape(vs[i], ts[i]))
            && forall x <- vs :: Codec.Short(x)
  {
    PathWidth(m, address, port);
    hide PathBytes;
  }

  /** What was pushed is what the receiving manager reads. */
  lemma PathMessageReturns(m: PathSearch.PathMessage, address: string, port: nat)
    requires |address| < U32_LIMIT && |PathBytes(m, address, port).body| < U32_LIMIT
    ensures Codec.PopAll(PathBytes(m, address, port).body, PathShapes(m)) == Some(([], PathValues(m, address, port)))
  {
    PathValuesShape(m, address, port);
    hide PathValues, PathShapes, Codec.HasShape, Codec.Short, Codec.PopAll, Codec.PushAll;
    Codec.RoundTripAll([], PathValues(m, address, port), PathShapes(m));
  }

  /** Ids of searches have 16 characters, and those of files 40. */
  predicate Sized(m: PathSearch.PathMessage) {
    && (m.PathRequest? ==> |m.fileId| == 40)
    && (!m.PathAddress? ==> |m.reqId| == 16)
    && (!m.PathRequest? ==> |m.respId| == 16)
  }

  lemma SizedFits(m: PathSearch.PathMessage, address: string, port: nat)
    requires Sized(m) && |address| <= 64
    ensures Fits(PathBytes(m, address, port))
  {
    PathWidth(m, address, port);
  }

  /** Every message a node sends for a path message, or to start a search, passes the reader of the session it goes to,
      when addresses are written in at most 64 characters. */
  lemma PathMessagesFit(requests: map<string, PathSearch.Entry>, sessions: seq<nat>, self: nat, holdsFile: bool,
                        newId: string, via: nat, m: PathSearch.PathMessage, fileId: string, address: string, port: nat)
    requires Sized(m) && |newId| == 16 && |fileId| == 40 && |address| <= 64
    ensures forall out <- PathSearch.OnMessage(requests, sessions, self, holdsFile, newId, via, m).sends ::
              Sized(out.msg) && Fits(PathBytes(out.msg, address, port))
    ensures forall out <- PathSearch.Originate(requests, sessions, newId, fileId).sends ::
              Sized(out.msg) && Fits(PathBytes(out.msg, address, port))
  {
    forall out: PathSearch.Outgoing | Sized(out.msg)
      ensures Fits(PathBytes(out.msg, address, port))
    {
      SizedFits(out.msg, address, port);
    }
    hide PathBytes, Fits, PathSearch.Others;
  }
}
