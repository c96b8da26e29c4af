/** The part of a node that moves pieces of files between sessions, and its handlers as steps on values. */
module FileManager {
  import opened InfoText
  import opened FileStore
  import Bytes

  const CHUNK_SIZE := 1024
  const PACK_SIZE := 128

  /** The piece number that stands for no piece. */
  const NO_PIECE := 0xFFFF

  datatype FileMessage =
    | FileBegin(fileId: string)
    | FileRequest(fileId: string, piece: nat)
    | FileBody(fileId: string, data: Content)
    | FileEnd(fileId: string)
    | FileBodyResp(fileId: string)
    | FileRequestEnd(fileId: string)

  /** The file stream of a slot: closed, or on a piece of the slot's file. */
  datatype Stream = Closed | Reading(piece: nat, position: nat) | Writing(piece: nat, position: nat)

  /** What is kept for a session and a file.  A stream that has failed neither reads nor writes. */
  datatype Slot = Slot(stream: Stream, failed: bool, piece: nat, size: nat)

  const NEW_SLOT := Slot(Closed, false, 0, 0)

  type Key = (nat, string)

  /** `packs` counts the chunks received since the last credit, over all sessions; `timer` is what the node's one
      timer waits for; `sent` lists what has been sent, with its session; `thrown` records that a handler threw an
      exception, over a piece file that is not there. */
  datatype Node = Node(
    store: Store,
    slots: map<Key, Slot>,
    packs: nat,
    timer: Bytes.Option<Key>,
    sent: seq<(nat, FileMessage)>,
    thrown: bool)

  // ---------------------------------------------------------------- streams

  function SlotAt(slots: map<Key, Slot>, key: Key): Slot {
    if key in slots then slots[key] else NEW_SLOT
  }

  function PieceBytes(s: Store, fileId: string, piece: nat): Content {
    if (fileId, piece) in s.pieces then s.pieces[(fileId, piece)] else []
  }

  /** Opening fails when the stream is already open, and empties the piece when it is for writing. */
  function OpenForWriting(nd: Node, key: Key, piece: nat): Node {
    var slot := SlotAt(nd.slots, key).(piece := piece);
    if slot.stream.Closed? then
      nd.(slots := nd.slots[key := slot.(stream := Writing(piece, 0), failed := false)],
          store := nd.store.(pieces := nd.store.pieces[(key.1, piece) := []]))
    else nd.(slots := nd.slots[key := slot.(failed := true)])
  }

  function OpenForReading(slot: Slot, piece: nat, size: nat): Slot {
    if slot.stream.Closed? then slot.(stream := Reading(piece, 0), failed := false, size := size)
    else slot.(failed := true, size := size)
  }

  /** Closing a closed stream makes it fail. */
  function Close(slot: Slot): Slot {
    if slot.stream.Closed? then slot.(failed := true) else slot.(stream := Closed)
  }

  function ZeroBytes(n: nat): Content {
    seq(n, _ => 0)
  }

  /** `data` written at a position of a file. */
  function Overwrite(content: Content, position: nat, data: Content): Content {
    var before := if position <= |content| then content[..position] else content + ZeroBytes(position - |content|);
    before + data + if position + |data| <= |content| then content[position + |data|..] else []
  }

  /** `n` bytes read at a position of a file, and whether there were so many; the others stay zero. */
  function ReadAt(content: Content, position: nat, n: nat): (Content, bool) {
    if position + n <= |content| then (content[position..position + n], true)
    else
      var there := if position <= |content| then content[position..] else [];
      (there + ZeroBytes(n - |there|), false)
  }

  /** The bytes a slot still has to send, in 32 bits; a failed stream has position -1. */
  function BytesLeft(slot: Slot): nat
    requires !slot.stream.Closed?
  {
    (slot.size - if slot.failed then -1 else slot.stream.position) % Bytes.U32_LIMIT
  }

  // ---------------------------------------------------------------- handlers

  function Send(nd: Node, id: nat, msg: FileMessage): Node {
    nd.(sent := nd.sent + [(id, msg)])
  }

  function Ready(nd: Node, key: Key): Node {
    nd.(slots := nd.slots[key := SlotAt(nd.slots, key).(piece := 0)])
  }

  function Begin(nd: Node, key: Key): Node {
    Send(Ready(nd, key), key.0, FileBegin(key.1))
  }

  /** Asks for the next piece, gives the file up when there is none, or waits when all that lack are on their way.
      The number of the piece is cut to 16 bits. */
  function RequestNext(nd: Node, key: Key): Node {
    if Complete(nd.store, key.1) then Send(nd.(slots := nd.slots - {key}), key.0, FileRequestEnd(key.1))
    else
      var (store, claimed) := ClaimNone(nd.store, key.1);
      var number := if claimed.Some? then claimed.value % Bytes.U16_LIMIT else NO_PIECE;
      var nd' := nd.(store := store);
      if number == NO_PIECE then nd'.(timer := Bytes.Some(key))
      else Send(OpenForWriting(nd', key, number), key.0, FileRequest(key.1, number))
  }

  /** Sends the next chunk, or closes the stream at its end. */
  function NextBody(nd: Node, key: Key): (r: Node)
    requires key in nd.slots
    ensures key in r.slots
  {
    var slot := nd.slots[key];
    if slot.stream.Closed? then nd
    else if BytesLeft(slot) == 0 then
      Send(nd.(slots := nd.slots[key := slot.(stream := Closed)]), key.0, FileEnd(key.1))
    else
      var (slot', data) := ReadChunk(nd.store, key.1, slot);
      Send(nd.(slots := nd.slots[key := slot']), key.0, FileBody(key.1, data))
  }

  /** The slot after a chunk has been read, and the chunk; a stream not good for reading leaves the chunk zero. */
  function ReadChunk(s: Store, fileId: string, slot: Slot): (Slot, Content)
    requires !slot.stream.Closed?
  {
    var n := if BytesLeft(slot) < CHUNK_SIZE then BytesLeft(slot) else CHUNK_SIZE;
    match slot.stream
    case Reading(piece, position) =>
      if slot.failed then (slot, ZeroBytes(n))
      else
        var (data, ok) := ReadAt(PieceBytes(s, fileId, piece), position, n);
        (slot.(stream := Reading(piece, position + n), failed := !ok), data)
    case Writing(_, _) => (slot.(failed := true), ZeroBytes(n))
  }

  /** Sends chunks until the credit is used up or the stream is closed. */
  function Pack(nd: Node, key: Key, credit: nat): (r: Node)
    requires key in nd.slots
    decreases credit, nd
  {
    if credit == 0 then nd
    else
      var nd' := NextBody(nd, key);
      if nd'.slots[key].stream.Closed? then nd' else Pack(nd', key, credit - 1)
  }

  /** Bytes received go where the stream is. */
  function Receive(nd: Node, key: Key, data: Content): Node
    requires key in nd.slots
  {
    var slot := nd.slots[key];
    match slot.stream
    case Writing(piece, position) =>
      if slot.failed then nd
      else
        var content := Overwrite(PieceBytes(nd.store, key.1, piece), position, data);
        nd.(slots := nd.slots[key := slot.(stream := Writing(piece, position + |data|))],
            store := nd.store.(pieces := nd.store.pieces[(key.1, piece) := content]))
    case _ => nd.(slots := nd.slots[key := slot.(failed := true)])
  }

  /** Counts a chunk, and gives a credit back when a pack is full. */
  function Count(nd: Node, key: Key): Node {
    var packs := (nd.packs + 1) % Bytes.U16_LIMIT;
    if packs == PACK_SIZE then Send(nd.(packs := 0), key.0, FileBodyResp(key.1)) else nd.(packs := packs)
  }

  /** A message of a session; one for a file the session has no slot for changes nothing. */
  function Handle(nd: Node, id: nat, msg: FileMessage): Node {
    var key := (id, msg.fileId);
    if key !in nd.slots then nd
    else
      match msg
      case FileBegin(_) => RequestNext(nd, key)
      case FileRequest(fileId, piece) =>
        if !Complete(nd.store, fileId) then nd
        else if (fileId, piece) !in nd.store.pieces then nd.(thrown := true)
        else
          var slot := OpenForReading(nd.slots[key], piece, |nd.store.pieces[(fileId, piece)]|);
          Pack(nd.(slots := nd.slots[key := slot]), key, PACK_SIZE)
      case FileEnd(fileId) =>
        var nd' := nd.(slots := nd.slots[key := Close(nd.slots[key])]);
        RequestNext(nd'.(store := AddedPiece(nd'.store, fileId, nd'.slots[key].piece)), key)
      case FileBody(_, data) =>
        if nd.slots[key].stream.Closed? then nd else Count(Receive(nd, key, data), key)
      case FileBodyResp(_) => Pack(nd, key, PACK_SIZE)
      case FileRequestEnd(_) => nd.(slots := nd.slots - {key})
  }

  /** The timer, when it has not been set again since. */
  function Expire(nd: Node): Node {
    if nd.timer.Some? then RequestNext(nd.(timer := Bytes.None), nd.timer.value) else nd
  }

  // ---------------------------------------------------------------- the object

  class NodeServer {
    const fileSystem: FileSystem
    var slots: map<Key, Slot>
    var packs: nat
    var timer: Bytes.Option<Key>
    var sent: seq<(nat, FileMessage)>
    var thrown: bool

    constructor (fileSystem: FileSystem)
      ensures this.fileSystem == fileSystem && View() == Node(fileSystem.View(), map[], 0, Bytes.None, [], false)
    {
      this.fileSystem := fileSystem;
      slots, packs, timer, sent, thrown := map[], 0, Bytes.None, [], false;
    }

    function View(): Node
      reads this, fileSystem
    {
      Node(fileSystem.View(), slots, packs, timer, sent, thrown)
    }

    method SendMessage(id: nat, msg: FileMessage)
      modifies `sent
      ensures View() == Send(old(View()), id, msg)
    {
      sent := sent + [(id, msg)];
    }

    method FileReady(id: nat, fileId: string)
      modifies `slots
      ensures View() == Ready(old(View()), (id, fileId))
    {
      slots := slots[(id, fileId) := SlotAt(slots, (id, fileId)).(piece := 0)];
    }

    method SendBeginFile(id: nat, fileId: string)
      modifies `slots, `sent
      ensures View() == Begin(old(View()), (id, fileId))
    {
      FileReady(id, fileId);
      SendMessage(id, FileBegin(fileId));
    }

    method RequestNextPiece(id: nat, fileId: string)
      modifies this, fileSystem
      ensures View() == RequestNext(old(View()), (id, fileId))
    {
      hide Complete, ClaimNone;
      var complete := fileSystem.CheckFile(fileId);
      if complete {
        FinishRequesting(id, fileId);
        return;
      }
      var claimed := fileSystem.GetNonePiece(fileId);
      var number := if claimed.Some? then claimed.value % Bytes.U16_LIMIT else NO_PIECE;
      if number == NO_PIECE {
        timer := Bytes.Some((id, fileId));
      } else {
        var slot := SlotAt(slots, (id, fileId)).(piece := number);
        if slot.stream.Closed? {
          slot := slot.(stream := Writing(number, 0), failed := false);
          fileSystem.pieces := fileSystem.pieces[(fileId, number) := []];
        } else {
          slot := slot.(failed := true);
        }
        slots := slots[(id, fileId) := slot];
        SendMessage(id, FileRequest(fileId, number));
      }
    }

    method FinishRequesting(id: nat, fileId: string)
      modifies `slots, `sent
      ensures View() == Send(old(View()).(slots := old(slots) - {(id, fileId)}), id, FileRequestEnd(fileId))
    {
      slots := slots - {(id, fileId)};
      SendMessage(id, FileRequestEnd(fileId));
    }

    method FinishSending(id: nat, fileId: string)
      modifies `sent
      ensures View() == Send(old(View()), id, FileEnd(fileId))
    {
      SendMessage(id, FileEnd(fileId));
    }

    method NextBodyPiece(id: nat, fileId: string)
      requires (id, fileId) in slots
      modifies `slots, `sent
      ensures View() == NextBody(old(View()), (id, fileId))
    {
      hide ReadChunk;
      var key, slot := (id, fileId), slots[(id, fileId)];
      if slot.stream.Closed? {
        return;
      }
      var left := BytesLeft(slot);
      if left == 0 {
        slots := slots[key := slot.(stream := Closed)];
        FinishSending(id, fileId);
      } else {
        var (slot', buffer) := ReadChunk(fileSystem.View(), fileId, slot);
        slots := slots[key := slot'];
        SendMessage(id, FileBody(fileId, buffer));
      }
    }

    method SendPack(id: nat, fileId: string)
      requires (id, fileId) in slots
      modifies `slots, `sent
      ensures View() == Pack(old(View()), (id, fileId), PACK_SIZE)
    {
      hide NextBody;
      for i := 0 to PACK_SIZE
        invariant (id, fileId) in slots
        invariant Pack(View(), (id, fileId), PACK_SIZE - i) == Pack(old(View()), (id, fileId), PACK_SIZE)
      {
        NextBodyPiece(id, fileId);
        if slots[(id, fileId)].stream.Closed? {
          return;
        }
      }
    }

    method UpdateFileManager(id: nat, msg: FileMessage)
      modifies this, fileSystem
      ensures View() == Handle(old(View()), id, msg)
    {
      hide RequestNext, Pack, Complete, AddedPiece, Overwrite;
      var key := (id, msg.fileId);
      if key !in slots {
        return;
      }
      match msg {
        case FileBegin(fileId) => RequestNextPiece(id, fileId);
        case FileRequest(fileId, piece) =>
          var complete := fileSystem.CheckFile(fileId);
          if !complete {
            return;
          }
          if (fileId, piece) !in fileSystem.pieces {
            thrown := true;
            return;
          }
          slots := slots[key := OpenForReading(slots[key], piece, |fileSystem.pieces[(fileId, piece)]|)];
          SendPack(id, fileId);
        case FileEnd(fileId) =>
          slots := slots[key := Close(slots[key])];
          fileSystem.AddPiece(fileId, slots[key].piece);
          RequestNextPiece(id, fileId);
        case FileBody(fileId, data) =>
          if slots[key].stream.Closed? {
            return;
          }
          WriteBody(id, fileId, data);
          packs := (packs + 1) % Bytes.U16_LIMIT;
          if packs == PACK_SIZE {
            packs := 0;
            SendMessage(id, FileBodyResp(fileId));
          }
        case FileBodyResp(fileId) => SendPack(id, fileId);
        case FileRequestEnd(_) => slots := slots - {key};
      }
    }

    method WriteBody(id: nat, fileId: string, data: Content)
      requires (id, fileId) in slots
      modifies `slots, fileSystem`pieces
      ensures View() == Receive(old(View()), (id, fileId), data)
    {
      hide Overwrite;
      var key, slot := (id, fileId), slots[(id, fileId)];
      match slot.stream {
        case Writing(piece, position) =>
          if !slot.failed {
            var stored := (fileId, piece);
            var content := if stored in fileSystem.pieces then fileSystem.pieces[stored] else [];
            fileSystem.pieces := fileSystem.pieces[stored := Overwrite(content, position, data)];
            slots := slots[key := slot.(stream := Writing(piece, position + |data|))];
          }
        case _ => slots := slots[key := slot.(failed := true)];
      }
    }

    method TimerFired()
      modifies this, fileSystem
      ensures View() == Expire(old(View()))
    {
      hide RequestNext;
      if timer.Some? {
        var key := timer.value;
        timer := Bytes.None;
        RequestNextPiece(key.0, key.1);
      }
    }
  }
}
