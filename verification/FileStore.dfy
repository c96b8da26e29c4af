/** The store of a node: files cut into pieces, the pieces checked against their hashes, and merged again. */
module FileStore {
  import opened InfoText
  import opened Sha1Spec
  import Bytes
  import Sha1

  type Content = seq<Byte>

  /** The pieces on disk, by file and number. */
  type PieceMap = map<(string, nat), Content>

  const PIECE_SIZE := 262144

  /** The records in memory, and what is on disk: the `.info` texts, the pieces and the merged files. */
  datatype Store = Store(
    files: map<string, FileInfo>,
    infos: map<string, string>,
    pieces: PieceMap,
    merged: map<string, Content>)

  // ---------------------------------------------------------------- checking

  predicate PieceOk(pieces: PieceMap, info: FileInfo, i: nat)
    requires i < |info.pieces|
  {
    && (info.fileId, i) in pieces
    && |pieces[(info.fileId, i)]| == info.pieces[i].size
    && Sha1Hex(pieces[(info.fileId, i)]) == info.pieces[i].sha1
  }

  function CheckedPiece(pieces: PieceMap, info: FileInfo, i: nat): PieceInfo
    requires i < |info.pieces|
  {
    info.pieces[i].(state := if PieceOk(pieces, info, i) then Have else None)
  }

  /** The record with every piece checked. */
  function Checked(pieces: PieceMap, info: FileInfo): FileInfo {
    info.(pieces := seq(|info.pieces|, i requires 0 <= i < |info.pieces| => CheckedPiece(pieces, info, i)))
  }

  predicate AllHave(pieces: seq<PieceInfo>) {
    forall p <- pieces :: p.state == Have
  }

  predicate Complete(s: Store, fileId: string) {
    fileId in s.files && AllHave(s.files[fileId].pieces)
  }

  /** The first piece neither had nor being fetched, or the number of pieces. */
  function FirstNone(pieces: seq<PieceInfo>): (i: nat)
    ensures i <= |pieces| && (i < |pieces| ==> pieces[i].state == None)
    ensures forall j | 0 <= j < i :: pieces[j].state != None
  {
    if pieces == [] || pieces[0].state == None then 0 else 1 + FirstNone(pieces[1..])
  }

  function SetState(s: Store, fileId: string, i: nat, state: PieceState): Store
    requires fileId in s.files && i < |s.files[fileId].pieces|
  {
    var info := s.files[fileId];
    s.(files := s.files[fileId := info.(pieces := info.pieces[i := info.pieces[i].(state := state)])])
  }

  /** Claiming a piece to fetch. */
  function ClaimNone(s: Store, fileId: string): (Store, Bytes.Option<nat>) {
    if fileId !in s.files then (s, Bytes.None)
    else
      var i := FirstNone(s.files[fileId].pieces);
      if i == |s.files[fileId].pieces| then (s, Bytes.None)
      else (SetState(s, fileId, i, Open), Bytes.Some(i))
  }

  // ---------------------------------------------------------------- merging

  /** The pieces from `i` on, one after another.  A piece that is missing or empty makes the output stream fail, so
      that nothing after it is written. */
  function MergedFrom(pieces: PieceMap, info: FileInfo, i: nat): Content
    decreases |info.pieces| - i
  {
    if i >= |info.pieces| || (info.fileId, i) !in pieces || pieces[(info.fileId, i)] == [] then []
    else pieces[(info.fileId, i)] + MergedFrom(pieces, info, i + 1)
  }

  function MergeFile(s: Store, info: FileInfo): Store {
    s.(merged := s.merged[info.fileName := MergedFrom(s.pieces, info, 0)])
  }

  function AddedPiece(s: Store, fileId: string, i: nat): Store {
    if fileId !in s.files || |s.files[fileId].pieces| <= i then s
    else
      var s' := SetState(s, fileId, i, if PieceOk(s.pieces, s.files[fileId], i) then Have else None);
      if AllHave(s'.files[fileId].pieces) then MergeFile(s', s'.files[fileId]) else s'
  }

  // ---------------------------------------------------------------- splitting

  function PieceCount(length: nat, size: nat): nat
    requires size > 0
  {
    (length + size - 1) / size
  }

  /** The last piece gets the remainder, which is nothing when the size divides the length. */
  function PieceLength(length: nat, size: nat, i: nat): nat
    requires size > 0
  {
    if i + 1 == PieceCount(length, size) then length % size else size
  }

  lemma PieceInside(length: nat, size: nat, i: nat)
    requires size > 0 && i < PieceCount(length, size)
    ensures i * size + PieceLength(length, size, i) <= length
  {
    CountBounds(length, size);
    var n := PieceCount(length, size);
    if i + 1 == n {
      assert length % size == length - length / size * size;
      assert i <= length / size;
      Scales(i, length / size, size);
    } else {
      Scales(i + 2, n, size);
      assert (i + 2) * size == i * size + size + size;
    }
  }

  lemma Scales(a: nat, b: nat, size: nat)
    requires a <= b
    ensures a * size <= b * size
  {
  }

  /** The number of pieces is the length over the size, rounded up. */
  lemma CountBounds(length: nat, size: nat)
    requires size > 0
    ensures var n := PieceCount(length, size);
            && length <= n * size < length + size
            && n == length / size + (if length % size == 0 then 0 else 1)
  {
    var q, r := length / size, length % size;
    assert length == q * size + r;
    if r == 0 {
      assert length + size - 1 == q * size + (size - 1);
      DivideUnique(length + size - 1, size, q, size - 1);
    } else {
      assert length + size - 1 == (q + 1) * size + (r - 1);
      DivideUnique(length + size - 1, size, q + 1, r - 1);
      assert (q + 1) * size == q * size + size;
    }
  }

  lemma DivideUnique(x: nat, size: nat, q: nat, r: nat)
    requires size > 0 && x == q * size + r && r < size
    ensures x / size == q
  {
    var d := x / size - q;
    assert d * size == x / size * size - q * size;
    if d > 0 {
      Scales(1, d, size);
    } else if d < 0 {
      Scales(1, -d, size);
    }
  }

  function Offset(i: nat, size: nat): nat {
    i * size
  }

  function PieceOf(content: Content, size: nat, i: nat): Content
    requires size > 0 && i < PieceCount(|content|, size)
  {
    PieceInside(|content|, size, i);
    content[Offset(i, size)..Offset(i, size) + PieceLength(|content|, size, i)]
  }

  function SplitPieces(content: Content, size: nat): (r: seq<Content>)
    requires size > 0
  {
    seq(PieceCount(|content|, size), i requires 0 <= i < PieceCount(|content|, size) => PieceOf(content, size, i))
  }

  /** The part of a path after its last slash of either kind. */
  function FileNameOf(path: string): string {
    if path == "" then ""
    else
      var last := path[|path| - 1];
      if last == '/' || last == '\\' then "" else FileNameOf(path[..|path| - 1]) + [last]
  }

  function PieceLine(part: Content): string {
    Sha1Hex(part) + " " + Digits(|part|) + "\n"
  }

  function SplitInfo(path: string, fileId: string, parts: seq<Content>): FileInfo {
    FileInfo(FileNameOf(path), fileId,
             seq(|parts|, i requires 0 <= i < |parts| => PieceInfo(None, |parts[i]|, Sha1Hex(parts[i]))))
  }

  function WithPieces(pieces: PieceMap, fileId: string, parts: seq<Content>): PieceMap {
    if parts == [] then pieces
    else
      var n := |parts| - 1;
      WithPieces(pieces, fileId, parts[..n])[(fileId, n) := parts[n]]
  }

  function Split(s: Store, path: string, fileId: string, content: Content, size: nat): Store
    requires size > 0
  {
    var parts := SplitPieces(content, size);
    s.(infos := s.infos[fileId := WriteInfo(SplitInfo(path, fileId, parts))],
       pieces := WithPieces(s.pieces, fileId, parts))
  }

  // ---------------------------------------------------------------- taking files in

  /** A record read from a text, with its pieces checked. */
  function Updated(s: Store, text: string, unset: nat): Store {
    var info := Checked(s.pieces, ReadInfo(text, unset, s.files));
    s.(files := s.files[info.fileId := info])
  }

  function Uploaded(s: Store, path: string, content: Bytes.Option<Content>, unset: nat): Store {
    if content.None? || Sha1Hex(content.value) in s.files then s
    else
      var fileId := Sha1Hex(content.value);
      var s' := Split(s, path, fileId, content.value, PIECE_SIZE);
      Updated(s', s'.infos[fileId], unset)
  }

  function Added(s: Store, text: Bytes.Option<string>, unset: nat, unset': nat): (Store, string) {
    if text.None? then (s, "")
    else
      var (fileId, count, afterCount) := ReadHead(text.value, unset);
      if fileId in s.files then (s, fileId)
      else
        (Updated(s.(infos := s.infos[fileId := CopyInfo(text.value, unset)]), text.value, unset'), fileId)
  }

  /** The store of a node that starts with these files on its disk, found in this order. */
  function Loaded(s: Store, listing: seq<string>, unset: nat): Store
    requires forall f <- listing :: f in s.infos
  {
    if listing == [] then s
    else
      var n := |listing| - 1;
      Updated(Loaded(s, listing[..n], unset), s.infos[listing[n]], unset)
  }

  lemma {:induction false} LoadedDisk(s: Store, listing: seq<string>, unset: nat)
    requires forall f <- listing :: f in s.infos
    ensures var r := Loaded(s, listing, unset); r.infos == s.infos && r.pieces == s.pieces && r.merged == s.merged
  {
    if listing != [] {
      LoadedDisk(s, listing[..|listing| - 1], unset);
    }
  }

  lemma MergedNext(out: Content, pieces: PieceMap, info: FileInfo, i: nat)
    requires i < |info.pieces|
    ensures var piece := if (info.fileId, i) in pieces then pieces[(info.fileId, i)] else [];
            out + MergedFrom(pieces, info, i) ==
            out + piece + (if piece == [] then [] else MergedFrom(pieces, info, i + 1))
  {
  }

  /** The pieces read so far, followed by those that will be read from the input, make the whole. */
  ghost predicate ReadsAhead(whole: (seq<PieceInfo>, Input), done: seq<PieceInfo>, input: Input, ahead: seq<PieceInfo>) {
    whole == (done + ReadPieces(input, ahead).0, ReadPieces(input, ahead).1)
  }

  lemma ReadNext(whole: (seq<PieceInfo>, Input), done: seq<PieceInfo>, input: Input, ahead: seq<PieceInfo>)
    requires ahead != [] && ReadsAhead(whole, done, input, ahead)
    ensures var (piece, next) := ReadPiece(input, ahead[0]); ReadsAhead(whole, done + [piece], next, ahead[1..])
  {
    hide ReadPiece;
    var (piece, next) := ReadPiece(input, ahead[0]);
    var others := ReadPieces(next, ahead[1..]).0;
    assert done + [piece] + others == done + ([piece] + others);
  }

  /** The first `i` pieces are on disk, and the text lacks only the lines of the others and the name. */
  ghost predicate SplitSoFar(before: Store, now: PieceMap, path: string, fileId: string,
                             content: Content, size: nat, text: string, i: nat)
    requires size > 0
  {
    var parts := SplitPieces(content, size);
    var info := SplitInfo(path, fileId, parts);
    && i <= |parts|
    && now == WithPieces(before.pieces, fileId, parts[..i])
    && text + Lines(info.pieces[i..], info.fileName) == WriteInfo(info)
  }

  lemma SplitBegins(s: Store, path: string, fileId: string, content: Content, size: nat)
    requires size > 0
    ensures SplitSoFar(s, s.pieces, path, fileId, content, size,
                       fileId + "\n" + Digits(PieceCount(|content|, size)) + "\n", 0)
  {
    var parts := SplitPieces(content, size);
    var info := SplitInfo(path, fileId, parts);
    assert info.pieces[0..] == info.pieces && parts[..0] == [];
  }

  lemma SplitStep(s: Store, now: PieceMap, path: string, fileId: string,
                  content: Content, size: nat, text: string, i: nat)
    requires size > 0 && i < PieceCount(|content|, size)
    requires SplitSoFar(s, now, path, fileId, content, size, text, i)
    ensures SplitSoFar(s, now[(fileId, i) := PieceOf(content, size, i)], path, fileId, content, size,
                       text + PieceLine(PieceOf(content, size, i)), i + 1)
  {
    var parts := SplitPieces(content, size);
    var info := SplitInfo(path, fileId, parts);
    assert parts[i] == PieceOf(content, size, i) && |parts| == |info.pieces|;
    SplitInfoAt(path, fileId, parts, i);
    hide Digits, Sha1Hex, WriteInfo, SplitPieces, PieceOf, PieceCount, SplitInfo, Lines, WithPieces, FileNameOf;
    LinesNext(text, info.pieces, i, info.fileName);
    WithPiecesNext(s.pieces, fileId, parts, i);
  }

  lemma LinesNext(text: string, pieces: seq<PieceInfo>, i: nat, fileName: string)
    requires i < |pieces|
    ensures text + Lines(pieces[i..], fileName) == text + Line(pieces[i]) + Lines(pieces[i + 1..], fileName)
  {
    hide Line;
    assert pieces[i..][1..] == pieces[i + 1..];
  }

  lemma WithPiecesNext(pieces: PieceMap, fileId: string, parts: seq<Content>, i: nat)
    requires i < |parts|
    ensures WithPieces(pieces, fileId, parts[..i + 1]) == WithPieces(pieces, fileId, parts[..i])[(fileId, i) := parts[i]]
  {
    assert parts[..i + 1][..i] == parts[..i];
  }

  lemma SplitEnds(s: Store, now: PieceMap, path: string, fileId: string,
                  content: Content, size: nat, text: string)
    requires size > 0 && SplitSoFar(s, now, path, fileId, content, size, text, PieceCount(|content|, size))
    ensures s.(infos := s.infos[fileId := text + FileNameOf(path)], pieces := now) == Split(s, path, fileId, content, size)
  {
    var parts := SplitPieces(content, size);
    assert parts[..|parts|] == parts;
  }

  lemma SplitInfoAt(path: string, fileId: string, parts: seq<Content>, i: nat)
    requires i < |parts|
    ensures var info := SplitInfo(path, fileId, parts);
            info.fileId == fileId && info.pieces[i] == PieceInfo(None, |parts[i]|, Sha1Hex(parts[i]))
  {
  }

  /** What the next read of the file gives. */
  lemma BufferIsPiece(content: Content, size: nat, i: nat)
    requires size > 0 && i < PieceCount(|content|, size)
    ensures var length := PieceLength(|content|, size, i);
            && Offset(i, size) + length <= |content|
            && content[Offset(i, size)..Offset(i, size) + length] == PieceOf(content, size, i)
            && (i + 1 < PieceCount(|content|, size) ==> Offset(i, size) + length == Offset(i + 1, size))
  {
    PieceInside(|content|, size, i);
    assert (i + 1) * size == i * size + size;
  }

  class FileSystem {
    var files: map<string, FileInfo>
    var infos: map<string, string>
    var pieces: PieceMap
    var merged: map<string, Content>

    function View(): Store
      reads this
    {
      Store(files, infos, pieces, merged)
    }

    constructor (infos: map<string, string>, pieces: PieceMap, merged: map<string, Content>,
                 listing: seq<string>, unset: nat)
      requires forall f <- listing :: f in infos
      ensures View() == Loaded(Store(map[], infos, pieces, merged), listing, unset)
    {
      this.files, this.infos, this.pieces, this.merged := map[], infos, pieces, merged;
      new;
      ghost var start := View();
      for i := 0 to |listing|
        invariant View() == Loaded(start, listing[..i], unset)
      {
        LoadedDisk(start, listing[..i], unset);
        assert listing[..i + 1][..i] == listing[..i];
        UpdateFullFile(this.infos[listing[i]], unset);
      }
      assert listing[..|listing|] == listing;
    }

    method CheckPiece(info: FileInfo, i: nat) returns (ok: bool)
      requires i < |info.pieces|
      ensures ok == PieceOk(pieces, info, i)
      ensures ok <==> (info.fileId, i) in pieces && |pieces[(info.fileId, i)]| == info.pieces[i].size &&
                      Sha1Hex(pieces[(info.fileId, i)]) == info.pieces[i].sha1
    {
      if (info.fileId, i) !in pieces {
        return false;
      }
      if |pieces[(info.fileId, i)]| != info.pieces[i].size {
        return false;
      }
      var sha1 := Sha1.FromFile(pieces[(info.fileId, i)]);
      return sha1 == info.pieces[i].sha1;
    }

    method CheckPieces(info: FileInfo) returns (checked: FileInfo)
      ensures checked == Checked(pieces, info)
    {
      hide PieceOk;
      checked := info;
      for i := 0 to |info.pieces|
        invariant checked == info.(pieces := checked.pieces) && |checked.pieces| == |info.pieces|
        invariant forall j | 0 <= j < i :: checked.pieces[j] == CheckedPiece(pieces, info, j)
        invariant forall j | i <= j < |info.pieces| :: checked.pieces[j] == info.pieces[j]
      {
        var ok := CheckPiece(checked, i);
        assert PieceOk(pieces, checked, i) == PieceOk(pieces, info, i) by {
          CheckDepends(pieces, checked, info, i);
        }
        checked := checked.(pieces := checked.pieces[i := checked.pieces[i].(state := if ok then Have else None)]);
      }
      assert checked.pieces == Checked(pieces, info).pieces;
    }

    method UpdateFullFile(text: string, unset: nat)
      modifies `files
      ensures View() == Updated(old(View()), text, unset)
    {
      var (fileId, count, afterCount) := ReadHead(text, unset);
      var was := Known(files, fileId);
      var read, input := Resize(was.pieces, count), afterCount;
      ghost var start := read;
      ghost var whole := ReadPieces(afterCount, start);
      assert read[0..] == read && read[..0] == [] && [] + whole.0 == whole.0;
      for j := 0 to count
        invariant |read| == count && read[j..] == start[j..] && files == old(files)
        invariant ReadsAhead(whole, read[..j], input, start[j..])
      {
        hide *;
        ReadNext(whole, read[..j], input, start[j..]);
        assert start[j..][0] == read[j] && start[j..][1..] == start[j + 1..];
        ghost var before := read;
        var (piece, next) := ReadPiece(input, read[j]);
        read, input := read[j := piece], next;
        assert read[..j + 1] == before[..j] + [piece];
        assert read[j + 1..] == before[j..][1..];
      }
      assert start[count..] == [] && read[..count] + [] == read;
      var info := FileInfo(ReadWord(input, was.fileName).0, fileId, read);
      info := CheckPieces(info);
      files := files[fileId := info];
    }

    method CheckFile(fileId: string) returns (complete: bool)
      ensures complete == Complete(View(), fileId)
    {
      if fileId !in files {
        return false;
      }
      var all := files[fileId].pieces;
      for i := 0 to |all|
        invariant forall j | 0 <= j < i :: all[j].state == Have
      {
        if all[i].state != Have {
          assert all[i] in all;
          return false;
        }
      }
      return true;
    }

    method GetNonePiece(fileId: string) returns (piece: Bytes.Option<nat>)
      modifies `files
      ensures (View(), piece) == ClaimNone(old(View()), fileId)
    {
      if fileId in files {
        var all := files[fileId].pieces;
        for i := 0 to |all|
          invariant files == old(files) && FirstNone(all) >= i
        {
          if all[i].state == None {
            files := files[fileId := files[fileId].(pieces := all[i := all[i].(state := Open)])];
            return Bytes.Some(i);
          }
        }
      }
      return Bytes.None;
    }

    method AddPiece(fileId: string, i: nat)
      modifies `files, `merged
      ensures View() == AddedPiece(old(View()), fileId, i)
    {
      if fileId !in files || |files[fileId].pieces| <= i {
        return;
      }
      var info := files[fileId];
      var ok := CheckPiece(info, i);
      info := info.(pieces := info.pieces[i := info.pieces[i].(state := if ok then Have else None)]);
      files := files[fileId := info];
      for j := 0 to |info.pieces|
        invariant files == old(files)[fileId := info] && merged == old(merged)
        invariant forall k | 0 <= k < j :: info.pieces[k].state == Have
      {
        if info.pieces[j].state != Have {
          assert info.pieces[j] in info.pieces;
          return;
        }
      }
      MergePieces(info);
    }

    method MergePieces(info: FileInfo)
      modifies `merged
      ensures View() == MergeFile(old(View()), info)
    {
      var out: Content, failed := [], false;
      for i := 0 to |info.pieces|
        invariant merged == old(merged)
        invariant out + (if failed then [] else MergedFrom(pieces, info, i)) == MergedFrom(pieces, info, 0)
      {
        MergedNext(out, pieces, info, i);
        hide *;
        if !failed {
          var piece := if (info.fileId, i) in pieces then pieces[(info.fileId, i)] else [];
          out, failed := out + piece, piece == [];
        }
      }
      assert out + [] == out;
      merged := merged[info.fileName := out];
    }

    method WritePiece(fileId: string, i: nat, buffer: Content) returns (line: string)
      modifies `pieces
      ensures pieces == old(pieces)[(fileId, i) := buffer]
      ensures line == PieceLine(buffer)
    {
      pieces := pieces[(fileId, i) := buffer];
      var sha1 := Sha1.FromFile(buffer);
      line := sha1 + " " + Digits(|buffer|) + "\n";
    }

    method SplitFile(path: string, fileId: string, content: Content, size: nat)
      requires size > 0
      modifies `infos, `pieces
      ensures View() == Split(old(View()), path, fileId, content, size)
    {
      ghost var start := View();
      var text := WritePieces(path, fileId, content, size);
      SplitEnds(start, pieces, path, fileId, content, size, text);
      text := text + FileNameOf(path);
      infos := infos[fileId := text];
    }

    /** The id, the count and the lines of the pieces, each of which is written to disk. */
    method WritePieces(path: string, fileId: string, content: Content, size: nat) returns (text: string)
      requires size > 0
      modifies `pieces
      ensures SplitSoFar(old(View()), pieces, path, fileId, content, size, text, PieceCount(|content|, size))
    {
      var count := PieceCount(|content|, size);
      text := fileId + "\n" + Digits(count) + "\n";
      var position := 0;
      ghost var start := View();
      SplitBegins(start, path, fileId, content, size);
      assert position == Offset(0, size);
      hide Digits, PieceCount, SplitSoFar, Sha1Hex, Offset, PieceLength;
      for i := 0 to count
        invariant i < count ==> position == Offset(i, size)
        invariant SplitSoFar(start, pieces, path, fileId, content, size, text, i)
      {
        SplitStep(start, pieces, path, fileId, content, size, text, i);
        BufferIsPiece(content, size, i);
        hide *;
        var buffer := content[position..position + PieceLength(|content|, size, i)];
        assert buffer == PieceOf(content, size, i);
        position := position + PieceLength(|content|, size, i);
        var line := WritePiece(fileId, i, buffer);
        text := text + line;
      }
    }

    method UploadFile(path: string, content: Bytes.Option<Content>, unset: nat)
      modifies `files, `infos, `pieces
      ensures View() == Uploaded(old(View()), path, content, unset)
    {
      if content.None? {
        return;
      }
      var sha1 := Sha1.FromFile(content.value);
      if sha1 in files {
        return;
      }
      SplitFile(path, sha1, content.value, PIECE_SIZE);
      UpdateFullFile(infos[sha1], unset);
    }

    method AddFile(text: Bytes.Option<string>, unset: nat, unset': nat) returns (fileId: string)
      modifies `files, `infos
      ensures (View(), fileId) == Added(old(View()), text, unset, unset')
    {
      if text.None? {
        return "";
      }
      var (id, count, afterCount) := ReadHead(text.value, unset);
      fileId := id;
      if fileId in files {
        return;
      }
      infos := infos[fileId := fileId + " " + Digits(count) + afterCount.ahead];
      UpdateFullFile(text.value, unset');
    }
  }

  lemma CheckDepends(pieces: PieceMap, a: FileInfo, b: FileInfo, i: nat)
    requires a.fileId == b.fileId && i < |a.pieces| && i < |b.pieces| && a.pieces[i] == b.pieces[i]
    ensures PieceOk(pieces, a, i) == PieceOk(pieces, b, i)
  {
  }
}
