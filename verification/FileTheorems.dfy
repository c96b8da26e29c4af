/** What the store of a node guarantees: nothing lost by cutting and merging, and no piece trusted that does not
    match its hash. */
module FileTheorems {
  import opened Sequences
  import opened InfoText
  import opened Sha1Spec
  import opened FileStore
  import Bytes

  // ---------------------------------------------------------------- split, then merge

  function Concat(parts: seq<Content>): Content {
    if parts == [] then [] else parts[0] + Concat(parts[1..])
  }

  /** How many bytes at the end no piece gets. */
  function Lost(length: nat, size: nat): (lost: nat)
    requires size > 0
    ensures lost <= length
  {
    if length > 0 && length % size == 0 then WholePieces(length, size); size else 0
  }

  lemma WholePieces(length: nat, size: nat)
    requires size > 0 && length > 0 && length % size == 0
    ensures size <= length && length - size == (PieceCount(length, size) - 1) * size
  {
    CountBounds(length, size);
    var q := length / size;
    assert length == q * size && q > 0;
    assert (q - 1) * size == q * size - size;
    Scales(1, q, size);
  }

  /** Where piece `i` lies in the part that is kept. */
  lemma PiecePlace(length: nat, size: nat, i: nat)
    requires size > 0 && i < PieceCount(length, size)
    ensures var kept := length - Lost(length, size);
            && Offset(i, size) <= kept
            && Offset(i, size) + PieceLength(length, size, i) ==
               if i + 1 == PieceCount(length, size) then kept else Offset(i + 1, size)
  {
    CountBounds(length, size);
    var n := PieceCount(length, size);
    Scales(i, n - 1, size);
    assert (i + 1) * size == i * size + size;
    if length % size == 0 {
      WholePieces(length, size);
    }
  }

  lemma SplitPiecesAt(content: Content, size: nat, i: nat)
    requires size > 0 && i < PieceCount(|content|, size)
    ensures var parts := SplitPieces(content, size);
            && |parts| == PieceCount(|content|, size)
            && parts[i..][0] == PieceOf(content, size, i) && parts[i..][1..] == parts[i + 1..]
  {
  }

  lemma ConcatOneMore(content: Content, parts: seq<Content>, from: nat, to: nat, kept: nat)
    requires from <= to <= kept <= |content| && parts != [] && parts[0] == content[from..to]
    requires Concat(parts[1..]) == content[to..kept]
    ensures Concat(parts) == content[from..kept]
  {
    assert content[from..to] + content[to..kept] == content[from..kept];
  }

  lemma ConcatOfOne(parts: seq<Content>)
    requires parts != [] && parts[1..] == []
    ensures Concat(parts) == parts[0]
  {
    assert parts[0] + [] == parts[0];
  }

  lemma {:induction false} ConcatFrom(content: Content, size: nat, i: nat)
    requires size > 0 && i < PieceCount(|content|, size)
    ensures Offset(i, size) <= |content| - Lost(|content|, size)
    ensures Concat(SplitPieces(content, size)[i..]) == content[Offset(i, size)..|content| - Lost(|content|, size)]
    decreases PieceCount(|content|, size) - i
  {
    hide *;
    var parts := SplitPieces(content, size);
    PiecePlace(|content|, size, i);
    BufferIsPiece(content, size, i);
    SplitPiecesAt(content, size, i);
    var kept := |content| - Lost(|content|, size);
    if i + 1 < |parts| {
      ConcatFrom(content, size, i + 1);
      ConcatOneMore(content, parts[i..], Offset(i, size), Offset(i + 1, size), kept);
    } else {
      assert parts[i + 1..] == [];
      ConcatOfOne(parts[i..]);
    }
  }

  /** The pieces of a file make the file again exactly when its length is 0 or no multiple of the piece size;
      otherwise its last piece is missing. */
  lemma SplitThenConcat(content: Content, size: nat)
    requires size > 0
    ensures Concat(SplitPieces(content, size)) == content[..|content| - Lost(|content|, size)]
    ensures Concat(SplitPieces(content, size)) == content <==> |content| == 0 || |content| % size != 0
  {
    CountBounds(|content|, size);
    if content == [] {
      assert SplitPieces(content, size) == [];
    } else {
      assert SplitPieces(content, size)[0..] == SplitPieces(content, size);
      ConcatFrom(content, size, 0);
    }
  }

  /** The pieces of a record as they are on disk, a missing one as nothing. */
  function Stored(pieces: PieceMap, info: FileInfo, i: nat): seq<Content>
    requires i <= |info.pieces|
  {
    seq(|info.pieces| - i, j requires 0 <= j < |info.pieces| - i =>
      if (info.fileId, i + j) in pieces then pieces[(info.fileId, i + j)] else [])
  }

  /** Only empty pieces come after an empty one. */
  ghost predicate EmptyLast(parts: seq<Content>) {
    forall i, j | 0 <= i < j < |parts| && parts[i] == [] :: parts[j] == []
  }

  lemma {:induction false} EmptyConcat(parts: seq<Content>)
    ensures Concat(parts) == [] <==> forall p <- parts :: p == []
  {
    if parts != [] {
      EmptyConcat(parts[1..]);
      assert parts == [parts[0]] + parts[1..];
      assert |Concat(parts)| == |parts[0]| + |Concat(parts[1..])|;
      if forall p <- parts :: p == [] {
        assert parts[0] in parts;
        assert forall p <- parts[1..] :: p in parts;
      } else {
        var p :| p in parts && p != [];
        assert p == parts[0] || p in parts[1..];
      }
    }
  }

  lemma SamePrefix(a: Content, b: Content, c: Content)
    ensures a + b == a + c <==> b == c
  {
    assert (a + b)[|a|..] == b && (a + c)[|a|..] == c;
  }

  /** The first of the pieces, and the others. */
  lemma MergeUnfolds(pieces: PieceMap, info: FileInfo, i: nat)
    requires i < |info.pieces|
    ensures var parts := Stored(pieces, info, i);
            && parts != [] && parts[1..] == Stored(pieces, info, i + 1)
            && Concat(parts) == parts[0] + Concat(parts[1..])
            && MergedFrom(pieces, info, i) == if parts[0] == [] then [] else parts[0] + MergedFrom(pieces, info, i + 1)
  {
    hide Concat;
    ConcatFirst(Stored(pieces, info, i));
  }

  lemma ConcatFirst(parts: seq<Content>)
    requires parts != []
    ensures Concat(parts) == parts[0] + Concat(parts[1..])
  {
  }

  lemma MergeEnds(pieces: PieceMap, info: FileInfo)
    ensures var none := Stored(pieces, info, |info.pieces|);
            MergedFrom(pieces, info, |info.pieces|) == [] == Concat(none) && EmptyLast(none)
  {
    assert Stored(pieces, info, |info.pieces|) == [];
  }

  lemma {:induction false} MergeExactFrom(pieces: PieceMap, info: FileInfo, i: nat)
    requires i <= |info.pieces|
    ensures MergedFrom(pieces, info, i) == Concat(Stored(pieces, info, i)) <==> EmptyLast(Stored(pieces, info, i))
    decreases |info.pieces| - i
  {
    hide *;
    if i == |info.pieces| {
      MergeEnds(pieces, info);
    } else {
      var parts := Stored(pieces, info, i);
      MergeUnfolds(pieces, info, i);
      if parts[0] == [] {
        EmptyConcat(parts);
        EmptyFirst(parts);
      } else {
        EmptyTail(parts);
        MergeExactFrom(pieces, info, i + 1);
        SamePrefix(parts[0], MergedFrom(pieces, info, i + 1), Concat(parts[1..]));
      }
    }
  }

  lemma EmptyFirst(parts: seq<Content>)
    requires parts != [] && parts[0] == []
    ensures EmptyLast(parts) <==> forall p <- parts :: p == []
  {
    if EmptyLast(parts) {
      forall p <- parts
        ensures p == []
      {
        var j :| 0 <= j < |parts| && parts[j] == p;
      }
    } else {
      var i, j :| 0 <= i < j < |parts| && parts[i] == [] && parts[j] != [];
      assert parts[j] in parts;
    }
  }

  lemma EmptyTail(parts: seq<Content>)
    requires parts != [] && parts[0] != []
    ensures EmptyLast(parts) <==> EmptyLast(parts[1..])
  {
    if EmptyLast(parts[1..]) {
      forall i, j | 0 <= i < j < |parts| && parts[i] == []
        ensures parts[j] == []
      {
        assert parts[1..][i - 1] == [] && parts[1..][j - 1] == parts[j];
      }
    }
    if EmptyLast(parts) {
      forall i, j | 0 <= i < j < |parts[1..]| && parts[1..][i] == []
        ensures parts[1..][j] == []
      {
        assert parts[i + 1] == [];
      }
    }
  }

  /** Merging writes the concatenation of the pieces exactly when no piece with content follows one that is empty or
      missing. */
  lemma MergeExact(s: Store, info: FileInfo)
    ensures MergeFile(s, info).merged[info.fileName] == Concat(Stored(s.pieces, info, 0)) <==>
            EmptyLast(Stored(s.pieces, info, 0))
  {
    MergeExactFrom(s.pieces, info, 0);
  }

  // ---------------------------------------------------------------- uploading

  lemma {:induction false} WithPiecesAt(pieces: PieceMap, fileId: string, parts: seq<Content>,
                                       key: (string, nat))
    ensures var r := WithPieces(pieces, fileId, parts);
            if key.0 == fileId && key.1 < |parts| then key in r && r[key] == parts[key.1]
            else (key in r <==> key in pieces) && (key in pieces ==> r[key] == pieces[key])
  {
    if parts != [] {
      var n := |parts| - 1;
      assert parts[..n] + [parts[n]] == parts;
      WithPiecesAt(pieces, fileId, parts[..n], key);
    }
  }

  /** The count of pieces is an `int` in the source. */
  const COUNT_LIMIT := 0x8000_0000

  predicate Splittable(content: Content) {
    PieceCount(|content|, PIECE_SIZE) < COUNT_LIMIT
  }

  lemma {:induction false} HexIsWord(n: nat, width: nat)
    ensures Unbroken(HexDigits(n, width))
    decreases width, n
  {
    if width > 0 {
      HexIsWord(n / 16, width - 1);
      assert forall c <- HEX :: !IsSpace(c);
      assert HEX[n % 16] in HEX;
    }
  }

  lemma Sha1HexIsWord(content: Content)
    ensures IsWord(Sha1Hex(content))
  {
    hide Hex, IsWord, Pad;
    HexRegsIsWord(Sha1Spec.Sha1(content));
  }

  lemma HexRegsIsWord(r: Regs)
    ensures IsWord(Hex(r))
  {
    hide HexDigits;
    HexIsWord(r.a as nat, 8);
    HexIsWord(r.b as nat, 8);
    HexIsWord(r.c as nat, 8);
    HexIsWord(r.d as nat, 8);
    HexIsWord(r.e as nat, 8);
  }

  /** The record of a file just cut. */
  lemma SplitInfoIsRead(path: string, content: Content, unset: nat, files: map<string, FileInfo>)
    requires Splittable(content) && Sha1Hex(content) !in files
    ensures var info := SplitInfo(path, Sha1Hex(content), SplitPieces(content, PIECE_SIZE));
            && ReadInfo(WriteInfo(info), unset, files) == info.(fileName := NameRead(info.fileName))
  {
    hide Sha1Hex, ReadInfo, WriteInfo, FileNameOf, IsWord, NameRead;
    var parts := SplitPieces(content, PIECE_SIZE);
    var info := SplitInfo(path, Sha1Hex(content), parts);
    Sha1HexIsWord(content);
    forall p <- info.pieces
      ensures Writable(p)
    {
      var i :| 0 <= i < |parts| && p == PieceInfo(None, |parts[i]|, Sha1Hex(parts[i]));
      Sha1HexIsWord(parts[i]);
    }
    InfoRoundTrip(info, unset, files);
  }

  /** Once a file not yet known has been uploaded, every piece is had and matches the file, and the whole file
      checks. */
  lemma UploadVerifies(s: Store, path: string, content: Content, unset: nat)
    requires Splittable(content) && Sha1Hex(content) !in s.files
    ensures var s' := Uploaded(s, path, Bytes.Some(content), unset);
            var fileId, parts := Sha1Hex(content), SplitPieces(content, PIECE_SIZE);
            && Complete(s', fileId) && |s'.files[fileId].pieces| == |parts|
            && s'.files[fileId].fileName == NameRead(FileNameOf(path))
            && s'.files[fileId].fileId == fileId
            && (forall i | 0 <= i < |parts| ::
                  (fileId, i) in s'.pieces && s'.pieces[(fileId, i)] == parts[i]
                  && s'.files[fileId].pieces[i].size == |parts[i]| && s'.files[fileId].pieces[i].sha1 == Sha1Hex(parts[i])
                  && PieceOk(s'.pieces, s'.files[fileId], i))
  {
    hide Sha1Hex, ReadInfo, WriteInfo, FileNameOf, WithPieces, SplitPieces, NameRead;
    var fileId, parts := Sha1Hex(content), SplitPieces(content, PIECE_SIZE);
    SplitInfoIsRead(path, content, unset, s.files);
    var s' := Uploaded(s, path, Bytes.Some(content), unset);
    var info := SplitInfo(path, fileId, parts);
    assert s'.files[fileId] == Checked(s'.pieces, info.(fileName := NameRead(info.fileName)));
    forall i | 0 <= i < |parts|
      ensures (fileId, i) in s'.pieces && s'.pieces[(fileId, i)] == parts[i]
      ensures PieceOk(s'.pieces, s'.files[fileId], i) && s'.files[fileId].pieces[i].state == Have
    {
      WithPiecesAt(s.pieces, fileId, parts, (fileId, i));
    }
  }

  lemma CutAt(content: Content, i: nat)
    requires i * 262144 < |content|
    ensures var parts := SplitPieces(content, PIECE_SIZE);
            && i < |parts| && (|parts| - 1) * 262144 < |content| <= |parts| * 262144
            && parts[i] == if i * 262144 + 262144 < |content| then content[i * 262144..i * 262144 + 262144]
                           else if |content| % 262144 == 0 then [] else content[i * 262144..]
  {
    CountBounds(|content|, PIECE_SIZE);
    assert SplitPieces(content, PIECE_SIZE)[i] == PieceOf(content, PIECE_SIZE, i);
  }

  /** A file of at most 2^31 pieces is cut every 262144 bytes; the last piece has what is left, which is nothing when the
      length is a multiple of that. */
  lemma UploadCuts(s: Store, path: string, content: Content, unset: nat, i: nat)
    requires Splittable(content) && Sha1Hex(content) !in s.files && i * 262144 < |content|
    ensures var s', f := Uploaded(s, path, Bytes.Some(content), unset), Sha1Hex(content);
            && f in s'.files && i < |s'.files[f].pieces|
            && (|s'.files[f].pieces| - 1) * 262144 < |content| <= |s'.files[f].pieces| * 262144
            && (f, i) in s'.pieces
            && s'.pieces[(f, i)] == if i * 262144 + 262144 < |content| then content[i * 262144..i * 262144 + 262144]
                                    else if |content| % 262144 == 0 then [] else content[i * 262144..]
  {
    UploadVerifies(s, path, content, unset);
    CutAt(content, i);
    hide *;
  }

  /** A file the node knows, or that cannot be read, is not taken in again. */
  lemma KnownIsKept(s: Store, path: string, content: Bytes.Option<Content>, text: Bytes.Option<string>,
                    unset: nat, unset': nat)
    ensures content.None? || Sha1Hex(content.value) in s.files ==> Uploaded(s, path, content, unset) == s
    ensures text.None? ==> Added(s, text, unset, unset') == (s, "")
    ensures text.Some? ==> Added(s, text, unset, unset').1 == ReadHead(text.value, unset).0
    ensures text.Some? && ReadHead(text.value, unset).0 in s.files ==> Added(s, text, unset, unset').0 == s
  {
    hide Sha1Hex, ReadHead, Split, Updated;
  }

  /** Uploading a file and merging its pieces gives the file again, but for a last piece of full size. */
  lemma UploadThenMerge(s: Store, path: string, content: Content, unset: nat)
    requires Splittable(content) && Sha1Hex(content) !in s.files
    ensures var s' := Uploaded(s, path, Bytes.Some(content), unset);
            && Sha1Hex(content) in s'.files
            && var info := s'.files[Sha1Hex(content)];
            var copy := MergeFile(s', info).merged[info.fileName];
            && copy == content[..|content| - Lost(|content|, PIECE_SIZE)]
            && (copy == content <==> |content| == 0 || |content| % PIECE_SIZE != 0)
  {
    UploadStored(s, path, content, unset);
    SplitEmptyLast(content, PIECE_SIZE);
    SplitThenConcat(content, PIECE_SIZE);
    var s' := Uploaded(s, path, Bytes.Some(content), unset);
    hide *;
    MergeExact(s', s'.files[Sha1Hex(content)]);
  }

  lemma StoredParts(pieces: PieceMap, info: FileInfo, parts: seq<Content>)
    requires |info.pieces| == |parts|
    requires forall i | 0 <= i < |parts| :: (info.fileId, i) in pieces && pieces[(info.fileId, i)] == parts[i]
    ensures Stored(pieces, info, 0) == parts
  {
  }

  lemma UploadStored(s: Store, path: string, content: Content, unset: nat)
    requires Splittable(content) && Sha1Hex(content) !in s.files
    ensures var s' := Uploaded(s, path, Bytes.Some(content), unset);
            && Sha1Hex(content) in s'.files
            && var info := s'.files[Sha1Hex(content)];
            && (forall j | 0 <= j < |info.pieces| :: (info.fileId, j) in s'.pieces)
            && Stored(s'.pieces, info, 0) == SplitPieces(content, PIECE_SIZE)
  {
    UploadVerifies(s, path, content, unset);
    var s' := Uploaded(s, path, Bytes.Some(content), unset);
    var f, parts := Sha1Hex(content), SplitPieces(content, PIECE_SIZE);
    hide *;
    StoredParts(s'.pieces, s'.files[f], parts);
  }

  lemma SplitEmptyLast(content: Content, size: nat)
    requires size > 0
    ensures EmptyLast(SplitPieces(content, size))
  {
    var parts := SplitPieces(content, size);
    forall i | 0 <= i < |parts| - 1
      ensures parts[i] != []
    {
      assert parts[i] == PieceOf(content, size, i);
      FullPiece(content, size, i);
      hide PieceOf, PieceCount;
    }
    hide SplitPieces;
  }

  lemma FullPiece(content: Content, size: nat, i: nat)
    requires size > 0 && i + 1 < PieceCount(|content|, size)
    ensures |PieceOf(content, size, i)| == size
  {
    BufferIsPiece(content, size, i);
    hide PieceOf, PieceCount, Offset;
  }

  // ---------------------------------------------------------------- verified pieces

  /** Every piece had is on disk with the recorded size and hash. */
  ghost predicate Consistent(s: Store) {
    forall f <- s.files :: s.files[f].fileId == f && Trusted(s.pieces, s.files[f])
  }

  ghost predicate Trusted(pieces: PieceMap, info: FileInfo) {
    forall i | 0 <= i < |info.pieces| && info.pieces[i].state == Have :: PieceOk(pieces, info, i)
  }

  lemma CheckedIsTrusted(pieces: PieceMap, info: FileInfo)
    ensures Trusted(pieces, Checked(pieces, info))
    ensures forall i | 0 <= i < |info.pieces| :: Checked(pieces, info).pieces[i].state == Have <==> PieceOk(pieces, info, i)
  {
    hide Sha1Hex;
  }

  lemma UpdatedKeeps(s: Store, text: string, unset: nat)
    requires Consistent(s)
    ensures Consistent(Updated(s, text, unset))
  {
    CheckedIsTrusted(s.pieces, ReadInfo(text, unset, s.files));
    hide PieceOk, ReadInfo, Trusted;
  }

  /** Pieces that belong to files nobody has a record of do not matter. */
  lemma OtherPieces(s: Store, s': Store)
    requires Consistent(s) && s'.files == s.files
    requires forall f: string, n: nat :: f in s.files && (f, n) in s.pieces ==>
               (f, n) in s'.pieces && s'.pieces[(f, n)] == s.pieces[(f, n)]
    ensures Consistent(s')
  {
    hide Sha1Hex;
    forall f <- s'.files
      ensures s'.files[f].fileId == f && Trusted(s'.pieces, s'.files[f])
    {
      assert Trusted(s.pieces, s.files[f]);
    }
  }

  lemma UploadedKeeps(s: Store, path: string, content: Bytes.Option<Content>, unset: nat)
    requires Consistent(s)
    ensures Consistent(Uploaded(s, path, content, unset))
  {
    hide Consistent, Updated, Sha1Hex, WithPieces, SplitPieces, WriteInfo;
    if content.Some? && Sha1Hex(content.value) !in s.files {
      var fileId := Sha1Hex(content.value);
      var s' := Split(s, path, fileId, content.value, PIECE_SIZE);
      forall f: string, n: nat | f in s.files && (f, n) in s.pieces
        ensures (f, n) in s'.pieces && s'.pieces[(f, n)] == s.pieces[(f, n)]
      {
        WithPiecesAt(s.pieces, fileId, SplitPieces(content.value, PIECE_SIZE), (f, n));
      }
      OtherPieces(s, s');
      UpdatedKeeps(s', s'.infos[fileId], unset);
    }
  }

  lemma AddedKeeps(s: Store, text: Bytes.Option<string>, unset: nat, unset': nat)
    requires Consistent(s)
    ensures Consistent(Added(s, text, unset, unset').0)
  {
    hide Updated, ReadHead, Trusted;
    if text.Some? && ReadHead(text.value, unset).0 !in s.files {
      var s' := s.(infos := s.infos[ReadHead(text.value, unset).0 := CopyInfo(text.value, unset)]);
      UpdatedKeeps(s', text.value, unset');
    }
  }

  lemma SetStateKeeps(s: Store, fileId: string, i: nat, state: PieceState)
    requires Consistent(s) && fileId in s.files && i < |s.files[fileId].pieces|
    requires state == Have ==> PieceOk(s.pieces, s.files[fileId], i)
    ensures Consistent(SetState(s, fileId, i, state))
  {
    hide Sha1Hex;
    var s' := SetState(s, fileId, i, state);
    forall f <- s'.files
      ensures s'.files[f].fileId == f && Trusted(s'.pieces, s'.files[f])
    {
      assert Trusted(s.pieces, s.files[f]);
    }
  }

  lemma ClaimKeeps(s: Store, fileId: string)
    requires Consistent(s)
    ensures Consistent(ClaimNone(s, fileId).0)
  {
    hide Consistent, PieceOk, SetState;
    if fileId in s.files && FirstNone(s.files[fileId].pieces) < |s.files[fileId].pieces| {
      SetStateKeeps(s, fileId, FirstNone(s.files[fileId].pieces), Open);
    }
  }

  lemma AddedPieceKeeps(s: Store, fileId: string, i: nat)
    requires Consistent(s)
    ensures Consistent(AddedPiece(s, fileId, i))
  {
    hide PieceOk, Trusted, SetState;
    if fileId in s.files && i < |s.files[fileId].pieces| {
      SetStateKeeps(s, fileId, i, if PieceOk(s.pieces, s.files[fileId], i) then Have else None);
    }
  }

  /** A piece that is added is had exactly when it is on disk with the recorded size and hash, and is missing
      otherwise. */
  lemma AddedPieceVerdict(s: Store, fileId: string, i: nat)
    requires fileId in s.files && s.files[fileId].fileId == fileId && i < |s.files[fileId].pieces|
    ensures var s', was := AddedPiece(s, fileId, i), s.files[fileId].pieces[i];
            && fileId in s'.files && |s'.files[fileId].pieces| == |s.files[fileId].pieces|
            && s'.files[fileId].pieces[i].state ==
               (if (fileId, i) in s.pieces && |s.pieces[(fileId, i)]| == was.size &&
                   Sha1Hex(s.pieces[(fileId, i)]) == was.sha1 then Have else None)
            && s'.files[fileId].pieces[i] == was.(state := s'.files[fileId].pieces[i].state)
            && (forall j | 0 <= j < |s.files[fileId].pieces| && j != i ::
                  s'.files[fileId].pieces[j] == s.files[fileId].pieces[j])
            && s'.files == s.files[fileId := s'.files[fileId]] && s'.pieces == s.pieces && s'.infos == s.infos
            && ((exists p <- s'.files[fileId].pieces :: p.state != Have) ==> s'.merged == s.merged)
  {
    hide Sha1Hex, MergedFrom;
  }

  /** A record that is read has exactly the pieces that are on disk with the size and hash it states. */
  lemma UpdatedVerdict(s: Store, text: string, unset: nat, i: nat)
    requires i < |ReadInfo(text, unset, s.files).pieces|
    ensures var read, s' := ReadInfo(text, unset, s.files), Updated(s, text, unset);
            && read.fileId in s'.files && |s'.files[read.fileId].pieces| == |read.pieces|
            && s'.files[read.fileId].pieces[i].state ==
               (if (read.fileId, i) in s.pieces && |s.pieces[(read.fileId, i)]| == read.pieces[i].size &&
                   Sha1Hex(s.pieces[(read.fileId, i)]) == read.pieces[i].sha1 then Have else None)
  {
    hide Sha1Hex, ReadInfo;
  }

  /** A complete file checks as a whole. */
  lemma CompleteVerifies(s: Store, fileId: string)
    requires Consistent(s) && Complete(s, fileId)
    ensures forall i | 0 <= i < |s.files[fileId].pieces| :: PieceOk(s.pieces, s.files[fileId], i)
  {
    hide PieceOk;
    var info := s.files[fileId];
    forall i | 0 <= i < |info.pieces|
      ensures PieceOk(s.pieces, info, i)
    {
      assert info.pieces[i] in info.pieces;
    }
  }

  // ---------------------------------------------------------------- starting again

  /** The record but for what is had of it. */
  function Stripped(info: FileInfo): FileInfo {
    info.(pieces := seq(|info.pieces|, i requires 0 <= i < |info.pieces| => info.pieces[i].(state := None)))
  }

  /** Every record can be read again from its text on disk, whatever its count was before. */
  ghost predicate Persisted(s: Store) {
    && s.files.Keys == s.infos.Keys
    && forall f <- s.files, unset: nat :: ReadInfo(s.infos[f], unset, map[]) == Stripped(s.files[f])
  }

  /** Reading does not depend on other files' records. */
  lemma ReadAlone(text: string, unset: nat, files: map<string, FileInfo>)
    requires ReadHead(text, unset).0 !in files
    ensures ReadInfo(text, unset, files) == ReadInfo(text, unset, map[])
  {
  }

  lemma ReadFileId(text: string, unset: nat, files: map<string, FileInfo>)
    ensures ReadInfo(text, unset, files).fileId == ReadHead(text, unset).0
  {
  }

  /** Where a node starts again: the records read from a listing of its disk. */
  ghost predicate LoadedSoFar(s: Store, r: Store, listing: seq<string>) {
    && r.files.Keys == (set f <- listing)
    && forall f <- listing :: f in s.files && r.files[f] == Checked(s.pieces, Stripped(s.files[f]))
  }

  lemma LoadsLast(start: Store, init: seq<string>, f: string, unset: nat)
    requires forall g <- init + [f] :: g in start.infos
    ensures f in start.infos && forall g <- init :: g in start.infos
    ensures Loaded(start, init + [f], unset) == Updated(Loaded(start, init, unset), start.infos[f], unset)
  {
    assert (init + [f])[..|init|] == init && (init + [f])[|init|] == f;
    assert f in init + [f] && forall g <- init :: g in init + [f];
  }

  lemma {:induction false} LoadsAll(s: Store, start: Store, listing: seq<string>, unset: nat)
    requires Consistent(s) && Persisted(s) && start == s.(files := map[])
    requires (forall f <- listing :: f in s.infos) && Distinct(listing)
    ensures LoadedSoFar(s, Loaded(start, listing, unset), listing)
  {
    if listing != [] {
      var init, f := listing[..|listing| - 1], listing[|listing| - 1];
      assert listing == init + [f] && f !in init;
      LoadsLast(start, init, f, unset);
      hide *;
      LoadsAll(s, start, init, unset);
      LoadedDisk(start, init, unset);
      LoadsNext(s, Loaded(start, init, unset), init, f, unset);
    }
  }

  lemma LoadsNext(s: Store, r: Store, listing: seq<string>, f: string, unset: nat)
    requires Consistent(s) && Persisted(s) && LoadedSoFar(s, r, listing) && r.pieces == s.pieces
    requires f in s.infos && f !in listing
    ensures LoadedSoFar(s, Updated(r, s.infos[f], unset), listing + [f])
  {
    ReadFileId(s.infos[f], unset, map[]);
    assert ReadInfo(s.infos[f], unset, map[]) == Stripped(s.files[f]);
    ReadAlone(s.infos[f], unset, r.files);
    CheckedFileId(s.pieces, s.files[f]);
    hide ReadInfo, ReadHead, Checked, Trusted;
  }

  /** The pieces had after a restart are those that match, among them all that were had before. */
  ghost predicate Recovered(s: Store, was: FileInfo, now: FileInfo) {
    && Stripped(now) == Stripped(was) && |now.pieces| == |was.pieces|
    && forall i | 0 <= i < |was.pieces| ::
         && (now.pieces[i].state == Have <==>
               (was.fileId, i) in s.pieces && |s.pieces[(was.fileId, i)]| == was.pieces[i].size &&
               Sha1Hex(s.pieces[(was.fileId, i)]) == was.pieces[i].sha1)
         && (was.pieces[i].state == Have ==> now.pieces[i].state == Have)
  }

  lemma CheckedRecovers(s: Store, was: FileInfo)
    requires Trusted(s.pieces, was)
    ensures Recovered(s, was, Checked(s.pieces, Stripped(was))) && Trusted(s.pieces, Checked(s.pieces, Stripped(was)))
  {
    hide Sha1Hex;
    CheckedIsTrusted(s.pieces, Stripped(was));
    forall i | 0 <= i < |was.pieces|
      ensures PieceOk(s.pieces, Stripped(was), i) == PieceOk(s.pieces, was, i)
    {
    }
    assert Stripped(Checked(s.pieces, Stripped(was))).pieces == Stripped(was).pieces;
  }

  /** A node that starts again has the same records, and has every piece that matches: none that it had is lost. */
  lemma RestartKeeps(s: Store, listing: seq<string>, unset: nat)
    requires Consistent(s) && Persisted(s)
    requires (forall f <- listing :: f in s.infos) && (forall f <- s.infos :: f in listing)
    requires Distinct(listing)
    ensures var r := Loaded(s.(files := map[]), listing, unset);
            && Consistent(r) && r.files.Keys == s.files.Keys && r.pieces == s.pieces
            && forall f <- s.files :: Recovered(s, s.files[f], r.files[f])
  {
    var r := Loaded(s.(files := map[]), listing, unset);
    LoadsAll(s, s.(files := map[]), listing, unset);
    LoadedDisk(s.(files := map[]), listing, unset);
    hide ReadInfo, Loaded, Sha1Hex, Recovered, Checked, Trusted, Persisted;
    forall f <- s.files
      ensures f in r.files && Recovered(s, s.files[f], r.files[f]) && r.files[f].fileId == f
      ensures Trusted(r.pieces, r.files[f])
    {
      CheckedRecovers(s, s.files[f]);
      CheckedFileId(s.pieces, s.files[f]);
    }
  }

  lemma CheckedFileId(pieces: PieceMap, info: FileInfo)
    ensures Checked(pieces, Stripped(info)).fileId == info.fileId
  {
  }

  lemma {:induction false} ReadStates(input: Input, was: seq<PieceInfo>)
    requires forall p <- was :: p.state == None
    ensures forall p <- ReadPieces(input, was).0 :: p.state == None
    decreases was
  {
    if was != [] {
      var (first, next) := ReadPiece(input, was[0]);
      ReadStates(next, was[1..]);
    }
  }

  lemma CheckedStripped(pieces: PieceMap, info: FileInfo)
    requires forall p <- info.pieces :: p.state == None
    ensures Stripped(Checked(pieces, info)) == info
  {
    hide PieceOk;
    assert Stripped(Checked(pieces, info)).pieces == info.pieces;
  }

  lemma Persists(s: Store, s': Store, f: string)
    requires Persisted(s) && s'.files.Keys == s.files.Keys + {f} && s'.infos.Keys == s.infos.Keys + {f}
    requires forall g <- s.files | g != f :: Stripped(s'.files[g]) == Stripped(s.files[g]) && s'.infos[g] == s.infos[g]
    requires forall unset: nat :: ReadInfo(s'.infos[f], unset, map[]) == Stripped(s'.files[f])
    ensures Persisted(s')
  {
    hide ReadInfo, Stripped;
    forall g <- s'.files, unset: nat
      ensures ReadInfo(s'.infos[g], unset, map[]) == Stripped(s'.files[g])
    {
      if g != f {
        assert ReadInfo(s.infos[g], unset, map[]) == Stripped(s.files[g]);
      }
    }
  }

  lemma UploadedPersists(s: Store, path: string, content: Content, unset: nat)
    requires Persisted(s) && Splittable(content)
    ensures Persisted(Uploaded(s, path, Bytes.Some(content), unset))
  {
    hide Sha1Hex, ReadInfo, WriteInfo, FileNameOf, WithPieces, SplitPieces, NameRead, Persisted;
    var s', f := Uploaded(s, path, Bytes.Some(content), unset), Sha1Hex(content);
    if f !in s.files {
      assert f !in s.infos.Keys by { PersistedKeys(s); }
      var info := SplitInfo(path, f, SplitPieces(content, PIECE_SIZE));
      var read := info.(fileName := NameRead(info.fileName));
      SplitInfoIsRead(path, content, unset, s.files);
      assert s'.files == s.files[f := Checked(s'.pieces, read)] && s'.infos == s.infos[f := WriteInfo(info)];
      forall u: nat
        ensures ReadInfo(WriteInfo(info), u, map[]) == read
      {
        SplitInfoIsRead(path, content, u, map[]);
      }
      CheckedStripped(s'.pieces, read);
      hide *;
      Persists(s, s', f);
    }
  }

  lemma PersistedKeys(s: Store)
    requires Persisted(s)
    ensures s.files.Keys == s.infos.Keys
  {
  }

  /** A head that can be read does not depend on what the count was before. */
  lemma HeadUnset(text: string, unset: nat, unset': nat)
    requires ReadHead(text, unset).2.good
    ensures ReadHead(text, unset') == ReadHead(text, unset)
  {
  }

  /** Adding an `.info` file whose id and count can be read. */
  lemma AddedPersists(s: Store, text: string, unset: nat, unset': nat)
    requires Persisted(s) && ReadHead(text, unset).2.good
    ensures Persisted(Added(s, Bytes.Some(text), unset, unset').0)
  {
    hide Persisted;
    var f, s' := ReadHead(text, unset).0, Added(s, Bytes.Some(text), unset, unset').0;
    if f !in s.files {
      HeadUnset(text, unset, unset');
      var read := ReadInfo(text, unset', s.files);
      FreshStates(text, unset', s.files);
      assert read.fileId == f && s'.files == s.files[f := Checked(s.pieces, read)];
      hide ReadHead, ReadInfo, CopyInfo, PieceOk, Checked;
      assert s'.infos == s.infos[f := CopyInfo(text, unset)];
      forall u: nat
        ensures ReadInfo(CopyInfo(text, unset), u, map[]) == read
      {
        HeadUnset(text, unset, u);
        CopyReadsTheSame(text, unset, u, map[]);
        ReadUnset(text, unset, unset', map[]);
        ReadAlone(text, unset', s.files);
      }
      CheckedStripped(s.pieces, read);
      PersistedKeys(s);
      hide *;
      Persists(s, s', f);
    }
  }

  lemma FreshStates(text: string, unset: nat, files: map<string, FileInfo>)
    requires ReadHead(text, unset).0 !in files
    ensures forall p <- ReadInfo(text, unset, files).pieces :: p.state == None
  {
    var (fileId, count, input) := ReadHead(text, unset);
    ReadStates(input, Resize([], count));
  }

  lemma ReadUnset(text: string, unset: nat, unset': nat, files: map<string, FileInfo>)
    requires ReadHead(text, unset).2.good
    ensures ReadInfo(text, unset, files) == ReadInfo(text, unset', files)
  {
    HeadUnset(text, unset, unset');
  }

  /** Claiming and adding pieces leave what can be read again. */
  lemma SetStatePersists(s: Store, fileId: string, i: nat, state: PieceState)
    requires Persisted(s) && fileId in s.files && i < |s.files[fileId].pieces|
    ensures Persisted(SetState(s, fileId, i, state))
  {
    var s' := SetState(s, fileId, i, state);
    assert Stripped(s'.files[fileId]).pieces == Stripped(s.files[fileId]).pieces;
    hide ReadInfo, Stripped;
    forall u: nat
      ensures ReadInfo(s'.infos[fileId], u, map[]) == Stripped(s'.files[fileId])
    {
      assert ReadInfo(s.infos[fileId], u, map[]) == Stripped(s.files[fileId]);
    }
    Persists(s, s', fileId);
  }

  lemma AddedPiecePersists(s: Store, fileId: string, i: nat)
    requires Persisted(s)
    ensures Persisted(AddedPiece(s, fileId, i))
  {
    hide PieceOk, SetState, ReadInfo, Stripped;
    if fileId in s.files && i < |s.files[fileId].pieces| {
      SetStatePersists(s, fileId, i, if PieceOk(s.pieces, s.files[fileId], i) then Have else None);
    }
  }

  lemma ClaimPersists(s: Store, fileId: string)
    requires Persisted(s)
    ensures Persisted(ClaimNone(s, fileId).0)
  {
    hide SetState, ReadInfo, Stripped;
    if fileId in s.files && FirstNone(s.files[fileId].pieces) < |s.files[fileId].pieces| {
      SetStatePersists(s, fileId, FirstNone(s.files[fileId].pieces), Open);
    }
  }

  // ---------------------------------------------------------------- names

  /** A name without slashes is its own file name, and so it is with any directory in front. */
  lemma {:induction false} FileNames(dir: string, name: string)
    requires forall c <- name :: c != '/' && c != '\\'
    ensures FileNameOf(name) == name
    ensures FileNameOf(dir + "/" + name) == name && FileNameOf(dir + "\\" + name) == name
  {
    NameAfter("", name);
    assert "" + name == name;
    NameAfter(dir + "/", name);
    NameAfter(dir + "\\", name);
  }

  lemma {:induction false} NameAfter(dir: string, name: string)
    requires forall c <- name :: c != '/' && c != '\\'
    requires FileNameOf(dir) == ""
    ensures FileNameOf(dir + name) == name
  {
    var path := dir + name;
    if name == "" {
      assert path == dir;
    } else {
      var init := name[..|name| - 1];
      assert path[..|path| - 1] == dir + init && path[|path| - 1] == name[|name| - 1];
      assert forall c <- init :: c in name;
      NameAfter(dir, init);
      assert name[|name| - 1] in name && name == init + [name[|name| - 1]];
    }
  }
}
