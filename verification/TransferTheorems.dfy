/** What every run of a download guarantees, and that it ends. */
module TransferTheorems {
  import opened InfoText
  import opened FileStore
  import opened FileTheorems
  import opened FileManager
  import opened Transfer
  import opened Sha1Spec
  import Bytes

  ghost predicate IsRun(e: Ends, run: seq<Link>) {
    run != [] && forall i | 0 < i < |run| :: Step(e, run[i - 1], run[i])
  }

  function Now(run: seq<Link>): Link
    requires run != []
  {
    run[|run| - 1]
  }

  /** The uploader has the whole file, the downloader some of its pieces, and the first message is on its way. */
  ghost predicate Starts(e: Ends, l: Link) {
    && UploaderOk(l.up.store, e.f) && Matches(l.up.store, l.down.store, e.f) && l.down.packs < PACK_SIZE
    && l.toUp == [] && l.toDown == [FileBegin(e.f)]
    && Idle(l.up.slots, (e.u, e.f)) && Idle(l.down.slots, (e.d, e.f))
    && NoneOpen(l.down.store, e.f) && !Complete(l.down.store, e.f)
  }

  predicate NothingInFlight(l: Link) {
    l.toUp == [] && l.toDown == []
  }

  // ---------------------------------------------------------------- the uploader's store

  predicate ForUploader(msg: FileMessage) {
    msg.FileRequest? || msg.FileBodyResp? || msg.FileRequestEnd?
  }

  lemma {:induction false} PackStore(nd: Node, key: Key, credit: nat)
    requires key in nd.slots
    ensures Pack(nd, key, credit).store == nd.store
    decreases credit
  {
    if credit > 0 {
      var nd' := NextBody(nd, key);
      assert nd'.store == nd.store;
      hide NextBody;
      if !nd'.slots[key].stream.Closed? {
        PackStore(nd', key, credit - 1);
      }
    }
  }

  lemma HandleStore(nd: Node, id: nat, msg: FileMessage)
    requires ForUploader(msg)
    ensures Handle(nd, id, msg).store == nd.store
  {
    hide Pack, Complete;
    var key := (id, msg.fileId);
    if key in nd.slots {
      match msg
      case FileRequest(f, piece) =>
        if Complete(nd.store, f) && (f, piece) in nd.store.pieces {
          var slot := OpenForReading(nd.slots[key], piece, |nd.store.pieces[(f, piece)]|);
          PackStore(nd.(slots := nd.slots[key := slot]), key, PACK_SIZE);
        }
      case FileBodyResp(_) => PackStore(nd, key, PACK_SIZE);
      case FileRequestEnd(_) =>
    }
  }

  lemma ToUploader(e: Ends, l: Link, ph: Phase)
    requires InPhase(e, l, ph) && l.toUp != []
    ensures ForUploader(l.toUp[0])
  {
    hide UploaderOk, Matches, OnlyOpen, WritesOn, Flow, MergedOk, Complete;
  }

  lemma StepStore(e: Ends, l: Link, l': Link, ph: Phase)
    requires InPhase(e, l, ph) && Step(e, l, l')
    ensures l'.up.store == l.up.store
  {
    hide InPhase, Handle;
    if l.toUp != [] {
      ToUploader(e, l, ph);
      HandleStore(l.up.(sent := []), e.u, l.toUp[0]);
    }
  }

  // ---------------------------------------------------------------- every run

  /** The phases a run goes through. */
  ghost predicate Phases(e: Ends, run: seq<Link>, phases: seq<Phase>) {
    && run != [] && |phases| == |run| && phases[0] == Beginning
    && (forall i | 0 <= i < |run| :: InPhase(e, run[i], phases[i]))
    && (forall i | 0 < i < |run| :: Progress(e, run[i - 1], run[i], phases[i - 1], phases[i]))
  }

  ghost predicate Progress(e: Ends, l: Link, l': Link, ph: Phase, ph': Phase) {
    Moves(e, l, l', ph, ph') && l'.up.store == l.up.store
  }

  lemma MovesPhase(e: Ends, l: Link, l': Link, ph: Phase, ph': Phase)
    requires Moves(e, l, l', ph, ph')
    ensures InPhase(e, l', ph')
  {
  }

  lemma {:induction false} RunPhases(e: Ends, run: seq<Link>) returns (phases: seq<Phase>)
    requires IsRun(e, run) && Starts(e, run[0])
    ensures Phases(e, run, phases)
  {
    if |run| == 1 {
      phases := [Beginning];
    } else {
      var init, l' := run[..|run| - 1], run[|run| - 1];
      InitRun(e, run);
      hide *;
      var before := RunPhases(e, init);
      phases := PhaseNext(e, init, before, l');
      assert init + [l'] == run;
    }
  }

  lemma InitRun(e: Ends, run: seq<Link>)
    requires IsRun(e, run) && |run| > 1
    ensures IsRun(e, run[..|run| - 1]) && Step(e, Now(run[..|run| - 1]), run[|run| - 1])
  {
    hide Step;
    var init := run[..|run| - 1];
    forall i | 0 < i < |init|
      ensures Step(e, init[i - 1], init[i])
    {
      assert Step(e, run[i - 1], run[i]);
    }
    assert Step(e, run[|run| - 2], run[|run| - 1]);
  }

  lemma PhaseNext(e: Ends, run: seq<Link>, before: seq<Phase>, l': Link) returns (phases: seq<Phase>)
    requires Phases(e, run, before) && Step(e, Now(run), l')
    ensures Phases(e, run + [l'], phases)
  {
    var l, ph := Now(run), before[|before| - 1];
    hide InPhase, Moves, Step;
    var ph' := StepMoves(e, l, l', ph);
    StepStore(e, l, l', ph);
    MovesPhase(e, l, l', ph, ph');
    phases := before + [ph'];
    PhasesNext(e, run, before, l', ph');
  }

  lemma PhasesNext(e: Ends, run: seq<Link>, phases: seq<Phase>, l': Link, ph': Phase)
    requires Phases(e, run, phases) && InPhase(e, l', ph')
    requires Progress(e, run[|run| - 1], l', phases[|phases| - 1], ph')
    ensures Phases(e, run + [l'], phases + [ph'])
  {
    hide InPhase, Progress;
    var run', phases' := run + [l'], phases + [ph'];
    forall i | 0 < i < |run'|
      ensures Progress(e, run'[i - 1], run'[i], phases'[i - 1], phases'[i])
    {
      if i < |run| {
        assert Progress(e, run[i - 1], run[i], phases[i - 1], phases[i]);
      }
    }
  }

  /** The rank of every state of a run is below that of the state before: no run goes on for ever. */
  lemma EveryStepCountsDown(e: Ends, run: seq<Link>, i: nat)
    requires IsRun(e, run) && Starts(e, run[0]) && 0 < i < |run|
    ensures Less(RankOf(e, run[i]), RankOf(e, run[i - 1]))
  {
    var phases := RunPhases(e, run);
    hide InPhase, Less, RankOf;
    assert Progress(e, run[i - 1], run[i], phases[i - 1], phases[i]);
  }

  lemma {:induction false} StoreStays(e: Ends, run: seq<Link>, phases: seq<Phase>, i: nat)
    requires Phases(e, run, phases) && i < |run|
    ensures run[i].up.store == run[0].up.store
  {
    hide InPhase, Moves;
    if i > 0 {
      StoreStays(e, run, phases, i - 1);
      assert Progress(e, run[i - 1], run[i], phases[i - 1], phases[i]);
    }
  }

  // ---------------------------------------------------------------- the end

  /** The downloader has the whole file, piece for piece, and its merged copy holds the pieces one after another
      exactly when no piece with content follows an empty one. */
  ghost predicate Downloaded(e: Ends, up: Store, down: Store) {
    && Complete(down, e.f) && Matches(up, down, e.f)
    && (forall i | 0 <= i < |down.files[e.f].pieces| ::
          (e.f, i) in up.pieces && (e.f, i) in down.pieces && down.pieces[(e.f, i)] == up.pieces[(e.f, i)])
    && up.files[e.f].fileId == e.f && down.files[e.f].fileName in down.merged
    && (down.merged[down.files[e.f].fileName] == Concat(Stored(up.pieces, up.files[e.f], 0)) <==>
        EmptyLast(Stored(up.pieces, up.files[e.f], 0)))
  }

  lemma DoneIsDownloaded(e: Ends, l: Link)
    requires InPhase(e, l, Done)
    ensures Downloaded(e, l.up.store, l.down.store)
  {
    hide PieceOk, MergedFrom;
    var up, down := l.up.store, l.down.store;
    forall i | 0 <= i < |down.files[e.f].pieces|
      ensures (e.f, i) in up.pieces && (e.f, i) in down.pieces && down.pieces[(e.f, i)] == up.pieces[(e.f, i)]
    {
      StoredPiece(up, e.f, i);
      assert down.files[e.f].pieces[i] in down.files[e.f].pieces;
      assert PieceMatches(up, down, e.f, i);
    }
    MergeExactFrom(down.pieces, down.files[e.f], 0);
    assert Stored(down.pieces, down.files[e.f], 0) == Stored(up.pieces, up.files[e.f], 0);
  }

  lemma StoredPiece(s: Store, f: string, i: nat)
    requires UploaderOk(s, f) && i < |s.files[f].pieces|
    ensures (f, i) in s.pieces
  {
    assert PieceOk(s.pieces, s.files[f], i);
  }

  lemma InFlight(e: Ends, l: Link, ph: Phase)
    requires InPhase(e, l, ph)
    ensures NothingInFlight(l) <==> ph.Done?
  {
    hide UploaderOk, Matches, OnlyOpen, MergedOk, Complete, PieceAt, Concat, ReadsOn, Idle, WritesOn;
    if ph.Fetching? {
      WritesPlace(l.down, (e.d, e.f), ph.i);
      assert Ending(e.f, true) != [];
      assert Bodies(e.f, ph.chunks) == [] <==> ph.chunks == [];
    }
  }

  lemma PhaseAt(e: Ends, run: seq<Link>, phases: seq<Phase>, i: nat)
    requires Phases(e, run, phases) && i < |run|
    ensures |phases| == |run| && InPhase(e, run[i], phases[i])
  {
    hide InPhase, Progress;
  }

  lemma DoneSlots(e: Ends, l: Link)
    requires InPhase(e, l, Done)
    ensures (e.u, e.f) !in l.up.slots && (e.d, e.f) !in l.down.slots
  {
    hide UploaderOk, Matches, MergedOk, Complete;
  }

  /** A run has nothing in flight only when the download is complete and correct; in particular the uploader is
      never out of credit with bytes left and no credit on its way. */
  lemma QuietIsDownloaded(e: Ends, run: seq<Link>)
    requires IsRun(e, run) && Starts(e, run[0]) && NothingInFlight(Now(run))
    ensures Downloaded(e, run[0].up.store, Now(run).down.store)
    ensures (e.u, e.f) !in Now(run).up.slots && (e.d, e.f) !in Now(run).down.slots
  {
    var phases := RunPhases(e, run);
    PhaseAt(e, run, phases, |run| - 1);
    hide *;
    InFlight(e, Now(run), phases[|run| - 1]);
    StoreStays(e, run, phases, |run| - 1);
    DoneIsDownloaded(e, Now(run));
    DoneSlots(e, Now(run));
  }

  /** While anything is in flight, a step is possible. */
  lemma SomethingMoves(e: Ends, l: Link)
    requires !NothingInFlight(l)
    ensures exists l' :: Step(e, l, l')
  {
    if l.toUp != [] {
      assert Step(e, l, DeliverUp(e, l));
    } else {
      assert Step(e, l, DeliverDown(e, l));
    }
  }

  lemma OneMore(e: Ends, run: seq<Link>, l': Link)
    requires IsRun(e, run) && Step(e, Now(run), l')
    ensures IsRun(e, run + [l']) && Now(run + [l']) == l' && (run + [l'])[0] == run[0]
  {
    hide Step;
    var more := run + [l'];
    forall i | 0 < i < |more|
      ensures Step(e, more[i - 1], more[i])
    {
      if i < |run| {
        assert Step(e, run[i - 1], run[i]);
      }
    }
  }

  lemma {:induction false} RunsOut(e: Ends, run: seq<Link>, phases: seq<Phase>) returns (longer: seq<Link>)
    requires IsRun(e, run) && Starts(e, run[0]) && Phases(e, run, phases)
    ensures IsRun(e, longer) && run <= longer && NothingInFlight(Now(longer))
    decreases RankOf(e, Now(run)).missing, RankOf(e, Now(run)).stage, RankOf(e, Now(run)).left, RankOf(e, Now(run)).messages
  {
    if NothingInFlight(Now(run)) {
      return run;
    }
    SomethingMoves(e, Now(run));
    var l' :| Step(e, Now(run), l');
    OneMore(e, run, l');
    hide IsRun, Starts, Step, Phases, RankOf;
    var phases' := RunPhases(e, run + [l']);
    EveryStepCountsDown(e, run + [l'], |run|);
    longer := RunsOut(e, run + [l'], phases');
  }

  /** Every run of a download can be continued to its end, where the file is there. */
  lemma DownloadCompletes(e: Ends, run: seq<Link>)
    requires IsRun(e, run) && Starts(e, run[0])
    ensures exists longer :: IsRun(e, longer) && run <= longer && NothingInFlight(Now(longer)) &&
                             Downloaded(e, run[0].up.store, Now(longer).down.store)
  {
    var phases := RunPhases(e, run);
    var longer := RunsOut(e, run, phases);
    hide *;
    QuietIsDownloaded(e, longer);
  }

  /** A file that was uploaded arrives as it was, but for a last piece of full size. */
  lemma UploadArrives(e: Ends, up: Store, down: Store, content: Content)
    requires Downloaded(e, up, down)
    requires Stored(up.pieces, up.files[e.f], 0) == SplitPieces(content, PIECE_SIZE)
    ensures var copy := down.merged[down.files[e.f].fileName];
            && copy == content[..|content| - Lost(|content|, PIECE_SIZE)]
            && (copy == content <==> |content| == 0 || |content| % PIECE_SIZE != 0)
  {
    hide Stored, SplitPieces, Concat, EmptyLast;
    SplitEmptyLast(content, PIECE_SIZE);
    SplitThenConcat(content, PIECE_SIZE);
  }

  // ---------------------------------------------------------------- from upload to merged copy

  /** An uploaded file can be served. */
  lemma UploadCanBeServed(s: Store, path: string, content: Content, unset: nat)
    requires PieceCount(|content|, PIECE_SIZE) <= NO_PIECE && Sha1Hex(content) !in s.files
    ensures UploaderOk(Uploaded(s, path, Bytes.Some(content), unset), Sha1Hex(content))
  {
    UploadVerifies(s, path, content, unset);
    CountOfSplit(content);
    var f, parts := Sha1Hex(content), SplitPieces(content, PIECE_SIZE);
    forall i | 0 <= i < |parts|
      ensures |parts[i]| <= PIECE_SIZE
    {
      PartIsSmall(content, i);
    }
    var up := Uploaded(s, path, Bytes.Some(content), unset);
    hide *;
    ServedFacts(up, f, parts);
  }

  lemma ServedFacts(up: Store, f: string, parts: seq<Content>)
    requires Complete(up, f) && up.files[f].fileId == f && |up.files[f].pieces| == |parts| <= NO_PIECE
    requires forall i | 0 <= i < |parts| ::
               (f, i) in up.pieces && up.pieces[(f, i)] == parts[i] && PieceOk(up.pieces, up.files[f], i)
    requires forall i | 0 <= i < |parts| :: |parts[i]| <= PIECE_SIZE
    ensures UploaderOk(up, f)
  {
    hide PieceOk, Complete;
  }

  lemma CountOfSplit(content: Content)
    ensures |SplitPieces(content, PIECE_SIZE)| == PieceCount(|content|, PIECE_SIZE)
  {
  }

  lemma PartIsSmall(content: Content, i: nat)
    requires i < PieceCount(|content|, PIECE_SIZE)
    ensures |SplitPieces(content, PIECE_SIZE)[i]| <= PIECE_SIZE
  {
    BufferIsPiece(content, PIECE_SIZE, i);
    hide PieceCount, Offset, PieceOf;
  }

  function RecordOf(path: string, content: Content): FileInfo {
    SplitInfo(path, Sha1Hex(content), SplitPieces(content, PIECE_SIZE))
  }

  function RecordRead(path: string, content: Content): FileInfo {
    RecordOf(path, content).(fileName := NameRead(FileNameOf(path)))
  }

  lemma UploadedRecord(s: Store, path: string, content: Content, unset: nat)
    requires Splittable(content) && Sha1Hex(content) !in s.files
    ensures var f, up := Sha1Hex(content), Uploaded(s, path, Bytes.Some(content), unset);
            && f in up.infos && up.infos[f] == WriteInfo(RecordOf(path, content))
            && f in up.files && up.files[f] == Checked(up.pieces, RecordRead(path, content))
  {
    SplitInfoIsRead(path, content, unset, s.files);
    hide Sha1Hex, SplitPieces, NameRead, FileNameOf, PieceOk, WriteInfo, ReadInfo, WithPieces;
  }

  /** The record that an uploaded file's `.info` text gives a node without the file. */
  lemma AddedRecord(s: Store, path: string, content: Content, unset: nat, unset': nat)
    requires Splittable(content) && Sha1Hex(content) !in s.files
    ensures var f, down := Sha1Hex(content), Added(s, Bytes.Some(WriteInfo(RecordOf(path, content))), unset, unset').0;
            f in down.files && down.pieces == s.pieces && down.files[f] == Checked(s.pieces, RecordRead(path, content))
  {
    var info := RecordOf(path, content);
    SplitInfoIsRead(path, content, unset, s.files);
    SplitInfoIsRead(path, content, unset', s.files);
    ReadFileId(WriteInfo(info), unset, s.files);
    hide Sha1Hex, SplitPieces, NameRead, FileNameOf, PieceOk, WriteInfo, ReadHead, ReadInfo, CopyInfo;
  }

  /** Two records read from one text, with none of the pieces on one side. */
  lemma RecordsMatch(up: Store, down: Store, read: FileInfo)
    requires read.fileId in up.files && up.files[read.fileId] == Checked(up.pieces, read)
    requires read.fileId in down.files && down.files[read.fileId] == Checked(down.pieces, read)
    requires (forall i: nat :: (read.fileId, i) !in down.pieces) && read.pieces != []
    requires forall p <- read.pieces :: p.state == None
    ensures Matches(up, down, read.fileId) && NoneOpen(down, read.fileId) && !Complete(down, read.fileId)
  {
    var f := read.fileId;
    assert down.files[f].pieces[0] in down.files[f].pieces;
    forall i | 0 <= i < |down.files[f].pieces|
      ensures PieceMatches(up, down, f, i) && down.files[f].pieces[i].state == None
    {
    }
  }

  /** A node without any piece of the file can begin to fetch it. */
  lemma AddedCanFetch(s: Store, s': Store, path: string, content: Content, unset: nat, unset': nat, unset'': nat)
    requires Splittable(content) && content != []
    requires Sha1Hex(content) !in s.files && Sha1Hex(content) !in s'.files
    requires forall i: nat :: (Sha1Hex(content), i) !in s'.pieces
    ensures var f, up := Sha1Hex(content), Uploaded(s, path, Bytes.Some(content), unset);
            && f in up.infos
            && var down := Added(s', Bytes.Some(up.infos[f]), unset', unset'').0;
            Matches(up, down, f) && NoneOpen(down, f) && !Complete(down, f)
  {
    UploadedRecord(s, path, content, unset);
    AddedRecord(s', path, content, unset', unset'');
    RecordReadFacts(path, content);
    var up := Uploaded(s, path, Bytes.Some(content), unset);
    var down := Added(s', Bytes.Some(WriteInfo(RecordOf(path, content))), unset', unset'').0;
    hide *;
    RecordsMatch(up, down, RecordRead(path, content));
  }

  lemma RecordReadFacts(path: string, content: Content)
    requires content != []
    ensures var read := RecordRead(path, content);
            read.fileId == Sha1Hex(content) && read.pieces != [] && forall p <- read.pieces :: p.state == None
  {
    CountOfSplit(content);
    CountBounds(|content|, PIECE_SIZE);
    hide Sha1Hex, SplitPieces, NameRead, FileNameOf;
  }

  // ---------------------------------------------------------------- nothing to fetch

  /** The downloader has the whole file already, and gives it up: asked to begin, on its way, or done. */
  ghost predicate GivingUp(e: Ends, l: Link) {
    && Complete(l.down.store, e.f)
    && ((l.toUp == [] && l.toDown == [FileBegin(e.f)] &&
         Idle(l.up.slots, (e.u, e.f)) && Idle(l.down.slots, (e.d, e.f))) ||
        (l.toUp == [FileRequestEnd(e.f)] && l.toDown == [] &&
         Idle(l.up.slots, (e.u, e.f)) && (e.d, e.f) !in l.down.slots) ||
        (NothingInFlight(l) && (e.u, e.f) !in l.up.slots && (e.d, e.f) !in l.down.slots))
  }

  lemma StepGivesUp(e: Ends, l: Link, l': Link)
    requires GivingUp(e, l) && Step(e, l, l')
    ensures GivingUp(e, l') && l'.down.store == l.down.store && l'.up.store == l.up.store
    ensures |l'.toUp| + 2 * |l'.toDown| < |l.toUp| + 2 * |l.toDown|
  {
    hide Complete;
    assert Outbox([]) == [];
  }

  /** A download of a file that is complete, as an empty one always is, only gives it up: nothing is fetched, and
      nothing is merged. */
  lemma {:induction false} CompleteIsGivenUp(e: Ends, run: seq<Link>)
    requires IsRun(e, run) && GivingUp(e, run[0])
    ensures GivingUp(e, Now(run)) && |run| <= 1 + |run[0].toUp| + 2 * |run[0].toDown|
    ensures |run| + |Now(run).toUp| + 2 * |Now(run).toDown| <= 1 + |run[0].toUp| + 2 * |run[0].toDown|
    ensures Now(run).down.store == run[0].down.store && Now(run).up.store == run[0].up.store
  {
    if |run| > 1 {
      InitRun(e, run);
      hide GivingUp, Step, IsRun;
      CompleteIsGivenUp(e, run[..|run| - 1]);
      StepGivesUp(e, Now(run[..|run| - 1]), Now(run));
    }
  }

  lemma GiveUpRun(e: Ends, l: Link) returns (run: seq<Link>)
    requires GivingUp(e, l) && l.toUp == [] && l.toDown == [FileBegin(e.f)]
    ensures IsRun(e, run) && run[0] == l && NothingInFlight(Now(run))
  {
    var l' := DeliverDown(e, l);
    StepGivesUp(e, l, l');
    assert l'.toUp != [];
    var l'' := DeliverUp(e, l');
    hide GivingUp, DeliverDown, DeliverUp;
    StepGivesUp(e, l', l'');
    run := [l, l', l''];
  }

  /** An empty file has no pieces, so a node that adds it has all of it at once. */
  lemma AddedEmpty(s: Store, s': Store, path: string, unset: nat, unset': nat, unset'': nat)
    requires Sha1Hex([]) !in s.files && Sha1Hex([]) !in s'.files
    ensures var f, up := Sha1Hex([]), Uploaded(s, path, Bytes.Some([]), unset);
            && f in up.infos
            && var down := Added(s', Bytes.Some(up.infos[f]), unset', unset'').0;
            && Complete(down, f) && down.files[f].pieces == []
  {
    UploadedRecord(s, path, [], unset);
    AddedRecord(s', path, [], unset', unset'');
    CountOfSplit([]);
    CountBounds(0, PIECE_SIZE);
    hide Sha1Hex, Uploaded, Added, SplitPieces, NameRead, FileNameOf, WriteInfo;
  }

  lemma AddedMerges(s: Store, text: string, unset: nat, unset': nat)
    ensures Added(s, Bytes.Some(text), unset, unset').0.merged == s.merged
  {
    hide ReadInfo, ReadHead, CopyInfo, Checked;
  }

  // ---------------------------------------------------------------- the whole way

  /** The merged copy under the record's name. */
  function Copy(s: Store, f: string): Bytes.Option<Content> {
    if f in s.files && s.files[f].fileName in s.merged then Bytes.Some(s.merged[s.files[f].fileName]) else Bytes.None
  }

  /** The nodes, stores and messages a download starts from: the file is uploaded at one node and added from its
      `.info` text at another that has none of its pieces. */
  ghost predicate Departs(e: Ends, l: Link, s: Store, s': Store, path: string, content: Content,
                          unset: nat, unset': nat, unset'': nat)
  {
    && PieceCount(|content|, PIECE_SIZE) <= NO_PIECE && e.f == Sha1Hex(content)
    && e.f !in s.files && e.f !in s'.files && (forall i: nat :: (e.f, i) !in s'.pieces)
    && l.up.store == Uploaded(s, path, Bytes.Some(content), unset)
    && e.f in l.up.store.infos
    && l.down.store == Added(s', Bytes.Some(l.up.store.infos[e.f]), unset', unset'').0
    && l.down.packs < PACK_SIZE && l.toUp == [] && l.toDown == [FileBegin(e.f)]
    && Idle(l.up.slots, (e.u, e.f)) && Idle(l.down.slots, (e.d, e.f))
  }

  /** Once nothing is in flight, the downloader has every piece, and its merged copy is the file, but for a last
      piece of full size; of an empty file no copy is made.  So the file arrives, where no copy was before, exactly
      when its length is neither 0 nor a multiple of the piece size. */
  lemma FileTravels(e: Ends, run: seq<Link>, s: Store, s': Store, path: string, content: Content,
                    unset: nat, unset': nat, unset'': nat)
    requires IsRun(e, run) && NothingInFlight(Now(run))
    requires Departs(e, run[0], s, s', path, content, unset, unset', unset'')
    ensures Complete(Now(run).down.store, e.f)
    ensures content != [] ==>
              Copy(Now(run).down.store, e.f) == Bytes.Some(content[..|content| - Lost(|content|, PIECE_SIZE)])
    ensures content == [] ==> Now(run).down.store == run[0].down.store && Now(run).down.store.merged == s'.merged
    ensures Copy(run[0].down.store, e.f).None? ==>
              (Copy(Now(run).down.store, e.f) == Bytes.Some(content) <==> |content| % PIECE_SIZE != 0)
  {
    hide Uploaded, Added, Complete, Sha1Hex, Lost;
    if content == [] {
      EmptyTravels(e, run, s, s', path, unset, unset', unset'');
    } else {
      FullTravels(e, run, s, s', path, content, unset, unset', unset'');
    }
  }

  lemma EmptyTravels(e: Ends, run: seq<Link>, s: Store, s': Store, path: string, unset: nat, unset': nat, unset'': nat)
    requires IsRun(e, run) && Departs(e, run[0], s, s', path, [], unset, unset', unset'')
    ensures Complete(Now(run).down.store, e.f)
    ensures Now(run).down.store == run[0].down.store && Now(run).down.store.merged == s'.merged
  {
    AddedEmpty(s, s', path, unset, unset', unset'');
    AddedMerges(s', run[0].up.store.infos[e.f], unset', unset'');
    hide Uploaded, Added, Complete, Sha1Hex, IsRun;
    CompleteIsGivenUp(e, run);
  }

  lemma FullTravels(e: Ends, run: seq<Link>, s: Store, s': Store, path: string, content: Content,
                    unset: nat, unset': nat, unset'': nat)
    requires IsRun(e, run) && NothingInFlight(Now(run)) && content != []
    requires Departs(e, run[0], s, s', path, content, unset, unset', unset'')
    ensures Complete(Now(run).down.store, e.f)
    ensures Copy(Now(run).down.store, e.f) == Bytes.Some(content[..|content| - Lost(|content|, PIECE_SIZE)])
    ensures Copy(Now(run).down.store, e.f) == Bytes.Some(content) <==> |content| % PIECE_SIZE != 0
  {
    var up, down := run[0].up.store, Now(run).down.store;
    UploadCanBeServed(s, path, content, unset);
    AddedCanFetch(s, s', path, content, unset, unset', unset'');
    UploadStored(s, path, content, unset);
    hide Uploaded, Added, UploaderOk, Matches, NoneOpen, Complete, IsRun, Idle, SplitPieces, Stored, Sha1Hex;
    hide PieceCount, Lost;
    assert Starts(e, run[0]);
    QuietIsDownloaded(e, run);
    UploadArrives(e, up, down, content);
  }

  /** A node with this store that has done nothing yet. */
  function Fresh(s: Store): Node {
    Node(s, map[], 0, Bytes.None, [], false)
  }

  /** The downloader is ready, and the uploader begins. */
  function FirstLink(e: Ends, up: Store, down: Store): Link {
    var began := Begin(Fresh(up), (e.u, e.f));
    Link(began, Ready(Fresh(down), (e.d, e.f)), [], Outbox(began.sent))
  }

  lemma HasInfo(s: Store, path: string, content: Content, unset: nat)
    requires Splittable(content) && Sha1Hex(content) !in s.files
    ensures Sha1Hex(content) in Uploaded(s, path, Bytes.Some(content), unset).infos
  {
    UploadedRecord(s, path, content, unset);
    hide *;
  }

  lemma FirstLinkIs(e: Ends, up: Store, down: Store)
    ensures var l := FirstLink(e, up, down);
            && l.up.store == up && l.down.store == down && l.down.packs < PACK_SIZE
            && l.toUp == [] && l.toDown == [FileBegin(e.f)]
            && Idle(l.up.slots, (e.u, e.f)) && Idle(l.down.slots, (e.d, e.f))
  {
  }

  lemma SomeDeparture(e: Ends, s: Store, s': Store, path: string, content: Content, unset: nat) returns (l: Link)
    requires PieceCount(|content|, PIECE_SIZE) <= NO_PIECE && e.f == Sha1Hex(content)
    requires e.f !in s.files && e.f !in s'.files && forall i: nat :: (e.f, i) !in s'.pieces
    ensures Departs(e, l, s, s', path, content, unset, unset, unset)
    ensures l == FirstLink(e, l.up.store, l.down.store)
  {
    HasInfo(s, path, content, unset);
    var up := Uploaded(s, path, Bytes.Some(content), unset);
    var down := Added(s', Bytes.Some(up.infos[e.f]), unset, unset).0;
    l := FirstLink(e, up, down);
    FirstLinkIs(e, up, down);
    hide Uploaded, Added, Sha1Hex, PieceCount, FirstLink, Idle;
  }

  lemma EmptyRun(e: Ends, l: Link, s: Store, s': Store, path: string, unset: nat) returns (run: seq<Link>)
    requires Departs(e, l, s, s', path, [], unset, unset, unset)
    ensures IsRun(e, run) && run[0] == l && NothingInFlight(Now(run))
  {
    AddedEmpty(s, s', path, unset, unset, unset);
    hide Uploaded, Added, Complete, Sha1Hex, IsRun;
    run := GiveUpRun(e, l);
  }

  lemma FullRun(e: Ends, l: Link, s: Store, s': Store, path: string, content: Content, unset: nat)
      returns (run: seq<Link>)
    requires Departs(e, l, s, s', path, content, unset, unset, unset) && content != []
    requires l == FirstLink(e, l.up.store, l.down.store)
    ensures IsRun(e, run) && run[0] == l && NothingInFlight(Now(run))
  {
    UploadCanBeServed(s, path, content, unset);
    AddedCanFetch(s, s', path, content, unset, unset, unset);
    hide Uploaded, Added, Complete, Sha1Hex, UploaderOk, Matches, NoneOpen, IsRun, PieceCount, FirstLink;
    StartsAt(e, l);
    run := CompletesFrom(e, l);
  }

  /** Any file with few enough pieces can travel so: there is such a run to the end. */
  lemma FileArrives(e: Ends, s: Store, s': Store, path: string, content: Content, unset: nat) returns (run: seq<Link>)
    requires PieceCount(|content|, PIECE_SIZE) <= NO_PIECE && e.f == Sha1Hex(content)
    requires e.f !in s.files && e.f !in s'.files && forall i: nat :: (e.f, i) !in s'.pieces
    ensures IsRun(e, run) && NothingInFlight(Now(run)) && Departs(e, run[0], s, s', path, content, unset, unset, unset)
    ensures run[0] == FirstLink(e, run[0].up.store, run[0].down.store)
    ensures Complete(Now(run).down.store, e.f)
    ensures content != [] ==>
              Copy(Now(run).down.store, e.f) == Bytes.Some(content[..|content| - Lost(|content|, PIECE_SIZE)])
  {
    var l := SomeDeparture(e, s, s', path, content, unset);
    hide *;
    if content == [] {
      run := EmptyRun(e, l, s, s', path, unset);
    } else {
      run := FullRun(e, l, s, s', path, content, unset);
    }
    FileTravels(e, run, s, s', path, content, unset, unset, unset);
  }

  lemma StartsAt(e: Ends, l: Link)
    requires l == FirstLink(e, l.up.store, l.down.store) && UploaderOk(l.up.store, e.f)
    requires Matches(l.up.store, l.down.store, e.f) && NoneOpen(l.down.store, e.f) && !Complete(l.down.store, e.f)
    ensures Starts(e, l) && l.down.packs < PACK_SIZE && l.toUp == [] && l.toDown == [FileBegin(e.f)]
    ensures Idle(l.up.slots, (e.u, e.f)) && Idle(l.down.slots, (e.d, e.f))
  {
    hide UploaderOk, Matches, NoneOpen, Complete;
  }

  lemma CompletesFrom(e: Ends, l: Link) returns (run: seq<Link>)
    requires Starts(e, l)
    ensures IsRun(e, run) && run[0] == l && NothingInFlight(Now(run))
  {
    hide Starts, Downloaded;
    DownloadCompletes(e, [l]);
    var longer :| IsRun(e, longer) && [l] <= longer && NothingInFlight(Now(longer)) &&
                  Downloaded(e, l.up.store, Now(longer).down.store);
    run := longer;
  }

  // ---------------------------------------------------------------- credit

  /** The chunks on their way. */
  function Chunks(msgs: seq<FileMessage>): nat {
    if msgs == [] then 0 else (if msgs[0].FileBody? then 1 else 0) + Chunks(msgs[1..])
  }

  lemma {:induction false} ChunksOf(f: string, chunks: seq<Content>, ended: bool)
    ensures Chunks(Bodies(f, chunks) + Ending(f, ended)) == |chunks|
  {
    if chunks != [] {
      BodiesFirst(f, chunks, ended);
      ChunksOf(f, chunks[1..], ended);
    } else {
      assert Bodies(f, []) + Ending(f, ended) == Ending(f, ended);
      if ended {
        assert Ending(f, ended)[1..] == [];
      }
    }
  }

  lemma PhaseCredit(e: Ends, l: Link, ph: Phase)
    requires InPhase(e, l, ph) && ph.Fetching?
    ensures |l.toUp| == ph.acks && Chunks(l.toDown) == |ph.chunks| && ph.credit < PACK_SIZE
    ensures Chunks(l.toDown) + l.down.packs + PACK_SIZE * |l.toUp| <= PACK_SIZE + ph.credit
    ensures !ph.ended ==> Chunks(l.toDown) + l.down.packs + PACK_SIZE * |l.toUp| == PACK_SIZE + ph.credit
  {
    ChunksOf(e.f, ph.chunks, ph.ended);
    hide UploaderOk, Matches, OnlyOpen, PieceAt, Concat, ReadsOn, Idle, Chunks;
  }

  /** In no other phase are chunks on their way. */
  lemma PhaseWithoutChunks(e: Ends, l: Link, ph: Phase)
    requires InPhase(e, l, ph) && !ph.Fetching?
    ensures Chunks(l.toDown) == 0
  {
    hide UploaderOk, Matches, OnlyOpen, WritesOn, MergedOk, Complete, Idle;
  }

  /** In every state of every run, fewer chunks than two packs are on their way. */
  lemma ChunksInFlight(e: Ends, run: seq<Link>, i: nat)
    requires IsRun(e, run) && Starts(e, run[0]) && i < |run|
    ensures Chunks(run[i].toDown) < 256
  {
    var phases := RunPhases(e, run);
    PhaseAt(e, run, phases, i);
    hide *;
    if phases[i].Fetching? {
      PhaseCredit(e, run[i], phases[i]);
    } else {
      PhaseWithoutChunks(e, run[i], phases[i]);
    }
  }

  /** The uploader takes a request for a piece. */
  predicate TakesRequest(e: Ends, l: Link, l': Link) {
    l.toUp != [] && l.toUp[0].FileRequest? && l' == DeliverUp(e, l)
  }

  /** From a request taken at step `k` to state `m`, no other request is taken. */
  ghost predicate UntilNextRequest(e: Ends, run: seq<Link>, k: nat, m: nat) {
    && k < m < |run| && TakesRequest(e, run[k], run[k + 1])
    && forall j | k < j < m :: NoRequestAt(e, run, j)
  }

  ghost predicate NoRequestAt(e: Ends, run: seq<Link>, j: nat)
    requires j + 1 < |run|
  {
    !TakesRequest(e, run[j], run[j + 1])
  }

  lemma RequestRemains(f: string, acks: nat, i: nat, n: nat)
    ensures acks > 0 ==> (Acks(f, acks) + [FileRequest(f, i)])[1..] != Acks(f, n)
  {
    if acks > 0 {
      var rest := (Acks(f, acks) + [FileRequest(f, i)])[1..];
      assert rest[acks - 1] == FileRequest(f, i);
      assert |Acks(f, n)| == acks ==> Acks(f, n)[acks - 1] == FileBodyResp(f);
    }
  }

  /** Fetching begins when the uploader takes a request. */
  lemma FetchingBegins(e: Ends, l: Link, l': Link, ph: Phase, ph': Phase)
    requires InPhase(e, l, ph) && InPhase(e, l', ph') && Step(e, l, l') && ph.Asked? && ph'.Fetching?
    ensures TakesRequest(e, l, l')
  {
    hide UploaderOk, Matches, OnlyOpen, WritesOn, Flow, Handle;
    RequestRemains(e.f, ph.acks, ph.i, ph'.acks);
  }

  /** While a piece is fetched, no request is on its way. */
  lemma FetchingTakesNone(e: Ends, l: Link, l': Link, ph: Phase)
    requires InPhase(e, l, ph) && ph.Fetching?
    ensures !TakesRequest(e, l, l')
  {
    hide UploaderOk, Matches, OnlyOpen, WritesOn, Flow, Handle;
  }

  lemma UntilParts(e: Ends, run: seq<Link>, k: nat, m: nat)
    requires UntilNextRequest(e, run, k, m)
    ensures TakesRequest(e, run[k], run[k + 1])
    ensures m > k + 1 ==> UntilNextRequest(e, run, k, m - 1) && !TakesRequest(e, run[m - 1], run[m])
  {
    hide TakesRequest;
    if m > k + 1 {
      assert NoRequestAt(e, run, m - 1);
    }
  }

  lemma CreditOfRequest(l: Link, ph: Phase, ph': Phase)
    requires SameCredit(l, ph, ph') && ph'.Fetching? && !ph.Fetching?
    ensures ph.Asked? && ph'.credit == l.down.packs
  {
  }

  lemma CreditOfFetching(l: Link, ph: Phase, ph': Phase)
    requires SameCredit(l, ph, ph') && ph'.Fetching? && ph.Fetching?
    ensures ph'.credit == ph.credit
  {
  }

  /** The credit of a piece is what the downloader's counter stood at when the uploader took its request. */
  lemma {:induction false} CreditKept(e: Ends, run: seq<Link>, phases: seq<Phase>, k: nat, m: nat)
    requires IsRun(e, run) && Phases(e, run, phases) && |phases| == |run|
    requires k < m < |run| && UntilNextRequest(e, run, k, m) && phases[m].Fetching?
    ensures phases[m].credit == run[k].down.packs
  {
    hide *;
    PhaseAt(e, run, phases, m - 1);
    PhaseAt(e, run, phases, m);
    ProgressAt(e, run, phases, m);
    UntilParts(e, run, k, m);
    if m == k + 1 {
      if phases[k].Fetching? {
        FetchingTakesNone(e, run[k], run[k + 1], phases[k]);
      } else {
        CreditOfRequest(run[k], phases[k], phases[m]);
      }
    } else if phases[m - 1].Fetching? {
      CreditKept(e, run, phases, k, m - 1);
      CreditOfFetching(run[m - 1], phases[m - 1], phases[m]);
    } else {
      CreditOfRequest(run[m - 1], phases[m - 1], phases[m]);
      FetchingBegins(e, run[m - 1], run[m], phases[m - 1], phases[m]);
    }
  }

  lemma ProgressAt(e: Ends, run: seq<Link>, phases: seq<Phase>, m: nat)
    requires IsRun(e, run) && Phases(e, run, phases) && 0 < m < |run|
    ensures Step(e, run[m - 1], run[m]) && SameCredit(run[m - 1], phases[m - 1], phases[m])
  {
    hide InPhase, Step, Less, RankOf;
    assert Progress(e, run[m - 1], run[m], phases[m - 1], phases[m]);
  }

  /** The uploader reads only while a piece is fetched and not yet at its end. */
  lemma ReadingIsFetching(e: Ends, l: Link, ph: Phase)
    requires InPhase(e, l, ph) && (e.u, e.f) in l.up.slots && l.up.slots[(e.u, e.f)].stream.Reading?
    ensures ph.Fetching? && !ph.ended
  {
    hide UploaderOk, Matches, OnlyOpen, WritesOn, MergedOk, Complete;
  }

  /** In every run, from the taking of a request to that of the next, no more chunks are on their way than a pack and
      what the downloader's counter stood at when the request was taken. */
  lemma CreditBound(e: Ends, run: seq<Link>, k: nat, m: nat)
    requires IsRun(e, run) && Starts(e, run[0]) && UntilNextRequest(e, run, k, m)
    ensures Chunks(run[m].toDown) <= 128 + run[k].down.packs < 256
  {
    var phases := RunPhases(e, run);
    PhaseAt(e, run, phases, m);
    PhaseAt(e, run, phases, k);
    PacksSmall(e, run[k], phases[k]);
    if phases[m].Fetching? {
      CreditKept(e, run, phases, k, m);
    }
    hide *;
    if phases[m].Fetching? {
      PhaseCredit(e, run[m], phases[m]);
    } else {
      PhaseWithoutChunks(e, run[m], phases[m]);
    }
  }

  lemma PacksSmall(e: Ends, l: Link, ph: Phase)
    requires InPhase(e, l, ph)
    ensures l.down.packs < PACK_SIZE
  {
    hide At, UploaderOk, Matches;
  }

  /** In every run, while the uploader is reading the piece, chunks on their way, chunks counted and credits on their
      way make exactly one pack and what the counter stood at when the request was taken. */
  lemma CreditIsConserved(e: Ends, run: seq<Link>, k: nat, m: nat)
    requires IsRun(e, run) && Starts(e, run[0]) && UntilNextRequest(e, run, k, m)
    requires (e.u, e.f) in run[m].up.slots && run[m].up.slots[(e.u, e.f)].stream.Reading?
    ensures Chunks(run[m].toDown) + run[m].down.packs + 128 * |run[m].toUp| == 128 + run[k].down.packs
  {
    var phases := RunPhases(e, run);
    PhaseAt(e, run, phases, m);
    ReadingIsFetching(e, run[m], phases[m]);
    CreditKept(e, run, phases, k, m);
    hide *;
    PhaseCredit(e, run[m], phases[m]);
  }

  /** So the sender is never out of credit with bytes left while no chunk and no credit is on its way. */
  lemma NeverStalls(e: Ends, run: seq<Link>, i: nat)
    requires IsRun(e, run) && Starts(e, run[0]) && i < |run|
    requires (e.u, e.f) in run[i].up.slots && run[i].up.slots[(e.u, e.f)].stream.Reading?
    ensures Chunks(run[i].toDown) > 0 || run[i].toUp != []
  {
    var phases := RunPhases(e, run);
    PhaseAt(e, run, phases, i);
    ReadingIsFetching(e, run[i], phases[i]);
    PacksSmall(e, run[i], phases[i]);
    hide *;
    PhaseCredit(e, run[i], phases[i]);
  }
}
