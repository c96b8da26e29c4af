/** The text of an `.info` file: how it is written, and how a stream reads it back. */
module InfoText {
  import Bytes

  datatype PieceState = None | Open | Have
  datatype PieceInfo = PieceInfo(state: PieceState, size: nat, sha1: string)
  datatype FileInfo = FileInfo(fileName: string, fileId: string, pieces: seq<PieceInfo>)

  const NEW_PIECE := PieceInfo(None, 0, "")
  const NEW_FILE := FileInfo("", "", [])

  // ---------------------------------------------------------------- reading from a stream

  predicate IsSpace(c: char) {
    c == ' ' || '\t' <= c <= '\r'
  }

  predicate IsDigit(c: char) {
    '0' <= c <= '9'
  }

  function SkipSpace(text: string): string {
    if text != "" && IsSpace(text[0]) then SkipSpace(text[1..]) else text
  }

  function FirstWord(text: string): (word: string)
    ensures word <= text
  {
    if text == "" || IsSpace(text[0]) then "" else [text[0]] + FirstWord(text[1..])
  }

  function FirstDigits(text: string): (digits: string)
    ensures digits <= text
    ensures forall c <- digits :: IsDigit(c)
    ensures |digits| < |text| ==> !IsDigit(text[|digits|])
  {
    if text == "" || !IsDigit(text[0]) then "" else [text[0]] + FirstDigits(text[1..])
  }

  function DigitValue(c: char): nat
    requires IsDigit(c)
  {
    c as nat - '0' as nat
  }

  function Number(digits: string): nat
    requires forall c <- digits :: IsDigit(c)
  {
    if digits == "" then 0 else 10 * Number(digits[..|digits| - 1]) + DigitValue(digits[|digits| - 1])
  }

  function Digits(n: nat): (digits: string)
    ensures digits != "" && forall c <- digits :: IsDigit(c)
  {
    if n < 10 then [('0' as nat + n) as char] else Digits(n / 10) + [('0' as nat + n % 10) as char]
  }

  /** A stream: the text ahead, and whether every read has succeeded so far. */
  datatype Input = Input(ahead: string, good: bool)

  /** A read that finds the stream failed or at its end leaves the old value. */
  function ReadWord(input: Input, was: string): (string, Input) {
    var text := SkipSpace(input.ahead);
    if !input.good then (was, input)
    else if text == "" then (was, Input("", false))
    else (FirstWord(text), Input(text[|FirstWord(text)|..], true))
  }

  function Negative(n: nat): nat
    requires n < Bytes.U64_LIMIT
  {
    (Bytes.U64_LIMIT - n) % Bytes.U64_LIMIT
  }

  /** An unsigned number of 64 bits; a minus sign negates modulo 2^64. */
  function ReadNumber(input: Input, was: nat): (nat, Input) {
    var text := SkipSpace(input.ahead);
    if !input.good then (was, input)
    else if text == "" then (was, Input("", false))
    else
      var unsigned := if text[0] == '+' || text[0] == '-' then text[1..] else text;
      var digits := FirstDigits(unsigned);
      var ahead := unsigned[|digits|..];
      if digits == "" then (0, Input(ahead, false))
      else if Number(digits) >= Bytes.U64_LIMIT then (Bytes.U64_LIMIT - 1, Input(ahead, false))
      else if text[0] == '-' then (Negative(Number(digits)), Input(ahead, true))
      else (Number(digits), Input(ahead, true))
  }

  function ReadPiece(input: Input, was: PieceInfo): (PieceInfo, Input) {
    var (sha1, afterSha1) := ReadWord(input, was.sha1);
    var (size, afterSize) := ReadNumber(afterSha1, was.size);
    (PieceInfo(was.state, size, sha1), afterSize)
  }

  function ReadPieces(input: Input, was: seq<PieceInfo>): (r: (seq<PieceInfo>, Input))
    ensures |r.0| == |was|
    decreases was
  {
    if was == [] then ([], input)
    else
      var (first, afterFirst) := ReadPiece(input, was[0]);
      var (others, afterAll) := ReadPieces(afterFirst, was[1..]);
      ([first] + others, afterAll)
  }

  function Resize(pieces: seq<PieceInfo>, count: nat): (r: seq<PieceInfo>)
    ensures |r| == count
  {
    if count <= |pieces| then pieces[..count] else pieces + seq(count - |pieces|, _ => NEW_PIECE)
  }

  /** The id and the count at the head of the text; `unset` stands for a count that was never given a value. */
  function ReadHead(text: string, unset: nat): (string, nat, Input) {
    var (fileId, afterId) := ReadWord(Input(text, true), "");
    var (count, afterCount) := ReadNumber(afterId, unset);
    (fileId, count, afterCount)
  }

  function Known(files: map<string, FileInfo>, fileId: string): FileInfo {
    if fileId in files then files[fileId] else NEW_FILE
  }

  /** What the record of a file becomes when the text is read over it. */
  function ReadInfo(text: string, unset: nat, files: map<string, FileInfo>): FileInfo {
    var (fileId, count, afterCount) := ReadHead(text, unset);
    var was := Known(files, fileId);
    var (pieces, afterPieces) := ReadPieces(afterCount, Resize(was.pieces, count));
    FileInfo(ReadWord(afterPieces, was.fileName).0, fileId, pieces)
  }

  // ---------------------------------------------------------------- writing

  function Line(piece: PieceInfo): string {
    piece.sha1 + " " + Digits(piece.size) + "\n"
  }

  function Lines(pieces: seq<PieceInfo>, fileName: string): string {
    if pieces == [] then fileName else Line(pieces[0]) + Lines(pieces[1..], fileName)
  }

  function Head(fileId: string, count: nat): string {
    fileId + "\n" + Digits(count) + "\n"
  }

  function WriteInfo(info: FileInfo): string {
    Head(info.fileId, |info.pieces|) + Lines(info.pieces, info.fileName)
  }

  /** The copy made of a text whose head has been read. */
  function CopyInfo(text: string, unset: nat): string {
    var (fileId, count, afterCount) := ReadHead(text, unset);
    fileId + " " + Digits(count) + afterCount.ahead
  }

  // ---------------------------------------------------------------- round trips

  predicate Unbroken(text: string) {
    forall c <- text :: !IsSpace(c)
  }

  predicate IsWord(text: string) {
    text != "" && Unbroken(text)
  }

  /** The text ahead does not go on with a word, or with a number. */
  predicate EndsWord(ahead: string) {
    ahead == "" || IsSpace(ahead[0])
  }

  predicate EndsNumber(ahead: string) {
    ahead == "" || !IsDigit(ahead[0])
  }

  /** A word at the front, after no space or one. */
  predicate Leads(gap: string, text: string) {
    text != "" && !IsSpace(text[0]) && (gap == "" || (|gap| == 1 && IsSpace(gap[0])))
  }

  lemma SkipGap(gap: string, text: string)
    requires Leads(gap, text)
    ensures SkipSpace(gap + text) == text
  {
    if gap != "" {
      assert (gap + text)[1..] == text;
    } else {
      assert gap + text == text;
    }
  }

  lemma {:induction false} FirstWordIs(word: string, ahead: string)
    requires Unbroken(word) && EndsWord(ahead)
    ensures FirstWord(word + ahead) == word
  {
    if word == "" {
      assert word + ahead == ahead;
    } else {
      assert (word + ahead)[1..] == word[1..] + ahead;
      FirstWordIs(word[1..], ahead);
    }
  }

  lemma {:induction false} FirstDigitsIs(digits: string, ahead: string)
    requires (forall c <- digits :: IsDigit(c)) && EndsNumber(ahead)
    ensures FirstDigits(digits + ahead) == digits
  {
    if digits == "" {
      assert digits + ahead == ahead;
    } else {
      assert (digits + ahead)[1..] == digits[1..] + ahead;
      FirstDigitsIs(digits[1..], ahead);
    }
  }

  lemma {:induction false} NumberOfDigits(n: nat)
    ensures Number(Digits(n)) == n
  {
    if n < 10 {
      assert Digits(n)[..0] == "";
      assert Number(Digits(n)) == 10 * Number("") + DigitValue(Digits(n)[0]);
    } else {
      NumberOfDigits(n / 10);
      var digits := Digits(n / 10) + [('0' as nat + n % 10) as char];
      assert digits[..|digits| - 1] == Digits(n / 10);
    }
  }

  lemma WordIsRead(gap: string, word: string, ahead: string, was: string)
    requires IsWord(word) && EndsWord(ahead) && Leads(gap, word)
    ensures ReadWord(Input(gap + word + ahead, true), was) == (word, Input(ahead, true))
  {
    assert gap + word + ahead == gap + (word + ahead);
    SkipGap(gap, word + ahead);
    FirstWordIs(word, ahead);
  }

  lemma NumberAhead(whole: string, digits: string, ahead: string, was: nat)
    requires digits != "" && (forall c <- digits :: IsDigit(c)) && Number(digits) < Bytes.U64_LIMIT
    requires SkipSpace(whole) == digits + ahead && FirstDigits(digits + ahead) == digits
    ensures ReadNumber(Input(whole, true), was) == (Number(digits), Input(ahead, true))
  {
    hide Number, FirstDigits, SkipSpace, Negative;
    assert digits[0] in digits;
    assert (digits + ahead)[|digits|..] == ahead;
  }

  lemma NumberIsRead(gap: string, n: nat, ahead: string, was: nat)
    requires n < Bytes.U64_LIMIT && EndsNumber(ahead) && (gap == "" || (|gap| == 1 && IsSpace(gap[0])))
    ensures ReadNumber(Input(gap + Digits(n) + ahead, true), was) == (n, Input(ahead, true))
  {
    var digits := Digits(n);
    assert digits[0] in digits;
    assert gap + digits + ahead == gap + (digits + ahead);
    SkipGap(gap, digits + ahead);
    FirstDigitsIs(digits, ahead);
    NumberOfDigits(n);
    hide *;
    NumberAhead(gap + digits + ahead, digits, ahead, was);
  }

  /** What can stand on a line of the text. */
  predicate Writable(piece: PieceInfo) {
    piece.state == None && IsWord(piece.sha1) && piece.size < Bytes.U64_LIMIT
  }

  lemma PieceIsRead(gap: string, piece: PieceInfo, ahead: string)
    requires Writable(piece) && (gap == "" || (|gap| == 1 && IsSpace(gap[0])))
    ensures ReadPiece(Input(gap + Line(piece) + ahead, true), NEW_PIECE) == (piece, Input("\n" + ahead, true))
  {
    hide ReadWord, ReadNumber;
    assert piece.sha1[0] in piece.sha1;
    var afterSha1 := " " + Digits(piece.size) + ("\n" + ahead);
    assert gap + Line(piece) + ahead == gap + piece.sha1 + afterSha1;
    WordIsRead(gap, piece.sha1, afterSha1, "");
    NumberIsRead(" ", piece.size, "\n" + ahead, 0);
  }

  lemma ReadPiecesNext(input: Input, was: seq<PieceInfo>, first: PieceInfo, afterFirst: Input, others: seq<PieceInfo>,
                       afterAll: Input)
    requires was != [] && ReadPiece(input, was[0]) == (first, afterFirst)
    requires ReadPieces(afterFirst, was[1..]) == (others, afterAll)
    ensures ReadPieces(input, was) == ([first] + others, afterAll)
  {
    hide ReadPiece;
  }

  lemma {:induction false} PiecesAreRead(pieces: seq<PieceInfo>, fileName: string)
    requires forall p <- pieces :: Writable(p)
    ensures ReadPieces(Input("\n" + Lines(pieces, fileName), true), seq(|pieces|, _ => NEW_PIECE)) ==
            (pieces, Input("\n" + fileName, true))
  {
    var was := seq(|pieces|, _ => NEW_PIECE);
    if pieces != [] {
      var first, others, ahead := pieces[0], pieces[1..], Lines(pieces[1..], fileName);
      assert "\n" + Lines(pieces, fileName) == "\n" + Line(first) + ahead;
      assert was[1..] == seq(|others|, _ => NEW_PIECE) && was[0] == NEW_PIECE;
      assert first in pieces && forall p <- others :: p in pieces;
      assert pieces == [first] + others;
      hide *;
      PieceIsRead("\n", first, ahead);
      PiecesAreRead(others, fileName);
      ReadPiecesNext(Input("\n" + Line(first) + ahead, true), was, first, Input("\n" + ahead, true), others,
                     Input("\n" + fileName, true));
    }
  }

  lemma HeadIsRead(fileId: string, count: nat, ahead: string, unset: nat)
    requires IsWord(fileId) && count < Bytes.U64_LIMIT
    ensures ReadHead(Head(fileId, count) + ahead, unset) == (fileId, count, Input("\n" + ahead, true))
  {
    hide ReadWord, ReadNumber;
    assert fileId[0] in fileId;
    var afterId := "\n" + Digits(count) + ("\n" + ahead);
    assert Head(fileId, count) + ahead == "" + fileId + afterId;
    WordIsRead("", fileId, afterId, "");
    NumberIsRead("\n", count, "\n" + ahead, unset);
  }

  /** The first word of a name, or nothing for a blank one. */
  function NameRead(fileName: string): string {
    FirstWord(SkipSpace(fileName))
  }

  lemma {:induction false} FirstWordUnbroken(text: string)
    ensures Unbroken(FirstWord(text))
  {
    if text != "" && !IsSpace(text[0]) {
      FirstWordUnbroken(text[1..]);
    }
  }

  lemma NameReadWhole(fileName: string)
    ensures NameRead(fileName) == fileName <==> Unbroken(fileName)
  {
    FirstWordUnbroken(SkipSpace(fileName));
    if Unbroken(fileName) {
      assert fileName != "" ==> fileName[0] in fileName;
      FirstWordIs(fileName, "");
      assert fileName + "" == fileName;
    }
  }

  /** Reading what was written gives the same id, count, hashes and sizes, and the same name exactly when the name
      has no white space. */
  lemma InfoRoundTrip(info: FileInfo, unset: nat, files: map<string, FileInfo>)
    requires IsWord(info.fileId) && |info.pieces| < Bytes.U64_LIMIT && info.fileId !in files
    requires forall p <- info.pieces :: Writable(p)
    ensures ReadInfo(WriteInfo(info), unset, files) == info.(fileName := NameRead(info.fileName))
    ensures ReadInfo(WriteInfo(info), unset, files) == info <==> Unbroken(info.fileName)
  {
    hide ReadHead, Head, Lines, Digits, IsWord, Writable, ReadPiece;
    HeadIsRead(info.fileId, |info.pieces|, Lines(info.pieces, info.fileName), unset);
    PiecesAreRead(info.pieces, info.fileName);
    assert Resize([], |info.pieces|) == seq(|info.pieces|, _ => NEW_PIECE);
    assert SkipSpace("\n" + info.fileName) == SkipSpace(info.fileName) by {
      assert ("\n" + info.fileName)[1..] == info.fileName;
    }
    NameReadWhole(info.fileName);
  }

  lemma HeadParts(text: string, unset: nat)
    requires ReadHead(text, unset).2.good
    ensures var (fileId, count, afterCount) := ReadHead(text, unset);
            IsWord(fileId) && count < Bytes.U64_LIMIT && EndsNumber(afterCount.ahead) && afterCount.good
  {
    FirstWordUnbroken(SkipSpace(text));
    SkipsToWord(text);
  }

  lemma {:induction false} SkipsToWord(text: string)
    ensures SkipSpace(text) != "" ==> !IsSpace(SkipSpace(text)[0])
  {
    if text != "" && IsSpace(text[0]) {
      SkipsToWord(text[1..]);
    }
  }

  lemma HeadOf(text: string, unset: nat, fileId: string, afterId: string, count: nat, afterCount: Input)
    requires ReadWord(Input(text, true), "") == (fileId, Input(afterId, true))
    requires ReadNumber(Input(afterId, true), unset) == (count, afterCount)
    ensures ReadHead(text, unset) == (fileId, count, afterCount)
  {
    hide ReadWord, ReadNumber;
  }

  lemma CopyIs(text: string, unset: nat)
    ensures var (fileId, count, afterCount) := ReadHead(text, unset);
            CopyInfo(text, unset) == "" + fileId + (" " + Digits(count) + afterCount.ahead)
  {
    hide ReadHead, Digits;
  }

  lemma CopyHead(text: string, unset: nat, unset': nat)
    requires ReadHead(text, unset).2.good
    ensures ReadHead(CopyInfo(text, unset), unset') == ReadHead(text, unset)
  {
    HeadParts(text, unset);
    CopyIs(text, unset);
    var (fileId, count, afterCount) := ReadHead(text, unset);
    var afterId := " " + Digits(count) + afterCount.ahead;
    assert fileId[0] in fileId;
    hide ReadHead, ReadWord, ReadNumber, CopyInfo, Digits, Unbroken;
    WordIsRead("", fileId, afterId, "");
    NumberIsRead(" ", count, afterCount.ahead, unset');
    hide *;
    HeadOf(CopyInfo(text, unset), unset', fileId, afterId, count, afterCount);
  }

  /** The copy of any text whose head can be read is read as the same record as the text itself. */
  lemma CopyReadsTheSame(text: string, unset: nat, unset': nat, files: map<string, FileInfo>)
    requires ReadHead(text, unset).2.good
    ensures ReadInfo(CopyInfo(text, unset), unset', files) == ReadInfo(text, unset, files)
  {
    CopyHead(text, unset, unset');
    hide ReadHead, CopyInfo, ReadPieces, ReadWord, Resize, Known;
  }

  // ---------------------------------------------------------------- what a stream makes of any text

  /** White space is the six characters of the C locale. */
  predicate Blank(text: string) {
    forall c <- text :: c as int in {9, 10, 11, 12, 13, 32}
  }

  lemma {:induction false} SkipsBlank(gap: string, text: string)
    requires Blank(gap) && (text == "" || text[0] as int !in {9, 10, 11, 12, 13, 32})
    ensures SkipSpace(gap + text) == text
  {
    if gap == "" {
      assert gap + text == text;
    } else {
      assert gap[0] in gap && (gap + text)[0] == gap[0] && (gap + text)[1..] == gap[1..] + text;
      assert forall c <- gap[1..] :: c in gap;
      SkipsBlank(gap[1..], text);
    }
  }

  /** A read that finds only white space, or a stream that has failed, leaves the old value and a failed stream. */
  lemma ReadingAtEnd(text: string, good: bool, word: string, n: nat)
    requires Blank(text) || !good
    ensures var r := ReadWord(Input(text, good), word); r.0 == word && !r.1.good
    ensures var r := ReadNumber(Input(text, good), n); r.0 == n && !r.1.good
  {
    if good {
      SkipsBlank(text, "");
      assert text + "" == text;
    }
  }

  /** A word goes up to the next white space. */
  lemma AnyWordIsRead(gap: string, word: string, ahead: string, was: string)
    requires Blank(gap) && word != "" && (ahead == "" || ahead[0] as int in {9, 10, 11, 12, 13, 32})
    requires forall c <- word :: c as int !in {9, 10, 11, 12, 13, 32}
    ensures ReadWord(Input(gap + word + ahead, true), was) == (word, Input(ahead, true))
  {
    assert word[0] in word;
    assert gap + word + ahead == gap + (word + ahead);
    SkipsBlank(gap, word + ahead);
    FirstWordIs(word, ahead);
  }

  /** A number may have a sign; a minus counts down from 2^64, and a number too large is read as the largest one and
      makes the stream fail. */
  lemma AnyNumberIsRead(gap: string, sign: string, digits: string, ahead: string, was: nat)
    requires Blank(gap) && sign in {"", "+", "-"} && digits != "" && (forall c <- digits :: '0' <= c <= '9')
    requires ahead == "" || !('0' <= ahead[0] <= '9')
    ensures var limit, n := 0x1_0000_0000_0000_0000, Number(digits);
            ReadNumber(Input(gap + sign + digits + ahead, true), was) ==
            if n >= limit then (limit - 1, Input(ahead, false))
            else (if sign == "-" && n > 0 then limit - n else n, Input(ahead, true))
  {
    assert digits[0] in digits && forall c <- digits :: IsDigit(c);
    SkipsToSign(gap, sign, digits, ahead);
    SignCut(sign, digits, ahead);
    FirstDigitsIs(digits, ahead);
    hide *;
    SignedAhead(gap + sign + digits + ahead, sign + digits + ahead, sign == "-", digits, ahead, was);
  }

  lemma SkipsToSign(gap: string, sign: string, digits: string, ahead: string)
    requires Blank(gap) && sign in {"", "+", "-"} && digits != "" && '0' <= digits[0] <= '9'
    ensures SkipSpace(gap + sign + digits + ahead) == sign + digits + ahead
  {
    var text := sign + digits + ahead;
    assert gap + sign + digits + ahead == gap + text;
    assert text[0] == if sign == "" then digits[0] else sign[0];
    SkipsBlank(gap, text);
  }

  lemma SignCut(sign: string, digits: string, ahead: string)
    requires sign in {"", "+", "-"} && digits != "" && '0' <= digits[0] <= '9'
    ensures var text := sign + digits + ahead;
            && text != "" && (text[0] == '-' <==> sign == "-")
            && (if text[0] == '+' || text[0] == '-' then text[1..] else text) == digits + ahead
  {
    if sign == "" {
      assert sign + digits + ahead == digits + ahead;
    } else {
      assert (sign + digits + ahead)[1..] == digits + ahead;
    }
  }

  lemma Negated(n: nat)
    requires n < Bytes.U64_LIMIT
    ensures Negative(n) == if n > 0 then Bytes.U64_LIMIT - n else 0
  {
  }

  lemma SignedAhead(whole: string, text: string, minus: bool, digits: string, ahead: string, was: nat)
    requires SkipSpace(whole) == text && text != "" && digits != "" && (forall c <- digits :: IsDigit(c))
    requires (if text[0] == '+' || text[0] == '-' then text[1..] else text) == digits + ahead
    requires FirstDigits(digits + ahead) == digits && (minus <==> text[0] == '-')
    ensures var limit, n := 0x1_0000_0000_0000_0000, Number(digits);
            ReadNumber(Input(whole, true), was) ==
            if n >= limit then (limit - 1, Input(ahead, false))
            else (if minus && n > 0 then limit - n else n, Input(ahead, true))
  {
    if Number(digits) < Bytes.U64_LIMIT {
      Negated(Number(digits));
    }
    hide Number, SkipSpace, FirstDigits, Negative;
    assert (digits + ahead)[|digits|..] == ahead;
  }

  /** Anything else is read as nothing but makes the stream fail. */
  lemma NoNumberIsRead(gap: string, ahead: string, was: nat)
    requires Blank(gap) && ahead != "" && ahead[0] as int !in {9, 10, 11, 12, 13, 32}
    requires !('0' <= ahead[0] <= '9') && ahead[0] != '+' && ahead[0] != '-'
    ensures ReadNumber(Input(gap + ahead, true), was) == (0, Input(ahead, false))
  {
    SkipsBlank(gap, ahead);
  }

  /** A text that ends after the count leaves what was known of the file, cut or filled up to that many pieces. */
  lemma ShortTextKeepsOld(fileId: string, count: nat, unset: nat, files: map<string, FileInfo>)
    requires IsWord(fileId) && count < Bytes.U64_LIMIT && fileId in files
    ensures var r := ReadInfo(fileId + "\n" + Digits(count) + "\n", unset, files);
            && r.fileId == fileId && r.fileName == files[fileId].fileName && |r.pieces| == count
            && forall i | 0 <= i < count ::
                 r.pieces[i] == if i < |files[fileId].pieces| then files[fileId].pieces[i] else PieceInfo(None, 0, "")
  {
    var was := Resize(files[fileId].pieces, count);
    var text := fileId + "\n" + Digits(count) + "\n";
    assert Head(fileId, count) + "" == text;
    HeadIsRead(fileId, count, "", unset);
    assert "\n" + "" == "\n";
    ReadingAtEnd("\n", true, files[fileId].fileName, 0);
    PiecesAtEnd("\n", true, was);
    hide ReadHead, ReadPieces, Digits, ReadWord, IsWord, Resize;
    var (pieces, afterPieces) := ReadPieces(Input("\n", true), was);
    ReadingAtEnd(afterPieces.ahead, afterPieces.good, files[fileId].fileName, 0);
    ResizeAt(files[fileId].pieces, count);
  }

  lemma ResizeAt(pieces: seq<PieceInfo>, count: nat)
    ensures forall i | 0 <= i < count ::
              Resize(pieces, count)[i] == if i < |pieces| then pieces[i] else PieceInfo(None, 0, "")
  {
  }

  lemma {:induction false} PiecesAtEnd(text: string, good: bool, was: seq<PieceInfo>)
    requires Blank(text) || !good
    ensures var (pieces, after) := ReadPieces(Input(text, good), was);
            pieces == was && (Blank(after.ahead) || !after.good)
    decreases |was|
  {
    if was != [] {
      PieceAtEnd(text, good, was[0]);
      var (first, after) := ReadPiece(Input(text, good), was[0]);
      hide ReadPiece, Blank;
      PiecesAtEnd(after.ahead, after.good, was[1..]);
      assert was == [was[0]] + was[1..];
    }
  }

  lemma PieceAtEnd(text: string, good: bool, was: PieceInfo)
    requires Blank(text) || !good
    ensures var (piece, after) := ReadPiece(Input(text, good), was); piece == was && !after.good
  {
    ReadingAtEnd(text, good, was.sha1, was.size);
    hide Blank, SkipSpace;
    var (_, afterSha1) := ReadWord(Input(text, good), was.sha1);
    hide ReadWord, ReadNumber;
    ReadingAtEnd(afterSha1.ahead, afterSha1.good, was.sha1, was.size);
  }

  /** The text of a record: its id, the number of pieces, a line for each, and the name. */
  lemma TextOfOne(fileId: string, sha1: string, size: nat, name: string)
    ensures WriteInfo(FileInfo(name, fileId, [PieceInfo(None, size, sha1)])) ==
            fileId + "\n" + "1" + "\n" + (sha1 + " " + Digits(size) + "\n" + name)
  {
    var piece := PieceInfo(None, size, sha1);
    assert Digits(1) == "1";
    assert [piece][1..] == [] && Lines([], name) == name;
    assert Lines([piece], name) == Line(piece) + name;
    hide Digits, Lines;
  }
}
