/**
  The bounded line splitter of src/source.rs (`LineReader`). The reader hands out its
  bytes in pieces of any size; the lines do not depend on how it cuts them.
*/
module Lines {
  import opened Options

  newtype Byte = x: int | 0 <= x < 256

  const NEWLINE: Byte := 10
  const RETURN: Byte := 13

  datatype Overflow = Error | Skip | Truncate

  datatype ReadLine = Eof | Skipped | Line(line: seq<Byte>) | TooLong(number: nat)

  // ---------------------------------------------------------------- the specification

  /** Where the first line ends: at the first newline, or at the end of the input. */
  function Cut(bytes: seq<Byte>): (i: nat)
    ensures i <= |bytes| && NEWLINE !in bytes[..i] && (i < |bytes| ==> bytes[i] == NEWLINE)
  {
    if bytes == [] || bytes[0] == NEWLINE then 0
    else
      var i := Cut(bytes[1..]);
      assert bytes[..i + 1] == [bytes[0]] + bytes[1..][..i];
      i + 1
  }

  function Raw(bytes: seq<Byte>): seq<Byte> { bytes[..Cut(bytes)] }

  /** The input after the first line and its newline. */
  function After(bytes: seq<Byte>): seq<Byte> {
    if Cut(bytes) < |bytes| then bytes[Cut(bytes) + 1..] else []
  }

  function Strip(raw: seq<Byte>): seq<Byte> {
    if raw != [] && raw[|raw| - 1] == RETURN then raw[..|raw| - 1] else raw
  }

  /** The first line of `bytes`, split off, stripped of one carriage return, and limited. */
  function First(bytes: seq<Byte>, maxLen: nat, overflow: Overflow, number: nat): ReadLine {
    if bytes == [] then Eof
    else if |Raw(bytes)| <= maxLen then Line(Strip(Raw(bytes)))
    else match overflow
      case Error => TooLong(number)
      case Skip => Skipped
      case Truncate => Line(Raw(bytes)[..maxLen])
  }

  /** All lines, up to the first one that is too long under `Error`; then its number. */
  function Split(bytes: seq<Byte>, maxLen: nat, overflow: Overflow, done: nat): (seq<seq<Byte>>, Option<nat>)
    decreases |bytes|
  {
    match First(bytes, maxLen, overflow, done + 1)
    case Eof => ([], None)
    case TooLong(n) => ([], Some(n))
    case Skipped => Split(After(bytes), maxLen, overflow, done + 1)
    case Line(line) =>
      Prepend([line], Split(After(bytes), maxLen, overflow, done + 1))
  }

  function Prepend(lines: seq<seq<Byte>>, p: (seq<seq<Byte>>, Option<nat>)): (seq<seq<Byte>>, Option<nat>) {
    (lines + p.0, p.1)
  }

  lemma PrependBoth(xs: seq<seq<Byte>>, ys: seq<seq<Byte>>, p: (seq<seq<Byte>>, Option<nat>))
    ensures Prepend(xs, Prepend(ys, p)) == Prepend(xs + ys, p) && Prepend([], p) == p
  {
    assert xs + (ys + p.0) == (xs + ys) + p.0;
    assert [] + p.0 == p.0;
  }

  /** What the reader hands out at its `fills`-th turn. */
  function Piece(rest: seq<Byte>, cuts: nat -> nat, fills: nat): (piece: seq<Byte>)
    ensures piece <= rest && (piece == [] ==> rest == [])
  {
    var n := if cuts(fills) == 0 then 1 else cuts(fills);
    if n < |rest| then rest[..n] else rest
  }

  /** Where the piece starts in which a first line of which `seen` bytes are read passes the limit. */
  function Crossing(rest: seq<Byte>, cuts: nat -> nat, fills: nat, seen: nat, maxLen: nat): (i: nat)
    ensures i <= |rest|
    decreases |rest|
  {
    var piece := Piece(rest, cuts, fills);
    if piece == [] || seen + Cut(piece) > maxLen || Cut(piece) < |piece| then 0
    else |piece| + Crossing(rest[|piece|..], cuts, fills + 1, seen + |piece|, maxLen)
  }

  // ---------------------------------------------------------------- the reader

  class LineReader {
    const cuts: nat -> nat       // how many bytes the reader makes available each time
    const maxLen: nat
    const overflow: Overflow
    var rest: seq<Byte>          // what the reader has not delivered yet
    var fills: nat
    var lineNo: nat
    ghost var peak: nat          // the most bytes of one line ever buffered

    constructor (bytes: seq<Byte>, cuts: nat -> nat, maxLen: nat, overflow: Overflow)
      ensures rest == bytes && lineNo == 0 && peak == 0
      ensures this.cuts == cuts && this.maxLen == maxLen && this.overflow == overflow
    {
      this.cuts, this.maxLen, this.overflow := cuts, maxLen, overflow;
      rest, fills, lineNo, peak := bytes, 0, 0, 0;
    }

    /** `fill_buf`: some bytes, at least one unless the input is at its end. */
    method FillBuf() returns (available: seq<Byte>)
      modifies `fills
      ensures available == Piece(rest, cuts, old(fills)) && fills == old(fills) + 1
      ensures available <= rest && (available == [] ==> rest == [])
    {
      available := Piece(rest, cuts, fills);
      fills := fills + 1;
    }

    /** What is kept of a line of which `seen` has been read. */
    ghost predicate Kept(seen: seq<Byte>, line: seq<Byte>, overflowed: bool) {
      && (overflowed <==> |seen| > maxLen)
      && (!overflowed ==> line == seen)
      && (overflowed ==> line == if overflow == Truncate then seen[..maxLen] else [])
    }

    lemma KeptNothing()
      ensures Kept([], [], false)
    {}

    /** The next piece of the line joins the buffer, up to the limit. */
    method Buffer(line: seq<Byte>, overflowed: bool, piece: seq<Byte>, ghost seen: seq<Byte>)
        returns (line': seq<Byte>, overflowed': bool)
      requires Kept(seen, line, overflowed) && peak <= maxLen
      modifies `peak
      ensures Kept(seen + piece, line', overflowed') && peak <= maxLen && |line'| <= peak
      ensures overflowed' <==> |seen + piece| > maxLen
    {
      line', overflowed' := line, overflowed;
      if !overflowed {
        var room := maxLen - |line|;
        if |piece| <= room {
          line' := line + piece;
        } else {
          overflowed' := true;
          match overflow
          case Truncate =>
            assert (seen + piece)[..maxLen] == seen + piece[..room];
            line' := line + piece[..room];
          case _ => line' := [];
        }
      } else if overflow == Truncate {
        assert (seen + piece)[..maxLen] == seen[..maxLen];
      }
      if |line'| > peak { peak := |line'|; }
    }

    /**
      `read_one`: the next line, however the reader cuts the input. After a line that is too
      long under `Error`, reading goes on at the piece in which the limit was passed.
    */
    method ReadOne() returns (r: ReadLine)
      requires peak <= maxLen
      modifies this
      ensures r == First(old(rest), maxLen, overflow, old(lineNo) + 1)
      ensures !r.TooLong? ==> rest == After(old(rest))
      ensures r.TooLong? ==> rest == old(rest)[Crossing(old(rest), cuts, old(fills), 0, maxLen)..]
      ensures lineNo == if r == Eof then old(lineNo) else old(lineNo) + 1
      ensures peak <= maxLen
    {
      hide First, Cut, After, Raw, Strip, Piece, Crossing, At, Kept;
      var line: seq<Byte> := [];
      var sawBytes, overflowed, newline := false, false, false;
      ghost var bytes, seen, start := rest, [], fills;
      KeptNothing();
      AtStart(bytes, start, cuts, maxLen);
      while !newline
        invariant peak <= maxLen && lineNo == old(lineNo)
        invariant Kept(seen, line, overflowed) && (overflowed <==> |seen| > maxLen)
          && (overflowed ==> overflow != Error)
        invariant At(bytes, start, seen, rest, fills, newline, cuts, maxLen) && (sawBytes <==> newline || seen != [])
        decreases if newline then 0 else |rest| + 1
      {
        var available := FillBuf();
        if available == [] {
          AtEnd(bytes, start, seen, fills - 1, cuts, maxLen);
          if !sawBytes {
            FirstOf(bytes, maxLen, overflow, lineNo + 1);
            return Eof;
          }
          break;
        }
        sawBytes := true;
        var i := Cut(available);
        newline := i < |available|;
        AtNext(bytes, start, seen, rest, fills - 1, cuts, maxLen);
        line, overflowed := Buffer(line, overflowed, available[..i], seen);
        seen := seen + available[..i];
        if overflowed && overflow == Error {
          lineNo := lineNo + 1;
          FirstOf(bytes, maxLen, overflow, lineNo);
          return TooLong(lineNo);
        }
        rest := rest[if newline then i + 1 else i..];
      }
      if newline { AtNewline(bytes, start, seen, rest, fills, cuts, maxLen); }
      lineNo := lineNo + 1;
      r := Complete(line, overflowed, bytes);
    }

    /** The line is complete: drop it, or strip one carriage return unless it was cut short. */
    method Complete(line: seq<Byte>, overflowed: bool, ghost bytes: seq<Byte>) returns (r: ReadLine)
      requires Kept(Raw(bytes), line, overflowed) && (overflowed ==> overflow != Error) && bytes != []
      ensures r == First(bytes, maxLen, overflow, lineNo) && r != Eof && !r.TooLong?
    {
      hide Raw;
      if overflowed && overflow == Skip { return Skipped; }
      r := Line(if !overflowed && line != [] && line[|line| - 1] == RETURN then line[..|line| - 1] else line);
    }

    /** `next_line`: the next line that is not skipped, or the end (`Eof`), or the error. */
    method NextLine() returns (r: ReadLine)
      requires peak <= maxLen
      modifies this
      ensures r != Skipped && peak <= maxLen
      ensures Split(old(rest), maxLen, overflow, old(lineNo)) == match r
        case Eof => ([], None)
        case TooLong(n) => ([], Some(n))
        case Line(line) => Prepend([line], Split(rest, maxLen, overflow, lineNo))
      ensures r.Line? ==> |rest| < |old(rest)|
    {
      while true
        invariant peak <= maxLen && |rest| <= |old(rest)|
        invariant Split(rest, maxLen, overflow, lineNo) == Split(old(rest), maxLen, overflow, old(lineNo))
        decreases |rest|
      {
        r := ReadOne();
        if r != Skipped { return; }
      }
    }

    /** A source that is drained line by line delivers exactly the split lines. */
    method Drain() returns (lines: seq<seq<Byte>>, error: Option<nat>)
      requires peak <= maxLen
      modifies this
      ensures (lines, error) == Split(old(rest), maxLen, overflow, old(lineNo))
      ensures peak <= maxLen
    {
      hide Split, Prepend;
      ghost var all := Split(rest, maxLen, overflow, lineNo);
      lines, error := [], None;
      PrependBoth([], [], all);
      while true
        invariant peak <= maxLen
        invariant all == Prepend(lines, Split(rest, maxLen, overflow, lineNo))
        decreases |rest|
      {
        ghost var before := lines;
        var r := NextLine();
        match r {
          case Line(line) =>
            lines := lines + [line];
            PrependBoth(before, [line], Split(rest, maxLen, overflow, lineNo));
          case TooLong(n) =>
            PrependNothing(lines, Some(n));
            error := Some(n);
            return;
          case _ =>
            PrependNothing(lines, None);
            return;
        }
      }
    }
  }

  lemma PrependNothing(lines: seq<seq<Byte>>, error: Option<nat>)
    ensures Prepend(lines, ([], error)) == (lines, error)
  {
    assert lines + [] == lines;
  }

  /** Of `bytes`, read from turn `start` on, `seen` belongs to the first line and `rest` is left at turn `fills`. */
  ghost predicate At(bytes: seq<Byte>, start: nat, seen: seq<Byte>, rest: seq<Byte>, fills: nat, newline: bool,
                     cuts: nat -> nat, maxLen: nat) {
    && NEWLINE !in seen
    && if newline then seen == Raw(bytes) && rest == After(bytes) && bytes != []
       else bytes == seen + rest && (|seen| <= maxLen ==>
         Crossing(bytes, cuts, start, 0, maxLen) == |seen| + Crossing(rest, cuts, fills, |seen|, maxLen))
  }

  lemma AtStart(bytes: seq<Byte>, start: nat, cuts: nat -> nat, maxLen: nat)
    ensures At(bytes, start, [], bytes, start, false, cuts, maxLen)
  {
    assert bytes == [] + bytes;
  }

  lemma AtEnd(bytes: seq<Byte>, start: nat, seen: seq<Byte>, fills: nat, cuts: nat -> nat, maxLen: nat)
    requires At(bytes, start, seen, [], fills, false, cuts, maxLen)
    ensures bytes == seen && (bytes != [] ==> Raw(bytes) == bytes && After(bytes) == [])
  {
    assert seen + [] == seen;
    if bytes != [] { WholeRest(bytes); }
  }

  lemma AtNewline(
      bytes: seq<Byte>, start: nat, seen: seq<Byte>, rest: seq<Byte>, fills: nat, cuts: nat -> nat, maxLen: nat)
    requires At(bytes, start, seen, rest, fills, true, cuts, maxLen)
    ensures seen == Raw(bytes) && rest == After(bytes) && bytes != []
  {}

  lemma CrossingOn(rest: seq<Byte>, cuts: nat -> nat, fills: nat, seen: nat, maxLen: nat)
    requires rest != []
    ensures var piece := Piece(rest, cuts, fills);
      piece != [] && Crossing(rest, cuts, fills, seen, maxLen) ==
        if seen + Cut(piece) > maxLen || Cut(piece) < |piece| then 0
        else |piece| + Crossing(rest[|piece|..], cuts, fills + 1, seen + |piece|, maxLen)
  {}

  /** One more piece: the line goes on after it, ends in it, or passes the limit in it. */
  lemma AtNext(
      bytes: seq<Byte>, start: nat, seen: seq<Byte>, rest: seq<Byte>, fills: nat, cuts: nat -> nat, maxLen: nat)
    requires At(bytes, start, seen, rest, fills, false, cuts, maxLen) && rest != []
    ensures var piece := Piece(rest, cuts, fills);
      var i := Cut(piece);
      && i <= |piece| <= |rest| && bytes != []
      && At(bytes, start, seen + piece[..i], rest[if i < |piece| then i + 1 else i..], fills + 1, i < |piece|, cuts,
        maxLen)
      && (i < |piece| || i > 0)
      && (|seen| <= maxLen < |seen + piece[..i]| ==>
        rest == bytes[Crossing(bytes, cuts, start, 0, maxLen)..] && |Raw(bytes)| > maxLen)
  {
    hide Cut, Piece, Raw, After, Crossing;
    var piece := Piece(rest, cuts, fills);
    NextPiece(bytes, seen, rest, piece, Cut(piece));
    CrossingOn(rest, cuts, fills, |seen|, maxLen);
    assert rest == bytes[|seen|..];
  }

  // ---------------------------------------------------------------- facts about cutting

  lemma {:induction false} CutIs(bytes: seq<Byte>, i: nat)
    requires i <= |bytes| && NEWLINE !in bytes[..i] && (i < |bytes| ==> bytes[i] == NEWLINE)
    ensures Cut(bytes) == i
  {
    if i > 0 {
      assert bytes[0] == bytes[..i][0] && bytes[0] in bytes[..i];
      assert bytes[1..][..i - 1] == bytes[..i][1..];
      CutIs(bytes[1..], i - 1);
    }
  }

  /** Bytes without a newline all belong to the first line. */
  lemma {:induction false} NotBefore(bytes: seq<Byte>, before: seq<Byte>)
    requires before <= bytes && NEWLINE !in before
    ensures |before| <= Cut(bytes)
  {
    if before != [] {
      assert bytes[0] == before[0] && bytes[0] in before && before[1..] <= bytes[1..];
      NotBefore(bytes[1..], before[1..]);
    }
  }

  lemma WholeRest(bytes: seq<Byte>)
    requires NEWLINE !in bytes && bytes != []
    ensures Raw(bytes) == bytes && After(bytes) == []
  {
    assert bytes[..|bytes|] == bytes;
    CutIs(bytes, |bytes|);
  }

  /** The first newline is where it is found, whatever came in earlier pieces. */
  lemma NextPiece(bytes: seq<Byte>, seen: seq<Byte>, rest: seq<Byte>, available: seq<Byte>, i: nat)
    requires bytes == seen + rest && NEWLINE !in seen && available <= rest && i == Cut(available)
    ensures i <= |available| && NEWLINE !in available[..i] && NEWLINE !in seen + available[..i]
    ensures bytes == (seen + available[..i]) + rest[i..]
    ensures |seen + available[..i]| <= |Raw(bytes)|
    ensures i < |available| ==> Raw(bytes) == seen + available[..i] && After(bytes) == rest[i + 1..]
  {
    var before := seen + available[..i];
    assert bytes == before + rest[i..] && before <= bytes;
    NotBefore(bytes, before);
    if i < |available| {
      assert bytes[..|before|] == before;
      CutIs(bytes, |before|);
    }
  }

  /** The cases of `First`, on the first line's length. */
  lemma FirstOf(bytes: seq<Byte>, maxLen: nat, overflow: Overflow, number: nat)
    ensures bytes == [] ==> First(bytes, maxLen, overflow, number) == Eof && After(bytes) == []
    ensures bytes != [] && |Raw(bytes)| <= maxLen ==>
      First(bytes, maxLen, overflow, number) ==
        Line(if Raw(bytes) != [] && Raw(bytes)[|Raw(bytes)| - 1] == RETURN then Raw(bytes)[..|Raw(bytes)| - 1]
          else Raw(bytes))
    ensures |Raw(bytes)| > maxLen ==>
      First(bytes, maxLen, overflow, number) == match overflow
        case Error => TooLong(number)
        case Skip => Skipped
        case Truncate => Line(Raw(bytes)[..maxLen])
  {}

  // ---------------------------------------------------------------- round trip with the writer

  /** What `WriterSink` writes: every line, and a newline after it. */
  function Written(lines: seq<seq<Byte>>): seq<Byte> {
    if lines == [] then [] else lines[0] + [NEWLINE] + Written(lines[1..])
  }

  predicate Plain(line: seq<Byte>, maxLen: nat) {
    NEWLINE !in line && |line| <= maxLen && (line == [] || line[|line| - 1] != RETURN)
  }

  /** Whatever is read back holds no newline and fits the limit. */
  lemma {:induction false} ReadBackFits(bytes: seq<Byte>, maxLen: nat, overflow: Overflow, done: nat)
    ensures forall line :: line in Split(bytes, maxLen, overflow, done).0 ==> NEWLINE !in line && |line| <= maxLen
    decreases |bytes|
  {
    var r := First(bytes, maxLen, overflow, done + 1);
    if r.Line? {
      assert r.line <= Raw(bytes);
      assert forall b :: b in r.line ==> b in Raw(bytes);
      ReadBackFits(After(bytes), maxLen, overflow, done + 1);
    } else if r.Skipped? {
      ReadBackFits(After(bytes), maxLen, overflow, done + 1);
    }
  }

  lemma FirstWritten(lines: seq<seq<Byte>>)
    requires lines != [] && NEWLINE !in lines[0]
    ensures Raw(Written(lines)) == lines[0] && After(Written(lines)) == Written(lines[1..])
  {
    var bytes := Written(lines);
    assert bytes[..|lines[0]|] == lines[0];
    CutIs(bytes, |lines[0]|);
  }

  lemma PlainHead(lines: seq<seq<Byte>>, maxLen: nat, overflow: Overflow, done: nat)
    requires lines != [] && Plain(lines[0], maxLen)
    ensures Split(Written(lines), maxLen, overflow, done) == (lines, None)
      <==> Split(Written(lines[1..]), maxLen, overflow, done + 1) == (lines[1..], None)
  {
    var line, rest := lines[0], lines[1..];
    FirstWritten(lines);
    var tail := Split(Written(rest), maxLen, overflow, done + 1);
    assert Split(Written(lines), maxLen, overflow, done) == Prepend([line], tail);
    assert lines == [line] + rest && ([line] + tail.0)[1..] == tail.0;
  }

  lemma BadHead(lines: seq<seq<Byte>>, maxLen: nat, overflow: Overflow, done: nat)
    requires lines != [] && !Plain(lines[0], maxLen)
    ensures Split(Written(lines), maxLen, overflow, done).0 != lines
  {
    var line := lines[0];
    ReadBackFits(Written(lines), maxLen, overflow, done);
    if NEWLINE !in line && |line| <= maxLen {
      FirstWritten(lines);
      assert First(Written(lines), maxLen, overflow, done + 1) == Line(Strip(line));
      assert |Strip(line)| < |line|;
    } else {
      assert line in lines;
    }
  }

  /**
    Lines written with a newline each read back unchanged exactly if none of them holds a
    newline, ends in a carriage return, or is too long.
  */
  lemma {:induction false} RoundTrip(lines: seq<seq<Byte>>, maxLen: nat, overflow: Overflow, done: nat)
    ensures Split(Written(lines), maxLen, overflow, done) == (lines, None)
      <==> forall line :: line in lines ==> Plain(line, maxLen)
    decreases |lines|
  {
    if lines != [] {
      hide Split, Written, Plain;
      RoundTrip(lines[1..], maxLen, overflow, done + 1);
      assert lines == [lines[0]] + lines[1..];
      if Plain(lines[0], maxLen) {
        PlainHead(lines, maxLen, overflow, done);
      } else {
        BadHead(lines, maxLen, overflow, done);
      }
    }
  }
}
