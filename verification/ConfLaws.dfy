/** Laws of the configuration language: no input is lost, the first failing line is reported, and
    comments mean nothing. */
module ConfLaws {
  import opened ConfText

  // ---- The reader loses nothing -------------------------------------------------------------

  function Join(lines: seq<string>): string {
    if lines == [] then [] else lines[0] + Join(lines[1..])
  }

  lemma {:induction false} PieceShape(text: string, room: nat)
    ensures var n := PieceLen(text, room);
            && (forall k :: 0 <= k < n - 1 ==> text[k] != '\n')
            && (0 < n < room && n < |text| ==> text[n - 1] == '\n')
    decreases room
  {
    if text != [] && room > 0 && text[0] != '\n' {
      PieceShape(text[1..], room - 1);
    }
  }

  /** One line as a reader with a buffer of `num` bytes delivers it. */
  predicate FitsReader(l: string, num: nat, last: bool) {
    && 0 < |l| < num
    && (forall k :: 0 <= k < |l| - 1 ==> l[k] != '\n')
    && (l[|l| - 1] == '\n' || |l| == num - 1 || last)
  }

  /** For every buffer of at least two bytes, the lines of a text join to the text; each is
      non-empty, fits the buffer with its NUL, and has a newline at most as its last character,
      where it must have one unless the buffer was full or the text ended. */
  lemma {:induction false} PiecesAreLossless(text: string, num: nat)
    requires num >= 2
    ensures Join(Pieces(text, num)) == text
    ensures forall i :: 0 <= i < |Pieces(text, num)| ==>
              FitsReader(Pieces(text, num)[i], num, i == |Pieces(text, num)| - 1)
    decreases |text|
  {
    if text != [] {
      var n := PieceLen(text, num - 1);
      var head, tail := text[..n], Pieces(text[n..], num);
      PieceShape(text, num - 1);
      PiecesAreLossless(text[n..], num);
      assert Pieces(text, num) == [head] + tail && ([head] + tail)[1..] == tail;
      assert text == head + text[n..];
      assert n < |text| ==> tail != [];
      forall i | 0 <= i < |Pieces(text, num)|
        ensures FitsReader(Pieces(text, num)[i], num, i == |Pieces(text, num)| - 1)
      {
        if i > 0 {
          assert Pieces(text, num)[i] == tail[i - 1];
        }
      }
    }
  }

  // ---- The first failing line ---------------------------------------------------------------

  lemma {:induction false} LinesAppend(st: Parse, a: seq<string>, b: seq<string>, accept: Handler)
    ensures Lines(st, a + b, accept) == Lines(Lines(st, a, accept), b, accept)
    decreases |a|
  {
    if a == [] {
      assert a + b == b;
    } else {
      assert (a + b)[1..] == a[1..] + b;
      LinesAppend(Line(st, a[0], accept), a[1..], b, accept);
    }
  }

  lemma LinesSnoc(st: Parse, a: seq<string>, l: string, accept: Handler)
    ensures Lines(st, a + [l], accept) == Line(Lines(st, a, accept), l, accept)
  {
    LinesAppend(st, a, [l], accept);
    var m := Lines(st, a, accept);
    assert [l][1..] == [];
    assert Lines(Line(m, l, accept), [], accept) == Line(m, l, accept);
  }

  /** Whether a line is a problem where it stands: it has no delimiter, its bracket is not closed,
      or the handler refuses it. */
  predicate LineFails(st: Parse, raw: string, accept: Handler) {
    Line(st.(error := 0), raw, accept).error != 0
  }

  /** Line `i` of a text, parsed after the lines before it. */
  predicate FailsAt(lines: seq<string>, i: nat, accept: Handler)
    requires i < |lines|
  {
    LineFails(Lines(START, lines[..i], accept), lines[i], accept)
  }

  /** What a line does apart from errors does not depend on the errors before it, and an error is
      recorded only if it is the first. */
  lemma BodyCounts(st: Parse, start: string, indented: bool, accept: Handler)
    ensures var t, u := Body(st, start, indented, accept), Body(st.(error := 0), start, indented, accept);
            && t.lineno == u.lineno == st.lineno && (u.error == 0 || u.error == st.lineno)
            && t.error == if st.error != 0 then st.error else u.error
  {
  }

  lemma LineCounts(st: Parse, raw: string, accept: Handler)
    ensures Line(st, raw, accept).lineno == st.lineno + 1
    ensures Line(st, raw, accept).error ==
              if st.error != 0 then st.error else if LineFails(st, raw, accept) then st.lineno + 1 else 0
  {
    var next := st.(lineno := st.lineno + 1);
    var skip := if next.lineno == 1 && StartsWithBom(raw) then 3 else 0;
    var stripped := RStrip(raw[skip..]);
    var start := LSkip(stripped);
    BodyCounts(next, start, skip > 0 || |start| < |stripped|, accept);
  }

  /** The answer of the parser: 0 if and only if no line fails, otherwise the least number of a
      failing line, counted from 1, with the parse going on after it. */
  lemma {:induction false} FirstErrorIsReported(lines: seq<string>, accept: Handler)
    ensures var st := Lines(START, lines, accept);
            && st.lineno == |lines|
            && (st.error == 0 <==> forall i :: 0 <= i < |lines| ==> !FailsAt(lines, i, accept))
            && (st.error != 0 ==> && st.error <= |lines| && FailsAt(lines, st.error - 1, accept)
                                  && forall i :: 0 <= i < st.error - 1 ==> !FailsAt(lines, i, accept))
    decreases |lines|
  {
    if lines != [] {
      var init, l := lines[..|lines| - 1], lines[|lines| - 1];
      assert lines == init + [l];
      FirstErrorIsReported(init, accept);
      LinesSnoc(START, init, l, accept);
      LineCounts(Lines(START, init, accept), l, accept);
      forall i | 0 <= i < |init| ensures FailsAt(init, i, accept) == FailsAt(lines, i, accept) {
        assert init[..i] == lines[..i];
      }
      assert lines[..|init|] == init;
      assert FailsAt(lines, |init|, accept) == LineFails(Lines(START, init, accept), l, accept);
    }
  }

  // ---- Comments -----------------------------------------------------------------------------

  lemma {:induction false} PieceOfAppend(a: string, b: string, room: nat)
    requires a != [] && a[|a| - 1] == '\n'
    ensures PieceLen(a + b, room) == PieceLen(a, room)
    decreases room
  {
    if room > 0 && a[0] != '\n' {
      assert (a + b)[1..] == a[1..] + b;
      PieceOfAppend(a[1..], b, room - 1);
    }
  }

  lemma CutAppend(a: string, b: string, n: nat)
    requires n <= |a|
    ensures (a + b)[..n] == a[..n] && (a + b)[n..] == a[n..] + b
  {
  }

  lemma PiecesStep(text: string, num: nat, n: nat)
    requires num >= 2 && text != [] && n == PieceLen(text, num - 1)
    ensures Pieces(text, num) == [text[..n]] + Pieces(text[n..], num)
  {
  }

  /** A text that ends with a newline is cut the same way whatever follows. */
  lemma {:induction false} PiecesAppend(a: string, b: string, num: nat)
    requires num >= 2 && (a == [] || a[|a| - 1] == '\n')
    ensures Pieces(a + b, num) == Pieces(a, num) + Pieces(b, num)
    decreases |a|
  {
    if a == [] {
      assert a + b == b;
    } else {
      var n := PieceLen(a, num - 1);
      var head, tail := a[..n], a[n..];
      PieceOfAppend(a, b, num - 1);
      CutAppend(a, b, n);
      PiecesStep(a, num, n);
      PiecesStep(a + b, num, n);
      assert tail == [] || tail[|tail| - 1] == '\n';
      PiecesAppend(tail, b, num);
      ConsAppend(head, Pieces(tail, num), Pieces(b, num));
    }
  }

  lemma ConsAppend(l: string, a: seq<string>, b: seq<string>)
    ensures ([l] + a) + b == [l] + (a + b)
  {
  }

  lemma {:induction false} PieceOfLine(l: string, room: nat)
    requires 0 < |l| <= room && l[|l| - 1] == '\n' && (forall k :: 0 <= k < |l| - 1 ==> l[k] != '\n')
    ensures PieceLen(l, room) == |l|
    decreases room
  {
    if l[0] != '\n' {
      PieceOfLine(l[1..], room - 1);
    }
  }

  /** One whole line that fits the buffer. */
  predicate IsLine(l: string) {
    0 < |l| < MAX_LINE && l[|l| - 1] == '\n' && (forall k :: 0 <= k < |l| - 1 ==> l[k] != '\n')
  }

  lemma PiecesOfLine(l: string)
    requires IsLine(l)
    ensures Pieces(l, MAX_LINE) == [l]
  {
    PieceOfLine(l, MAX_LINE - 1);
    assert l[..|l|] == l && l[|l|..] == [];
  }

  /** A blank line, or a comment after any white space. */
  predicate IsCommentLine(l: string) {
    IsLine(l) && !StartsWithBom(l) && IsComment(LSkip(RStrip(l)))
  }

  /** The number of the first failing line when a harmless line is inserted after line `n`. */
  function Shifted(error: nat, n: nat): nat {
    if error <= n then error else error + 1
  }

  lemma LineShifts(st: Parse, raw: string, n: nat, accept: Handler)
    requires n <= st.lineno && (st.lineno == 0 ==> !StartsWithBom(raw))
    ensures var u := st.(lineno := st.lineno + 1, error := Shifted(st.error, n));
            var t := Line(st, raw, accept);
            Line(u, raw, accept) == t.(lineno := t.lineno + 1, error := Shifted(t.error, n))
  {
    assert raw[0..] == raw;
  }

  lemma {:induction false} LinesShift(st: Parse, lines: seq<string>, n: nat, accept: Handler)
    requires n <= st.lineno && (st.lineno == 0 && lines != [] ==> !StartsWithBom(lines[0]))
    ensures var u := st.(lineno := st.lineno + 1, error := Shifted(st.error, n));
            var t := Lines(st, lines, accept);
            Lines(u, lines, accept) == t.(lineno := t.lineno + 1, error := Shifted(t.error, n))
    decreases |lines|
  {
    if lines != [] {
      LineShifts(st, lines[0], n, accept);
      LinesShift(Line(st, lines[0], accept), lines[1..], n, accept);
    }
  }

  lemma CommentLineCounts(st: Parse, comment: string, accept: Handler)
    requires IsCommentLine(comment)
    ensures Line(st, comment, accept) == st.(lineno := st.lineno + 1)
  {
    assert comment[0..] == comment;
  }

  lemma LinesCons(st: Parse, l: string, rest: seq<string>, accept: Handler)
    ensures Lines(st, [l] + rest, accept) == Lines(Line(st, l, accept), rest, accept)
  {
    assert ([l] + rest)[1..] == rest;
  }

  /** The same at the level of lines. */
  lemma InsertedCommentCounts(before: seq<string>, comment: string, after: seq<string>, accept: Handler)
    requires IsCommentLine(comment) && (before == [] && after != [] ==> !StartsWithBom(after[0]))
    ensures var t := Lines(START, before + after, accept);
            Lines(START, before + ([comment] + after), accept)
              == t.(lineno := t.lineno + 1, error := Shifted(t.error, |before|))
  {
    var m := Lines(START, before, accept);
    LinesAppend(START, before, after, accept);
    LinesAppend(START, before, [comment] + after, accept);
    LinesCons(m, comment, after, accept);
    CommentLineCounts(m, comment, accept);
    FirstErrorIsReported(before, accept);
    LinesShift(m, after, |before|, accept);
  }

  lemma InsertedPieces(before: string, l: string, after: string)
    requires (before == [] || before[|before| - 1] == '\n') && IsLine(l)
    ensures Pieces(before + l + after, MAX_LINE)
         == Pieces(before, MAX_LINE) + ([l] + Pieces(after, MAX_LINE))
  {
    assert before + l + after == before + (l + after);
    PiecesAppend(before, l + after, MAX_LINE);
    PiecesAppend(l, after, MAX_LINE);
    PiecesOfLine(l);
  }

  /** Comment insensitivity: a blank line or a comment line, indented or not, inserted at any line
      boundary of any text except ahead of a byte order mark, leaves the whole sequence of handler
      calls unchanged, continuation lines included, and only counts in the line number of a later
      error. */
  lemma CommentsMeanNothing(before: string, comment: string, after: string, accept: Handler)
    requires before == [] || before[|before| - 1] == '\n'
    requires IsCommentLine(comment)
    requires before == [] ==> !StartsWithBom(after)
    ensures var st, u := ParseText(before + after, accept), ParseText(before + comment + after, accept);
            && u.calls == st.calls && u.section == st.section && u.prevName == st.prevName
            && u.error == Shifted(st.error, |Pieces(before, MAX_LINE)|)
  {
    PiecesAppend(before, after, MAX_LINE);
    InsertedPieces(before, comment, after);
    if before == [] && after != [] {
      FirstPieceHasNoBom(after);
    }
    InsertedCommentCounts(Pieces(before, MAX_LINE), comment, Pieces(after, MAX_LINE), accept);
  }

  lemma PrefixWithBom(text: string, n: nat)
    requires n <= |text| && StartsWithBom(text[..n])
    ensures StartsWithBom(text)
  {
    assert text[..3] == text[..n][..3];
  }

  lemma FirstPieceHasNoBom(text: string)
    requires text != [] && !StartsWithBom(text)
    ensures !StartsWithBom(Pieces(text, MAX_LINE)[0])
  {
    var n := PieceLen(text, MAX_LINE - 1);
    assert Pieces(text, MAX_LINE)[0] == text[..n];
    if StartsWithBom(text[..n]) {
      PrefixWithBom(text, n);
    }
  }

  /** Whether a line is blank or a comment is decided by its first character that is not white
      space. */
  predicate CommentLike(s: string) {
    s == [] || if IsSpace(s[0]) then CommentLike(s[1..]) else s[0] == ';' || s[0] == '#'
  }

  /** Stripping the end does not touch what comes before the last character that is not space. */
  lemma {:induction false} RStripCons(c: char, s: string)
    ensures RStrip([c] + s) == if RStrip(s) == [] then RStrip([c]) else [c] + RStrip(s)
    decreases |s|
  {
    if s == [] {
      assert [c] + s == [c];
    } else {
      assert ([c] + s)[..|s|] == [c] + s[..|s| - 1];
      RStripCons(c, s[..|s| - 1]);
    }
  }

  lemma {:induction false} CommentLikeIsComment(s: string)
    ensures IsComment(LSkip(RStrip(s))) <==> CommentLike(s)
    decreases |s|
  {
    if s != [] {
      assert s == [s[0]] + s[1..];
      RStripCons(s[0], s[1..]);
      CommentLikeIsComment(s[1..]);
      var r := RStrip(s[1..]);
      if r != [] {
        assert ([s[0]] + r)[1..] == r;
      } else if IsSpace(s[0]) {
        assert [s[0]][..0] == [];
      }
    }
  }

  lemma {:induction false} CommentLikePrefix(s: string, n: nat)
    requires CommentLike(s) && n <= |s|
    ensures CommentLike(s[..n])
    decreases n
  {
    if n > 0 && IsSpace(s[0]) {
      assert s[..n][1..] == s[1..][..n - 1];
      CommentLikePrefix(s[1..], n - 1);
    }
  }

  lemma {:induction false} PieceIsFull(text: string, room: nat)
    requires room <= |text| && forall k :: 0 <= k < room ==> text[k] != '\n'
    ensures PieceLen(text, room) == room
    decreases room
  {
    if room > 0 {
      PieceIsFull(text[1..], room - 1);
    }
  }

  /** A comment line that does not fit the buffer is cut there: at any line boundary its first 199
      characters count as a comment line, and the rest of it is parsed as a line of its own, with
      whatever follows. */
  lemma LongCommentIsNotOne(before: string, comment: string, after: string, accept: Handler)
    requires before == [] || before[|before| - 1] == '\n'
    requires |comment| >= MAX_LINE && CommentLike(comment)
    requires forall k :: 0 <= k < MAX_LINE - 1 ==> comment[k] != '\n'
    requires before == [] ==> !StartsWithBom(comment)
    ensures var st := ParseText(before, accept);
            ParseText(before + comment + after, accept)
              == Lines(st.(lineno := st.lineno + 1), Pieces(comment[MAX_LINE - 1..] + after, MAX_LINE), accept)
  {
    var head, lines := comment[..MAX_LINE - 1], Pieces(comment[MAX_LINE - 1..] + after, MAX_LINE);
    LongPiece(before, comment, after, MAX_LINE);
    CutCommentCounts(before, comment, MAX_LINE - 1, accept);
    LineInBetween(Pieces(before, MAX_LINE), head, lines, accept);
  }

  lemma LineInBetween(before: seq<string>, l: string, after: seq<string>, accept: Handler)
    ensures Lines(START, before + ([l] + after), accept) == Lines(Line(Lines(START, before, accept), l, accept), after, accept)
  {
    LinesAppend(START, before, [l] + after, accept);
    LinesCons(Lines(START, before, accept), l, after, accept);
  }

  lemma CutCommentCounts(before: string, comment: string, n: nat, accept: Handler)
    requires n <= |comment| && CommentLike(comment) && (before == [] ==> !StartsWithBom(comment))
    ensures var st := ParseText(before, accept);
            Line(st, comment[..n], accept) == st.(lineno := st.lineno + 1)
  {
    CommentLikePrefix(comment, n);
    FirstLineNumber(before, accept);
    HeadHasNoBom(comment, n);
    CommentPieceCounts(ParseText(before, accept), comment[..n], accept);
  }

  lemma LongPiece(before: string, l: string, after: string, num: nat)
    requires num >= 2 && (before == [] || before[|before| - 1] == '\n')
    requires |l| >= num - 1 && forall k :: 0 <= k < num - 1 ==> l[k] != '\n'
    ensures Pieces(before + l + after, num)
         == Pieces(before, num) + ([l[..num - 1]] + Pieces(l[num - 1..] + after, num))
  {
    assert before + l + after == before + (l + after);
    PiecesAppend(before, l + after, num);
    CutPiece(l, after, num);
  }

  lemma CutPiece(l: string, after: string, num: nat)
    requires num >= 2 && |l| >= num - 1 && forall k :: 0 <= k < num - 1 ==> l[k] != '\n'
    ensures Pieces(l + after, num) == [l[..num - 1]] + Pieces(l[num - 1..] + after, num)
  {
    var text := l + after;
    assert forall k :: 0 <= k < num - 1 ==> text[k] == l[k];
    PieceIsFull(text, num - 1);
    CutAppend(l, after, num - 1);
    PiecesStep(text, num, num - 1);
  }

  lemma FirstLineNumber(before: string, accept: Handler)
    ensures ParseText(before, accept).lineno == 0 <==> before == []
  {
    FirstErrorIsReported(Pieces(before, MAX_LINE), accept);
    if before != [] {
      PiecesStep(before, MAX_LINE, PieceLen(before, MAX_LINE - 1));
    }
  }

  lemma HeadHasNoBom(text: string, n: nat)
    requires n <= |text|
    ensures StartsWithBom(text[..n]) ==> StartsWithBom(text)
  {
    if StartsWithBom(text[..n]) {
      PrefixWithBom(text, n);
    }
  }

  lemma CommentPieceCounts(st: Parse, l: string, accept: Handler)
    requires CommentLike(l) && (st.lineno == 0 ==> !StartsWithBom(l))
    ensures Line(st, l, accept) == st.(lineno := st.lineno + 1)
  {
    CommentLikeIsComment(l);
    assert l[0..] == l;
  }
}
