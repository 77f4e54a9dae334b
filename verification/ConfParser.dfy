/** The parser itself: it reads each line into one buffer, cuts it up in place by writing NULs, and
    hands the handler pointers into the buffer. Indices stand for the pointers. */
module ConfParser {
  import opened ConfText

  /** The bytes from `i` to `j` are a C string. */
  predicate IsStr(b: seq<char>, i: nat, j: nat) {
    i <= j < |b| && b[j] == NUL && forall k :: i <= k < j ==> b[k] != NUL
  }

  /** A C string has one end. */
  method StrLen(a: array<char>, s: nat, ghost e: nat) returns (n: nat)
    requires IsStr(a[..], s, e)
    ensures s + n == e
  {
    n := 0;
    while a[s + n] != NUL
      invariant s + n <= e
      decreases e - n
    {
      assert a[s + n] in a[s..e] || s + n == e;
      n := n + 1;
    }
  }

  lemma {:induction false} RStripOf(s: string, n: nat)
    requires n <= |s| && (forall k :: n <= k < |s| ==> IsSpace(s[k])) && (n > 0 ==> !IsSpace(s[n - 1]))
    ensures RStrip(s) == s[..n]
  {
    if |s| == n {
      assert s[..n] == s;
    } else {
      RStripOf(s[..|s| - 1], n);
      assert s[..|s| - 1][..n] == s[..n];
    }
  }

  lemma {:induction false} LSkipOf(s: string, n: nat)
    requires n <= |s| && (forall k :: 0 <= k < n ==> IsSpace(s[k])) && (n < |s| ==> !IsSpace(s[n]))
    ensures LSkip(s) == s[n..]
  {
    if n > 0 {
      LSkipOf(s[1..], n - 1);
      assert s[1..][n - 1..] == s[n..];
    }
  }

  /** Strips white space off the end of the string at `s` by writing NULs over it. */
  method RStripAt(a: array<char>, s: nat, ghost e: nat) returns (ghost e': nat)
    requires IsStr(a[..], s, e)
    modifies a
    ensures s <= e' <= e && IsStr(a[..], s, e')
    ensures a[s..e'] == RStrip(old(a[s..e])) == old(a[s..e'])
    ensures forall k :: 0 <= k < a.Length && (k < s || e <= k) ==> a[k] == old(a[k])
  {
    var n := StrLen(a, s, e);
    var p := s + n;
    while p > s && IsSpace(a[p - 1])
      invariant s <= p <= e && a[p] == NUL
      invariant forall k :: 0 <= k < a.Length && (k < p || e <= k) ==> a[k] == old(a[k])
      invariant forall k :: p <= k < e ==> IsSpace(old(a[k]))
    {
      p := p - 1;
      a[p] := NUL;
    }
    e' := p;
    ghost var was := old(a[s..e]);
    assert forall k :: 0 <= k < |was| ==> was[k] == old(a[s + k]);
    RStripOf(was, p - s);
    assert a[s..p] == was[..p - s] == old(a[s..p]);
  }

  /** The first character at or after `s` that is not white space. */
  method LSkipAt(a: array<char>, s: nat, ghost e: nat) returns (p: nat)
    requires IsStr(a[..], s, e)
    ensures s <= p <= e && IsStr(a[..], p, e) && a[p..e] == LSkip(a[s..e])
  {
    p := s;
    while a[p] != NUL && IsSpace(a[p])
      invariant s <= p <= e
      invariant forall k :: s <= k < p ==> IsSpace(a[k])
      decreases e - p
    {
      assert a[p] in a[s..e] || p == e;
      p := p + 1;
    }
    assert p < e ==> a[p] in a[s..e];
    ghost var str := a[s..e];
    LSkipOf(str, p - s);
    assert a[p..e] == str[p - s..];
  }

  /** The first of `chars`, or an inline comment, or the end of the string. */
  method FindCharsOrComment(a: array<char>, s: nat, chars: string, ghost e: nat) returns (p: nat)
    requires IsStr(a[..], s, e)
    ensures s <= p <= e && p == s + FindFrom(a[s..e], chars, false)
  {
    var wasSpace := false;
    p := s;
    while a[p] != NUL && a[p] !in chars && !(wasSpace && a[p] == ';')
      invariant s <= p <= e
      invariant FindFrom(a[s..e], chars, false) == p - s + FindFrom(a[p..e], chars, wasSpace)
      decreases e - p
    {
      assert p < e;
      assert a[p..e][1..] == a[p + 1..e];
      wasSpace := IsSpace(a[p]);
      p := p + 1;
    }
    assert p < e ==> a[p] in a[s..e];
  }

  /** A buffer that holds the first `n` characters of a text and a NUL. */
  lemma IsStrOf(b: seq<char>, text: string, n: nat)
    requires n <= |text| && n < |b| && b[n] == NUL && NUL !in text
    requires forall k :: 0 <= k < n ==> b[k] == text[k]
    ensures IsStr(b, 0, n) && b[..n] == text[..n]
  {
  }

  /** Copies a string into a buffer, cut to fit. */
  method StrNCpy0(dest: array<char>, src: array<char>, s: nat, ghost e: nat)
    requires IsStr(src[..], s, e) && dest != src && dest.Length > 0
    modifies dest
    ensures var r := Fit(src[s..e], dest.Length);
            IsStr(dest[..], 0, |r|) && dest[..|r|] == r
  {
    ghost var str := src[s..e];
    var i := 0;
    while i < dest.Length - 1 && src[s + i] != NUL
      invariant 0 <= i <= dest.Length - 1 && i <= |str|
      invariant forall k :: 0 <= k < i ==> dest[k] == str[k]
      invariant src[..] == old(src[..])
    {
      assert src[s + i] == str[i];
      dest[i] := src[s + i];
      i := i + 1;
    }
    assert i < |str| ==> src[s + i] == str[i];
    dest[i] := NUL;
    assert NUL !in str;
    IsStrOf(dest[..], str, i);
    assert str[..i] == Fit(str, dest.Length);
  }

  /** The reader over a string: `pos` characters are consumed. */
  class StringReader {
    const text: string
    var pos: nat

    ghost predicate Valid() reads this {
      pos <= |text| && NUL !in text
    }

    ghost function Left(): string
      requires Valid()
      reads this
    {
      text[pos..]
    }

    constructor (text: string)
      requires NUL !in text
      ensures Valid() && Left() == text && this.text == text && fresh(this)
    {
      this.text, pos := text, 0;
    }

    /** Delivers the next line, its newline included, or as much of it as fits; false at the end.
        Whatever it delivers it has consumed, and a delivery is never empty. */
    method Read(str: array<char>, num: nat) returns (ok: bool)
      requires Valid() && num <= str.Length
      modifies this, str
      ensures Valid() && ok == (old(Left()) != [] && num >= 2)
      ensures !ok ==> pos == old(pos) && str[..] == old(str[..])
      ensures ok ==> var n := PieceLen(old(Left()), num - 1);
                && n > 0 && pos == old(pos) + n
                && str[..n] == old(Left())[..n] && IsStr(str[..], 0, n)
    {
      if |text| - pos == 0 || num < 2 {
        return false;
      }
      ghost var left := Left();
      var room := num;
      var i := 0;
      var c := ' ';
      while room > 1 && pos < |text|
        invariant pos == old(pos) + i && 0 <= i <= |left| && room == num - i && room >= 1
        invariant pos <= |text| && left[i..] == text[pos..]
        invariant forall k :: 0 <= k < i ==> str[k] == left[k]
        invariant PieceLen(left, num - 1) == i + PieceLen(left[i..], room - 1)
        decreases room
      {
        c := text[pos];
        assert left[i] == c && left[i..][1..] == left[i + 1..];
        pos := pos + 1;
        str[i] := c;
        i := i + 1;
        if c == '\n' {
          break;
        }
        room := room - 1;
      }
      str[i] := NUL;
      IsStrOf(str[..], left, i);
      return true;
    }
  }

  /** Reads one line through a buffer. */
  method ReadLine(input: StringReader, str: array<char>) returns (ok: bool, line: string)
    requires input.Valid() && str.Length >= 2
    modifies input, str
    ensures input.Valid() && ok == (old(input.Left()) != [])
    ensures ok ==> var left := old(input.Left()); var n := PieceLen(left, str.Length - 1);
              n > 0 && line == left[..n] && input.Left() == left[n..]
  {
    ghost var left := input.Left();
    line := "";
    ok := input.Read(str, str.Length);
    if ok {
      ghost var n := PieceLen(left, str.Length - 1);
      assert left[n..] == input.Left();
      var k := StrLen(str, 0, n);
      line := str[..k];
    }
  }

  /** Reads a text to its end, with a buffer of any size the reader accepts. */
  method ReadLines(text: string, num: nat) returns (lines: seq<string>)
    requires NUL !in text && num >= 2
    ensures lines == Pieces(text, num)
  {
    var input := new StringReader(text);
    var str := new char[num](_ => NUL);
    lines := [];
    while true
      invariant input.Valid() && fresh(input) && fresh(str) && str.Length == num
      invariant lines + Pieces(input.Left(), num) == Pieces(text, num)
      decreases |input.Left()|
    {
      ghost var left := input.Left();
      var ok, line := ReadLine(input, str);
      if !ok {
        break;
      }
      OneMoreLine(lines, left, num);
      lines := lines + [line];
    }
  }

  lemma OneMoreLine(lines: seq<string>, left: string, num: nat)
    requires left != [] && num >= 2
    ensures var n := PieceLen(left, num - 1);
            lines + Pieces(left, num) == (lines + [left[..n]]) + Pieces(left[n..], num)
  {
  }

  /** The state of one parse: the line buffer, the copied section and name, and the counters. */
  class IniParser {
    const line: array<char>
    const section: array<char>
    const prevName: array<char>
    const accept: Handler
    var lineno: nat
    var error: nat
    var calls: seq<Call>
    ghost var sec: string
    ghost var prev: string

    ghost predicate Valid() reads this, section, prevName {
      && line.Length == MAX_LINE && section.Length == MAX_SECTION && prevName.Length == MAX_NAME
      && line != section && line != prevName && section != prevName
      && IsStr(section[..], 0, |sec|) && section[..|sec|] == sec
      && IsStr(prevName[..], 0, |prev|) && prevName[..|prev|] == prev
    }

    ghost function State(): Parse reads this {
      Parse(sec, prev, lineno, error, calls)
    }

    constructor (accept: Handler)
      ensures Valid() && State() == START && this.accept == accept
      ensures fresh(line) && fresh(section) && fresh(prevName)
    {
      this.accept := accept;
      line := new char[MAX_LINE](_ => NUL);
      section := new char[MAX_SECTION](_ => NUL);
      prevName := new char[MAX_NAME](_ => NUL);
      lineno, error, calls := 0, 0, [];
      sec, prev := "", "";
    }

    /** A problem on this line; only the first one is kept. */
    method Fails()
      requires Valid()
      modifies this
      ensures Valid() && State() == Fail(old(State()))
    {
      if error == 0 {
        error := lineno;
      }
    }

    /** Calls the handler with three strings out of the buffers. */
    method Handle(a: array<char>, name: nat, value: nat, ghost e: nat, ghost f: nat)
      requires Valid() && IsStr(a[..], name, e) && IsStr(line[..], value, f)
      modifies this
      ensures Valid() && State() == Tell(old(State()), a[name..e], line[value..f], accept)
    {
      var k := StrLen(section, 0, |sec|);
      var n := StrLen(a, name, e);
      var v := StrLen(line, value, f);
      var c := Call(section[..k], a[name..name + n], line[value..value + v]);
      var ok := accept(calls, c);
      calls := calls + [c];
      if !ok && error == 0 {
        error := lineno;
      }
    }

    /** Copies the section name out of the line and forgets the last name. */
    method EnterSection(start: nat, ghost e: nat)
      requires Valid() && IsStr(line[..], start, e)
      modifies this`sec, this`prev, section, prevName
      ensures Valid() && sec == Fit(line[start..e], MAX_SECTION) && prev == ""
    {
      StrNCpy0(section, line, start, e);
      sec := Fit(line[start..e], MAX_SECTION);
      prevName[0] := NUL;
      prev := "";
      assert IsStr(prevName[..], 0, 0);
    }

    /** A line that starts with a bracket. */
    method SectionAt(start: nat, ghost e: nat)
      requires Valid() && IsStr(line[..], start, e) && start < e && line[start] == '['
      modifies this, line, section, prevName
      ensures Valid() && State() == SectionLine(old(State()), old(line[start..e]))
    {
      ghost var str := line[start..e];
      assert line[start + 1..e] == str[1..];
      var end := FindCharsOrComment(line, start + 1, "]", e);
      assert end < e ==> line[end] == str[end - start];
      if line[end] == ']' {
        ghost var name := str[1..end - start];
        assert line[start + 1..end] == name;
        line[end] := NUL;
        assert line[start + 1..end] == name;
        EnterSection(start + 1, end);
      } else {
        Fails();
      }
    }

    /** Copies the name out of the line. */
    method RememberName(start: nat, ghost e: nat)
      requires Valid() && IsStr(line[..], start, e)
      modifies this`prev, prevName
      ensures Valid() && prev == Fit(line[start..e], MAX_NAME)
    {
      StrNCpy0(prevName, line, start, e);
      prev := Fit(line[start..e], MAX_NAME);
    }

    /** A line with a delimiter at `end`. */
    method PairFound(start: nat, end: nat, ghost e: nat)
      requires Valid() && IsStr(line[..], start, e) && start <= end < e
      modifies this, line, prevName
      ensures var str := old(line[start..e]);
              var name := RStrip(str[..end - start]);
              && Valid()
              && State() == Tell(old(State()).(prevName := Fit(name, MAX_NAME)), name,
                                 ValueOf(str[end - start + 1..]), accept)
    {
      var value, nameEnd, valueEnd := SplitPair(start, end, e);
      RememberName(start, nameEnd);
      Handle(line, start, value, nameEnd, valueEnd);
    }

    /** A line that must be a name and a value. */
    method PairAt(start: nat, ghost e: nat)
      requires Valid() && IsStr(line[..], start, e)
      modifies this, line, prevName
      ensures Valid() && State() == PairLine(old(State()), old(line[start..e]), accept)
    {
      ghost var str := line[start..e];
      var end := FindCharsOrComment(line, start, "=:", e);
      assert end < e ==> line[end] == str[end - start];
      if line[end] == '=' || line[end] == ':' {
        PairFound(start, end, e);
      } else {
        Fails();
      }
    }

    /** Cuts the line at its delimiter into the name and the value. */
    method SplitPair(start: nat, end: nat, ghost e: nat)
      returns (value: nat, ghost nameEnd: nat, ghost valueEnd: nat)
      requires Valid() && IsStr(line[..], start, e) && start <= end < e
      modifies line
      ensures Valid()
      ensures IsStr(line[..], start, nameEnd) && IsStr(line[..], value, valueEnd)
      ensures line[start..nameEnd] == RStrip(old(line[start..e])[..end - start])
      ensures line[value..valueEnd] == ValueOf(old(line[start..e])[end - start + 1..])
    {
      nameEnd := CutName(start, end, e);
      ghost var name := line[start..nameEnd];
      assert nameEnd <= end && line[nameEnd] == NUL;
      value, valueEnd := ValueAt(end + 1, e);
      assert line[start..nameEnd] == name;
    }

    /** Ends the name at the delimiter and strips it; the rest of the line stays. */
    method CutName(start: nat, end: nat, ghost e: nat) returns (ghost nameEnd: nat)
      requires Valid() && IsStr(line[..], start, e) && start <= end < e
      modifies line
      ensures Valid() && start <= nameEnd <= end && IsStr(line[..], start, nameEnd)
      ensures line[start..nameEnd] == RStrip(old(line[start..e])[..end - start])
      ensures IsStr(line[..], end + 1, e) && line[end + 1..e] == old(line[start..e])[end - start + 1..]
    {
      ghost var name, rest := line[start..e][..end - start], line[start..e][end - start + 1..];
      assert line[start..end] == name && line[end + 1..e] == rest;
      line[end] := NUL;
      assert line[start..end] == name && line[end + 1..e] == rest;
      nameEnd := RStripAt(line, start, end);
      assert line[end + 1..e] == rest;
    }

    /** Ends the value at an inline comment and strips it at both ends. */
    method ValueAt(rest: nat, ghost e: nat) returns (value: nat, ghost f: nat)
      requires Valid() && IsStr(line[..], rest, e)
      modifies line
      ensures Valid() && IsStr(line[..], value, f) && line[value..f] == ValueOf(old(line[rest..e]))
      ensures forall k :: 0 <= k < rest ==> line[k] == old(line[k])
    {
      ghost var str := line[rest..e];
      var end := FindCharsOrComment(line, rest, "", e);
      if line[end] != NUL {
        line[end] := NUL;
      }
      assert line[rest..end] == str[..end - rest];
      value := LSkipAt(line, rest, end);
      f := RStripAt(line, value, end);
    }

    /** What a stripped line is: nothing, a continuation, a section or a pair. */
    method BodyAt(start: nat, ghost e: nat)
      requires Valid() && IsStr(line[..], start, e)
      modifies this, line, section, prevName
      ensures Valid() && State() == Body(old(State()), old(line[start..e]), start > 0, accept)
    {
      ghost var str := line[start..e];
      assert start < e ==> str[0] == line[start];
      if line[start] == NUL || line[start] == ';' || line[start] == '#' {
        // a blank line or a comment
      } else if prevName[0] != NUL && start > 0 {
        Handle(prevName, 0, start, |prev|, e);
        assert prevName[0..|prev|] == prev;
      } else if line[start] == '[' {
        SectionAt(start, e);
      } else {
        PairAt(start, e);
      }
    }

    /** Skips a byte order mark on the first line, and white space at both ends. */
    method Strip(ghost e: nat) returns (start: nat, ghost f: nat)
      requires Valid() && IsStr(line[..], 0, e)
      modifies line
      ensures Valid() && IsStr(line[..], start, f)
      ensures var raw := old(line[..e]);
              var skip := if lineno == 1 && StartsWithBom(raw) then 3 else 0;
              var stripped := RStrip(raw[skip..]);
              && line[start..f] == LSkip(stripped)
              && (start > 0 <==> skip > 0 || |LSkip(stripped)| < |stripped|)
    {
      ghost var raw := line[..e];
      start := 0;
      if lineno == 1 && line[0] == BOM[0] && line[1] == BOM[1] && line[2] == BOM[2] {
        start := 3;
      }
      assert start == if lineno == 1 && StartsWithBom(raw) then 3 else 0;
      assert line[start..e] == raw[start..];
      f := RStripAt(line, start, e);
      start := LSkipAt(line, start, f);
    }

    /** One line of input. */
    method ParseLine(ghost e: nat)
      requires Valid() && IsStr(line[..], 0, e)
      modifies this, line, section, prevName
      ensures Valid() && State() == Line(old(State()), old(line[..e]), accept)
    {
      lineno := lineno + 1;
      var start, f := Strip(e);
      BodyAt(start, f);
    }

    /** Reads one line into the buffer and parses it; false at the end of the input. */
    method ParseNext(input: StringReader) returns (ok: bool)
      requires Valid() && input.Valid()
      modifies this, line, section, prevName, input
      ensures Valid() && input.Valid() && ok == (old(input.Left()) != [])
      ensures !ok ==> State() == old(State()) && input.Left() == old(input.Left())
      ensures ok ==> var left := old(input.Left()); var n := PieceLen(left, MAX_LINE - 1);
                State() == Line(old(State()), left[..n], accept) && input.Left() == left[n..]
    {
      ghost var left := input.Left();
      ok := input.Read(line, MAX_LINE);
      if ok {
        ghost var n := PieceLen(left, MAX_LINE - 1);
        assert line[..n] == left[..n];
        ParseLine(n);
        assert left[n..] == input.Left();
      }
    }

    /** Reads and parses line after line. The answer is the number of the first line that failed,
        or 0; lines after it are still parsed. */
    method ParseStream(input: StringReader) returns (r: nat)
      requires Valid() && input.Valid() && input.Left() == input.text && State() == START
      modifies this, line, section, prevName, input
      ensures Valid() && State() == ParseText(input.text, accept) && r == error
    {
      while true
        invariant Valid() && input.Valid()
        invariant Lines(State(), Pieces(input.Left(), MAX_LINE), accept) == ParseText(input.text, accept)
        decreases |input.Left()|
      {
        ghost var left, before := input.Left(), State();
        var ok := ParseNext(input);
        if !ok {
          break;
        }
        LinesOfText(before, left, accept);
      }
      r := error;
    }
  }
}
