/** What the configuration parser means, as functions on text: cut the text into buffer-sized
    lines and fold over them. The options are the defaults of conf.h. */
module ConfText {

  const MAX_LINE: nat := 200
  const MAX_SECTION: nat := 50
  const MAX_NAME: nat := 50
  const NUL: char := '\0'
  const BOM: string := "\U{EF}\U{BB}\U{BF}"

  /** `isspace` in the C locale. */
  predicate IsSpace(c: char) {
    c == ' ' || '\t' <= c <= '\r'
  }

  function RStrip(s: string): string {
    if s != [] && IsSpace(s[|s| - 1]) then RStrip(s[..|s| - 1]) else s
  }

  function LSkip(s: string): string {
    if s != [] && IsSpace(s[0]) then LSkip(s[1..]) else s
  }

  /** How far it is to the first of `chars`, or to a `;` that follows white space, or to the end. */
  function FindFrom(s: string, chars: string, wasSpace: bool): (n: nat)
    ensures n <= |s|
  {
    if s == [] || s[0] in chars || (wasSpace && s[0] == ';') then 0
    else 1 + FindFrom(s[1..], chars, IsSpace(s[0]))
  }

  /** What `strncpy0` leaves in a buffer of `size` bytes. */
  function Fit(s: string, size: nat): string
    requires size > 0
  {
    if |s| < size then s else s[..size - 1]
  }

  // ---- Lines --------------------------------------------------------------------------------

  /** The length of the next line that a reader with room for `room` bytes delivers. */
  function PieceLen(text: string, room: nat): (n: nat)
    ensures n <= |text| && n <= room
    ensures n == 0 <==> text == [] || room == 0
  {
    if text == [] || room == 0 then 0
    else if text[0] == '\n' then 1
    else 1 + PieceLen(text[1..], room - 1)
  }

  /** The lines that a reader with a buffer of `num` bytes delivers, one after the other. */
  function Pieces(text: string, num: nat): seq<string>
    requires num >= 2
    decreases |text|
  {
    if text == [] then []
    else
      var n := PieceLen(text, num - 1);
      [text[..n]] + Pieces(text[n..], num)
  }

  // ---- Parsing ------------------------------------------------------------------------------

  datatype Call = Call(section: string, name: string, value: string)

  /** The user's handler: its answer may depend on everything it was told before. */
  type Handler = (seq<Call>, Call) -> bool

  datatype Parse = Parse(section: string, prevName: string, lineno: nat, error: nat, calls: seq<Call>)

  const START: Parse := Parse("", "", 0, 0, [])

  function Fail(st: Parse): Parse {
    st.(error := if st.error == 0 then st.lineno else st.error)
  }

  function Tell(st: Parse, name: string, value: string, accept: Handler): Parse {
    var c := Call(st.section, name, value);
    var told := st.(calls := st.calls + [c]);
    if accept(st.calls, c) then told else Fail(told)
  }

  predicate IsComment(start: string) {
    start == [] || start[0] == ';' || start[0] == '#'
  }

  function SectionLine(st: Parse, start: string): Parse
    requires start != []
  {
    var n := FindFrom(start[1..], "]", false);
    if n < |start| - 1 && start[n + 1] == ']' then
      st.(section := Fit(start[1..n + 1], MAX_SECTION), prevName := "")
    else
      Fail(st)
  }

  /** The value of a pair: up to an inline comment, without surrounding white space. */
  function ValueOf(rest: string): string {
    RStrip(LSkip(rest[..FindFrom(rest, "", false)]))
  }

  function PairLine(st: Parse, start: string, accept: Handler): Parse {
    var n := FindFrom(start, "=:", false);
    if n < |start| && (start[n] == '=' || start[n] == ':') then
      var name := RStrip(start[..n]);
      Tell(st.(prevName := Fit(name, MAX_NAME)), name, ValueOf(start[n + 1..]), accept)
    else
      Fail(st)
  }

  /** One stripped line; `indented` says whether anything was skipped in front of it. */
  function Body(st: Parse, start: string, indented: bool, accept: Handler): Parse {
    if IsComment(start) then st
    else if st.prevName != [] && indented then Tell(st, st.prevName, start, accept)
    else if start[0] == '[' then SectionLine(st, start)
    else PairLine(st, start, accept)
  }

  predicate StartsWithBom(raw: string) {
    BOM <= raw
  }

  function Line(st: Parse, raw: string, accept: Handler): Parse {
    var next := st.(lineno := st.lineno + 1);
    var skip := if next.lineno == 1 && StartsWithBom(raw) then 3 else 0;
    var stripped := RStrip(raw[skip..]);
    var start := LSkip(stripped);
    Body(next, start, skip > 0 || |start| < |stripped|, accept)
  }

  function Lines(st: Parse, lines: seq<string>, accept: Handler): Parse
    decreases |lines|
  {
    if lines == [] then st else Lines(Line(st, lines[0], accept), lines[1..], accept)
  }

  /** The fold, one line at a time. */
  lemma LinesOfText(st: Parse, text: string, accept: Handler)
    requires text != []
    ensures var n := PieceLen(text, MAX_LINE - 1);
            Lines(st, Pieces(text, MAX_LINE), accept) == Lines(Line(st, text[..n], accept), Pieces(text[n..], MAX_LINE), accept)
  {
  }

  function ParseText(text: string, accept: Handler): Parse {
    Lines(START, Pieces(text, MAX_LINE), accept)
  }
}
