/** The configuration language as a grammar: what a line can be, how it is spelled, and what it stands
    for, told without the parser. Every text is spelled by some items, and the parser does with any
    text what its items stand for. */
module ConfGrammar {
  import opened ConfText
  import opened ConfLaws

  const SPACES: string := " \t\n\U{0B}\U{0C}\r"

  predicate White(s: string) {
    forall k :: 0 <= k < |s| ==> s[k] in SPACES
  }

  predicate Trimmed(s: string) {
    s != [] ==> s[0] !in SPACES && s[|s| - 1] !in SPACES
  }

  /** No `;` that follows white space. */
  predicate NoComment(s: string) {
    forall k :: 0 < k < |s| && s[k - 1] in SPACES ==> s[k] != ';'
  }

  /** Something other than a comment. */
  predicate Content(s: string) {
    s != [] && Trimmed(s) && s[0] != ';' && s[0] != '#'
  }

  /** A bracket is closed, outside an inline comment. */
  predicate Closed(s: string) {
    exists k :: 1 <= k < |s| && s[k] == ']' && NoComment(s[1..k])
  }

  /** A name is delimited, outside an inline comment. */
  predicate Delimited(s: string) {
    exists k :: 0 <= k < |s| && (s[k] == '=' || s[k] == ':') && NoComment(s[..k])
  }

  /** A line: blank or a comment; the continuation of a pair; a heading with anything behind it; a pair,
      which may have a comment behind its value; or a line that is none of these. */
  datatype Item =
    | Note(before: string, text: string)
    | More(before: string, text: string, after: string)
    | Section(before: string, name: string, rest: string)
    | Pair(before: string, name: string, gap: string, delimiter: char, lead: string, value: string,
           after: string, comment: string)
    | Bad(before: string, text: string, after: string)

  function Spell(i: Item): string {
    match i
    case Note(b, t) => b + t
    case More(b, t, a) => b + t + a
    case Section(b, n, r) => b + "[" + n + "]" + r
    case Pair(b, n, g, d, l, v, a, c) => b + n + g + [d] + l + v + a + c
    case Bad(b, t, a) => b + t + a
  }

  predicate LegalPair(i: Item)
    requires i.Pair?
  {
    && White(i.gap) && White(i.lead) && White(i.after)
    && Trimmed(i.name) && NoComment(i.name) && (forall k :: 0 <= k < |i.name| ==> i.name[k] != '=' && i.name[k] != ':')
    && (if i.name == [] then i.gap == [] else i.name[0] != '[' && i.name[0] != ';' && i.name[0] != '#')
    && (i.delimiter == '=' || i.delimiter == ':')
    && Trimmed(i.value) && NoComment(i.value) && (i.value == [] || i.value[0] == ';' ==> i.lead == [])
    && (i.comment == [] || (i.after != [] && i.comment[0] == ';'))
  }

  /** Whether an item can stand where `prev` is the name of the last pair of its section, or nothing.
      Behind a name an indented line is a continuation, whatever it looks like. */
  predicate Legal(i: Item, prev: string) {
    && White(i.before)
    && match i
       case Note(_, t) => t == [] || t[0] == ';' || t[0] == '#'
       case More(b, t, a) => prev != [] && b != [] && Content(t) && White(a)
       case Section(b, n, _) => (prev == [] || b == []) && NoComment(n) && forall k :: 0 <= k < |n| ==> n[k] != ']'
       case Pair(b, _, _, _, _, _, _, _) => (prev == [] || b == []) && LegalPair(i)
       case Bad(b, t, a) => (prev == [] || b == []) && Content(t) && White(a) && if t[0] == '[' then !Closed(t) else !Delimited(t)
  }

  // ---- What items stand for -------------------------------------------------------------------

  /** What the buffers for the section and for the last name keep. */
  function First49(s: string): string {
    if |s| > 49 then s[..49] else s
  }

  function ItemCalls(i: Item, section: string, prev: string): seq<Call> {
    match i
    case Pair(_, n, _, _, _, v, _, _) => [Call(section, n, v)]
    case More(_, t, _) => [Call(section, prev, t)]
    case _ => []
  }

  function SectionAfter(i: Item, section: string): string {
    if i.Section? then First49(i.name) else section
  }

  function NameAfter(i: Item, prev: string): string {
    if i.Section? then [] else if i.Pair? then First49(i.name) else prev
  }

  predicate AllLegal(items: seq<Item>, prev: string) {
    items != [] ==> Legal(items[0], prev) && AllLegal(items[1..], NameAfter(items[0], prev))
  }

  /** The handler calls that items stand for. */
  function Calls(items: seq<Item>, section: string, prev: string): seq<Call> {
    if items == [] then []
    else ItemCalls(items[0], section, prev) + Calls(items[1..], SectionAfter(items[0], section), NameAfter(items[0], prev))
  }

  /** A problem: a line that is nothing, or a call that the handler refuses after what it was told. */
  predicate Problem(i: Item, section: string, prev: string, told: seq<Call>, accept: Handler) {
    i.Bad? || var calls := ItemCalls(i, section, prev); calls != [] && !accept(told, calls[0])
  }

  /** The number of the first problem, counted from `n`, or 0. */
  function FirstProblem(items: seq<Item>, section: string, prev: string, told: seq<Call>, n: nat, accept: Handler): nat {
    if items == [] then 0
    else if Problem(items[0], section, prev, told, accept) then n
    else FirstProblem(items[1..], SectionAfter(items[0], section), NameAfter(items[0], prev),
                      told + ItemCalls(items[0], section, prev), n + 1, accept)
  }

  // ---- White space ----------------------------------------------------------------------------

  lemma SpaceIsSpace(c: char)
    ensures IsSpace(c) <==> c in SPACES
  {
    assert SPACES[0] == ' ' && SPACES[1] == '\t' && SPACES[2] == '\n';
    assert SPACES[3] == '\U{0B}' && SPACES[4] == '\U{0C}' && SPACES[5] == '\r';
  }

  lemma {:induction false} RStripWhite(s: string, w: string)
    requires White(w)
    ensures RStrip(s + w) == RStrip(s)
    decreases |w|
  {
    if w == [] {
      assert s + w == s;
    } else {
      assert (s + w)[..|s + w| - 1] == s + w[..|w| - 1];
      SpaceIsSpace(w[|w| - 1]);
      RStripWhite(s, w[..|w| - 1]);
    }
  }

  lemma RStripNone(s: string)
    requires s != [] ==> s[|s| - 1] !in SPACES
    ensures RStrip(s) == s
  {
    if s != [] {
      SpaceIsSpace(s[|s| - 1]);
    }
  }

  /** Stripping the end of a text stops at the last character that is not white space. */
  lemma {:induction false} RStripBehind(s: string, t: string)
    requires s != [] && s[|s| - 1] !in SPACES
    ensures RStrip(s + t) == s + RStrip(t)
    decreases |t|
  {
    if t == [] {
      assert s + t == s;
      RStripNone(s);
    } else {
      assert (s + t)[..|s + t| - 1] == s + t[..|t| - 1];
      RStripBehind(s, t[..|t| - 1]);
    }
  }

  lemma {:induction false} LSkipWhite(w: string, s: string)
    requires White(w)
    ensures LSkip(w + s) == LSkip(s)
    decreases |w|
  {
    if w == [] {
      assert w + s == s;
    } else {
      assert (w + s)[1..] == w[1..] + s;
      SpaceIsSpace(w[0]);
      LSkipWhite(w[1..], s);
    }
  }

  lemma LSkipNone(s: string)
    requires s != [] ==> s[0] !in SPACES
    ensures LSkip(s) == s
  {
    if s != [] {
      SpaceIsSpace(s[0]);
    }
  }

  lemma {:induction false} RStripParts(s: string)
    ensures |RStrip(s)| <= |s| && s == RStrip(s) + s[|RStrip(s)|..] && White(s[|RStrip(s)|..])
    ensures RStrip(s) != [] ==> RStrip(s)[|RStrip(s)| - 1] !in SPACES
    ensures s != [] && s[0] !in SPACES ==> RStrip(s) != [] && RStrip(s)[0] == s[0]
    decreases |s|
  {
    if s != [] {
      SpaceIsSpace(s[|s| - 1]);
      if IsSpace(s[|s| - 1]) {
        RStripParts(s[..|s| - 1]);
        var n := |RStrip(s)|;
        assert s[n..] == s[..|s| - 1][n..] + [s[|s| - 1]];
      }
    }
  }

  lemma WhiteCons(c: char, w: string)
    requires c in SPACES && White(w)
    ensures White([c] + w)
  {
  }

  lemma {:induction false} LSkipParts(s: string)
    ensures var n := |s| - |LSkip(s)|; n >= 0 && s[n..] == LSkip(s) && White(s[..n])
    ensures LSkip(s) != [] ==> LSkip(s)[0] !in SPACES
    decreases |s|
  {
    if s != [] {
      SpaceIsSpace(s[0]);
      if IsSpace(s[0]) {
        LSkipParts(s[1..]);
        var n := |s| - |LSkip(s)|;
        WhiteCons(s[0], s[1..][..n - 1]);
        assert s[..n] == [s[0]] + s[1..][..n - 1];
      }
    }
  }

  // ---- The search -----------------------------------------------------------------------------

  predicate SpaceBefore(s: string, wasSpace: bool, k: nat)
    requires k <= |s|
  {
    if k == 0 then wasSpace else s[k - 1] in SPACES
  }

  /** The first place where one of `chars` or an inline comment is, or the end. */
  predicate StopsAt(s: string, chars: string, wasSpace: bool, n: nat) {
    && n <= |s|
    && (forall k :: 0 <= k < n ==> s[k] !in chars && !(s[k] == ';' && SpaceBefore(s, wasSpace, k)))
    && (n < |s| ==> s[n] in chars || (s[n] == ';' && SpaceBefore(s, wasSpace, n)))
  }

  lemma {:induction false} FindIs(s: string, chars: string, wasSpace: bool, n: nat)
    requires StopsAt(s, chars, wasSpace, n)
    ensures FindFrom(s, chars, wasSpace) == n
    decreases n
  {
    if n > 0 {
      SpaceIsSpace(s[0]);
      var r := s[1..];
      forall k | 0 <= k < n - 1
        ensures r[k] !in chars && !(r[k] == ';' && SpaceBefore(r, IsSpace(s[0]), k))
      {
        assert r[k] == s[k + 1];
        assert SpaceBefore(s, wasSpace, k + 1) == SpaceBefore(r, IsSpace(s[0]), k);
      }
      assert n < |s| ==> SpaceBefore(s, wasSpace, n) == SpaceBefore(r, IsSpace(s[0]), n - 1);
      FindIs(r, chars, IsSpace(s[0]), n - 1);
    }
  }

  lemma {:induction false} FindStops(s: string, chars: string, wasSpace: bool)
    ensures StopsAt(s, chars, wasSpace, FindFrom(s, chars, wasSpace))
    decreases |s|
  {
    var n := FindFrom(s, chars, wasSpace);
    if n > 0 {
      SpaceIsSpace(s[0]);
      var r := s[1..];
      FindStops(r, chars, IsSpace(s[0]));
      forall k | 0 <= k < n
        ensures s[k] !in chars && !(s[k] == ';' && SpaceBefore(s, wasSpace, k))
      {
        if k > 0 {
          assert r[k - 1] == s[k];
          assert SpaceBefore(s, wasSpace, k) == SpaceBefore(r, IsSpace(s[0]), k - 1);
        }
      }
      assert n < |s| ==> SpaceBefore(s, wasSpace, n) == SpaceBefore(r, IsSpace(s[0]), n - 1);
    }
  }

  // ---- One line -------------------------------------------------------------------------------

  function Core(raw: string): string {
    LSkip(RStrip(raw))
  }

  function Did(st: Parse, i: Item, accept: Handler): Parse {
    Parse(SectionAfter(i, st.section), NameAfter(i, st.prevName), st.lineno,
          if st.error == 0 && Problem(i, st.section, st.prevName, st.calls, accept) then st.lineno else st.error,
          st.calls + ItemCalls(i, st.section, st.prevName))
  }

  /** White space, a text that starts with none, and what the end of the line leaves of the rest. */
  lemma CoreOf(before: string, head: string, tail: string)
    requires White(before) && head != [] && head[0] !in SPACES && head[|head| - 1] !in SPACES
    ensures RStrip(before + head + tail) == before + head + RStrip(tail)
    ensures Core(before + head + tail) == head + RStrip(tail)
  {
    var s := before + head;
    assert s[|s| - 1] == head[|head| - 1];
    RStripBehind(s, tail);
    assert s + RStrip(tail) == before + (head + RStrip(tail));
    LSkipWhite(before, head + RStrip(tail));
    LSkipNone(head + RStrip(tail));
  }

  lemma WhiteIsNothing(w: string)
    requires White(w)
    ensures RStrip(w) == [] && LSkip(w) == []
  {
    RStripWhite([], w);
    LSkipWhite(w, []);
    assert [] + w == w && w + [] == w;
  }

  lemma NoteDoesNothing(st: Parse, i: Item, indented: bool, accept: Handler)
    requires i.Note? && Legal(i, st.prevName)
    ensures Body(st, Core(Spell(i)), indented, accept) == Did(st, i, accept)
  {
    if i.text == [] {
      assert Spell(i) == i.before;
      WhiteIsNothing(i.before);
    } else {
      assert i.text == i.text[..1] + i.text[1..];
      assert Spell(i) == i.before + i.text[..1] + i.text[1..];
      CoreOf(i.before, i.text[..1], i.text[1..]);
    }
    assert st.calls + [] == st.calls;
  }

  lemma MoreCallsAgain(st: Parse, i: Item, indented: bool, accept: Handler)
    requires i.More? && Legal(i, st.prevName) && indented
    ensures Body(st, Core(Spell(i)), indented, accept) == Did(st, i, accept)
  {
    CoreOf(i.before, i.text, i.after);
    WhiteIsNothing(i.after);
    assert i.text + [] == i.text;
  }

  lemma CleanStop(s: string, rest: string, chars: string, wasSpace: bool)
    requires NoComment(s) && (forall k :: 0 <= k < |s| ==> s[k] !in chars)
    requires s != [] && wasSpace ==> s[0] != ';'
    requires rest != [] ==> rest[0] in chars || (rest[0] == ';' && s != [] && s[|s| - 1] in SPACES)
    ensures StopsAt(s + rest, chars, wasSpace, |s|)
  {
    var t := s + rest;
    forall k | 0 <= k < |s| ensures t[k] !in chars && !(t[k] == ';' && SpaceBefore(t, wasSpace, k)) {
      assert t[k] == s[k] && (k > 0 ==> t[k - 1] == s[k - 1]);
    }
    assert s != [] ==> t[|s| - 1] == s[|s| - 1];
    assert rest != [] ==> t[|s|] == rest[0];
  }

  lemma SectionSetsTheSection(st: Parse, i: Item, indented: bool, accept: Handler)
    requires i.Section? && Legal(i, st.prevName) && (st.prevName != [] ==> !indented)
    ensures Body(st, Core(Spell(i)), indented, accept) == Did(st, i, accept)
  {
    var head := "[" + i.name + "]";
    assert Spell(i) == i.before + head + i.rest;
    CoreOf(i.before, head, i.rest);
    var start := head + RStrip(i.rest);
    assert start[1..] == i.name + ("]" + RStrip(i.rest));
    CleanStop(i.name, "]" + RStrip(i.rest), "]", false);
    FindIs(start[1..], "]", false, |i.name|);
    assert start[|i.name| + 1] == ']' && start[1..|i.name| + 1] == i.name;
    assert st.calls + [] == st.calls;
  }

  /** What is behind the delimiter, once the end of the line is stripped. */
  function Behind(i: Item): string
    requires i.Pair?
  {
    RStrip(i.lead + i.value + i.after + i.comment)
  }

  lemma CommentStays(i: Item)
    requires i.Pair? && LegalPair(i) && i.comment != []
    ensures Behind(i) == i.lead + i.value + i.after + RStrip(i.comment)
    ensures RStrip(i.comment) != [] && RStrip(i.comment)[0] == ';'
  {
    var s := i.lead + i.value + i.after;
    assert i.comment == i.comment[..1] + i.comment[1..];
    assert s + i.comment == (s + i.comment[..1]) + i.comment[1..];
    RStripBehind(s + i.comment[..1], i.comment[1..]);
    RStripBehind(i.comment[..1], i.comment[1..]);
    assert s + i.comment[..1] + RStrip(i.comment[1..]) == s + (i.comment[..1] + RStrip(i.comment[1..]));
  }

  lemma ValueWithoutComment(i: Item)
    requires i.Pair? && LegalPair(i) && i.comment == []
    ensures Behind(i) == i.lead + i.value
  {
    assert i.lead + i.value + i.after + i.comment == (i.lead + i.value) + i.after;
    RStripWhite(i.lead + i.value, i.after);
    if i.value == [] {
      assert i.lead + i.value == [];
    } else {
      assert (i.lead + i.value)[|i.lead + i.value| - 1] == i.value[|i.value| - 1];
      RStripNone(i.lead + i.value);
    }
  }

  lemma NoCommentInside(lead: string, value: string, after: string)
    requires White(lead) && White(after) && Trimmed(value) && NoComment(value)
    requires value == [] || value[0] == ';' ==> lead == []
    ensures NoComment(lead + value + after)
  {
    var s := lead + value + after;
    forall k | 0 < k < |s| && s[k - 1] in SPACES ensures s[k] != ';' {
      if |lead| < k < |lead| + |value| {
        assert s[k] == value[k - |lead|] && s[k - 1] == value[k - |lead| - 1];
      } else if k == |lead| && value != [] {
        assert s[k] == value[0];
      } else {
        assert s[k] in SPACES;
        SpaceIsSpace(';');
      }
    }
  }

  lemma ValueIsCutOut(lead: string, value: string, after: string)
    requires White(lead) && White(after) && Trimmed(value) && (value == [] ==> lead == [])
    ensures RStrip(LSkip(lead + value + after)) == value
  {
    assert lead + value + after == lead + (value + after);
    LSkipWhite(lead, value + after);
    if value == [] {
      assert value + after == after;
      WhiteIsNothing(after);
    } else {
      LSkipNone(value + after);
      RStripWhite(value, after);
      RStripNone(value);
    }
  }

  lemma ValueIsRead(i: Item)
    requires i.Pair? && LegalPair(i)
    ensures ValueOf(Behind(i)) == i.value
  {
    var s := i.lead + i.value + i.after;
    if i.comment == [] {
      ValueWithoutComment(i);
      var t := i.lead + i.value;
      assert t + [] == t && t == i.lead + i.value + [];
      NoCommentInside(i.lead, i.value, []);
      CleanStop(t, [], "", false);
      FindIs(t, "", false, |t|);
      assert t[..|t|] == t;
      ValueIsCutOut(i.lead, i.value, []);
    } else {
      CommentStays(i);
      NoCommentInside(i.lead, i.value, i.after);
      assert s[|s| - 1] == i.after[|i.after| - 1];
      CleanStop(s, RStrip(i.comment), "", false);
      FindIs(s + RStrip(i.comment), "", false, |s|);
      assert (s + RStrip(i.comment))[..|s|] == s;
      ValueIsCutOut(i.lead, i.value, i.after);
    }
  }

  /** The name of a pair with the white space behind it. */
  lemma NameIsRead(i: Item)
    requires i.Pair? && LegalPair(i)
    ensures RStrip(i.name + i.gap) == i.name
    ensures NoComment(i.name + i.gap) && forall k :: 0 <= k < |i.name + i.gap| ==> (i.name + i.gap)[k] !in "=:"
  {
    RStripWhite(i.name, i.gap);
    RStripNone(i.name);
    NoCommentInside([], i.name, i.gap);
    assert [] + i.name + i.gap == i.name + i.gap;
    NoDelimiterBefore(i.name, i.gap);
  }

  lemma DelimiterOrNot(c: char)
    ensures c in "=:" <==> c == '=' || c == ':'
    ensures c == '=' || c == ':' ==> c !in SPACES
  {
    assert "=:"[0] == '=' && "=:"[1] == ':';
    SpaceIsSpace(c);
  }

  lemma NoDelimiterBefore(name: string, gap: string)
    requires White(gap) && forall k :: 0 <= k < |name| ==> name[k] != '=' && name[k] != ':'
    ensures forall k :: 0 <= k < |name + gap| ==> (name + gap)[k] !in "=:"
  {
    var s := name + gap;
    forall k | 0 <= k < |s| ensures s[k] !in "=:" {
      DelimiterOrNot(s[k]);
      assert if k < |name| then s[k] == name[k] else s[k] == gap[k - |name|];
    }
  }

  lemma PairIsSplit(st: Parse, i: Item, accept: Handler)
    requires i.Pair? && LegalPair(i)
    ensures PairLine(st, i.name + i.gap + [i.delimiter] + Behind(i), accept)
         == Tell(st.(prevName := Fit(i.name, MAX_NAME)), i.name, i.value, accept)
  {
    var before := i.name + i.gap;
    var start := before + [i.delimiter] + Behind(i);
    assert start == before + ([i.delimiter] + Behind(i));
    NameIsRead(i);
    DelimiterOrNot(i.delimiter);
    CleanStop(before, [i.delimiter] + Behind(i), "=:", false);
    FindIs(start, "=:", false, |before|);
    assert start[|before|] == i.delimiter && start[..|before|] == before;
    assert start[|before| + 1..] == Behind(i);
    ValueIsRead(i);
  }

  lemma PairHead(i: Item)
    requires i.Pair? && LegalPair(i)
    ensures var head := i.name + i.gap + [i.delimiter];
            && head[0] !in SPACES && head[|head| - 1] !in SPACES && head[0] != '[' && head[0] != ';' && head[0] != '#'
  {
    DelimiterOrNot(i.delimiter);
    var head := i.name + i.gap + [i.delimiter];
    assert head[|head| - 1] == i.delimiter;
    assert if i.name != [] then head[0] == i.name[0] else head[0] == i.delimiter;
  }

  lemma PairCore(i: Item)
    requires i.Pair? && White(i.before) && LegalPair(i)
    ensures Core(Spell(i)) == i.name + i.gap + [i.delimiter] + Behind(i)
    ensures var c := Core(Spell(i))[0]; c != '[' && c != ';' && c != '#'
  {
    var head, tail := i.name + i.gap + [i.delimiter], i.lead + i.value + i.after + i.comment;
    assert Spell(i) == i.before + head + tail;
    PairHead(i);
    CoreOf(i.before, head, tail);
  }

  lemma PairCalls(st: Parse, i: Item, indented: bool, accept: Handler)
    requires i.Pair? && Legal(i, st.prevName) && (st.prevName != [] ==> !indented)
    ensures Body(st, Core(Spell(i)), indented, accept) == Did(st, i, accept)
  {
    PairCore(i);
    PairIsSplit(st, i, accept);
  }

  lemma StopIsClean(s: string, chars: string, n: nat)
    requires StopsAt(s, chars, false, n)
    ensures NoComment(s[..n])
  {
    forall k | 0 < k < n && s[..n][k - 1] in SPACES ensures s[..n][k] != ';' {
      assert SpaceBefore(s, false, k);
    }
  }

  lemma FoundIsClosed(text: string)
    requires text != []
    ensures var n := FindFrom(text[1..], "]", false);
            n < |text| - 1 && text[n + 1] == ']' ==> Closed(text)
  {
    var n := FindFrom(text[1..], "]", false);
    FindStops(text[1..], "]", false);
    StopIsClean(text[1..], "]", n);
    assert text[1..n + 1] == text[1..][..n];
  }

  lemma FoundIsDelimited(text: string)
    ensures var n := FindFrom(text, "=:", false);
            n < |text| && (text[n] == '=' || text[n] == ':') ==> Delimited(text)
  {
    FindStops(text, "=:", false);
    StopIsClean(text, "=:", FindFrom(text, "=:", false));
  }

  lemma BadFails(st: Parse, i: Item, indented: bool, accept: Handler)
    requires i.Bad? && Legal(i, st.prevName) && (st.prevName != [] ==> !indented)
    ensures Body(st, Core(Spell(i)), indented, accept) == Did(st, i, accept)
  {
    CoreOf(i.before, i.text, i.after);
    WhiteIsNothing(i.after);
    assert i.text + [] == i.text && st.calls + [] == st.calls;
    if i.text[0] == '[' {
      FoundIsClosed(i.text);
    } else {
      FoundIsDelimited(i.text);
    }
  }

  // ---- Which lines are indented ---------------------------------------------------------------

  predicate Indented(raw: string) {
    |Core(raw)| < |RStrip(raw)|
  }

  lemma IndentedHead(before: string, head: string, tail: string)
    requires White(before) && head != [] && head[0] !in SPACES && head[|head| - 1] !in SPACES
    ensures Indented(before + head + tail) <==> before != []
  {
    CoreOf(before, head, tail);
  }

  lemma IndentedSection(i: Item, prev: string)
    requires i.Section? && Legal(i, prev)
    ensures Indented(Spell(i)) <==> i.before != []
  {
    assert Spell(i) == i.before + ("[" + i.name + "]") + i.rest;
    IndentedHead(i.before, "[" + i.name + "]", i.rest);
  }

  lemma IndentedPair(i: Item, prev: string)
    requires i.Pair? && Legal(i, prev)
    ensures Indented(Spell(i)) <==> i.before != []
  {
    var head, tail := i.name + i.gap + [i.delimiter], i.lead + i.value + i.after + i.comment;
    assert Spell(i) == i.before + head + tail;
    PairHead(i);
    IndentedHead(i.before, head, tail);
  }

  lemma IndentedItem(i: Item, prev: string)
    requires Legal(i, prev) && !i.Note?
    ensures Indented(Spell(i)) <==> i.before != []
  {
    if i.Section? {
      IndentedSection(i, prev);
    } else if i.Pair? {
      IndentedPair(i, prev);
    } else {
      IndentedHead(i.before, i.text, i.after);
    }
  }

  /** A line does what the item it spells stands for. */
  lemma BodyMeans(st: Parse, i: Item, indented: bool, accept: Handler)
    requires Legal(i, st.prevName) && (st.prevName != [] ==> indented == Indented(Spell(i)))
    ensures Body(st, Core(Spell(i)), indented, accept) == Did(st, i, accept)
  {
    if !i.Note? {
      IndentedItem(i, st.prevName);
    }
    match i
    case Note(_, _) => NoteDoesNothing(st, i, indented, accept);
    case More(_, _, _) => MoreCallsAgain(st, i, indented, accept);
    case Section(_, _, _) => SectionSetsTheSection(st, i, indented, accept);
    case Pair(_, _, _, _, _, _, _, _) => PairCalls(st, i, indented, accept);
    case Bad(_, _, _) => BadFails(st, i, indented, accept);
  }

  /** A line of a text, which spells an item behind the byte order mark that the first line may have. */
  predicate Spells(raw: string, i: Item, first: bool) {
    if first && StartsWithBom(raw) then raw[3..] == Spell(i) else raw == Spell(i)
  }

  lemma LineIsBody(st: Parse, raw: string, accept: Handler)
    ensures var bom := st.lineno == 0 && StartsWithBom(raw);
            var l := if bom then raw[3..] else raw;
            Line(st, raw, accept) == Body(st.(lineno := st.lineno + 1), Core(l), bom || Indented(l), accept)
  {
    assert raw[0..] == raw;
  }

  lemma LineMeans(st: Parse, raw: string, i: Item, accept: Handler)
    requires Spells(raw, i, st.lineno == 0) && Legal(i, st.prevName) && (st.lineno == 0 ==> st.prevName == [])
    ensures Line(st, raw, accept) == Did(st.(lineno := st.lineno + 1), i, accept)
  {
    LineIsBody(st, raw, accept);
    var bom := st.lineno == 0 && StartsWithBom(raw);
    BodyMeans(st.(lineno := st.lineno + 1), i, bom || Indented(Spell(i)), accept);
  }

  // ---- Every line is an item ------------------------------------------------------------------

  /** A text as white space, a trimmed text, and white space. */
  datatype Parts = Parts(lead: string, value: string, after: string)

  function Split(s: string): Parts {
    var inner := LSkip(s);
    var value := RStrip(inner);
    LSkipParts(s);
    RStripParts(inner);
    if value == [] then Parts([], [], s) else Parts(s[..|s| - |inner|], value, inner[|value|..])
  }

  function PairOf(before: string, left: string, delimiter: char, right: string, after: string): Item {
    RStripParts(left);
    var name := RStrip(left);
    var m := FindFrom(right, "", false);
    var p := Split(right[..m]);
    if m == |right| then Pair(before, name, left[|name|..], delimiter, p.lead, p.value, p.after + after, [])
    else Pair(before, name, left[|name|..], delimiter, p.lead, p.value, p.after, right[m..] + after)
  }

  function ItemOf(p: Parts, prev: string): Item {
    if p.value == [] then Note(p.after, [])
    else if p.value[0] == ';' || p.value[0] == '#' then Note(p.lead, p.value + p.after)
    else if prev != [] && p.lead != [] then More(p.lead, p.value, p.after)
    else if p.value[0] == '[' then HeadingOf(p.lead, p.value, p.after)
    else EntryOf(p.lead, p.value, p.after)
  }

  function HeadingOf(before: string, text: string, after: string): Item
    requires text != []
  {
    var n := FindFrom(text[1..], "]", false);
    if n < |text| - 1 && text[n + 1] == ']' then Section(before, text[1..n + 1], text[n + 2..] + after)
    else Bad(before, text, after)
  }

  function EntryOf(before: string, text: string, after: string): Item {
    var n := FindFrom(text, "=:", false);
    if n < |text| && (text[n] == '=' || text[n] == ':') then PairOf(before, text[..n], text[n], text[n + 1..], after)
    else Bad(before, text, after)
  }

  lemma ClosedIsFound(text: string)
    requires text != [] && Closed(text)
    ensures var n := FindFrom(text[1..], "]", false); n < |text| - 1 && text[n + 1] == ']'
  {
    var s := text[1..];
    var n := FindFrom(s, "]", false);
    FindStops(s, "]", false);
    var k :| 1 <= k < |text| && text[k] == ']' && NoComment(text[1..k]);
    assert s[k - 1] == ']';
    if n < k - 1 {
      assert text[1..k][n] == s[n];
      assert n > 0 ==> text[1..k][n - 1] == s[n - 1];
    }
  }

  lemma DelimitedIsFound(text: string)
    requires Delimited(text)
    ensures var n := FindFrom(text, "=:", false); n < |text| && (text[n] == '=' || text[n] == ':')
  {
    var n := FindFrom(text, "=:", false);
    FindStops(text, "=:", false);
    var k :| 0 <= k < |text| && (text[k] == '=' || text[k] == ':') && NoComment(text[..k]);
    DelimiterOrNot(text[k]);
    if n < |text| {
      DelimiterOrNot(text[n]);
    }
    if n < k {
      assert text[..k][n] == text[n];
      assert n > 0 ==> text[..k][n - 1] == text[n - 1];
    }
  }

  lemma NoCommentPart(s: string, i: nat, j: nat)
    requires i <= j <= |s| && NoComment(s)
    ensures NoComment(s[i..j])
  {
    forall k | 0 < k < j - i && s[i..j][k - 1] in SPACES ensures s[i..j][k] != ';' {
      assert s[i + k - 1] == s[i..j][k - 1];
    }
  }

  lemma WhiteAppend(s: string, t: string)
    requires White(s) && White(t)
    ensures White(s + t)
  {
  }

  /** The comment that ends a search follows white space. */
  lemma CommentFollowsSpace(right: string, m: nat)
    requires StopsAt(right, "", false, m) && m < |right|
    ensures right[m] == ';' && m > 0 && right[m - 1] in SPACES
  {
  }

  predicate PartsOk(p: Parts, s: string) {
    && s == p.lead + p.value + p.after && White(p.lead) && White(p.after) && Trimmed(p.value)
    && (p.value == [] ==> p.lead == [])
  }

  lemma SplitAll(s: string, n: nat, k: nat)
    requires n + k <= |s|
    ensures s == s[..n] + s[n..][..k] + s[n..][k..]
  {
  }

  lemma SplitIsOk(s: string)
    ensures PartsOk(Split(s), s)
  {
    var inner := LSkip(s);
    var value := RStrip(inner);
    LSkipParts(s);
    RStripParts(inner);
    var n := |s| - |inner|;
    if value == [] {
      assert s == s[..n] + inner;
      WhiteAppend(s[..n], inner);
    } else {
      SplitAll(s, n, |value|);
      assert value == inner[..|value|];
    }
  }

  lemma PartsOfClean(p: Parts, s: string)
    requires PartsOk(p, s) && NoComment(s)
    ensures NoComment(p.value) && (p.value == [] || p.value[0] == ';' ==> p.lead == [])
  {
    var n := |p.lead|;
    assert p.value == s[n..n + |p.value|];
    NoCommentPart(s, n, n + |p.value|);
    if p.value != [] && n > 0 {
      assert s[n] == p.value[0] && s[n - 1] == p.lead[n - 1];
    }
  }

  lemma PartsBeforeComment(p: Parts, s: string)
    requires PartsOk(p, s) && s != [] && s[|s| - 1] in SPACES
    ensures p.after != []
  {
    var t := p.lead + p.value;
    assert p.after == [] ==> s == t;
    assert p.value != [] ==> t[|t| - 1] == p.value[|p.value| - 1];
  }

  lemma NamePart(left: string)
    requires NoComment(left) && (forall k :: 0 <= k < |left| ==> left[k] !in "=:")
    requires left != [] ==> left[0] !in SPACES
    ensures var name := RStrip(left);
            && |name| <= |left| && Trimmed(name) && NoComment(name) && White(left[|name|..])
            && (forall k :: 0 <= k < |name| ==> name[k] != '=' && name[k] != ':')
            && (name == [] ==> left == []) && (name != [] ==> name[0] == left[0])
  {
    var name := RStrip(left);
    RStripParts(left);
    NoCommentPart(left, 0, |name|);
    assert name == left[0..|name|];
    forall k | 0 <= k < |name| ensures name[k] != '=' && name[k] != ':' {
      DelimiterOrNot(left[k]);
    }
  }

  lemma PairOfIsLegal(before: string, left: string, delimiter: char, right: string, after: string)
    requires White(after) && NoComment(left) && (forall k :: 0 <= k < |left| ==> left[k] !in "=:")
    requires delimiter == '=' || delimiter == ':'
    requires left != [] ==> left[0] !in SPACES && left[0] != '[' && left[0] != ';' && left[0] != '#'
    ensures LegalPair(PairOf(before, left, delimiter, right, after))
  {
    var m := FindFrom(right, "", false);
    var p := Split(right[..m]);
    FindStops(right, "", false);
    StopIsClean(right, "", m);
    SplitIsOk(right[..m]);
    PartsOfClean(p, right[..m]);
    NamePart(left);
    if m < |right| {
      CommentFollowsSpace(right, m);
      PartsBeforeComment(p, right[..m]);
    } else {
      WhiteAppend(p.after, after);
    }
  }

  lemma SpellPair(i: Item)
    requires i.Pair?
    ensures Spell(i) == i.before + (i.name + i.gap) + [i.delimiter] + ((i.lead + i.value + i.after) + i.comment)
  {
  }

  lemma SameBehind(lead: string, value: string, tail: string, note: string, after: string)
    ensures (lead + value + tail) + (note + after) == ((lead + value + tail) + note) + after
    ensures (lead + value + (tail + after)) + [] == (lead + value + tail) + after
  {
  }

  lemma PairOfSpells(before: string, left: string, delimiter: char, right: string, after: string)
    ensures Spell(PairOf(before, left, delimiter, right, after)) == before + left + [delimiter] + (right + after)
  {
    var i := PairOf(before, left, delimiter, right, after);
    var m := FindFrom(right, "", false);
    var p := Split(right[..m]);
    SplitIsOk(right[..m]);
    RStripParts(left);
    SpellPair(i);
    SameBehind(p.lead, p.value, p.after, right[m..], after);
    assert right == right[..m] + right[m..];
    if m == |right| {
      assert right[..m] == right;
    }
  }

  lemma HeadingIsLegal(before: string, text: string, after: string, prev: string)
    requires White(before) && White(after) && Content(text) && text[0] == '[' && (prev == [] || before == [])
    ensures Legal(HeadingOf(before, text, after), prev)
  {
    var n := FindFrom(text[1..], "]", false);
    FindStops(text[1..], "]", false);
    StopIsClean(text[1..], "]", n);
    assert text[1..n + 1] == text[1..][..n];
    if Closed(text) {
      ClosedIsFound(text);
    }
  }

  lemma EntryIsLegal(before: string, text: string, after: string, prev: string)
    requires White(before) && White(after) && Content(text) && text[0] != '[' && (prev == [] || before == [])
    ensures Legal(EntryOf(before, text, after), prev)
  {
    var n := FindFrom(text, "=:", false);
    FindStops(text, "=:", false);
    StopIsClean(text, "=:", n);
    if n < |text| && (text[n] == '=' || text[n] == ':') {
      PairOfIsLegal(before, text[..n], text[n], text[n + 1..], after);
    } else if Delimited(text) {
      DelimitedIsFound(text);
    }
  }

  lemma ItemOfIsLegal(p: Parts, s: string, prev: string)
    requires PartsOk(p, s)
    ensures Legal(ItemOf(p, prev), prev)
  {
    if p.value != [] && p.value[0] != ';' && p.value[0] != '#' && (prev == [] || p.lead == []) {
      if p.value[0] == '[' {
        HeadingIsLegal(p.lead, p.value, p.after, prev);
      } else {
        EntryIsLegal(p.lead, p.value, p.after, prev);
      }
    }
  }

  lemma HeadingSpells(before: string, text: string, after: string)
    requires text != [] && text[0] == '['
    ensures Spell(HeadingOf(before, text, after)) == before + text + after
  {
    var n := FindFrom(text[1..], "]", false);
    if n < |text| - 1 && text[n + 1] == ']' {
      assert text == "[" + text[1..n + 1] + "]" + text[n + 2..];
    }
  }

  lemma JoinAgain(before: string, left: string, c: char, right: string, after: string)
    ensures before + left + [c] + (right + after) == before + (left + [c] + right) + after
  {
  }

  lemma EntrySpells(before: string, text: string, after: string)
    ensures Spell(EntryOf(before, text, after)) == before + text + after
  {
    var n := FindFrom(text, "=:", false);
    if n < |text| {
      PairOfSpells(before, text[..n], text[n], text[n + 1..], after);
      JoinAgain(before, text[..n], text[n], text[n + 1..], after);
      assert text == text[..n] + [text[n]] + text[n + 1..];
    }
  }

  lemma ItemOfSpells(p: Parts, prev: string)
    requires p.value == [] ==> p.lead == []
    ensures Spell(ItemOf(p, prev)) == p.lead + p.value + p.after
  {
    if p.value == [] {
      assert p.after + [] == p.after && p.lead + p.value + p.after == p.after;
    } else if p.value[0] == ';' || p.value[0] == '#' {
      assert p.lead + (p.value + p.after) == p.lead + p.value + p.after;
    } else if p.value[0] == '[' {
      HeadingSpells(p.lead, p.value, p.after);
    } else {
      EntrySpells(p.lead, p.value, p.after);
    }
  }

  /** Every line is spelled by an item that can stand there. */
  lemma EveryLineIsAnItem(raw: string, first: bool, prev: string) returns (i: Item)
    ensures Legal(i, prev) && Spells(raw, i, first)
  {
    var l := if first && StartsWithBom(raw) then raw[3..] else raw;
    i := ItemOf(Split(l), prev);
    SplitIsOk(l);
    ItemOfIsLegal(Split(l), l, prev);
    ItemOfSpells(Split(l), prev);
  }

  // ---- A whole text ---------------------------------------------------------------------------

  predicate AllSpell(lines: seq<string>, items: seq<Item>) {
    |lines| == |items| && forall k :: 0 <= k < |items| ==> Spells(lines[k], items[k], k == 0)
  }

  function SectionAtEnd(items: seq<Item>, section: string): string {
    if items == [] then section else SectionAtEnd(items[1..], SectionAfter(items[0], section))
  }

  function NameAtEnd(items: seq<Item>, prev: string): string {
    if items == [] then prev else NameAtEnd(items[1..], NameAfter(items[0], prev))
  }

  /** The fold of `Lines`, for any way to parse one line. */
  function Fold(step: (Parse, string) -> Parse, st: Parse, lines: seq<string>): Parse
    decreases |lines|
  {
    if lines == [] then st else Fold(step, step(st, lines[0]), lines[1..])
  }

  lemma {:induction false} LinesIsFold(st: Parse, lines: seq<string>, accept: Handler)
    ensures Lines(st, lines, accept) == Fold((s, l) => Line(s, l, accept), st, lines)
    decreases |lines|
  {
    if lines != [] {
      LinesIsFold(Line(st, lines[0], accept), lines[1..], accept);
    }
  }

  /** The step does with line `k` what its item stands for. */
  ghost predicate StepMeans(step: (Parse, string) -> Parse, lineno: nat, lines: seq<string>, items: seq<Item>,
                            accept: Handler)
    requires |lines| == |items|
  {
    forall s: Parse, k :: 0 <= k < |items| && s.lineno == lineno + k && Legal(items[k], s.prevName)
                          && (s.lineno == 0 ==> s.prevName == []) ==>
      step(s, lines[k]) == Did(s.(lineno := s.lineno + 1), items[k], accept)
  }

  function Meaning(st: Parse, items: seq<Item>, accept: Handler): Parse {
    Parse(SectionAtEnd(items, st.section), NameAtEnd(items, st.prevName), st.lineno + |items|,
          if st.error != 0 then st.error
          else FirstProblem(items, st.section, st.prevName, st.calls, st.lineno + 1, accept),
          st.calls + Calls(items, st.section, st.prevName))
  }

  lemma MeaningStep(st: Parse, items: seq<Item>, accept: Handler)
    requires items != []
    ensures Meaning(st, items, accept)
         == Meaning(Did(st.(lineno := st.lineno + 1), items[0], accept), items[1..], accept)
  {
    var cs := ItemCalls(items[0], st.section, st.prevName);
    var rest := Calls(items[1..], SectionAfter(items[0], st.section), NameAfter(items[0], st.prevName));
    assert st.calls + (cs + rest) == (st.calls + cs) + rest;
  }

  lemma StepMeansTail(step: (Parse, string) -> Parse, lineno: nat, lines: seq<string>, items: seq<Item>, accept: Handler)
    requires items != [] && |lines| == |items| && StepMeans(step, lineno, lines, items, accept)
    ensures StepMeans(step, lineno + 1, lines[1..], items[1..], accept)
  {
    forall s: Parse, k | 0 <= k < |items| - 1 && s.lineno == lineno + 1 + k && Legal(items[1..][k], s.prevName)
      ensures step(s, lines[1..][k]) == Did(s.(lineno := s.lineno + 1), items[1..][k], accept)
    {
      assert lines[1..][k] == lines[k + 1] && items[1..][k] == items[k + 1];
    }
  }

  lemma {:induction false} FoldMeans(step: (Parse, string) -> Parse, st: Parse, lines: seq<string>, items: seq<Item>,
                                     accept: Handler)
    requires |lines| == |items| && AllLegal(items, st.prevName) && (st.lineno == 0 ==> st.prevName == [])
    requires StepMeans(step, st.lineno, lines, items, accept)
    ensures Fold(step, st, lines) == Meaning(st, items, accept)
    decreases |items|
  {
    if items == [] {
      assert st.calls + [] == st.calls;
    } else {
      var u := Did(st.(lineno := st.lineno + 1), items[0], accept);
      assert step(st, lines[0]) == u;
      StepMeansTail(step, st.lineno, lines, items, accept);
      FoldMeans(step, u, lines[1..], items[1..], accept);
      MeaningStep(st, items, accept);
    }
  }

  /** What the parser does with lines is what their items stand for: the calls with the sections and
      names that the items give, and the number of the first line that is nothing or whose call is
      refused. */
  lemma LinesMean(lines: seq<string>, items: seq<Item>, accept: Handler)
    requires AllSpell(lines, items) && AllLegal(items, [])
    ensures Lines(START, lines, accept) == Meaning(START, items, accept)
  {
    var step := (s, l) => Line(s, l, accept);
    forall s: Parse, k | 0 <= k < |items| && s.lineno == k && Legal(items[k], s.prevName) && (s.lineno == 0 ==> s.prevName == [])
      ensures step(s, lines[k]) == Did(s.(lineno := s.lineno + 1), items[k], accept)
    {
      LineMeans(s, lines[k], items[k], accept);
    }
    LinesIsFold(START, lines, accept);
    FoldMeans(step, START, lines, items, accept);
  }

  lemma {:induction false} EveryLinesAreItems(lines: seq<string>, first: bool, prev: string) returns (items: seq<Item>)
    ensures |lines| == |items| && AllLegal(items, prev)
    ensures forall k :: 0 <= k < |items| ==> Spells(lines[k], items[k], first && k == 0)
    decreases |lines|
  {
    items := [];
    if lines != [] {
      var i := EveryLineIsAnItem(lines[0], first, prev);
      var rest := EveryLinesAreItems(lines[1..], false, NameAfter(i, prev));
      items := [i] + rest;
      assert items[1..] == rest;
      forall k | 0 <= k < |items| ensures Spells(lines[k], items[k], first && k == 0) {
        if k > 0 {
          assert lines[k] == lines[1..][k - 1] && items[k] == rest[k - 1];
        }
      }
    }
  }

  /** The text is spelled by these items, line for line as the reader delivers it. */
  predicate SpelledBy(text: string, items: seq<Item>) {
    AllSpell(Pieces(text, MAX_LINE), items) && AllLegal(items, [])
  }

  lemma SpelledTextIsRead(text: string, items: seq<Item>, accept: Handler)
    requires SpelledBy(text, items)
    ensures ParseText(text, accept).calls == Calls(items, [], [])
    ensures ParseText(text, accept).error == FirstProblem(items, [], [], [], 1, accept)
  {
    LinesMean(Pieces(text, MAX_LINE), items, accept);
    assert [] + Calls(items, [], []) == Calls(items, [], []);
  }

  lemma EveryTextIsSpelled(text: string) returns (items: seq<Item>)
    ensures SpelledBy(text, items)
  {
    items := EveryLinesAreItems(Pieces(text, MAX_LINE), true, []);
  }

  /** Every text, whatever it holds, is spelled by items; the parser makes the calls that they stand for
      and answers the number of the first problem. */
  lemma EveryTextMeansItsItems(text: string, accept: Handler) returns (items: seq<Item>)
    ensures SpelledBy(text, items)
    ensures ParseText(text, accept).calls == Calls(items, [], [])
    ensures ParseText(text, accept).error == FirstProblem(items, [], [], [], 1, accept)
  {
    items := EveryTextIsSpelled(text);
    SpelledTextIsRead(text, items, accept);
  }

  // ---- Printing and parsing -------------------------------------------------------------------

  lemma {:induction false} PieceIs(l: string, rest: string, room: nat)
    requires 0 < |l| <= room && forall k :: 0 <= k < |l| - 1 ==> l[k] != '\n'
    requires l[|l| - 1] == '\n' || |l| == room || rest == []
    ensures PieceLen(l + rest, room) == |l|
    decreases |l|
  {
    if |l| > 1 {
      assert (l + rest)[1..] == l[1..] + rest;
      PieceIs(l[1..], rest, room - 1);
    } else if l[0] != '\n' {
      assert (l + rest)[1..] == rest;
    }
  }

  /** Lines that a reader with a buffer of `num` bytes could have delivered. */
  predicate ReaderLines(lines: seq<string>, num: nat) {
    forall i :: 0 <= i < |lines| ==> FitsReader(lines[i], num, i == |lines| - 1)
  }

  /** Such lines are what the reader delivers of their text. */
  lemma {:induction false} JoinedLinesAreDelivered(lines: seq<string>, num: nat)
    requires num >= 2 && ReaderLines(lines, num)
    ensures Pieces(Join(lines), num) == lines
    decreases |lines|
  {
    if lines != [] {
      var l, tail := lines[0], lines[1..];
      forall i | 0 <= i < |tail| ensures FitsReader(tail[i], num, i == |tail| - 1) {
        assert tail[i] == lines[i + 1];
      }
      JoinedLinesAreDelivered(tail, num);
      var text := l + Join(tail);
      assert |tail| == 0 ==> Join(tail) == [];
      PieceIs(l, Join(tail), num - 1);
      PiecesStep(text, num, |l|);
      assert text[..|l|] == l && text[|l|..] == Join(tail);
      assert lines == [l] + tail;
    }
  }

  /** Round trip: the text of any items that can follow each other, printed one to a line, is parsed
      into the calls that they stand for, with the number of the first problem. */
  lemma PrintThenParse(lines: seq<string>, items: seq<Item>, accept: Handler)
    requires ReaderLines(lines, MAX_LINE) && AllSpell(lines, items) && AllLegal(items, [])
    ensures ParseText(Join(lines), accept).calls == Calls(items, [], [])
    ensures ParseText(Join(lines), accept).error == FirstProblem(items, [], [], [], 1, accept)
  {
    JoinedLinesAreDelivered(lines, MAX_LINE);
    SpelledTextIsRead(Join(lines), items, accept);
  }

  /** The calls of the continuations among some items. */
  function Repeated(items: seq<Item>, section: string, name: string): seq<Call> {
    if items == [] then []
    else (if items[0].More? then [Call(section, name, items[0].text)] else []) + Repeated(items[1..], section, name)
  }

  /** Behind a pair every continuation, over blank lines and comments, makes one more call with the
      section and the name of the pair, cut to 49 characters, and with the whole text as its value. A
      heading ends that: no line behind it is a continuation until the next pair. */
  lemma ContinuationsRepeatTheName(pair: Item, items: seq<Item>, heading: Item, section: string, prev: string)
    requires pair.Pair? && heading.Section? && forall k :: 0 <= k < |items| ==> items[k].Note? || items[k].More?
    ensures Calls([pair] + items, section, prev)
         == [Call(section, pair.name, pair.value)] + Repeated(items, section, First49(pair.name))
    ensures forall i: Item :: i.More? ==> !Legal(i, NameAfter(heading, prev))
  {
    assert ([pair] + items)[1..] == items;
    OnlyRepeated(items, section, First49(pair.name));
  }

  lemma {:induction false} OnlyRepeated(items: seq<Item>, section: string, prev: string)
    requires forall k :: 0 <= k < |items| ==> items[k].Note? || items[k].More?
    ensures Calls(items, section, prev) == Repeated(items, section, prev)
    ensures SectionAtEnd(items, section) == section && NameAtEnd(items, prev) == prev
    decreases |items|
  {
    if items != [] {
      OnlyRepeated(items[1..], section, prev);
    }
  }

  lemma {:induction false} CallsAppend(a: seq<Item>, b: seq<Item>, section: string, prev: string)
    ensures Calls(a + b, section, prev) == Calls(a, section, prev) + Calls(b, SectionAtEnd(a, section), NameAtEnd(a, prev))
    decreases |a|
  {
    if a == [] {
      assert a + b == b;
    } else {
      assert (a + b)[1..] == a[1..] + b;
      CallsAppend(a[1..], b, SectionAfter(a[0], section), NameAfter(a[0], prev));
    }
  }

  /** A byte order mark in front of a text changes nothing. */
  lemma BomMeansNothing(l: string, rest: seq<string>, accept: Handler)
    requires !StartsWithBom(l)
    ensures Lines(START, [BOM + l] + rest, accept) == Lines(START, [l] + rest, accept)
  {
    var i := EveryLineIsAnItem(l, true, []);
    assert (BOM + l)[3..] == l && (BOM + l)[..3] == BOM;
    LineMeans(START, BOM + l, i, accept);
    LineMeans(START, l, i, accept);
    LinesCons(START, BOM + l, rest, accept);
    LinesCons(START, l, rest, accept);
  }
}
