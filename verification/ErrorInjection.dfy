/** The list of error injections that the configuration file builds: one entry per type, found by
    a search and overwritten in place. It behaves like a map. */
module ErrorInjection {
  import opened Bytes
  import opened ConfText
  import opened ConfParser
  import opened ConfLaws
  import opened ConfGrammar

  const NAMES: seq<string> := ["errinj_errno", "errinj_kill_caller", "errinj_noop",
                               "errinj_slowdown", "errinj_alice_reorder", "errinj_alice_delay"]

  const UINT_RANGE := 0x1_0000_0000

  datatype Entry = Entry(kind: nat, opRegexp: Option<string>, pathRegexp: Option<string>,
                         probability: nat, duration: nat)

  // ---- Numbers --------------------------------------------------------------------------------

  predicate IsDigit(c: char) {
    '0' <= c <= '9'
  }

  /** The value of the digits at the front of a text, after those that are already worth `n`. */
  function Digits(s: string, n: nat): nat {
    if s != [] && IsDigit(s[0]) then Digits(s[1..], 10 * n + (s[0] as int - '0' as int)) else n
  }

  /** `atoi`: white space, an optional sign, digits; anything else ends the number. */
  function Atoi(s: string): int {
    var t := LSkip(s);
    if t != [] && t[0] == '-' then 0 - Digits(t[1..], 0)
    else if t != [] && t[0] == '+' then Digits(t[1..], 0)
    else Digits(t, 0)
  }

  /** An option of type `unsigned int`. */
  function Unsigned(s: string): nat {
    Atoi(s) % UINT_RANGE
  }

  const DIGITS: string := "0123456789"

  /** A number in base ten. */
  function Decimal(n: nat): string {
    (if n < 10 then [] else Decimal(n / 10)) + [DIGITS[n % 10]]
  }

  /** Reading one digit. */
  lemma DigitIsItsValue(d: nat, rest: string, n: nat)
    requires d < 10
    ensures IsDigit(DIGITS[d]) && Digits([DIGITS[d]] + rest, n) == Digits(rest, 10 * n + d)
  {
    assert ([DIGITS[d]] + rest)[1..] == rest;
  }

  lemma DecimalStep(n: nat, rest: string)
    ensures Decimal(n) + rest == (if n < 10 then [] else Decimal(n / 10)) + ([DIGITS[n % 10]] + rest)
  {
  }

  /** Reading a printed number is carrying on with its value. */
  lemma {:induction false} DigitsOfDecimal(n: nat, rest: string)
    ensures Digits(Decimal(n) + rest, 0) == Digits(rest, n)
    ensures IsDigit((Decimal(n) + rest)[0])
    decreases n
  {
    var tail := [DIGITS[n % 10]] + rest;
    DecimalStep(n, rest);
    if n < 10 {
      DigitIsItsValue(n % 10, rest, 0);
      assert [] + tail == tail;
    } else {
      DigitsOfDecimal(n / 10, tail);
      DigitIsItsValue(n % 10, rest, n / 10);
    }
  }

  predicate Zeros(s: string) {
    forall k :: 0 <= k < |s| ==> s[k] == '0'
  }

  lemma {:induction false} ZerosDoNotCount(zeros: string, rest: string)
    requires Zeros(zeros)
    ensures Digits(zeros + rest, 0) == Digits(rest, 0)
    decreases |zeros|
  {
    if zeros == [] {
      assert zeros + rest == rest;
    } else {
      assert (zeros + rest)[1..] == zeros[1..] + rest;
      ZerosDoNotCount(zeros[1..], rest);
    }
  }

  predicate NoDigitFirst(s: string) {
    s == [] || !IsDigit(s[0])
  }

  lemma SignIsRead(white: string, sign: string, rest: string)
    requires White(white) && (sign == "" || sign == "+" || sign == "-")
    requires sign == "" ==> rest == [] || (rest[0] !in SPACES && rest[0] != '+' && rest[0] != '-')
    ensures Atoi(white + (sign + rest)) == if sign == "-" then 0 - Digits(rest, 0) else Digits(rest, 0)
  {
    LSkipWhite(white, sign + rest);
    if sign == "" {
      assert sign + rest == rest;
    } else {
      SpaceIsSpace(sign[0]);
      assert (sign + rest)[1..] == rest;
    }
    LSkipNone(sign + rest);
  }

  lemma DigitIsNoSign(c: char)
    requires IsDigit(c)
    ensures c !in SPACES && c != '+' && c != '-'
  {
    SpaceIsSpace(c);
  }

  lemma NumberHead(zeros: string, n: nat, rest: string)
    requires Zeros(zeros)
    ensures var s := zeros + (Decimal(n) + rest); s != [] && s[0] !in SPACES && s[0] != '+' && s[0] != '-'
  {
    var s := zeros + (Decimal(n) + rest);
    DigitsOfDecimal(n, rest);
    assert s[0] == if zeros == [] then (Decimal(n) + rest)[0] else zeros[0];
    DigitIsNoSign(s[0]);
  }

  lemma AtoiOfNumber(white: string, sign: string, zeros: string, n: nat, rest: string)
    requires White(white) && (sign == "" || sign == "+" || sign == "-") && Zeros(zeros) && NoDigitFirst(rest)
    ensures Atoi(white + (sign + (zeros + (Decimal(n) + rest)))) == if sign == "-" then 0 - n else n
  {
    NumberHead(zeros, n, rest);
    ZerosDoNotCount(zeros, Decimal(n) + rest);
    DigitsOfDecimal(n, rest);
    SignIsRead(white, sign, zeros + (Decimal(n) + rest));
  }

  lemma Modulo(n: nat)
    ensures n % UINT_RANGE == n % 4294967296 && (n < 4294967296 ==> n % UINT_RANGE == n)
    ensures var r := (0 - n) % UINT_RANGE; (r + n) % 4294967296 == 0 && 0 <= r < 4294967296
  {
  }

  /** White space, a sign, zeros, a number in base ten and anything that starts with no digit: the option
      is the number, modulo 2 to the 32, and with a minus sign its negative modulo 2 to the 32. */
  lemma NumberIsRead(white: string, sign: string, zeros: string, n: nat, rest: string)
    requires White(white) && (sign == "" || sign == "+" || sign == "-") && Zeros(zeros) && NoDigitFirst(rest)
    ensures var r := Unsigned(white + (sign + (zeros + (Decimal(n) + rest))));
            && (sign != "-" ==> r == n % 4294967296) && (sign != "-" && n < 4294967296 ==> r == n)
            && (sign == "-" ==> (r + n) % 4294967296 == 0 && r < 4294967296)
  {
    AtoiOfNumber(white, sign, zeros, n, rest);
    Modulo(n);
  }

  /** Text without a number is 0. */
  lemma NoNumberIsZero(white: string, sign: string, rest: string)
    requires White(white) && (sign == "" || sign == "+" || sign == "-") && NoDigitFirst(rest)
    requires sign == "" ==> rest == [] || (rest[0] !in SPACES && rest[0] != '+' && rest[0] != '-')
    ensures Unsigned(white + (sign + rest)) == 0
  {
    SignIsRead(white, sign, rest);
  }

  // ---- The handler as functions ---------------------------------------------------------------

  /** The type a section names, or -1. The loop runs to the end and keeps the last match. */
  method ErrinjTypeByName(name: string) returns (idx: int)
    ensures idx == TypeOf(name)
  {
    idx := -1;
    var i := 0;
    while i < |NAMES|
      invariant 0 <= i <= |NAMES| && -1 <= idx < i
      invariant idx == -1 ==> forall k :: 0 <= k < i ==> NAMES[k] != name
      invariant idx >= 0 ==> NAMES[idx] == name
    {
      if NAMES[i] == name {
        idx := i;
      }
      i := i + 1;
    }
    NamesAreDistinct();
  }

  lemma NamesAreDistinct()
    ensures forall i, j :: 0 <= i < j < |NAMES| ==> NAMES[i] != NAMES[j]
  {
    assert NAMES[0][8] == 'r' && NAMES[0][7] == 'e';
    assert NAMES[1][7] == 'k' && NAMES[2][7] == 'n' && NAMES[3][7] == 's' && NAMES[4][7] == 'a' && NAMES[5][7] == 'a';
    assert |NAMES[4]| != |NAMES[5]|;
  }

  function TypeOf(name: string): (t: int)
    ensures -1 <= t < |NAMES|
    ensures t >= 0 ==> NAMES[t] == name
    ensures t == -1 ==> name !in NAMES
  {
    TypeFrom(name, 0)
  }

  function TypeFrom(name: string, i: nat): (t: int)
    requires i <= |NAMES|
    ensures -1 <= t < |NAMES|
    ensures t >= 0 ==> NAMES[t] == name
    ensures t == -1 ==> forall k :: i <= k < |NAMES| ==> NAMES[k] != name
    decreases |NAMES| - i
  {
    if i == |NAMES| then -1 else if NAMES[i] == name then i else TypeFrom(name, i + 1)
  }

  /** The position of the entry of a type, or the length of the list. */
  function Position(entries: seq<Entry>, kind: nat): (i: nat)
    ensures i <= |entries|
    ensures i < |entries| ==> entries[i].kind == kind
    ensures forall k :: 0 <= k < i ==> entries[k].kind != kind
  {
    if entries == [] then 0
    else if entries[0].kind == kind then 0
    else 1 + Position(entries[1..], kind)
  }

  predicate KnownKey(key: string) {
    key == "path_regexp" || key == "op_regexp" || key == "probability" || key == "duration"
  }

  /** What an option does to an entry. */
  function WithOption(e: Entry, key: string, value: string): Entry {
    if key == "path_regexp" then e.(pathRegexp := Some(value))
    else if key == "op_regexp" then e.(opRegexp := Some(value))
    else if key == "probability" then e.(probability := Unsigned(value))
    else if key == "duration" then e.(duration := Unsigned(value))
    else e
  }

  function Blank(kind: nat): Entry {
    Entry(kind, None, None, 0, 0)
  }

  /** What one call of the handler does to the list. */
  function Handle(entries: seq<Entry>, c: Call): seq<Entry> {
    var t := TypeOf(c.section);
    if t == -1 then entries
    else
      var i := Position(entries, t);
      var all := if i < |entries| then entries else entries + [Blank(t)];
      all[i := WithOption(all[i], c.name, c.value)]
  }

  function HandleAll(calls: seq<Call>): seq<Entry> {
    if calls == [] then []
    else Handle(HandleAll(calls[..|calls| - 1]), calls[|calls| - 1])
  }

  /** What the handler answers: -1 for an unknown type, 0 for an unknown option, 1 otherwise. The
      parser takes only 0 for a failure. */
  function Answer(c: Call): int {
    if TypeOf(c.section) == -1 then -1 else if KnownKey(c.name) then 1 else 0
  }

  function Accepts(told: seq<Call>, c: Call): bool {
    Answer(c) != 0
  }

  /** The answer by the names: only an unknown option of a known type is a failure to the parser. */
  lemma AnswerByNames(c: Call)
    ensures Answer(c) == -1 <==> c.section !in NAMES
    ensures c.section in NAMES ==>
              Answer(c) == if c.name in {"path_regexp", "op_regexp", "probability", "duration"} then 1 else 0
    ensures Accepts([], c) <==> Answer(c) == -1 || Answer(c) == 1
  {
    if TypeOf(c.section) >= 0 {
      assert c.section == NAMES[TypeOf(c.section)];
    }
  }

  // ---- The map it stands for ------------------------------------------------------------------

  /** The types that the calls mention, in order of first mention. */
  function Mentioned(calls: seq<Call>): seq<nat> {
    if calls == [] then []
    else
      var before, t := Mentioned(calls[..|calls| - 1]), TypeOf(calls[|calls| - 1].section);
      if t == -1 || t in before then before else before + [t]
  }

  /** The last value that the calls give to an option of a type. */
  function LastValue(calls: seq<Call>, kind: nat, key: string): Option<string> {
    if calls == [] then None
    else
      var c := calls[|calls| - 1];
      if TypeOf(c.section) == kind && c.name == key then Some(c.value)
      else LastValue(calls[..|calls| - 1], kind, key)
  }

  function NumberOr0(value: Option<string>): nat {
    if value.Some? then Unsigned(value.value) else 0
  }

  /** The entry a type must have. */
  function EntryOf(calls: seq<Call>, kind: nat): Entry {
    Entry(kind, LastValue(calls, kind, "op_regexp"), LastValue(calls, kind, "path_regexp"),
          NumberOr0(LastValue(calls, kind, "probability")), NumberOr0(LastValue(calls, kind, "duration")))
  }

  lemma {:induction false} MentionedIsASet(calls: seq<Call>)
    ensures forall i, j :: 0 <= i < j < |Mentioned(calls)| ==> Mentioned(calls)[i] != Mentioned(calls)[j]
    ensures forall t :: t in Mentioned(calls) <==> exists k :: 0 <= k < |calls| && TypeOf(calls[k].section) == t && t >= 0
    decreases |calls|
  {
    if calls != [] {
      var init, c := calls[..|calls| - 1], calls[|calls| - 1];
      MentionedIsASet(init);
      var last := TypeOf(c.section);
      forall t | t in Mentioned(calls)
        ensures exists k :: 0 <= k < |calls| && TypeOf(calls[k].section) == t && t >= 0
      {
        if t in Mentioned(init) {
          var k :| 0 <= k < |init| && TypeOf(init[k].section) == t;
          assert calls[k] == init[k];
        } else {
          assert calls[|calls| - 1] == c;
        }
      }
      forall k | 0 <= k < |calls| && TypeOf(calls[k].section) >= 0
        ensures TypeOf(calls[k].section) in Mentioned(calls)
      {
        if k < |init| {
          assert calls[k] == init[k];
        }
      }
    }
  }

  /** The entry of a type after one more call. */
  lemma EntryAfter(init: seq<Call>, c: Call, kind: nat)
    ensures EntryOf(init + [c], kind)
         == if TypeOf(c.section) == kind then WithOption(EntryOf(init, kind), c.name, c.value) else EntryOf(init, kind)
  {
    assert (init + [c])[..|init|] == init;
  }

  lemma {:induction false} NothingMentionedIsBlank(calls: seq<Call>, kind: nat)
    requires kind !in Mentioned(calls)
    ensures EntryOf(calls, kind) == Blank(kind)
    decreases |calls|
  {
    if calls != [] {
      NothingMentionedIsBlank(calls[..|calls| - 1], kind);
    }
  }

  /** The configuration list is a map: after any calls it holds exactly one entry for each known
      type that was mentioned, in order of first mention, and every option of an entry is the last
      value given for it. */
  lemma {:induction false} ConfigIsAMap(calls: seq<Call>)
    ensures |HandleAll(calls)| == |Mentioned(calls)|
    ensures forall i :: 0 <= i < |Mentioned(calls)| ==> HandleAll(calls)[i] == EntryOf(calls, Mentioned(calls)[i])
    decreases |calls|
  {
    if calls != [] {
      var init, c := calls[..|calls| - 1], calls[|calls| - 1];
      assert calls == init + [c];
      ConfigIsAMap(init);
      HandleIsMapUpdate(init, c);
    }
  }

  lemma HandleIsMapUpdate(init: seq<Call>, c: Call)
    requires var es, ts := HandleAll(init), Mentioned(init);
             |es| == |ts| && forall i :: 0 <= i < |ts| ==> es[i] == EntryOf(init, ts[i])
    ensures var es, ts := Handle(HandleAll(init), c), Mentioned(init + [c]);
            |es| == |ts| && forall i :: 0 <= i < |ts| ==> es[i] == EntryOf(init + [c], ts[i])
  {
    var es, ts := HandleAll(init), Mentioned(init);
    assert (init + [c])[..|init|] == init;
    var t := TypeOf(c.section);
    MentionedIsASet(init);
    forall i | 0 <= i < |ts| ensures es[i].kind == ts[i] {}
    if t != -1 {
      var p := Position(es, t);
      if p == |es| {
        forall i | 0 <= i < |ts| ensures ts[i] != t {
          assert es[i].kind == ts[i];
        }
        NothingMentionedIsBlank(init, t);
      } else {
        assert ts[p] == t;
      }
    }
    forall i | 0 <= i < |Mentioned(init + [c])|
      ensures Handle(es, c)[i] == EntryOf(init + [c], Mentioned(init + [c])[i])
    {
      EntryAfter(init, c, Mentioned(init + [c])[i]);
    }
  }

  /** A configuration that is spelled by items is read back as the map they stand for. */
  lemma PrintedConfigIsReadBack(lines: seq<string>, items: seq<Item>, entries: seq<Entry>)
    requires ReaderLines(lines, MAX_LINE) && AllSpell(lines, items) && AllLegal(items, [])
    requires entries == HandleAll(ParseText(Join(lines), Accepts).calls)
    ensures |entries| == |Mentioned(Calls(items, [], []))|
    ensures forall i :: 0 <= i < |entries| ==>
              entries[i] == EntryOf(Calls(items, [], []), Mentioned(Calls(items, [], []))[i])
  {
    PrintThenParse(lines, items, Accepts);
    ConfigIsAMap(Calls(items, [], []));
  }

  /** Every file, whatever it holds, is read as the map that its items stand for, with the number of the
      first line that is nothing or gives a known type an unknown option. */
  lemma EveryConfigIsItsMap(text: string) returns (items: seq<Item>)
    ensures SpelledBy(text, items)
    ensures var st := ParseText(text, Accepts);
            && st.error == FirstProblem(items, [], [], [], 1, Accepts)
            && |HandleAll(st.calls)| == |Mentioned(Calls(items, [], []))|
            && forall i :: 0 <= i < |HandleAll(st.calls)| ==>
                 HandleAll(st.calls)[i] == EntryOf(Calls(items, [], []), Mentioned(Calls(items, [], []))[i])
  {
    items := EveryTextMeansItsItems(text, Accepts);
    ConfigIsAMap(Calls(items, [], []));
  }

  /** The option of an entry has this value. */
  predicate Set(e: Entry, key: string, value: string) {
    && (key == "path_regexp" ==> e.pathRegexp == Some(value))
    && (key == "op_regexp" ==> e.opRegexp == Some(value))
    && (key == "probability" ==> e.probability == Unsigned(value))
    && (key == "duration" ==> e.duration == Unsigned(value))
  }

  /** After any calls the last one has set its option in the one entry of its type. */
  lemma LastCallWins(calls: seq<Call>, c: Call) returns (p: nat)
    requires c.section in NAMES
    ensures var es := HandleAll(calls + [c]);
            && p < |es| && NAMES[TypeOf(c.section)] == c.section && es[p].kind == TypeOf(c.section)
            && Set(es[p], c.name, c.value)
            && forall q :: 0 <= q < |es| && q != p ==> es[q].kind != es[p].kind
  {
    var all, t := calls + [c], TypeOf(c.section);
    ConfigIsAMap(all);
    MentionedIsASet(all);
    assert all[|all| - 1] == c;
    p :| 0 <= p < |Mentioned(all)| && Mentioned(all)[p] == t;
    EntryAfter(calls, c, t);
    forall q | 0 <= q < |HandleAll(all)| && q != p ensures HandleAll(all)[q].kind != t {
      assert HandleAll(all)[q] == EntryOf(all, Mentioned(all)[q]);
    }
  }

  /** The last line of a configuration, a pair or a continuation, sets its option, whatever the lines
      before it say: a continuation overrides the pair it belongs to. */
  lemma LastLineWins(lines: seq<string>, items: seq<Item>, last: Item, entries: seq<Entry>) returns (p: nat)
    requires ReaderLines(lines, MAX_LINE) && AllSpell(lines, items + [last]) && AllLegal(items + [last], [])
    requires entries == HandleAll(ParseText(Join(lines), Accepts).calls)
    requires (last.Pair? || last.More?) && SectionAtEnd(items, []) in NAMES
    ensures p < |entries| && entries[p].kind < |NAMES| && NAMES[entries[p].kind] == SectionAtEnd(items, [])
    ensures last.Pair? ==> Set(entries[p], last.name, last.value)
    ensures last.More? ==> Set(entries[p], NameAtEnd(items, []), last.text)
  {
    PrintThenParse(lines, items + [last], Accepts);
    CallsAppend(items, [last], [], []);
    var section, name := SectionAtEnd(items, []), NameAtEnd(items, []);
    var c := ItemCalls(last, section, name)[0];
    assert Calls([last], section, name) == [c];
    p := LastCallWins(Calls(items, [], []), c);
  }

  /** A probability or a duration that is printed in base ten is stored as that number. */
  lemma PrintedNumberIsStored(lines: seq<string>, items: seq<Item>, last: Item, entries: seq<Entry>, n: nat)
    returns (p: nat)
    requires ReaderLines(lines, MAX_LINE) && AllSpell(lines, items + [last]) && AllLegal(items + [last], [])
    requires entries == HandleAll(ParseText(Join(lines), Accepts).calls)
    requires last.Pair? && last.value == Decimal(n) && n < 4294967296 && SectionAtEnd(items, []) in NAMES
    ensures p < |entries| && entries[p].kind < |NAMES| && NAMES[entries[p].kind] == SectionAtEnd(items, [])
    ensures last.name == "probability" ==> entries[p].probability == n
    ensures last.name == "duration" ==> entries[p].duration == n
  {
    p := LastLineWins(lines, items, last, entries);
    NumberIsRead("", "", "", n, "");
    assert "" + ("" + ("" + (Decimal(n) + ""))) == Decimal(n);
  }

  // ---- The list itself ------------------------------------------------------------------------

  class ErrorList {
    var entries: seq<Entry>

    constructor ()
      ensures entries == []
    {
      entries := [];
    }

    /** `conf_option_handler`: finds or appends the entry of the section's type and sets the option
        in it. A known type with an unknown option leaves its entry behind all the same. */
    method ConfOptionHandler(section: string, key: string, value: string) returns (r: int)
      modifies this
      ensures entries == Handle(old(entries), Call(section, key, value))
      ensures r == Answer(Call(section, key, value))
    {
      var kind := ErrinjTypeByName(section);
      if kind == -1 {
        return -1;
      }
      var i := 0;
      while i < |entries| && entries[i].kind != kind
        invariant 0 <= i <= |entries| && entries == old(entries)
        invariant Position(entries, kind) == i + Position(entries[i..], kind)
      {
        assert entries[i..][1..] == entries[i + 1..];
        i := i + 1;
      }
      assert i == Position(old(entries), kind);
      if i == |entries| {
        entries := entries + [Blank(kind)];
      }
      if key == "path_regexp" {
        entries := entries[i := entries[i].(pathRegexp := Some(value))];
      } else if key == "op_regexp" {
        entries := entries[i := entries[i].(opRegexp := Some(value))];
      } else if key == "probability" {
        var n := Unsigned(value);
        entries := entries[i := entries[i].(probability := n)];
      } else if key == "duration" {
        var n := Unsigned(value);
        entries := entries[i := entries[i].(duration := n)];
      } else {
        assert entries == entries[i := entries[i]];
        return 0;
      }
      return 1;
    }

    /** The calls that the parser makes, one after the other. */
    method HandleCalls(calls: seq<Call>)
      requires entries == []
      modifies this
      ensures entries == HandleAll(calls)
    {
      var i := 0;
      while i < |calls|
        invariant 0 <= i <= |calls| && entries == HandleAll(calls[..i])
      {
        assert calls[..i + 1][..i] == calls[..i];
        var _ := ConfOptionHandler(calls[i].section, calls[i].name, calls[i].value);
        i := i + 1;
      }
      assert calls[..i] == calls;
    }

    /** `config_delete`: removes the entries from the front, one by one. */
    method ConfigDelete()
      modifies this
      ensures entries == []
    {
      while entries != []
        decreases |entries|
      {
        entries := entries[1..];
      }
    }
  }

  /** `config_init`: an empty list for a missing file, nothing for one that cannot be opened;
      otherwise the list that the handler builds from the calls of the parser, with the number of the
      first failing line. */
  method ConfigInit(file: Option<string>, opens: bool) returns (errors: ErrorList?, r: int)
    requires file.Some? ==> NUL !in file.value
    ensures errors == null <==> file.Some? && !opens
    ensures errors != null ==> fresh(errors)
    ensures file.Some? && !opens ==> r == -1
    ensures file.None? ==> errors.entries == [] && r == 0
    ensures file.Some? && opens ==> var st := ParseText(file.value, Accepts);
              && r == st.error
              && errors.entries == HandleAll(st.calls)
              && |errors.entries| == |Mentioned(st.calls)|
              && (forall i :: 0 <= i < |errors.entries| ==>
                    errors.entries[i] == EntryOf(st.calls, Mentioned(st.calls)[i]))
  {
    var list := new ErrorList();
    r := 0;
    if file.Some? {
      if !opens {
        return null, -1;
      }
      var input := new StringReader(file.value);
      var parser := new IniParser(Accepts);
      r := parser.ParseStream(input);
      list.HandleCalls(parser.calls);
      ConfigIsAMap(parser.calls);
    }
    errors := list;
  }
}
