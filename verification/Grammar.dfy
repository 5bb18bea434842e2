/** The trace format as a grammar, and that the parser reads exactly that. The grammar says how a line is put
    together; it calls none of the scanning functions. */
module Grammar {
  import opened Common
  import opened Ledger
  import opened Engine
  import opened Scanning
  import opened Trace
  import opened Grouping

  predicate Blank(s: string) {
    forall j :: 0 <= j < |s| ==> IsSpace(s[j])
  }

  predicate Digits(s: string) {
    forall j :: 0 <= j < |s| ==> IsDigit(s[j])
  }

  // ---------- the grammar ----------

  /** Spaces, one to 31 other characters, and the rest; a shorter word ends at a space or with the line. */
  predicate WordAfter(pad: string, s: string, w: string, rest: string) {
    && s == pad + (w + rest) && Blank(pad)
    && 0 < |w| <= 31 && (forall j :: 0 <= j < |w| ==> !IsSpace(w[j]))
    && (|w| < 31 ==> Delimited(rest))
  }

  ghost predicate WordAt(s: string, w: string, rest: string) {
    exists pad :: WordAfter(pad, s, w, rest)
  }

  /** Spaces, a sign or none, digits, and the rest. */
  predicate IntAfter(pad: string, sign: string, digits: string, s: string, n: int, rest: string) {
    && s == pad + (sign + (digits + rest)) && Blank(pad)
    && (sign == "" || sign == "+" || sign == "-")
    && digits != "" && Digits(digits) && (rest == "" || !IsDigit(rest[0]))
    && (sign == "-" ==> -n == Numeral(digits)) && (sign != "-" ==> n == Numeral(digits))
  }

  ghost predicate IntAt(s: string, n: int, rest: string) {
    exists pad, sign, digits :: IntAfter(pad, sign, digits, s, n, rest)
  }

  /** T and the id; what follows the id in the label does not matter. */
  ghost predicate LabelSays(tag: string, id: int) {
    tag != "" && tag[0] == 'T' && exists rest :: IntAt(tag[1..], id, rest)
  }

  function Word(kind: OpType): string {
    match kind
    case Deposit => "DEPOSIT"
    case Withdraw => "WITHDRAW"
    case Transfer => "TRANSFER"
    case Balance => "BALANCE"
  }

  ghost predicate TwoInts(s: string, a: int, b: int) {
    exists r, rest :: IntAt(s, a, r) && IntAt(r, b, rest)
  }

  ghost predicate ThreeInts(s: string, a: int, b: int, c: int) {
    exists r :: IntAt(s, a, r) && TwoInts(r, b, c)
  }

  /** The numbers of an operation: account; account and amount; account, target and amount. */
  ghost predicate ArgumentsSay(s: string, op: Operation) {
    match op.kind
    case Deposit => op.target == -1 && TwoInts(s, op.account, op.amount)
    case Withdraw => op.target == -1 && TwoInts(s, op.account, op.amount)
    case Transfer => ThreeInts(s, op.account, op.target, op.amount)
    case Balance => op.target == -1 && op.amount == 0 && exists rest :: IntAt(s, op.account, rest)
  }

  ghost predicate LineParts(s: string, e: Entry, tag: string, afterTag: string, afterTick: string, afterWord: string) {
    && WordAt(s, tag, afterTag) && LabelSays(tag, e.id)
    && IntAt(afterTag, e.tick, afterTick) && e.tick >= 0
    && WordAt(afterTick, Word(e.op.kind), afterWord)
    && ArgumentsSay(afterWord, e.op)
  }

  /** The line states the entry: label, tick, operation word, numbers. */
  ghost predicate LineSays(s: string, e: Entry) {
    exists tag, afterTag, afterTick, afterWord :: LineParts(s, e, tag, afterTag, afterTick, afterWord)
  }

  /** Blank, or a comment. */
  ghost predicate Ignorable(s: string) {
    exists pad, rest :: IgnorableAs(s, pad, rest)
  }

  predicate IgnorableAs(s: string, pad: string, rest: string) {
    s == pad + rest && Blank(pad) && (rest == "" || rest[0] == '#')
  }

  // ---------- the scanning functions follow it ----------

  /** What is skipped is a blank prefix. */
  lemma {:induction false} SkipSplits(s: string) returns (pad: string)
    ensures s == pad + SkipSpaces(s) && Blank(pad)
  {
    if s != "" && IsSpace(s[0]) {
      var more := SkipSplits(s[1..]);
      pad := [s[0]] + more;
    } else {
      pad := "";
    }
  }

  lemma {:induction false} SkipsPad(pad: string, rest: string)
    requires Blank(pad) && (rest == "" || !IsSpace(rest[0]))
    ensures SkipSpaces(pad + rest) == rest
  {
    if pad != "" {
      assert (pad + rest)[1..] == pad[1..] + rest;
      SkipsPad(pad[1..], rest);
    } else {
      assert pad + rest == rest;
    }
  }

  lemma WordReads(s: string, w: string, rest: string)
    ensures ScanWord(s) == Match(w, rest) <==> WordAt(s, w, rest)
  {
    hide ScanWord, WordAfter;
    if ScanWord(s) == Match(w, rest) {
      WordSplits(s, w, rest);
    }
    if WordAt(s, w, rest) {
      var pad :| WordAfter(pad, s, w, rest);
      WordScans(pad, s, w, rest);
    }
  }

  lemma WordSplits(s: string, w: string, rest: string)
    requires ScanWord(s) == Match(w, rest)
    ensures WordAt(s, w, rest)
  {
    hide SkipSpaces, WordLength;
    var pad := SkipSplits(s);
    assert SkipSpaces(s) == w + rest;
    assert WordAfter(pad, s, w, rest);
  }

  lemma WordScans(pad: string, s: string, w: string, rest: string)
    requires WordAfter(pad, s, w, rest)
    ensures ScanWord(s) == Match(w, rest)
  {
    hide SkipSpaces, WordLength;
    SkipsPad(pad, w + rest);
    WordStops(w, rest, 31);
    assert (w + rest)[..|w|] == w && (w + rest)[|w|..] == rest;
  }

  lemma IntReads(s: string, n: int, rest: string)
    ensures ScanInt(s) == Match(n, rest) <==> IntAt(s, n, rest)
  {
    hide Numeral, DigitsLength, SkipSpaces;
    if ScanInt(s) == Match(n, rest) {
      IntSplits(s, n, rest);
    }
    if IntAt(s, n, rest) {
      var pad, sign, digits :| IntAfter(pad, sign, digits, s, n, rest);
      IntScans(pad, sign, digits, s, n, rest);
    }
  }

  lemma IntSplits(s: string, n: int, rest: string)
    requires ScanInt(s) == Match(n, rest)
    ensures IntAt(s, n, rest)
  {
    hide ScanMagnitude, SkipSpaces, Digits, Numeral, IntAfter, Blank;
    var pad := SkipSplits(s);
    var t := SkipSpaces(s);
    if t != "" && (t[0] == '-' || t[0] == '+') {
      var digits := MagnitudeSplits(t[1..], t[0] == '-', n, rest);
      assert t == [t[0]] + (digits + rest);
      MakeInt(pad, [t[0]], digits, s, n, rest);
    } else {
      var digits := MagnitudeSplits(t, false, n, rest);
      assert digits + rest == "" + (digits + rest);
      MakeInt(pad, "", digits, s, n, rest);
    }
  }

  lemma MagnitudeSplits(u: string, negative: bool, n: int, rest: string) returns (digits: string)
    requires ScanMagnitude(u, negative) == Match(n, rest)
    ensures u == digits + rest && digits != "" && Digits(digits) && (rest == "" || !IsDigit(rest[0]))
    ensures if negative then -n == Numeral(digits) else n == Numeral(digits)
  {
    hide DigitsLength, Numeral;
    digits := u[..DigitsLength(u)];
  }

  lemma MakeInt(pad: string, sign: string, digits: string, s: string, n: int, rest: string)
    requires s == pad + (sign + (digits + rest)) && Blank(pad)
    requires sign == "" || sign == "+" || sign == "-"
    requires digits != "" && Digits(digits) && (rest == "" || !IsDigit(rest[0]))
    requires if sign == "-" then -n == Numeral(digits) else n == Numeral(digits)
    ensures IntAt(s, n, rest)
  {
    hide Numeral;
    assert IntAfter(pad, sign, digits, s, n, rest);
  }

  lemma MagnitudeScans(digits: string, negative: bool, n: int, rest: string)
    requires digits != "" && Digits(digits) && (rest == "" || !IsDigit(rest[0]))
    requires if negative then -n == Numeral(digits) else n == Numeral(digits)
    ensures ScanMagnitude(digits + rest, negative) == Match(n, rest)
  {
    hide DigitsLength, Numeral;
    DigitsStop(digits, rest);
    assert (digits + rest)[..|digits|] == digits && (digits + rest)[|digits|..] == rest;
  }

  lemma IntScans(pad: string, sign: string, digits: string, s: string, n: int, rest: string)
    requires IntAfter(pad, sign, digits, s, n, rest)
    ensures ScanInt(s) == Match(n, rest)
  {
    hide Numeral, SkipSpaces, ScanMagnitude;
    var u := digits + rest;
    var t := sign + u;
    assert u[0] == digits[0] && IsDigit(u[0]);
    MagnitudeScans(digits, sign == "-", n, rest);
    if sign == "" {
      assert t == u;
    } else {
      assert t[0] == sign[0] && t[1..] == u;
    }
    SkipsPad(pad, t);
  }

  lemma LabelReads(tag: string, id: int)
    ensures LabelId(tag) == Some(id) <==> LabelSays(tag, id)
  {
    hide ScanInt, IntAt;
    if tag != "" {
      if LabelId(tag) == Some(id) {
        IntReads(tag[1..], id, ScanInt(tag[1..]).rest);
      }
      if LabelSays(tag, id) {
        var rest :| IntAt(tag[1..], id, rest);
        IntReads(tag[1..], id, rest);
      }
    }
  }

  lemma WordsRead(word: string, kind: OpType)
    ensures OpTypeOf(word) == Some(kind) <==> word == Word(kind)
  {
  }

  lemma OneIntReads(s: string, n: int)
    ensures (ScanInt(s).Match? && ScanInt(s).value == n) <==> exists rest :: IntAt(s, n, rest)
  {
    hide ScanInt, IntAt;
    if ScanInt(s).Match? && ScanInt(s).value == n {
      IntReads(s, n, ScanInt(s).rest);
    }
    if rest :| IntAt(s, n, rest) {
      IntReads(s, n, rest);
    }
  }

  lemma TwoIntsRead(s: string, a: int, b: int)
    ensures TwoInts(s, a, b) <==>
              && ScanInt(s).Match? && ScanInt(s).value == a
              && ScanInt(ScanInt(s).rest).Match? && ScanInt(ScanInt(s).rest).value == b
  {
    hide ScanInt, IntAt;
    if ScanInt(s).Match? && ScanInt(s).value == a {
      IntReads(s, a, ScanInt(s).rest);
      OneIntReads(ScanInt(s).rest, b);
    }
    if TwoInts(s, a, b) {
      var r, rest :| IntAt(s, a, r) && IntAt(r, b, rest);
      IntReads(s, a, r);
      IntReads(r, b, rest);
    }
  }

  lemma ThreeIntsRead(s: string, a: int, b: int, c: int)
    ensures ThreeInts(s, a, b, c) <==>
              ScanInt(s).Match? && ScanInt(s).value == a && TwoInts(ScanInt(s).rest, b, c)
  {
    hide ScanInt, IntAt, TwoInts;
    if ScanInt(s).Match? && ScanInt(s).value == a {
      IntReads(s, a, ScanInt(s).rest);
    }
    if ThreeInts(s, a, b, c) {
      var r :| IntAt(s, a, r) && TwoInts(r, b, c);
      IntReads(s, a, r);
    }
  }

  lemma ArgumentsRead(kind: OpType, s: string, op: Operation)
    ensures ParseArguments(kind, s) == Some(op) <==> op.kind == kind && ArgumentsSay(s, op)
  {
    hide ScanInt, IntAt, TwoInts, ThreeInts;
    OneIntReads(s, op.account);
    TwoIntsRead(s, op.account, op.amount);
    ThreeIntsRead(s, op.account, op.target, op.amount);
    if ScanInt(s).Match? {
      TwoIntsRead(ScanInt(s).rest, op.target, op.amount);
    }
  }

  lemma EntryReads(s: string, e: Entry)
    ensures ParseEntry(s) == Some(e) <==> LineSays(s, e)
  {
    hide ScanInt, ScanWord, IntAt, WordAt, LabelSays, ArgumentsSay, LabelId, OpTypeOf, Word, ParseArguments;
    if ParseEntry(s) == Some(e) {
      ParsedSays(s, e);
    }
    if LineSays(s, e) {
      var tag, afterTag, afterTick, afterWord :| LineParts(s, e, tag, afterTag, afterTick, afterWord);
      SaidParses(s, e, tag, afterTag, afterTick, afterWord);
    }
  }

  lemma ParsedSays(s: string, e: Entry)
    requires ParseEntry(s) == Some(e)
    ensures LineSays(s, e)
  {
    hide ScanInt, ScanWord, IntAt, WordAt, LabelSays, ArgumentsSay, LabelId, OpTypeOf, Word, ParseArguments;
    var tag, afterTag := ScanWord(s).value, ScanWord(s).rest;
    var afterTick := ScanInt(afterTag).rest;
    var word, afterWord := ScanWord(afterTick).value, ScanWord(afterTick).rest;
    WordReads(s, tag, afterTag);
    LabelReads(tag, e.id);
    IntReads(afterTag, e.tick, afterTick);
    WordReads(afterTick, word, afterWord);
    var kind := OpTypeOf(word).value;
    WordsRead(word, kind);
    ArgumentsRead(kind, afterWord, e.op);
    assert LineParts(s, e, tag, afterTag, afterTick, afterWord);
  }

  lemma SaidParses(s: string, e: Entry, tag: string, afterTag: string, afterTick: string, afterWord: string)
    requires LineParts(s, e, tag, afterTag, afterTick, afterWord)
    ensures ParseEntry(s) == Some(e)
  {
    hide ScanInt, ScanWord, IntAt, WordAt, LabelSays, ArgumentsSay, LabelId, OpTypeOf, Word, ParseArguments;
    WordReads(s, tag, afterTag);
    LabelReads(tag, e.id);
    IntReads(afterTag, e.tick, afterTick);
    WordReads(afterTick, Word(e.op.kind), afterWord);
    WordsRead(Word(e.op.kind), e.op.kind);
    ArgumentsRead(e.op.kind, afterWord, e.op);
  }

  // ---------- trailing space ----------

  /** Trimming takes off a blank end, and all of it. */
  lemma {:induction false} TrimSplits(s: string) returns (end: string)
    ensures s == TrimNewline(s) + end && Blank(end)
    ensures TrimNewline(s) == "" || !IsSpace(TrimNewline(s)[|TrimNewline(s)| - 1])
  {
    if s != "" && IsSpace(s[|s| - 1]) {
      var less := TrimSplits(s[..|s| - 1]);
      end := less + [s[|s| - 1]];
    } else {
      end := "";
    }
  }

  lemma {:induction false} TrimIgnoresEnd(s: string, end: string)
    requires Blank(end)
    ensures TrimNewline(s + end) == TrimNewline(s)
  {
    if end == "" {
      assert s + end == s;
    } else {
      assert (s + end)[..|s + end| - 1] == s + end[..|end| - 1];
      TrimIgnoresEnd(s, end[..|end| - 1]);
    }
  }

  /** A newline, a carriage return or any other space at the end of a line changes nothing. */
  lemma TrailingSpaceIgnored(s: string, end: string)
    requires Blank(end)
    ensures ReadLine(s + end) == ReadLine(s)
  {
    hide ShouldSkip, ParseEntry;
    TrimIgnoresEnd(s, end);
  }

  lemma {:induction false} SkipKeepsEnd(s: string, end: string)
    requires Blank(end)
    ensures SkipSpaces(s + end) == if SkipSpaces(s) == "" then "" else SkipSpaces(s) + end
  {
    if s == "" {
      assert s + end == end == end + "";
      SkipsPad(end, "");
    } else if IsSpace(s[0]) {
      assert (s + end)[1..] == s[1..] + end;
      SkipKeepsEnd(s[1..], end);
    }
  }

  lemma {:induction false} DigitsKeepEnd(s: string, end: string)
    requires Blank(end)
    ensures DigitsLength(s + end) == DigitsLength(s)
  {
    if s == "" {
      assert s + end == end;
    } else {
      assert (s + end)[1..] == s[1..] + end;
      DigitsKeepEnd(s[1..], end);
    }
  }

  lemma {:induction false} WordKeepsEnd(s: string, end: string, width: nat)
    requires Blank(end)
    ensures WordLength(s + end, width) == WordLength(s, width)
  {
    if s == "" {
      assert s + end == end;
    } else if width > 0 {
      assert (s + end)[1..] == s[1..] + end;
      WordKeepsEnd(s[1..], end, width - 1);
    }
  }

  /** The scan of a line with a blank end leaves the end over. */
  function WithEnd<T>(r: Scan<T>, end: string): Scan<T> {
    match r
    case Match(v, rest) => Match(v, rest + end)
    case NoMatch => NoMatch
  }

  lemma ScanWordKeepsEnd(s: string, end: string)
    requires Blank(end)
    ensures ScanWord(s + end) == WithEnd(ScanWord(s), end)
  {
    hide SkipSpaces, WordLength;
    SkipKeepsEnd(s, end);
    var t := SkipSpaces(s);
    WordKeepsEnd(t, end, 31);
    var n := WordLength(t, 31);
    if t != "" {
      assert (t + end)[..n] == t[..n] && (t + end)[n..] == t[n..] + end;
    }
  }

  lemma MagnitudeKeepsEnd(u: string, negative: bool, end: string)
    requires Blank(end)
    ensures ScanMagnitude(u + end, negative) == WithEnd(ScanMagnitude(u, negative), end)
  {
    hide DigitsLength, Numeral, Blank;
    DigitsKeepEnd(u, end);
    var n := DigitsLength(u);
    assert (u + end)[..n] == u[..n] && (u + end)[n..] == u[n..] + end;
  }

  lemma ScanIntKeepsEnd(s: string, end: string)
    requires Blank(end)
    ensures ScanInt(s + end) == WithEnd(ScanInt(s), end)
  {
    hide SkipSpaces, ScanMagnitude, Blank;
    SkipKeepsEnd(s, end);
    var t := SkipSpaces(s);
    if t == "" {
      NoMagnitude();
    } else {
      assert (t + end)[0] == t[0] && (t + end)[1..] == t[1..] + end;
      MagnitudeKeepsEnd(t[1..], t[0] == '-', end);
      MagnitudeKeepsEnd(t, false, end);
    }
  }

  lemma NoMagnitude()
    ensures ScanMagnitude("", false) == NoMatch
  {
  }

  lemma ArgumentsKeepEnd(kind: OpType, s: string, end: string)
    requires Blank(end)
    ensures ParseArguments(kind, s + end) == ParseArguments(kind, s)
  {
    hide ScanInt;
    ScanIntKeepsEnd(s, end);
    if ScanInt(s).Match? {
      var r := ScanInt(s).rest;
      ScanIntKeepsEnd(r, end);
      if ScanInt(r).Match? {
        ScanIntKeepsEnd(ScanInt(r).rest, end);
      }
    }
  }

  lemma EntryKeepsEnd(s: string, end: string)
    requires Blank(end)
    ensures ParseEntry(s + end) == ParseEntry(s)
  {
    hide ScanInt, ScanWord, ParseArguments, LabelId, OpTypeOf;
    ScanWordKeepsEnd(s, end);
    if ScanWord(s).Match? {
      var r := ScanWord(s).rest;
      ScanIntKeepsEnd(r, end);
      if ScanInt(r).Match? {
        var r1 := ScanInt(r).rest;
        ScanWordKeepsEnd(r1, end);
        if ScanWord(r1).Match? && OpTypeOf(ScanWord(r1).value).Some? {
          ArgumentsKeepEnd(OpTypeOf(ScanWord(r1).value).value, ScanWord(r1).rest, end);
        }
      }
    }
  }

  // ---------- what a line is ----------

  lemma SkipReads(s: string)
    ensures ShouldSkip(s) <==> Ignorable(s)
  {
    var pad := SkipSplits(s);
    if ShouldSkip(s) {
      assert IgnorableAs(s, pad, SkipSpaces(s));
    }
    if Ignorable(s) {
      var pad', rest :| IgnorableAs(s, pad', rest);
      SkipsPad(pad', rest);
    }
  }

  lemma SkipKeepsVerdict(s: string, end: string)
    requires Blank(end)
    ensures ShouldSkip(s + end) <==> ShouldSkip(s)
  {
    hide SkipSpaces;
    SkipKeepsEnd(s, end);
  }

  /** Every line is read as what it is: ignored when it is blank or a comment, an entry when it states that entry,
      and malformed when it is neither. */
  lemma LineIsRead(raw: string)
    ensures ReadLine(raw) == Skipped <==> Ignorable(raw)
    ensures forall e :: ReadLine(raw) == Parsed(e) <==> !Ignorable(raw) && LineSays(raw, e)
    ensures ReadLine(raw) == Malformed <==> !Ignorable(raw) && !exists e :: LineSays(raw, e)
  {
    hide TrimNewline, ShouldSkip, ParseEntry, LineSays, Ignorable;
    var end := TrimSplits(raw);
    var s := TrimNewline(raw);
    SkipKeepsVerdict(s, end);
    EntryKeepsEnd(s, end);
    SkipReads(raw);
    forall e ensures ParseEntry(raw) == Some(e) <==> LineSays(raw, e) {
      EntryReads(raw, e);
    }
    if ParseEntry(raw).Some? {
      assert LineSays(raw, ParseEntry(raw).value);
    }
  }

  // ---------- what a trace is ----------

  /** The lines state the entries, in order, between lines to be ignored. */
  ghost predicate Reads(lines: seq<string>, es: seq<Entry>) {
    if lines == [] then es == []
    else
      var n := |lines| - 1;
      if Ignorable(lines[n]) then Reads(lines[..n], es)
      else es != [] && LineSays(lines[n], es[|es| - 1]) && Reads(lines[..n], es[..|es| - 1])
  }

  lemma {:induction false} ReadsEntries(lines: seq<string>, es: seq<Entry>)
    ensures Reads(lines, es) <==> AllWellFormed(lines) && es == Entries(lines)
  {
    hide ReadLine, LineSays, Ignorable, AllWellFormed;
    if lines == [] {
      NoLines();
    } else {
      var n := |lines| - 1;
      LineIsRead(lines[n]);
      WellFormedStep(lines);
      ReadsEntries(lines[..n], es);
      if es != [] {
        var m := |es| - 1;
        ReadsEntries(lines[..n], es[..m]);
        assert es == es[..m] + [es[m]];
      }
    }
  }

  lemma NoLines()
    ensures AllWellFormed([])
  {
  }

  /** The lines state acceptable entries, and `txs` are their groups. */
  ghost predicate Describes(lines: seq<string>, txs: seq<Tx>) {
    exists es :: Reads(lines, es) && Acceptable(es) && txs == Grouped(es)
  }

  /** The parser accepts exactly the traces that describe some transactions, and returns these. */
  lemma TraceIsRead(lines: seq<string>, txs: seq<Tx>)
    ensures ParseTrace(lines) == Some(txs) <==> Describes(lines, txs)
  {
    hide Reads, ParseTrace, Acceptable, Grouped, AllWellFormed;
    ParserGroups(lines);
    ReadsEntries(lines, Entries(lines));
    forall es | Reads(lines, es) ensures AllWellFormed(lines) && es == Entries(lines) {
      ReadsEntries(lines, es);
    }
  }

  /** `lines` are the `core` lines, each with any blank end, with ignorable lines anywhere between. */
  ghost predicate Decorates(lines: seq<string>, core: seq<string>) {
    if lines == [] then core == []
    else
      var n := |lines| - 1;
      || (Ignorable(lines[n]) && Decorates(lines[..n], core))
      || (core != [] && Extends(lines[n], core[|core| - 1]) && Decorates(lines[..n], core[..|core| - 1]))
  }

  predicate Extends(line: string, core: string) {
    core <= line && Blank(line[|core|..])
  }

  /** Line ends, comments and blank lines do not matter. */
  lemma {:induction false} DecorationIgnored(lines: seq<string>, core: seq<string>)
    requires Decorates(lines, core)
    ensures ParseTrace(lines) == ParseTrace(core)
  {
    hide ReadLine, AddEntry, Ignorable;
    if lines != [] {
      var n := |lines| - 1;
      LineIsRead(lines[n]);
      if Ignorable(lines[n]) && Decorates(lines[..n], core) {
        DecorationIgnored(lines[..n], core);
      } else {
        var m := |core| - 1;
        DecorationIgnored(lines[..n], core[..m]);
        assert lines[n] == core[m] + lines[n][|core[m]|..];
        TrailingSpaceIgnored(core[m], lines[n][|core[m]|..]);
      }
    }
  }

  function Digit(c: char): int {
    c as int - '0' as int
  }

  /** The numeral of a digit string, digit by digit from the left. */
  lemma {:induction false} NumeralFromLeft(ds: string)
    requires ds != "" && Digits(ds)
    ensures Digits(ds[1..])
    ensures Numeral(ds) == Digit(ds[0]) * Pow10(|ds| - 1) + Numeral(ds[1..])
  {
    var n := |ds| - 1;
    if n == 0 {
      assert ds[..0] == "" == ds[1..];
    } else {
      var front := ds[..n];
      assert Digits(front) && front[0] == ds[0];
      NumeralFromLeft(front);
      LastDigit(ds);
      LastDigit(ds[1..]);
      assert ds[1..][..n - 1] == front[1..];
      TenTimes(Digit(ds[0]), Pow10(n - 1));
    }
  }

  lemma LastDigit(ds: string)
    requires ds != "" && Digits(ds)
    ensures Digits(ds[..|ds| - 1])
    ensures Numeral(ds) == 10 * Numeral(ds[..|ds| - 1]) + Digit(ds[|ds| - 1])
  {
    assert IsDigit(ds[|ds| - 1]);
  }

  lemma TenTimes(d: int, p: nat)
    ensures d * (10 * p) == 10 * (d * p)
  {
  }
}
