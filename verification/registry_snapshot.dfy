/** The text snapshot of a service table: a printer with std::ostringstream and a parser with
    std::istringstream, which must invert each other. */
module RegistrySnapshot {
  import opened Common
  import opened RegistryTable

  // ------------------------------------------------------------- the streams

  predicate IsSpace(c: char) {
    c in " \t\n\U{000b}\U{000c}\r"
  }

  predicate NonSpace(c: char) {
    !IsSpace(c)
  }

  predicate IsDigit(c: char) {
    '0' <= c <= '9'
  }

  function Digits(n: nat): string {
    if n < 10 then ['0' + n as char] else Digits(n / 10) + ['0' + (n % 10) as char]
  }

  function Show(i: int): string {
    if i < 0 then "-" + Digits(-i) else Digits(i)
  }

  function Value(ds: string): nat
    requires forall c :: c in ds ==> IsDigit(c)
  {
    if ds == [] then 0
    else
      var last := ds[|ds| - 1];
      assert last in ds && IsDigit(last);
      10 * Value(ds[..|ds| - 1]) + (last as int - '0' as int)
  }

  function SkipSpace(s: string): string {
    if s != [] && IsSpace(s[0]) then SkipSpace(s[1..]) else s
  }

  /** How many characters at the front satisfy p. */
  function Span(s: string, p: char -> bool): (n: nat)
    ensures n <= |s| && (forall c :: c in s[..n] ==> p(c)) && (n < |s| ==> !p(s[n]))
  {
    if s != [] && p(s[0]) then
      assert s[..1 + Span(s[1..], p)] == [s[0]] + s[1..][..Span(s[1..], p)];
      1 + Span(s[1..], p)
    else 0
  }

  /** operator>> into a string: None when the stream has no more words. */
  function ReadWord(s: string): Option<(string, string)> {
    var u := SkipSpace(s);
    var n := Span(u, NonSpace);
    if n == 0 then None else Some((u[..n], u[n..]))
  }

  /** operator>> into an integer: None when no digits follow. */
  function ReadInt(s: string): Option<(int, string)> {
    var u := SkipSpace(s);
    var signed := u != [] && u[0] in "+-";
    var ds := if signed then u[1..] else u;
    var n := Span(ds, IsDigit);
    if n == 0 then None
    else Some((if signed && u[0] == '-' then 0 - Value(ds[..n]) as int else Value(ds[..n]), ds[n..]))
  }

  // ------------------------------------------------------ printer and parser

  /** std::chrono::duration_cast to milliseconds truncates toward zero. */
  function Milliseconds(ns: int): int {
    if ns >= 0 then ns / 1_000_000 else -(-ns / 1_000_000)
  }

  function LineText(e: Instance): string {
    e.host + (" " + Show(e.port) + (" " + Show(Milliseconds(e.lastHeartbeat))))
  }

  function Lines(v: seq<Instance>): string {
    if v == [] then "" else Lines(v[..|v| - 1]) + (LineText(v[|v| - 1]) + "\n")
  }

  function SectionHead(name: string, n: nat): string {
    name + (" " + Show(n))
  }

  function Section(name: string, v: seq<Instance>): string {
    SectionHead(name, |v|) + "\n" + Lines(v)
  }

  function Sections(t: Table, order: seq<string>): string
    requires forall s :: s in order ==> s in t
  {
    if order == [] then "" else Sections(t, order[..|order| - 1]) + Section(order[|order| - 1], t[order[|order| - 1]])
  }

  /** The snapshot when the map yields its names in the given order. */
  function Snapshot(t: Table, order: seq<string>): string
    requires forall s :: s in order ==> s in t
  {
    Show(|t|) + "\n" + Sections(t, order)
  }

  function ParseLine(s: string): Option<(Instance, string)> {
    match ReadWord(s)
    case None => None
    case Some((host, s1)) =>
      match ReadInt(s1)
      case None => None
      case Some((port, s2)) =>
        match ReadInt(s2)
        case None => None
        case Some((ms, s3)) => Some((Instance(host, port, ms * 1_000_000), s3))
  }

  function ParseLines(s: string, n: nat): Option<(seq<Instance>, string)> {
    if n == 0 then Some(([], s))
    else
      match ParseLines(s, n - 1)
      case None => None
      case Some((v, s1)) =>
        match ParseLine(s1)
        case None => None
        case Some((e, s2)) => Some((v + [e], s2))
  }

  function ParseSection(s: string): Option<(string, seq<Instance>, string)> {
    match ReadWord(s)
    case None => None
    case Some((name, s1)) =>
      match ReadInt(s1)
      case None => None
      case Some((n, s2)) =>
        if n < 0 then None
        else match ParseLines(s2, n)
          case None => None
          case Some((v, s3)) => Some((name, v, s3))
  }

  function ParseSections(s: string, n: nat): Option<(Table, string)> {
    if n == 0 then Some((map[], s))
    else
      match ParseSections(s, n - 1)
      case None => None
      case Some((t, s1)) =>
        match ParseSection(s1)
        case None => None
        case Some((name, v, s2)) => Some((t[name := v], s2))
  }

  /** The table a snapshot text stands for; None when an extraction fails. */
  function Restore(s: string): Option<Table> {
    match ReadInt(s)
    case None => None
    case Some((n, s1)) =>
      if n < 0 then None
      else match ParseSections(s1, n)
        case None => None
        case Some((t, _)) => Some(t)
  }

  // ------------------------------------------------------------ round trips

  /** What stream extraction can give back: a non-empty word without white space. */
  ghost predicate IsWord(w: string) {
    w != "" && forall c :: c in w ==> !IsSpace(c)
  }

  ghost predicate WordHosts(v: seq<Instance>) {
    forall e: Instance :: e in v ==> IsWord(e.host)
  }

  ghost predicate Printable(t: Table) {
    forall s :: s in t ==> IsWord(s) && WordHosts(t[s])
  }

  ghost predicate IsOrder(t: Table, order: seq<string>) {
    Distinct(order) && |order| == |t| && forall s :: s in order <==> s in t
  }

  function Truncated(e: Instance): Instance {
    e.(lastHeartbeat := Milliseconds(e.lastHeartbeat) * 1_000_000)
  }

  function TruncatedAll(v: seq<Instance>): (r: seq<Instance>)
    ensures |r| == |v| && forall i :: 0 <= i < |v| ==> r[i] == Truncated(v[i])
  {
    if v == [] then [] else TruncatedAll(v[..|v| - 1]) + [Truncated(v[|v| - 1])]
  }

  function TruncatedTable(t: Table): Table {
    map s | s in t :: TruncatedAll(t[s])
  }

  ghost function TruncatedPart(t: Table, names: seq<string>): Table
    requires forall s :: s in names ==> s in t
  {
    map s | s in names :: TruncatedAll(t[s])
  }

  ghost predicate EndsWord(rest: string) {
    rest == "" || IsSpace(rest[0])
  }

  lemma SpanExact(a: string, rest: string, p: char -> bool)
    requires (forall c :: c in a ==> p(c)) && (rest == "" || !p(rest[0]))
    ensures Span(a + rest, p) == |a|
  {
    var s, n := a + rest, Span(a + rest, p);
    assert forall i :: 0 <= i < |a| ==> s[i] in a;
    assert forall i :: 0 <= i < n ==> s[..n][i] in s[..n];
    assert rest != "" ==> s[|a|] == rest[0];
  }

  lemma {:induction false} DigitsValue(n: nat)
    ensures Digits(n) != "" && (forall c :: c in Digits(n) ==> IsDigit(c)) && Value(Digits(n)) == n
  {
    if n >= 10 {
      DigitsValue(n / 10);
      var ds := Digits(n);
      assert ds[..|ds| - 1] == Digits(n / 10);
    } else {
      var ds := Digits(n);
      assert ds[..0] == "";
    }
  }

  /** Digits are read back, whatever follows, up to the first character that is no digit. */
  lemma SpanDigits(n: nat, rest: string)
    requires EndsWord(rest)
    ensures var ds, u := Digits(n), Digits(n) + rest;
      u != "" && IsDigit(u[0]) && Span(u, IsDigit) == |ds| && u[..|ds|] == ds && u[|ds|..] == rest
  {
    hide Digits, Value, Span;
    DigitsValue(n);
    SpanExact(Digits(n), rest, IsDigit);
    assert Digits(n)[0] in Digits(n);
  }

  lemma ReadDigits(i: int, rest: string)
    requires EndsWord(rest)
    ensures var u := Show(i) + rest; SkipSpace(u) == u && ReadInt(u) == Some((i, rest))
  {
    hide Digits, Value, Span;
    var n := if i < 0 then -i else i;
    DigitsValue(n);
    SpanDigits(n, rest);
    var u := Show(i) + rest;
    if i < 0 {
      Assoc("-", Digits(n), rest);
      assert u[0] == '-' && u[1..] == Digits(n) + rest;
    }
  }

  /** A printed integer is read back, with or without a blank in front. */
  lemma ReadShown(i: int, rest: string)
    requires EndsWord(rest)
    ensures ReadInt(Show(i) + rest) == Some((i, rest))
    ensures ReadInt(" " + Show(i) + rest) == Some((i, rest))
  {
    hide Show, Span, IsDigit, Value;
    ReadDigits(i, rest);
    var u := Show(i) + rest;
    Assoc(" ", Show(i), rest);
    assert (" " + u)[1..] == u;
    SkipSpaceOnce(u);
  }

  lemma SkipSpaceOnce(u: string)
    ensures SkipSpace(" " + u) == SkipSpace(u)
  {
  }

  /** Extraction of a word skips whatever white space comes first. */
  lemma {:induction false} SkipsBlanks(blanks: string, u: string)
    requires forall c :: c in blanks ==> c in {' ', '\t', '\n', '\r', '\U{000b}', '\U{000c}'}
    requires u == "" || u[0] !in {' ', '\t', '\n', '\r', '\U{000b}', '\U{000c}'}
    ensures SkipSpace(blanks + u) == u
  {
    if blanks == "" {
      assert blanks + u == u;
    } else {
      assert (blanks + u)[1..] == blanks[1..] + u && blanks[0] in blanks;
      assert forall c :: c in blanks[1..] ==> c in blanks;
      SkipsBlanks(blanks[1..], u);
    }
  }

  lemma ReadPrinted(w: string, rest: string)
    requires IsWord(w) && EndsWord(rest)
    ensures ReadWord("\n" + w + rest) == Some((w, rest))
  {
    var s, u := "\n" + w + rest, w + rest;
    assert s[0] == '\n' && s[1..] == u && u[0] == w[0] && w[0] in w;
    assert SkipSpace(s) == SkipSpace(u) == u;
    SpanExact(w, rest, NonSpace);
    assert u[..|w|] == w && u[|w|..] == rest;
  }

  // The printer's text with each line break moved to the front of the line it ends up before,
  // so that the parser, which stops before white space, leaves exactly the rest.

  function Body(v: seq<Instance>): string {
    if v == [] then "" else Body(v[..|v| - 1]) + ("\n" + LineText(v[|v| - 1]))
  }

  function SectionBody(name: string, v: seq<Instance>): string {
    "\n" + (SectionHead(name, |v|) + Body(v))
  }

  function SectionsBody(t: Table, order: seq<string>): string
    requires forall s :: s in order ==> s in t
  {
    if order == [] then ""
    else SectionsBody(t, order[..|order| - 1]) + SectionBody(order[|order| - 1], t[order[|order| - 1]])
  }

  lemma {:induction false} LinesBody(v: seq<Instance>)
    ensures "\n" + Lines(v) == Body(v) + "\n"
  {
    hide LineText;
    if v != [] {
      LinesBody(v[..|v| - 1]);
      var a, b, l := Lines(v[..|v| - 1]), Body(v[..|v| - 1]), LineText(v[|v| - 1]);
      Assoc("\n", a, l + "\n");
      Assoc(b, "\n", l + "\n");
      Assoc("\n", l, "\n");
      Assoc(b, "\n" + l, "\n");
    }
  }

  lemma SectionBodies(name: string, v: seq<Instance>)
    ensures "\n" + Section(name, v) == SectionBody(name, v) + "\n"
  {
    hide SectionHead, Lines, Body;
    LinesBody(v);
    var h := SectionHead(name, |v|);
    Assoc(h, "\n", Lines(v));
    Assoc(h, Body(v), "\n");
    Assoc("\n", h + Body(v), "\n");
  }

  lemma {:induction false} SectionsBodies(t: Table, order: seq<string>)
    requires forall s :: s in order ==> s in t
    ensures "\n" + Sections(t, order) == SectionsBody(t, order) + "\n"
  {
    hide Section, SectionBody;
    if order != [] {
      var front, name := order[..|order| - 1], order[|order| - 1];
      SectionsBodies(t, front);
      SectionBodies(name, t[name]);
      var a, b, l := Sections(t, front), SectionsBody(t, front), Section(name, t[name]);
      Assoc("\n", a, l);
      Assoc(b, "\n", l);
      Assoc(b, SectionBody(name, t[name]), "\n");
    }
  }

  lemma ParsesLine(e: Instance, rest: string)
    requires IsWord(e.host) && EndsWord(rest)
    ensures ParseLine("\n" + LineText(e) + rest) == Some((Truncated(e), rest))
  {
    hide Show, ReadWord, ReadInt, Milliseconds, IsWord;
    var ms := Milliseconds(e.lastHeartbeat);
    var r2 := " " + Show(ms) + rest;
    var r1 := " " + Show(e.port) + r2;
    assert "\n" + LineText(e) + rest == "\n" + e.host + r1;
    ReadPrinted(e.host, r1);
    ReadShown(e.port, r2);
    ReadShown(ms, rest);
  }

  lemma {:induction false} ParsesLines(v: seq<Instance>, rest: string)
    requires WordHosts(v) && EndsWord(rest)
    ensures ParseLines(Body(v) + rest, |v|) == Some((TruncatedAll(v), rest))
  {
    hide LineText, ParseLine, IsWord;
    if v != [] {
      var front, e := v[..|v| - 1], v[|v| - 1];
      var more := "\n" + LineText(e) + rest;
      assert e in v && more[0] == '\n';
      Assoc(Body(front), "\n" + LineText(e), rest);
      ParsesLines(front, more);
      ParsesLine(e, rest);
    } else {
      assert Body(v) + rest == rest;
    }
  }

  lemma ParsesSection(name: string, v: seq<Instance>, rest: string)
    requires IsWord(name) && WordHosts(v) && EndsWord(rest)
    ensures ParseSection(SectionBody(name, v) + rest) == Some((name, TruncatedAll(v), rest))
  {
    hide Show, Body, ReadWord, ReadInt, ParseLines, IsWord, WordHosts;
    var r2 := Body(v) + rest;
    var r1 := " " + Show(|v|) + r2;
    assert SectionBody(name, v) + rest == "\n" + name + r1;
    BodyEndsWord(v, rest);
    ReadPrinted(name, r1);
    ReadShown(|v|, r2);
    ParsesLines(v, rest);
  }

  lemma {:induction false} BodyEndsWord(v: seq<Instance>, rest: string)
    requires EndsWord(rest)
    ensures EndsWord(Body(v) + rest)
  {
    hide LineText;
    if v != [] {
      var l := "\n" + LineText(v[|v| - 1]);
      Assoc(Body(v[..|v| - 1]), l, rest);
      BodyEndsWord(v[..|v| - 1], l + rest);
    } else {
      assert Body(v) + rest == rest;
    }
  }

  lemma {:induction false} ParsesSections(t: Table, order: seq<string>, rest: string)
    requires Printable(t) && Distinct(order) && (forall s :: s in order ==> s in t) && EndsWord(rest)
    ensures ParseSections(SectionsBody(t, order) + rest, |order|) == Some((TruncatedPart(t, order), rest))
  {
    hide SectionBody, ParseSection, IsWord, WordHosts, TruncatedAll, TruncatedPart, IsSpace;
    if order != [] {
      var front, name := order[..|order| - 1], order[|order| - 1];
      SectionEndsWord(name, t[name], rest);
      Assoc(SectionsBody(t, front), SectionBody(name, t[name]), rest);
      ParsesSections(t, front, SectionBody(name, t[name]) + rest);
      ParsesSection(name, t[name], rest);
      PartSnoc(t, front, name);
      assert order == front + [name];
    } else {
      PartNone(t);
      assert SectionsBody(t, order) + rest == rest;
    }
  }

  lemma PartNone(t: Table)
    ensures TruncatedPart(t, []) == map[]
  {
  }

  lemma PartSnoc(t: Table, front: seq<string>, name: string)
    requires name in t && forall s :: s in front ==> s in t
    ensures TruncatedPart(t, front)[name := TruncatedAll(t[name])] == TruncatedPart(t, front + [name])
  {
    hide TruncatedAll;
  }

  lemma SectionEndsWord(name: string, v: seq<Instance>, rest: string)
    ensures EndsWord(SectionBody(name, v) + rest)
  {
  }

  /** h' is h without what is finer than a millisecond: the nearest multiple toward zero. */
  predicate Cut(h: int, h': int) {
    h' % 1_000_000 == 0 && (if h >= 0 then 0 <= h - h' < 1_000_000 && h' >= 0 else 0 <= h' - h < 1_000_000 && h' <= 0)
  }

  /** The same names, and under each name the same hosts and ports in the same order, with
      heartbeats cut to milliseconds. */
  ghost predicate CutTable(t: Table, t': Table) {
    && t'.Keys == t.Keys
    && forall s :: s in t ==> |t'[s]| == |t[s]| && forall i :: 0 <= i < |t[s]| ==> CutInstance(t[s][i], t'[s][i])
  }

  predicate CutInstance(e: Instance, e': Instance) {
    e'.host == e.host && e'.port == e.port && Cut(e.lastHeartbeat, e'.lastHeartbeat)
  }

  lemma TruncatedIsCut(t: Table)
    ensures CutTable(t, TruncatedTable(t))
  {
    hide Milliseconds, Cut;
    forall s, i | s in t && 0 <= i < |t[s]| ensures CutInstance(t[s][i], TruncatedTable(t)[s][i]) {
      MillisecondsCut(t[s][i].lastHeartbeat);
    }
  }

  lemma MillisecondsCut(ns: int)
    ensures Cut(ns, Milliseconds(ns) * 1_000_000)
  {
  }

  /** The text itself, on a table of one service with one instance. */
  lemma SnapshotText()
    ensures Snapshot(map["api" := [Instance("h", 80, 1_500_000_000)]], ["api"]) == "1\napi 1\nh 80 1500\n"
  {
    hide Show, LineText, Lines, SectionHead;
    var t: Table := map["api" := [Instance("h", 80, 1_500_000_000)]];
    assert ["api"][..0] == [];
    OneLine(Instance("h", 80, 1_500_000_000));
    ShownNumbers();
    assert Sections(t, ["api"]) == "" + Section("api", t["api"]);
  }

  lemma OneLine(e: Instance)
    requires e == Instance("h", 80, 1_500_000_000)
    ensures Lines([e]) == "h 80 1500\n" && SectionHead("api", |[e]|) == "api 1"
  {
    hide Show;
    ShownNumbers();
    assert LineText(e) == "h 80 1500";
    assert [e][..0] == [] && Lines([e]) == Lines([]) + (LineText(e) + "\n");
  }

  lemma ShownNumbers()
    ensures Show(1) == "1" && Show(80) == "80" && Show(1500) == "1500"
  {
    assert Digits(8) == "8" && Digits(15) == Digits(1) + "5";
    assert Digits(150) == Digits(15) + "0";
  }

  /** The round trip: for every table with non-empty, blank-free names and hosts, and whatever
      order the map is walked in, restoring the snapshot gives the table back, heartbeats
      truncated to milliseconds. */
  lemma RoundTrip(t: Table, order: seq<string>)
    requires Printable(t) && IsOrder(t, order)
    ensures Restore(Snapshot(t, order)) == Some(TruncatedTable(t))
    ensures CutTable(t, Restore(Snapshot(t, order)).value)
  {
    TruncatedIsCut(t);
    hide Show, Sections, SectionsBody, ReadInt, ParseSections, Printable;
    var body := SectionsBody(t, order) + "\n";
    SectionsBodies(t, order);
    Assoc(Show(|t|), "\n", Sections(t, order));
    assert body[0] == ("\n" + Sections(t, order))[0];
    ReadShown(|t|, body);
    ParsesSections(t, order, "\n");
    assert TruncatedPart(t, order) == TruncatedTable(t);
  }

  lemma TruncatedTwice(t: Table)
    requires Printable(t)
    ensures Printable(TruncatedTable(t)) && TruncatedTable(TruncatedTable(t)) == TruncatedTable(t)
  {
    hide IsWord, Milliseconds;
    var t' := TruncatedTable(t);
    forall s | s in t' ensures IsWord(s) && WordHosts(t'[s]) && TruncatedAll(t'[s]) == t'[s] {
      TruncatedAllTwice(t[s]);
    }
  }

  lemma TruncatedAllTwice(v: seq<Instance>)
    requires WordHosts(v)
    ensures WordHosts(TruncatedAll(v)) && TruncatedAll(TruncatedAll(v)) == TruncatedAll(v)
  {
    hide IsWord, Milliseconds;
    var v' := TruncatedAll(v);
    forall i | 0 <= i < |v| ensures Truncated(v'[i]) == v'[i] && IsWord(v'[i].host) {
      assert v'[i] == Truncated(v[i]) && v[i] in v;
      MillisecondsTwice(v[i].lastHeartbeat);
    }
  }

  lemma MillisecondsTwice(ns: int)
    ensures Milliseconds(Milliseconds(ns) * 1_000_000) == Milliseconds(ns)
  {
  }

  /** A second round trip, in any order again, changes nothing. */
  lemma SecondRoundTrip(t: Table, order: seq<string>, order': seq<string>)
    requires Printable(t) && IsOrder(t, order) && IsOrder(TruncatedTable(t), order')
    ensures Restore(Snapshot(TruncatedTable(t), order')) == Restore(Snapshot(t, order))
  {
    hide Restore, Snapshot, Printable, TruncatedTable;
    RoundTrip(t, order);
    TruncatedTwice(t);
    RoundTrip(TruncatedTable(t), order');
  }

  // --------------------------------------------------------- the exact domain

  lemma WordsAreWords(s: string)
    ensures match ReadWord(s) case None => true case Some((w, _)) => IsWord(w)
  {
  }

  lemma {:induction false} ParsedHosts(s: string, n: nat)
    ensures match ParseLines(s, n) case None => true case Some((v, _)) => WordHosts(v)
  {
    hide ReadWord, ReadInt, IsWord;
    if n > 0 {
      ParsedHosts(s, n - 1);
      match ParseLines(s, n - 1) {
        case None =>
        case Some((_, s1)) => WordsAreWords(s1);
      }
    }
  }

  lemma {:induction false} ParsedNames(s: string, n: nat)
    ensures match ParseSections(s, n) case None => true case Some((t, _)) => Printable(t)
  {
    hide ReadInt, IsWord, WordHosts, ReadWord;
    if n > 0 {
      ParsedNames(s, n - 1);
      match ParseSections(s, n - 1) {
        case None =>
        case Some((_, s1)) => ParsedSection(s1);
      }
    }
  }

  lemma ParsedSection(s: string)
    ensures match ParseSection(s) case None => true case Some((name, v, _)) => IsWord(name) && WordHosts(v)
  {
    hide ReadInt, IsWord, WordHosts, ReadWord, ParseLines;
    WordsAreWords(s);
    if ParseSection(s).Some? {
      var (_, s1) := ReadWord(s).value;
      var (n, s2) := ReadInt(s1).value;
      ParsedHosts(s2, n);
    }
  }

  /** The domain of the round trip is exact: a table with an empty name or host, or one holding
      white space, never comes back. */
  lemma RoundTripExactly(t: Table, order: seq<string>)
    requires IsOrder(t, order)
    ensures Restore(Snapshot(t, order)) == Some(TruncatedTable(t)) <==> Printable(t)
  {
    hide Snapshot, ReadInt, ParseSections, Printable, IsWord, WordHosts, TruncatedTable;
    if Printable(t) {
      RoundTrip(t, order);
    }
    var text := Snapshot(t, order);
    if Restore(text) == Some(TruncatedTable(t)) {
      var (n, s1) := ReadInt(text).value;
      ParsedNames(s1, n);
      TruncatedUnprintable(t);
    }
  }

  lemma TruncatedUnprintable(t: Table)
    requires Printable(TruncatedTable(t))
    ensures Printable(t)
  {
  }
}
