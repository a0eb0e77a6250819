/** The text of `uci export`: the parser of the repository against the printer of uci.

    The parser pops lines off a list that its three nested loops share. */
module UciExport {
  import opened Wrappers
  import opened Texts
  import opened UciStore

  /** Options as an OrderedDict: keys in the order of their first assignment. */
  type Options = seq<(string, Value)>

  datatype Parsed = Parsed(kind: string, name: string, anonymous: bool, data: Options)

  /** The dictionary of packages, in insertion order. */
  type Packages = seq<(string, seq<Parsed>)>

  // ---------------------------------------------------------------- characters

  /** `\s` of a Python text pattern */
  predicate IsSpace(c: char) {
    || '\U{0009}' <= c <= '\U{000D}' || '\U{001C}' <= c <= '\U{0020}'
    || c == '\U{0085}' || c == '\U{00A0}' || c == '\U{1680}' || '\U{2000}' <= c <= '\U{200A}'
    || c == '\U{2028}' || c == '\U{2029}' || c == '\U{202F}' || c == '\U{205F}' || c == '\U{3000}'
  }

  /** Where `splitlines` cuts. */
  predicate IsBreak(c: char) {
    || '\U{000A}' <= c <= '\U{000D}' || '\U{001C}' <= c <= '\U{001E}'
    || c == '\U{0085}' || c == '\U{2028}' || c == '\U{2029}'
  }

  predicate NoSpace(s: string) {
    forall c | c in s :: !IsSpace(c)
  }

  predicate NoBreak(s: string) {
    forall c | c in s :: !IsBreak(c)
  }

  // ---------------------------------------------------------------- the line patterns

  function DropSpaces(s: string): string {
    if s != "" && IsSpace(s[0]) then DropSpaces(s[1..]) else s
  }

  /** The longest prefix without whitespace: what `[^\s]+` takes before a blank. */
  function Word(s: string): (w: string)
    ensures |w| <= |s| && NoSpace(w)
  {
    if s == "" || IsSpace(s[0]) then "" else [s[0]] + Word(s[1..])
  }

  /** `([^\s]+) ('.+')$` */
  function KeyAndValue(s: string): Option<(string, string)> {
    var key := Word(s);
    if key == "" || |s| < |key| + 4 || s[|key|] != ' ' then None
    else
      var value := s[|key| + 1..];
      if value[0] == '\'' && value[|value| - 1] == '\'' && '\n' !in value then Some((key, value)) else None
  }

  /** `^\s*word ([^\s]+) ('.+')$` */
  function Entry(line: string, word: string): Option<(string, string)> {
    var s := DropSpaces(line);
    if word + " " <= s then KeyAndValue(s[|word| + 1..]) else None
  }

  /** `^package ([^\s]+)$` */
  function PackageName(line: string): Option<string> {
    if "package " <= line && |line| > 8 && NoSpace(line[8..]) then Some(line[8..]) else None
  }

  /** `^config ([^\s]+) '([^\s]+)'$` */
  function SectionHead(line: string): Option<(string, string)> {
    if !("config " <= line) then None
    else
      var s := line[7..];
      var kind := Word(s);
      if kind == "" || |s| < |kind| + 4 || s[|kind|] != ' ' || s[|kind| + 1] != '\'' || s[|s| - 1] != '\'' then None
      else
        var name := s[|kind| + 2..|s| - 1];
        if NoSpace(name) then Some((kind, name)) else None
  }

  /** `^cfg[0-9a-f]{6}$` */
  predicate IsAnonymous(name: string) {
    "cfg" <= name && |name| == 9 && forall i | 3 <= i < 9 :: IsDigit(name[i]) || 'a' <= name[i] <= 'f'
  }

  // ---------------------------------------------------------------- quoting

  /** `e.strip("'")` */
  function Strip(s: string): string {
    if s == "" then ""
    else if s[0] == '\'' then Strip(s[1..])
    else if s[|s| - 1] == '\'' then Strip(s[..|s| - 1])
    else s
  }

  /** `_convert_value`: plain collects the text since the last piece that the pattern
      `'[^']*'|\\'` matched. */
  function Convert(s: string, plain: string): string
    decreases |s|
  {
    if s == "" then Strip(plain)
    else if s[0] == '\'' && '\'' in s[1..] then
      var inner := BeforeFirst(s[1..], '\'');
      BeforeFirstFits(s[1..], '\'');
      Strip(plain) + Strip(s[..|inner| + 2]) + Convert(s[|inner| + 2..], "")
    else if "\\'" <= s then Strip(plain) + "'" + Convert(s[2..], "")
    else Convert(s[1..], plain + [s[0]])
  }

  lemma {:induction false} BeforeFirstFits(s: string, c: char)
    requires c in s
    ensures |BeforeFirst(s, c)| < |s| && s[|BeforeFirst(s, c)|] == c
    ensures s[..|BeforeFirst(s, c)|] == BeforeFirst(s, c)
  {
    if s[0] != c { BeforeFirstFits(s[1..], c); }
  }

  /** How uci writes a quote inside a quoted value. */
  function Escape(v: string): string {
    if v == "" then "" else (if v[0] == '\'' then "'\\''" else [v[0]]) + Escape(v[1..])
  }

  function Quote(v: string): string {
    "'" + Escape(v) + "'"
  }

  lemma {:induction false} EscapeSplits(a: string, w: string)
    requires '\'' !in a
    ensures Escape(a + w) == a + Escape(w)
  {
    if a == "" {
      assert a + w == w;
    } else {
      assert (a + w)[1..] == a[1..] + w;
      EscapeSplits(a[1..], w);
    }
  }

  lemma StripQuoted(a: string)
    requires '\'' !in a
    ensures Strip("'" + a + "'") == a
  {
    assert "'" + a + "'" == ['\''] + (a + ['\'']);
    CutFirst('\'', a + ['\'']);
    StripEnd(a);
  }

  lemma StripEnd(a: string)
    requires '\'' !in a
    ensures Strip(a + ['\'']) == a
  {
    var s := a + ['\''];
    CutLast(a, '\'');
    if a == "" {
      assert s[1..] == "";
    } else {
      assert s[0] == a[0] && a[0] in a;
      StripNothing(a);
    }
  }

  lemma StripNothing(a: string)
    requires a != "" && '\'' !in a
    ensures Strip(a) == a
  {
    assert a[0] in a && a[|a| - 1] in a;
  }

  /** A quoted run without inner quotes is one piece. */
  lemma ConvertRun(a: string, rest: string)
    requires '\'' !in a
    ensures Convert("'" + a + "'" + rest, "") == a + Convert(rest, "")
  {
    var tail := a + ("'" + rest);
    assert "'" + a + "'" + rest == ['\''] + tail;
    CutFirst('\'', tail);
    Cut(a, "'" + rest);
    BeforeFirstOf(a, "'" + rest);
    assert tail[|a|] == '\'';
    ConvertPiece(['\''] + tail);
    assert ['\''] + tail == ("'" + a + "'") + rest;
    Cut("'" + a + "'", rest);
    StripQuoted(a);
  }

  /** One match of the pattern at the front. */
  lemma ConvertPiece(s: string)
    requires s != "" && s[0] == '\'' && '\'' in s[1..]
    ensures var n := |BeforeFirst(s[1..], '\'')| + 2; n <= |s| && Convert(s, "") == Strip(s[..n]) + Convert(s[n..], "")
  {
    BeforeFirstFits(s[1..], '\'');
    assert Strip("") == "";
    var n := |BeforeFirst(s[1..], '\'')| + 2;
    hide BeforeFirst;
    assert "" + Strip(s[..n]) == Strip(s[..n]);
  }

  lemma {:induction false} BeforeFirstOf(a: string, rest: string)
    requires '\'' !in a && rest != "" && rest[0] == '\''
    ensures BeforeFirst(a + rest, '\'') == a
  {
    if a == "" {
      assert a + rest == rest;
    } else {
      assert (a + rest)[1..] == a[1..] + rest;
      BeforeFirstOf(a[1..], rest);
    }
  }

  lemma ConvertEscapedQuote(rest: string)
    ensures Convert("\\'" + rest, "") == "'" + Convert(rest, "")
  {
    var s := "\\'" + rest;
    assert s[0] == '\\' && s[2..] == rest;
  }

  lemma QuoteSplits(a: string, w: string)
    requires '\'' !in a
    ensures Quote(a + "'" + w) == "'" + a + "'" + ("\\'" + Quote(w))
  {
    assert a + "'" + w == a + ("'" + w);
    assert ("'" + w)[1..] == w;
    EscapeSplits(a, "'" + w);
    assert Escape("'" + w) == "'\\''" + Escape(w);
  }

  lemma ConvertPlain(v: string)
    requires '\'' !in v
    ensures Convert(Quote(v), "") == v
  {
    EscapeSplits(v, "");
    assert v + "" == v;
    assert Quote(v) == "'" + v + "'" + "";
    ConvertRun(v, "");
  }

  /** Undoing the quoting gives the value back, whatever quotes and backslashes it holds. */
  lemma {:induction false} ConvertUndoesQuote(v: string)
    ensures Convert(Quote(v), "") == v
    decreases |v|
  {
    if '\'' !in v {
      ConvertPlain(v);
    } else {
      var a := BeforeFirst(v, '\'');
      BeforeFirstFits(v, '\'');
      var w := v[|a| + 1..];
      assert v == a + "'" + w;
      hide Quote, Convert, BeforeFirst, Escape, Strip;
      ConvertUndoesQuote(w);
      QuoteReadsOn(a, w);
    }
  }

  lemma QuoteReadsOn(a: string, w: string)
    requires '\'' !in a && Convert(Quote(w), "") == w
    ensures Convert(Quote(a + "'" + w), "") == a + "'" + w
  {
    hide Quote, Convert;
    QuoteSplits(a, w);
    var rest := "\\'" + Quote(w);
    ConvertRun(a, rest);
    ConvertEscapedQuote(Quote(w));
    assert a + ("'" + w) == a + "'" + w;
  }

  // ---------------------------------------------------------------- the parser, as a function

  function Find(d: Options, key: string): Option<Value> {
    if d == [] then None else if d[0].0 == key then Some(d[0].1) else Find(d[1..], key)
  }

  /** `d[key] = v` */
  function Put<V>(d: seq<(string, V)>, key: string, v: V): seq<(string, V)> {
    if d == [] then [(key, v)]
    else if d[0].0 == key then [(key, v)] + d[1..]
    else [d[0]] + Put(d[1..], key, v)
  }

  /** The dictionary after one line of a section; None where appending to a text raises. */
  function TakeLine(data: Options, line: string): Option<Options> {
    match Entry(line, "option")
    case Some((key, value)) => Some(Put(data, key, Text(Convert(value, ""))))
    case None =>
      match Entry(line, "list")
      case None => Some(data)
      case Some((key, value)) =>
        match Find(data, key)
        case None => Some(Put(data, key, Items([Convert(value, "")])))
        case Some(Items(items)) => Some(Put(data, key, Items(items + [Convert(value, "")])))
        case Some(Text(_)) => None
  }

  predicate EndsSection(line: string) {
    "package" <= line || "config" <= line
  }

  /** `_parse_section`: the options and the lines left, or None where it raises. */
  function SectionOf(data: Options, lines: seq<string>): (r: Option<(Options, seq<string>)>)
    ensures r.Some? ==> |r.value.1| <= |lines|
    decreases |lines|
  {
    if lines == [] || EndsSection(lines[0]) then Some((data, lines))
    else match TakeLine(data, lines[0])
      case None => None
      case Some(more) => SectionOf(more, lines[1..])
  }

  /** `_parse_package`, given the sections found so far */
  function PackageOf(found: seq<Parsed>, lines: seq<string>): (r: Option<(seq<Parsed>, seq<string>)>)
    ensures r.Some? ==> |r.value.1| <= |lines|
    decreases |lines|
  {
    if lines == [] then Some((found, lines))
    else if "config" <= lines[0] then
      match SectionHead(lines[0])
      case None => None
      case Some((kind, name)) =>
        match SectionOf([], lines[1..])
        case None => None
        case Some((data, rest)) => PackageOf(found + [Parsed(kind, name, IsAnonymous(name), data)], rest)
    else if "package" <= lines[0] then Some((found, lines))
    else PackageOf(found, lines[1..])
  }

  /** `_parse_packages`, given the packages found so far */
  function PackagesOf(found: Packages, lines: seq<string>): Option<Packages>
    decreases |lines|
  {
    if lines == [] then Some(found)
    else if !("package" <= lines[0]) then PackagesOf(found, lines[1..])
    else match PackageName(lines[0])
      case None => None
      case Some(name) =>
        match PackageOf([], lines[1..])
        case None => None
        case Some((sections, rest)) => PackagesOf(Put(found, name, sections), rest)
  }

  // ---------------------------------------------------------------- the parser, as it is written

  /** The list of lines that the three nested loops consume from the front. */
  class LineReader {
    var lines: seq<string>

    constructor (lines: seq<string>)
      ensures this.lines == lines
    {
      this.lines := lines;
    }

    method ParseSection() returns (r: Option<Options>)
      modifies this
      ensures r.Some? <==> SectionOf([], old(lines)).Some?
      ensures r.Some? ==> SectionOf([], old(lines)) == Some((r.value, lines))
    {
      var data: Options := [];
      while lines != [] && !EndsSection(lines[0])
        invariant SectionOf(data, lines) == SectionOf([], old(lines))
        decreases |lines|
      {
        var taken := TakeLine(data, lines[0]);
        if taken.None? { return None; }
        data := taken.value;
        lines := lines[1..];
      }
      return Some(data);
    }

    method ParsePackage() returns (r: Option<seq<Parsed>>)
      modifies this
      ensures r.Some? <==> PackageOf([], old(lines)).Some?
      ensures r.Some? ==> PackageOf([], old(lines)) == Some((r.value, lines))
    {
      var found: seq<Parsed> := [];
      while lines != [] && ("config" <= lines[0] || !("package" <= lines[0]))
        invariant PackageOf(found, lines) == PackageOf([], old(lines))
        decreases |lines|
      {
        var line := lines[0];
        lines := lines[1..];
        if "config" <= line {
          var head := SectionHead(line);
          if head.None? { return None; }
          var data := ParseSection();
          if data.None? { return None; }
          var (kind, name) := head.value;
          found := found + [Parsed(kind, name, IsAnonymous(name), data.value)];
        }
      }
      return Some(found);
    }

    method ParsePackages() returns (r: Option<Packages>)
      modifies this
      ensures r == PackagesOf([], old(lines))
    {
      var found: Packages := [];
      while lines != []
        invariant PackagesOf(found, lines) == PackagesOf([], old(lines))
        decreases |lines|
      {
        var line := lines[0];
        lines := lines[1..];
        if "package" <= line {
          var name := PackageName(line);
          if name.None? { return None; }
          var sections := ParsePackage();
          if sections.None? { return None; }
          found := Put(found, name.value, sections.value);
        }
      }
      return Some(found);
    }
  }

  /** `read`: the export text, split into lines and parsed. */
  method Read(text: string) returns (r: Option<Packages>)
    ensures r == PackagesOf([], SplitLines(text, ""))
  {
    var reader := new LineReader(SplitLines(text, ""));
    r := reader.ParsePackages();
  }

  /** `splitlines`: line collects the text since the last break; "\r\n" is one break. */
  function SplitLines(text: string, line: string): seq<string>
    decreases |text|
  {
    if text == "" then (if line == "" then [] else [line])
    else if "\r\n" <= text then [line] + SplitLines(text[2..], "")
    else if IsBreak(text[0]) then [line] + SplitLines(text[1..], "")
    else SplitLines(text[1..], line + [text[0]])
  }

  // ---------------------------------------------------------------- the printer of uci

  function ListLines(key: string, items: seq<string>): seq<string> {
    if items == [] then [] else ["\tlist " + key + " " + Quote(items[0])] + ListLines(key, items[1..])
  }

  function OptionLines(key: string, v: Value): seq<string> {
    match v
    case Text(t) => ["\toption " + key + " " + Quote(t)]
    case Items(items) => ListLines(key, items)
  }

  function DataLines(data: Options): seq<string> {
    if data == [] then [] else OptionLines(data[0].0, data[0].1) + DataLines(data[1..])
  }

  function SectionLines(sections: seq<Parsed>): seq<string> {
    if sections == [] then [""]
    else ["", "config " + sections[0].kind + " '" + sections[0].name + "'"] + DataLines(sections[0].data)
         + SectionLines(sections[1..])
  }

  function PackageLines(packages: Packages): seq<string> {
    if packages == [] then []
    else ["package " + packages[0].0] + SectionLines(packages[0].1) + PackageLines(packages[1..])
  }

  function Unlines(lines: seq<string>): string {
    if lines == [] then "" else lines[0] + "\n" + Unlines(lines[1..])
  }

  /** `uci -n export` */
  function Export(packages: Packages): string {
    Unlines(PackageLines(packages))
  }

  // ---------------------------------------------------------------- what uci can hold

  predicate IsName(s: string) {
    s != "" && NoSpace(s)
  }

  predicate IsText(s: string) {
    s != "" && NoBreak(s)
  }

  ghost predicate WellFormedData(data: Options) {
    && (forall i, j | 0 <= i < j < |data| :: data[i].0 != data[j].0)
    && (forall i | 0 <= i < |data| :: IsName(data[i].0) && WellFormedValue(data[i].1))
  }

  ghost predicate WellFormedValue(v: Value) {
    match v
    case Text(t) => IsText(t)
    case Items(items) => items != [] && forall i | 0 <= i < |items| :: IsText(items[i])
  }

  ghost predicate WellFormedSection(x: Parsed) {
    IsName(x.kind) && IsName(x.name) && x.anonymous == IsAnonymous(x.name) && WellFormedData(x.data)
  }

  ghost predicate WellFormed(packages: Packages) {
    && (forall i, j | 0 <= i < j < |packages| :: packages[i].0 != packages[j].0)
    && (forall i | 0 <= i < |packages| :: IsName(packages[i].0))
    && (forall i, j | 0 <= i < |packages| && 0 <= j < |packages[i].1| :: WellFormedSection(packages[i].1[j]))
  }

  // ---------------------------------------------------------------- patterns find what was printed

  lemma {:induction false} WordOf(w: string, rest: string)
    requires NoSpace(w) && (rest == "" || IsSpace(rest[0]))
    ensures Word(w + rest) == w
  {
    if w == "" {
      assert w + rest == rest;
    } else {
      assert (w + rest)[0] == w[0] && w[0] in w;
      assert (w + rest)[1..] == w[1..] + rest;
      WordOf(w[1..], rest);
    }
  }

  lemma {:induction false} EscapeNoBreak(v: string)
    requires NoBreak(v)
    ensures NoBreak(Escape(v)) && |Escape(v)| >= |v|
  {
    if v != "" {
      assert v[0] in v;
      EscapeNoBreak(v[1..]);
    }
  }

  lemma QuoteShape(v: string)
    requires IsText(v)
    ensures var q := Quote(v); NoBreak(q) && |q| >= 3 && q[0] == '\'' && q[|q| - 1] == '\''
  {
    EscapeNoBreak(v);
  }

  lemma KeyAndValueOf(key: string, q: string)
    requires IsName(key) && NoBreak(q) && |q| >= 3 && q[0] == '\'' && q[|q| - 1] == '\''
    ensures KeyAndValue(key + " " + q) == Some((key, q))
  {
    var s := key + " " + q;
    assert s == key + (" " + q);
    WordOf(key, " " + q);
    assert s[|key| + 1..] == q;
    assert IsBreak('\n');
    hide Word, NoSpace;
  }

  lemma EntryOf(word: string, key: string, v: string)
    requires word != "" && !IsSpace(word[0]) && IsName(key) && IsText(v)
    ensures Entry("\t" + word + " " + key + " " + Quote(v), word) == Some((key, Quote(v)))
  {
    var line, body := "\t" + word + " " + key + " " + Quote(v), word + " " + key + " " + Quote(v);
    hide Quote, KeyAndValue;
    assert line[1..] == body;
    assert DropSpaces(line) == body;
    assert body[|word| + 1..] == key + " " + Quote(v);
    QuoteShape(v);
    KeyAndValueOf(key, Quote(v));
  }

  lemma ListIsNoOption(key: string, v: string)
    ensures Entry("\tlist " + key + " " + Quote(v), "option") == None
  {
    var line, body := "\tlist " + key + " " + Quote(v), "list " + key + " " + Quote(v);
    hide Quote, KeyAndValue;
    assert line[1..] == body;
    assert DropSpaces(line) == body;
    assert body[0] == 'l' && ("option" + " ")[0] == 'o';
  }

  lemma TabbedGoesOn(rest: string)
    ensures !EndsSection("\t" + rest)
  {
    assert ("\t" + rest)[0] == '\t' && "package"[0] == 'p' && "config"[0] == 'c';
  }

  // ---------------------------------------------------------------- one section reads back

  predicate Absent<V>(d: seq<(string, V)>, key: string) {
    forall i | 0 <= i < |d| :: d[i].0 != key
  }

  lemma {:induction false} PutNew<V>(d: seq<(string, V)>, key: string, v: V)
    requires Absent(d, key)
    ensures Put(d, key, v) == d + [(key, v)]
  {
    if d != [] { PutNew(d[1..], key, v); }
  }

  lemma {:induction false} PutLast(d: Options, key: string, v: Value, w: Value)
    requires Absent(d, key)
    ensures Put(d + [(key, v)], key, w) == d + [(key, w)]
    ensures Find(d + [(key, v)], key) == Some(v)
  {
    if d != [] {
      assert (d + [(key, v)])[1..] == d[1..] + [(key, v)];
      PutLast(d[1..], key, v, w);
    }
  }

  lemma {:induction false} FindAbsent(d: Options, key: string)
    requires Absent(d, key)
    ensures Find(d, key) == None
  {
    if d != [] { FindAbsent(d[1..], key); }
  }

  lemma TakeOption(done: Options, key: string, v: string)
    requires Absent(done, key) && IsName(key) && IsText(v)
    ensures TakeLine(done, "\toption " + key + " " + Quote(v)) == Some(done + [(key, Text(v))])
  {
    hide Entry, Quote, Convert, Put;
    EntryOf("option", key, v);
    assert "\t" + "option" + " " + key + " " + Quote(v) == "\toption " + key + " " + Quote(v);
    ConvertUndoesQuote(v);
    PutNew(done, key, Text(v));
  }

  lemma TakeFirstItem(done: Options, key: string, v: string)
    requires Absent(done, key) && IsName(key) && IsText(v)
    ensures TakeLine(done, "\tlist " + key + " " + Quote(v)) == Some(done + [(key, Items([v]))])
  {
    hide Entry, Quote, Convert, Put, Find;
    EntryOf("list", key, v);
    assert "\t" + "list" + " " + key + " " + Quote(v) == "\tlist " + key + " " + Quote(v);
    ListIsNoOption(key, v);
    ConvertUndoesQuote(v);
    FindAbsent(done, key);
    PutNew(done, key, Items([v]));
  }

  lemma TakeNextItem(done: Options, key: string, items: seq<string>, v: string)
    requires Absent(done, key) && IsName(key) && IsText(v)
    ensures TakeLine(done + [(key, Items(items))], "\tlist " + key + " " + Quote(v))
            == Some(done + [(key, Items(items + [v]))])
  {
    hide Entry, Quote, Convert, Put, Find;
    EntryOf("list", key, v);
    assert "\t" + "list" + " " + key + " " + Quote(v) == "\tlist " + key + " " + Quote(v);
    ListIsNoOption(key, v);
    ConvertUndoesQuote(v);
    PutLast(done, key, Items(items), Items(items + [v]));
  }

  /** A line that is taken moves the section parser on by one. */
  lemma SectionStep(data: Options, line: string, lines: seq<string>)
    requires !EndsSection(line) && TakeLine(data, line).Some?
    ensures SectionOf(data, [line] + lines) == SectionOf(TakeLine(data, line).value, lines)
  {
    assert ([line] + lines)[1..] == lines;
  }

  lemma {:induction false} ItemsRead(done: Options, key: string, sofar: seq<string>, items: seq<string>, tail: seq<string>)
    requires Absent(done, key) && IsName(key)
    requires forall i | 0 <= i < |items| :: IsText(items[i])
    ensures SectionOf(done + [(key, Items(sofar))], ListLines(key, items) + tail)
            == SectionOf(done + [(key, Items(sofar + items))], tail)
    decreases |items|
  {
    if items == [] {
      NothingListed(key, tail);
      assert sofar + items == sofar;
    } else {
      var lines := ListLines(key, items[1..]) + tail;
      ListLinesFirst(key, items, tail);
      hide SectionOf, ListLines, Quote, Absent, IsName, IsText;
      ItemRead(done, key, sofar, items[0], lines);
      ItemsRead(done, key, sofar + [items[0]], items[1..], tail);
      OneMoreItem(sofar, items);
    }
  }

  lemma NothingListed(key: string, tail: seq<string>)
    ensures ListLines(key, []) + tail == tail
  {
  }

  lemma OneMoreItem(sofar: seq<string>, items: seq<string>)
    requires items != []
    ensures sofar + [items[0]] + items[1..] == sofar + items
  {
  }

  lemma ListLinesFirst(key: string, items: seq<string>, tail: seq<string>)
    requires items != []
    ensures ListLines(key, items) + tail == ["\tlist " + key + " " + Quote(items[0])] + (ListLines(key, items[1..]) + tail)
  {
    hide Quote;
  }

  /** One more item of a list under way. */
  lemma ItemRead(done: Options, key: string, sofar: seq<string>, item: string, lines: seq<string>)
    requires Absent(done, key) && IsName(key) && IsText(item)
    ensures SectionOf(done + [(key, Items(sofar))], ["\tlist " + key + " " + Quote(item)] + lines)
            == SectionOf(done + [(key, Items(sofar + [item]))], lines)
  {
    var line := "\tlist " + key + " " + Quote(item);
    hide Quote, TakeLine, EndsSection, SectionOf, Absent, IsName, IsText;
    TakeNextItem(done, key, sofar, item);
    assert line == "\t" + ("list " + key + " " + Quote(item));
    TabbedGoesOn("list " + key + " " + Quote(item));
    SectionStep(done + [(key, Items(sofar))], line, lines);
  }

  lemma OptionReads(done: Options, key: string, v: Value, tail: seq<string>)
    requires Absent(done, key) && IsName(key) && WellFormedValue(v)
    ensures SectionOf(done, OptionLines(key, v) + tail) == SectionOf(done + [(key, v)], tail)
  {
    hide Quote, TakeLine, EndsSection, SectionOf;
    match v {
      case Text(t) =>
        var line := "\toption " + key + " " + Quote(t);
        TakeOption(done, key, t);
        assert line == "\t" + ("option " + key + " " + Quote(t));
        TabbedGoesOn("option " + key + " " + Quote(t));
        SectionStep(done, line, tail);
      case Items(items) =>
        var line, lines := "\tlist " + key + " " + Quote(items[0]), ListLines(key, items[1..]) + tail;
        assert ListLines(key, items) + tail == [line] + lines;
        TakeFirstItem(done, key, items[0]);
        assert line == "\t" + ("list " + key + " " + Quote(items[0]));
        TabbedGoesOn("list " + key + " " + Quote(items[0]));
        SectionStep(done, line, lines);
        ItemsRead(done, key, [items[0]], items[1..], tail);
        assert [items[0]] + items[1..] == items;
    }
  }

  lemma {:induction false} DataReads(done: Options, data: Options, tail: seq<string>)
    requires WellFormedData(done + data)
    ensures SectionOf(done, DataLines(data) + tail) == SectionOf(done + data, tail)
    decreases |data|
  {
    if data == [] {
      assert done + data == done && DataLines(data) + tail == tail;
    } else {
      var (key, v) := data[0];
      var all := done + data;
      assert all[|done|] == data[0];
      assert Absent(done, key) by {
        forall i | 0 <= i < |done| ensures done[i].0 != key { assert all[i] == done[i]; }
      }
      assert done + [data[0]] + data[1..] == all;
      hide SectionOf, OptionLines, WellFormedData;
      assert DataLines(data) + tail == OptionLines(key, v) + (DataLines(data[1..]) + tail);
      OptionReads(done, key, v, DataLines(data[1..]) + tail);
      DataReads(done + [data[0]], data[1..], tail);
    }
  }

  // ---------------------------------------------------------------- sections and packages read back

  lemma HeadOf(kind: string, name: string)
    requires IsName(kind) && IsName(name)
    ensures SectionHead("config " + kind + " '" + name + "'") == Some((kind, name))
  {
    var line := "config " + kind + " '" + name + "'";
    var s := kind + (" '" + name + "'");
    assert line[7..] == s;
    WordOf(kind, " '" + name + "'");
    assert s[|kind| + 2..|s| - 1] == name;
    hide Word, NoSpace;
  }

  /** What follows the last section: the end of the text, or the next package. */
  predicate EndsPackage(tail: seq<string>) {
    tail == [] || "package" <= tail[0]
  }

  /** The blank line that starts the next section ends the options of this one. */
  lemma SectionStops(data: Options, sections: seq<Parsed>, tail: seq<string>)
    requires EndsPackage(tail)
    ensures SectionOf(data, SectionLines(sections) + tail) == Some((data, (SectionLines(sections) + tail)[1..]))
  {
    var lines := SectionLines(sections) + tail;
    assert lines[0] == "";
    var rest := lines[1..];
    assert lines == [""] + rest;
    BlankGoesOn(data);
    NextHead(sections, tail);
    hide SectionLines, TakeLine, SectionOf;
    SectionStep(data, "", rest);
    SectionEnds(data, rest);
  }

  lemma BlankGoesOn(data: Options)
    ensures !EndsSection("") && TakeLine(data, "") == Some(data)
  {
  }

  lemma SectionEnds(data: Options, lines: seq<string>)
    requires lines == [] || EndsSection(lines[0])
    ensures SectionOf(data, lines) == Some((data, lines))
  {
    hide EndsSection;
  }

  /** Behind the blank line comes the next section, the next package, or nothing. */
  lemma NextHead(sections: seq<Parsed>, tail: seq<string>)
    requires EndsPackage(tail)
    ensures var rest := (SectionLines(sections) + tail)[1..]; rest == [] || EndsSection(rest[0])
  {
    var lines := SectionLines(sections) + tail;
    if sections == [] {
      assert lines[1..] == tail;
    } else {
      var head := "config " + sections[0].kind + " '" + sections[0].name + "'";
      assert lines[1] == head;
      assert head == "config" + (" " + sections[0].kind + " '" + sections[0].name + "'");
      assert "config" <= head;
    }
  }

  /** A section head moves the package parser over the whole section. */
  lemma PackageStep(found: seq<Parsed>, x: Parsed, lines: seq<string>, rest: seq<string>)
    requires WellFormedSection(x) && SectionOf([], lines) == Some((x.data, rest))
    ensures PackageOf(found, ["config " + x.kind + " '" + x.name + "'"] + lines) == PackageOf(found + [x], rest)
  {
    assert x == Parsed(x.kind, x.name, IsAnonymous(x.name), x.data);
    HeadOf(x.kind, x.name);
    HeadStarts(x.kind, x.name);
    hide SectionHead, SectionOf, WellFormedData, IsName, IsAnonymous, PackageOf;
    PackageOnHead(found, "config " + x.kind + " '" + x.name + "'", x.kind, x.name, lines, x.data, rest);
  }

  lemma HeadStarts(kind: string, name: string)
    ensures "config" <= "config " + kind + " '" + name + "'"
  {
    assert "config " + kind + " '" + name + "'" == "config" + (" " + kind + " '" + name + "'");
  }

  lemma PackageOnHead(found: seq<Parsed>, head: string, kind: string, name: string, lines: seq<string>, data: Options, rest: seq<string>)
    requires "config" <= head && SectionHead(head) == Some((kind, name)) && SectionOf([], lines) == Some((data, rest))
    ensures PackageOf(found, [head] + lines) == PackageOf(found + [Parsed(kind, name, IsAnonymous(name), data)], rest)
  {
    CutFirst(head, lines);
    hide SectionHead, SectionOf, IsAnonymous;
  }

  lemma BlankLine(found: seq<Parsed>, lines: seq<string>)
    ensures PackageOf(found, [""] + lines) == PackageOf(found, lines)
  {
    assert ([""] + lines)[1..] == lines;
  }

  function HeadLine(x: Parsed): string {
    "config " + x.kind + " '" + x.name + "'"
  }

  lemma SectionLinesFirst(x: Parsed, more: seq<Parsed>, tail: seq<string>)
    ensures SectionLines([x] + more) + tail
            == [""] + ([HeadLine(x)] + (DataLines(x.data) + (SectionLines(more) + tail)))
  {
    assert ([x] + more)[1..] == more;
  }

  /** One section, from its blank line to the blank line after it. */
  lemma SectionRead(found: seq<Parsed>, x: Parsed, more: seq<Parsed>, tail: seq<string>)
    requires EndsPackage(tail) && WellFormedSection(x)
    ensures PackageOf(found, SectionLines([x] + more) + tail) == PackageOf(found + [x], SectionLines(more) + tail)
  {
    var rest := SectionLines(more) + tail;
    var body := DataLines(x.data) + rest;
    SectionLinesFirst(x, more, tail);
    assert rest == [""] + rest[1..] by { assert SectionLines(more)[0] == ""; }
    SectionStops(x.data, more, tail);
    assert [] + x.data == x.data;
    hide SectionOf, DataLines, SectionLines, PackageOf;
    DataReads([], x.data, rest);
    BlankLine(found, [HeadLine(x)] + body);
    PackageStep(found, x, body, rest[1..]);
    BlankLine(found + [x], rest[1..]);
  }

  lemma {:induction false} SectionsRead(found: seq<Parsed>, sections: seq<Parsed>, tail: seq<string>)
    requires EndsPackage(tail) && forall x | x in sections :: WellFormedSection(x)
    ensures PackageOf(found, SectionLines(sections) + tail) == Some((found + sections, tail))
    decreases |sections|
  {
    if sections == [] {
      BlankLine(found, tail);
      assert SectionLines(sections) + tail == [""] + tail && found + sections == found;
      assert tail != [] ==> tail[0][0] == 'p';
    } else {
      hide PackageOf, SectionLines, EndsPackage, WellFormedSection;
      var x, more := sections[0], sections[1..];
      assert sections == [x] + more;
      SectionRead(found, x, more, tail);
      SectionsRead(found + [x], more, tail);
      assert found + [x] + more == found + sections;
    }
  }

  /** A package line moves the outermost loop over the whole package. */
  lemma PackagesStep(found: Packages, name: string, lines: seq<string>, sections: seq<Parsed>, rest: seq<string>)
    requires IsName(name) && PackageOf([], lines) == Some((sections, rest))
    ensures PackagesOf(found, ["package " + name] + lines) == PackagesOf(Put(found, name, sections), rest)
  {
    var head := "package " + name;
    assert head == "package" + (" " + name) && head[8..] == name;
    hide PackageOf;
    assert ([head] + lines)[1..] == lines;
  }

  lemma PackageLinesFirst(name: string, sections: seq<Parsed>, rest: Packages)
    ensures PackageLines([(name, sections)] + rest) == ["package " + name] + (SectionLines(sections) + PackageLines(rest))
  {
    var all := [(name, sections)] + rest;
    assert all[1..] == rest;
    hide SectionLines;
    assert PackageLines(all) == ["package " + name] + SectionLines(sections) + PackageLines(rest);
  }

  lemma NextPackage(rest: Packages)
    ensures EndsPackage(PackageLines(rest))
  {
    if rest != [] {
      var line := PackageLines(rest)[0];
      assert line == "package " + rest[0].0;
      assert line[..7] == "package";
    }
  }

  lemma FirstPackage(found: Packages, packages: Packages)
    requires WellFormed(found + packages) && packages != []
    ensures Absent(found, packages[0].0) && IsName(packages[0].0)
    ensures forall x | x in packages[0].1 :: WellFormedSection(x)
    ensures found + [packages[0]] + packages[1..] == found + packages
  {
    hide WellFormedSection, IsName;
    var all := found + packages;
    assert all[|found|] == packages[0];
    forall i | 0 <= i < |found| ensures found[i].0 != packages[0].0 {
      assert all[i] == found[i];
    }
    forall x | x in packages[0].1 ensures WellFormedSection(x) {
      var j :| 0 <= j < |packages[0].1| && packages[0].1[j] == x;
      assert WellFormedSection(all[|found|].1[j]);
    }
    assert IsName(all[|found|].0);
  }

  lemma {:induction false} PackagesRead(found: Packages, packages: Packages)
    requires WellFormed(found + packages)
    ensures PackagesOf(found, PackageLines(packages)) == Some(found + packages)
    decreases |packages|
  {
    if packages == [] {
      assert found + packages == found;
    } else {
      hide PackageOf, PackagesOf, SectionLines, PackageLines, EndsPackage, WellFormedSection, WellFormed, IsName, Absent;
      var name, sections, rest := packages[0].0, packages[0].1, packages[1..];
      assert packages == [(name, sections)] + rest;
      var tail := PackageLines(rest);
      FirstPackage(found, packages);
      PackageLinesFirst(name, sections, rest);
      NextPackage(rest);
      SectionsRead([], sections, tail);
      assert [] + sections == sections;
      PackagesStep(found, name, SectionLines(sections) + tail, sections, tail);
      PutNew(found, name, sections);
      PackagesRead(found + [(name, sections)], rest);
    }
  }

  // ---------------------------------------------------------------- lines and text

  lemma {:induction false} LineReads(line: string, sofar: string, rest: string)
    requires NoBreak(line)
    ensures SplitLines(line + "\n" + rest, sofar) == [sofar + line] + SplitLines(rest, "")
    decreases |line|
  {
    var text := line + "\n" + rest;
    if line == "" {
      assert text[0] == '\n' && text[1..] == rest && sofar + line == sofar;
    } else {
      assert text[0] == line[0] && line[0] in line && IsBreak('\r');
      assert text[1..] == line[1..] + "\n" + rest;
      LineReads(line[1..], sofar + [line[0]], rest);
      assert sofar + [line[0]] + line[1..] == sofar + line;
    }
  }

  lemma {:induction false} LinesRead(lines: seq<string>)
    requires forall i | 0 <= i < |lines| :: NoBreak(lines[i])
    ensures SplitLines(Unlines(lines), "") == lines
  {
    if lines != [] {
      LineReads(lines[0], "", Unlines(lines[1..]));
      LinesRead(lines[1..]);
      assert "" + lines[0] == lines[0];
    }
  }

  lemma NameNoBreak(name: string)
    requires NoSpace(name)
    ensures NoBreak(name)
  {
  }

  lemma {:induction false} DataNoBreak(data: Options)
    requires WellFormedData(data)
    ensures forall i | 0 <= i < |DataLines(data)| :: NoBreak(DataLines(data)[i])
  {
    if data != [] {
      NameNoBreak(data[0].0);
      match data[0].1 {
        case Text(t) => QuoteShape(t);
        case Items(items) => ItemsNoBreak(data[0].0, items);
      }
      hide Quote;
      DataNoBreak(data[1..]);
    }
  }

  lemma {:induction false} ItemsNoBreak(key: string, items: seq<string>)
    requires NoBreak(key) && forall i | 0 <= i < |items| :: IsText(items[i])
    ensures forall i | 0 <= i < |ListLines(key, items)| :: NoBreak(ListLines(key, items)[i])
  {
    if items != [] {
      QuoteShape(items[0]);
      hide Quote;
      ItemsNoBreak(key, items[1..]);
    }
  }

  lemma {:induction false} SectionsNoBreak(sections: seq<Parsed>)
    requires forall x | x in sections :: WellFormedSection(x)
    ensures forall i | 0 <= i < |SectionLines(sections)| :: NoBreak(SectionLines(sections)[i])
  {
    if sections != [] {
      assert sections[0] in sections;
      NameNoBreak(sections[0].kind);
      NameNoBreak(sections[0].name);
      DataNoBreak(sections[0].data);
      SectionsNoBreak(sections[1..]);
    }
  }

  lemma {:induction false} PackagesNoBreak(packages: Packages)
    requires WellFormed(packages)
    ensures forall i | 0 <= i < |PackageLines(packages)| :: NoBreak(PackageLines(packages)[i])
  {
    if packages != [] {
      var (name, sections) := packages[0];
      assert [] + packages == packages;
      FirstPackage([], packages);
      PackageNoBreak(name);
      RestWellFormed(packages);
      hide WellFormed, WellFormedSection, NoBreak, IsName, SectionLines;
      SectionsNoBreak(sections);
      PackagesNoBreak(packages[1..]);
      var first, more := ["package " + name] + SectionLines(sections), PackageLines(packages[1..]);
      assert PackageLines(packages) == first + more;
      forall i | 0 <= i < |first + more| ensures NoBreak((first + more)[i]) {
        if i >= |first| { assert (first + more)[i] == more[i - |first|]; }
      }
    }
  }

  lemma PackageNoBreak(name: string)
    requires IsName(name)
    ensures NoBreak("package " + name)
  {
    NameNoBreak(name);
  }

  lemma RestWellFormed(packages: Packages)
    requires WellFormed(packages) && packages != []
    ensures WellFormed(packages[1..])
  {
    hide WellFormedSection, IsName;
  }

  /** Parsing the export text gives back every package, section, option and list as it was. */
  lemma ExportReadsBack(packages: Packages)
    requires WellFormed(packages)
    ensures PackagesOf([], SplitLines(Export(packages), "")) == Some(packages)
  {
    PackagesNoBreak(packages);
    LinesRead(PackageLines(packages));
    assert [] + packages == packages;
    PackagesRead([], packages);
  }

  // ---------------------------------------------------------------- what was read, as a store

  /** `get_config`: the first package of that name. */
  function ReadConfig(packages: Packages, c: string): Option<seq<Parsed>> {
    if packages == [] then None else if packages[0].0 == c then Some(packages[0].1) else ReadConfig(packages[1..], c)
  }

  /** `get_section`: the first section of that name. */
  function ReadSection(sections: seq<Parsed>, s: string): Option<Parsed> {
    if sections == [] then None else if sections[0].name == s then Some(sections[0]) else ReadSection(sections[1..], s)
  }

  /** `get_option_named` without its default. */
  function ReadOption(packages: Packages, c: string, s: string, o: string): Option<Value> {
    match ReadConfig(packages, c)
    case None => None
    case Some(sections) =>
      match ReadSection(sections, s)
      case None => None
      case Some(x) => Find(x.data, o)
  }

  /** `get_sections_by_type` */
  function ReadSections(sections: seq<Parsed>, kind: string): seq<Parsed> {
    if sections == [] then []
    else (if sections[0].kind == kind then [sections[0]] else []) + ReadSections(sections[1..], kind)
  }

  function NamesOf(sections: seq<Parsed>): seq<string> {
    seq(|sections|, i requires 0 <= i < |sections| => sections[i].name)
  }

  function DataOf(data: Options): map<string, Value> {
    if data == [] then map[] else DataOf(data[1..])[data[0].0 := data[0].1]
  }

  function ByName(sections: seq<Parsed>): map<string, Section> {
    if sections == [] then map[]
    else ByName(sections[1..])[sections[0].name := Section(sections[0].kind, DataOf(sections[0].data))]
  }

  /** The store that parsed packages stand for. */
  function StoreOf(packages: Packages): Store {
    if packages == [] then map[]
    else StoreOf(packages[1..])[packages[0].0 := Config(NamesOf(packages[0].1), ByName(packages[0].1))]
  }

  lemma {:induction false} DataAgrees(data: Options, o: string)
    ensures Find(data, o) == if o in DataOf(data) then Some(DataOf(data)[o]) else None
  {
    if data != [] { DataAgrees(data[1..], o); }
  }

  lemma {:induction false} SectionAgrees(sections: seq<Parsed>, s: string)
    ensures s in ByName(sections) <==> ReadSection(sections, s).Some?
    ensures s in ByName(sections) ==>
      var x := ReadSection(sections, s).value; ByName(sections)[s] == Section(x.kind, DataOf(x.data))
  {
    hide DataOf;
    if sections != [] { SectionAgrees(sections[1..], s); }
  }

  lemma {:induction false} ConfigAgrees(packages: Packages, c: string)
    ensures c in StoreOf(packages) <==> ReadConfig(packages, c).Some?
    ensures c in StoreOf(packages) ==>
      var sections := ReadConfig(packages, c).value; StoreOf(packages)[c] == Config(NamesOf(sections), ByName(sections))
  {
    hide ByName, NamesOf;
    if packages != [] { ConfigAgrees(packages[1..], c); }
  }

  /** What the readers find in parsed packages is what the observers of the store show. */
  lemma ReadersAgree(packages: Packages, c: string, s: string, o: string)
    ensures HasConfig(StoreOf(packages), c) == ReadConfig(packages, c).Some?
    ensures ReadConfig(packages, c).Some? ==>
      && Order(StoreOf(packages), c) == NamesOf(ReadConfig(packages, c).value)
      && Kind(StoreOf(packages), c, s) ==
           (match ReadSection(ReadConfig(packages, c).value, s) case None => None case Some(x) => Some(x.kind))
    ensures Get(StoreOf(packages), c, s, o) == ReadOption(packages, c, s, o)
  {
    ConfigAgrees(packages, c);
    hide ByName, NamesOf, StoreOf, ReadConfig;
    if ReadConfig(packages, c).Some? {
      var sections := ReadConfig(packages, c).value;
      SectionAgrees(sections, s);
      if ReadSection(sections, s).Some? { DataAgrees(ReadSection(sections, s).value.data, o); }
    }
  }

  /** So do the readers of all sections of a type, where a package names each section once. */
  lemma TypesAgree(packages: Packages, c: string, kind: string)
    requires ReadConfig(packages, c).Some? && Distinct(NamesOf(ReadConfig(packages, c).value))
    ensures NamesOf(ReadSections(ReadConfig(packages, c).value, kind)) == SectionsByType(StoreOf(packages), c, kind)
  {
    var st, sections := StoreOf(packages), ReadConfig(packages, c).value;
    forall i | 0 <= i < |sections| ensures Kind(st, c, sections[i].name) == Some(sections[i].kind) {
      FirstOfItsName(sections, i);
      ReadersAgree(packages, c, sections[i].name, "");
    }
    ReadersAgree(packages, c, "", "");
    hide StoreOf, ReadConfig, Kind, Order;
    KindsAgree(st, c, sections, kind);
  }

  lemma {:induction false} FirstOfItsName(sections: seq<Parsed>, i: nat)
    requires i < |sections| && Distinct(NamesOf(sections))
    ensures ReadSection(sections, sections[i].name) == Some(sections[i])
  {
    var names := NamesOf(sections);
    if i > 0 {
      assert names[0] != names[i];
      assert NamesOf(sections[1..]) == names[1..];
      DistinctFirst(names);
      FirstOfItsName(sections[1..], i - 1);
    }
  }

  lemma {:induction false} KindsAgree(st: Store, c: string, sections: seq<Parsed>, kind: string)
    requires forall i | 0 <= i < |sections| :: Kind(st, c, sections[i].name) == Some(sections[i].kind)
    ensures NamesOf(ReadSections(sections, kind)) == OfKind(st, c, NamesOf(sections), kind)
  {
    hide Kind;
    if sections != [] {
      var x, rest := sections[0], sections[1..];
      KindsAgree(st, c, rest, kind);
      OfKindFirst(st, c, x.name, NamesOf(rest), kind);
      assert NamesOf(sections) == [x.name] + NamesOf(rest);
      var first, more := if x.kind == kind then [x] else [], ReadSections(rest, kind);
      assert ReadSections(sections, kind) == first + more;
      hide OfKind, ReadSections;
      NamesAppend(first, more);
      assert NamesOf(first) == if x.kind == kind then [x.name] else [];
    }
  }

  lemma NamesAppend(a: seq<Parsed>, b: seq<Parsed>)
    ensures NamesOf(a + b) == NamesOf(a) + NamesOf(b)
  {
  }

  /** `read` shows the store: whatever order uci prints its packages and options in, the readers find in
      the parsed text what the observers say of the store that was printed. */
  lemma ReadShowsTheStore(st: Store, packages: Packages)
    requires WellFormed(packages) && StoreOf(packages) == st
    ensures var read := PackagesOf([], SplitLines(Export(packages), ""));
      && read.Some? && StoreOf(read.value) == st
      && (forall c :: ReadConfig(read.value, c).Some? <==> HasConfig(st, c))
      && (forall c | HasConfig(st, c) :: NamesOf(ReadConfig(read.value, c).value) == Order(st, c))
      && (forall c, s, o :: ReadOption(read.value, c, s, o) == Get(st, c, s, o))
  {
    ExportReadsBack(packages);
    hide StoreOf, ReadConfig, ReadOption, HasConfig, Order, Get, Export, PackagesOf, SplitLines;
    forall c ensures (ReadConfig(packages, c).Some? <==> HasConfig(st, c))
      && (HasConfig(st, c) ==> NamesOf(ReadConfig(packages, c).value) == Order(st, c)) {
      ReadersAgree(packages, c, "", "");
    }
    forall c, s, o ensures ReadOption(packages, c, s, o) == Get(st, c, s, o) { ReadersAgree(packages, c, s, o); }
  }
}
