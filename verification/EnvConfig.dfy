/** The .env file of the command line: reading it, writing it, and what survives both. */
module EnvConfig {

  import opened GoStrings
  import opened StringSort

  /** A scanned line and its newline have to fit into the scanner's buffer. */
  const MAX_LINE_BYTES: nat := 65535

  function CharBytes(c: char): nat {
    if c < '\U{80}' then 1 else if c < '\U{800}' then 2 else if c < '\U{10000}' then 3 else 4
  }

  /** Length in UTF-8. */
  function Bytes(s: string): nat {
    if s == "" then 0 else Bytes(s[..|s| - 1]) + CharBytes(s[|s| - 1])
  }

  /** The lines of a text; a last line need not end in a newline. */
  function Lines(text: string): seq<string> {
    if text == "" then []
    else
      var n := IndexOf(text, '\n');
      if n == |text| then [text] else [text[..n]] + Lines(text[n + 1..])
  }

  /** Position of the first `c`, or the length without one. */
  function IndexOf(s: string, c: char): (n: nat)
    ensures n <= |s| && c !in s[..n] && (n < |s| ==> s[n] == c)
  {
    if s == "" || s[0] == c then 0
    else
      var rest := IndexOf(s[1..], c);
      assert s[..1 + rest] == [s[0]] + s[1..][..rest];
      1 + rest
  }

  /** The scanner stops, without an error that anyone looks at, before a line that is too long. */
  function Scanned(lines: seq<string>): seq<string> {
    if lines == [] || Bytes(lines[0]) > MAX_LINE_BYTES then [] else [lines[0]] + Scanned(lines[1..])
  }

  datatype Assignment = Nothing | Assign(key: string, value: string)

  /** What one line of the file says. */
  function ParseLine(text: string): Assignment {
    var line := TrimSpace(text);
    if line == "" || HasPrefix(line, "#") then Nothing
    else
      var n := IndexOf(line, '=');
      if n == |line| then Nothing else Assign(TrimSpace(line[..n]), TrimSpace(line[n + 1..]))
  }

  function Assigned(config: map<string, string>, assignment: Assignment): map<string, string> {
    match assignment
    case Nothing => config
    case Assign(key, value) => config[key := value]
  }

  function Loaded(lines: seq<string>): map<string, string> {
    if lines == [] then map[] else Assigned(Loaded(lines[..|lines| - 1]), ParseLine(lines[|lines| - 1]))
  }

  datatype File = Missing | Text(text: string)

  function Load(file: File): map<string, string> {
    match file
    case Missing => map[]
    case Text(text) => Loaded(Scanned(Lines(text)))
  }

  lemma LoadedOneMore(lines: seq<string>, i: nat)
    requires i < |lines|
    ensures Loaded(lines[..i + 1]) == Assigned(Loaded(lines[..i]), ParseLine(lines[i]))
  {
    assert lines[..i + 1][..i] == lines[..i];
  }

  method LoadEnvConfig(file: File) returns (config: map<string, string>)
    ensures config == Load(file)
  {
    config := map[];
    if file.Missing? {
      return;
    }
    var lines := Scanned(Lines(file.text));
    for i := 0 to |lines|
      invariant config == Loaded(lines[..i])
    {
      LoadedOneMore(lines, i);
      var line := TrimSpace(lines[i]);
      if line == "" || HasPrefix(line, "#") {
        continue;
      }
      var n := IndexOf(line, '=');
      if n == |line| {
        continue;
      }
      config := config[TrimSpace(line[..n]) := TrimSpace(line[n + 1..])];
    }
    assert lines[..|lines|] == lines;
  }

  // ------------------------------------------------------------------ writing

  function Line(key: string, value: string): string {
    key + "=" + value
  }

  function JoinLines(lines: seq<string>): string {
    if lines == [] then "" else if |lines| == 1 then lines[0] else lines[0] + "\n" + JoinLines(lines[1..])
  }

  /** The lines of a map, with as many copies as there are keys that give them. */
  ghost function LineBag(config: map<string, string>): multiset<string>
    decreases config.Keys
  {
    if config == map[] then multiset{}
    else
      var key :| key in config;
      LineBag(config - {key}) + multiset{Line(key, config[key])}
  }

  /** `text` is what is written for `config`. */
  ghost predicate IsWritten(text: string, config: map<string, string>) {
    exists lines :: Ascending(lines, |lines|) && multiset(lines) == LineBag(config) && text == JoinLines(lines) + "\n"
  }

  lemma TakenOut(config: map<string, string>) returns (key: string)
    requires config != map[]
    ensures key in config && LineBag(config) == LineBag(config - {key}) + multiset{Line(key, config[key])}
  {
    key :| key in config && LineBag(config) == LineBag(config - {key}) + multiset{Line(key, config[key])};
  }

  lemma WithoutBoth(config: map<string, string>, a: string, b: string)
    requires a in config && b in config && a != b
    ensures config - {a} - {b} == config - {a, b} == config - {b} - {a}
    ensures (config - {a}).Keys < config.Keys && (config - {b}).Keys < config.Keys
  {
  }

  lemma {:induction false} BagWithout(config: map<string, string>, k: string)
    requires k in config
    ensures LineBag(config) == LineBag(config - {k}) + multiset{Line(k, config[k])}
    decreases config.Keys
  {
    var key := TakenOut(config);
    if key != k {
      WithoutBoth(config, key, k);
      BagWithout(config - {key}, k);
      BagWithout(config - {k}, key);
      AddedInAnyOrder(LineBag(config - {key, k}), LineBag(config - {key}), LineBag(config - {k}), LineBag(config),
                      Line(k, config[k]), Line(key, config[key]));
    }
  }

  lemma AddedInAnyOrder(rest: multiset<string>, less: multiset<string>, fewer: multiset<string>, all: multiset<string>,
                        x: string, y: string)
    requires less == rest + multiset{x} && fewer == rest + multiset{y} && all == less + multiset{y}
    ensures all == fewer + multiset{x}
  {
  }

  lemma OneLineMore(config: map<string, string>, lines: seq<string>, left: map<string, string>, k: string)
    requires multiset(lines) + LineBag(left) == LineBag(config) && k in left
    ensures multiset(lines + [Line(k, left[k])]) + LineBag(left - {k}) == LineBag(config)
  {
    BagWithout(left, k);
    assert multiset(lines + [Line(k, left[k])]) == multiset(lines) + multiset{Line(k, left[k])};
  }

  method CollectLines(config: map<string, string>) returns (lines: seq<string>)
    ensures multiset(lines) == LineBag(config)
  {
    lines := [];
    var left := config;
    while left != map[]
      invariant multiset(lines) + LineBag(left) == LineBag(config)
      decreases left.Keys
    {
      var k :| k in left;
      OneLineMore(config, lines, left, k);
      lines := lines + [Line(k, left[k])];
      left := left - {k};
    }
  }

  method WriteEnvConfig(config: map<string, string>) returns (text: string)
    ensures IsWritten(text, config)
  {
    var collected := CollectLines(config);
    var lines := new string[|collected|](i requires 0 <= i < |collected| => collected[i]);
    assert lines[..] == collected;
    SortInPlace(lines);
    text := JoinLines(lines[..]) + "\n";
  }

  /** The order in which the map is gone through leaves no trace. */
  lemma WrittenOnlyOneWay(a: string, b: string, config: map<string, string>)
    requires IsWritten(a, config) && IsWritten(b, config)
    ensures a == b
  {
    var x :| Ascending(x, |x|) && multiset(x) == LineBag(config) && a == JoinLines(x) + "\n";
    var y :| Ascending(y, |y|) && multiset(y) == LineBag(config) && b == JoinLines(y) + "\n";
    AscendingOnlyOneWay(x, y);
  }

  // --------------------------------------------------------------- round trip

  predicate Trimmed(s: string) {
    s == "" || (!IsSpace(s[0]) && !IsSpace(s[|s| - 1]))
  }

  /** An entry that a line of the file can hold. */
  predicate Storable(key: string, value: string) {
    && Trimmed(key) && Trimmed(value)
    && '\n' !in key && '\n' !in value && '=' !in key
    && !HasPrefix(key, "#")
    && Bytes(Line(key, value)) <= MAX_LINE_BYTES
  }

  predicate AllStorable(config: map<string, string>) {
    forall k :: k in config ==> Storable(k, config[k])
  }

  lemma {:induction false} IndexOfConcat(a: string, b: string, c: char)
    requires c !in a
    ensures IndexOf(a + b, c) == |a| + IndexOf(b, c)
  {
    if a == "" {
      assert a + b == b;
    } else {
      IndexOfConcat(a[1..], b, c);
      assert (a + b)[1..] == a[1..] + b;
    }
  }

  /** `line` is the entry of `k`. */
  predicate Entry(config: map<string, string>, k: string, line: string) {
    k in config && line == Line(k, config[k])
  }

  ghost predicate IsEntry(config: map<string, string>, line: string) {
    exists k :: Entry(config, k, line)
  }

  /** A written entry is read back. */
  lemma ParseWrittenLine(key: string, value: string)
    requires Storable(key, value)
    ensures ParseLine(Line(key, value)) == Assign(key, value)
  {
    var line := Line(key, value);
    assert line[0] == if key == "" then '=' else key[0];
    assert line[|line| - 1] == if value == "" then '=' else value[|value| - 1];
    AlreadyTrimmed(line);
    AlreadyTrimmed(key);
    AlreadyTrimmed(value);
    assert line == key + ("=" + value);
    IndexOfConcat(key, "=" + value, '=');
    assert ("=" + value)[0] == '=';
    assert line[..|key|] == key && line[|key| + 1..] == value;
    assert "#"[0] == '#';
  }

  predicate Blank(s: string) {
    forall i :: 0 <= i < |s| ==> s[i] == ' ' || s[i] == '\t' || s[i] == '\r'
  }

  lemma TrimBlanks(a: string, s: string, b: string)
    requires Blank(a) && Blank(b) && Trimmed(s)
    ensures TrimSpace(a + s + b) == s
  {
    if s == "" {
      assert a + s + b == a + b;
      AllTrimmed(a + b);
    } else {
      assert a + s + b == a + (s + b);
      TrimLeftPast(a, s + b);
      TrimRightPast(s, b);
    }
  }

  lemma {:induction false} AllTrimmed(s: string)
    requires Blank(s)
    ensures TrimLeft(s) == ""
  {
    if s != "" {
      AllTrimmed(s[1..]);
    }
  }

  lemma SplitAtEquals(left: string, right: string)
    requires '=' !in left
    ensures var line := Line(left, right);
      IndexOf(line, '=') == |left| && line[..|left|] == left && line[|left| + 1..] == right
  {
    var line, tail := Line(left, right), "=" + right;
    assert line == left + tail && tail[0] == '=';
    IndexOfConcat(left, tail, '=');
  }

  lemma TrimPadded(key: string, value: string, a: string, b: string, c: string, d: string)
    requires Trimmed(key) && Trimmed(value) && key != "" && value != "" && Blank(a) && Blank(d)
    ensures TrimSpace(Line(a + key + b, c + value + d)) == Line(key + b, c + value)
  {
    var inner := Line(key + b, c + value);
    assert Line(a + key + b, c + value + d) == a + inner + d;
    assert inner[0] == key[0] && inner[|inner| - 1] == value[|value| - 1];
    TrimBlanks(a, inner, d);
  }

  /** An entry may have spaces, tabs and carriage returns around its key, around its value and at the end of its line. */
  lemma ParsePaddedLine(key: string, value: string, a: string, b: string, c: string, d: string)
    requires Storable(key, value) && key != "" && value != "" && Blank(a) && Blank(b) && Blank(c) && Blank(d)
    ensures ParseLine(Line(a + key + b, c + value + d)) == Assign(key, value)
  {
    var line := Line(key + b, c + value);
    TrimPadded(key, value, a, b, c, d);
    SplitAtEquals(key + b, c + value);
    TrimBlanks("", key, b);
    TrimBlanks(c, value, "");
    assert "" + key + b == key + b && c + value + "" == c + value;
    assert line != "" && line[0] == key[0] != '#' by {
      assert "#" == ['#'] && key[..1] == [key[0]];
    }
  }

  /** A file of one padded line reads as its entry, if the line is no longer than 65535 bytes. */
  lemma OneLineFile(key: string, value: string, a: string, b: string, c: string, d: string)
    requires Storable(key, value) && key != "" && value != "" && Blank(a) && Blank(b) && Blank(c) && Blank(d)
    requires Bytes(Line(a + key + b, c + value + d)) <= 65535
    ensures Load(Text(Line(a + key + b, c + value + d) + "\n")) == map[key := value]
  {
    var line := Line(a + key + b, c + value + d);
    ParsePaddedLine(key, value, a, b, c, d);
    LinesOfJoined([line]);
    AllScanned([line]);
    LoadedOneMore([line], 0);
    assert [line][..1] == [line] && [line][..0] == [];
  }

  lemma {:induction false} BytesBound(s: string)
    ensures Bytes(s) <= 4 * |s|
  {
    if s != "" {
      BytesBound(s[..|s| - 1]);
    }
  }

  /** With a carriage return before its newline, a line reads as it does without. */
  lemma CarriageReturnIsSpace()
    ensures Load(Text("A = b\r\n")) == map["A" := "b"]
  {
    assert "A = b\r" == Line("" + "A" + " ", " " + "b" + "\r");
    assert '\n' !in "A" && '=' !in "A" && "A" != "#";
    BytesBound("A = b\r");
    BytesBound(Line("A", "b"));
    OneLineFile("A", "b", "", " ", " ", "\r");
    assert "A = b\r" + "\n" == "A = b\r\n";
  }

  /** A longer line is not read, and neither is anything after it. */
  lemma LongLineEnds(line: string, rest: string)
    requires '\n' !in line && Bytes(line) > 65535
    ensures Load(Text(line + ("\n" + rest))) == map[]
  {
    FirstLine(line, rest);
  }

  lemma FirstLine(head: string, rest: string)
    requires '\n' !in head
    ensures Lines(head + ("\n" + rest)) == [head] + Lines(rest)
  {
    var text, tail := head + ("\n" + rest), "\n" + rest;
    assert tail[0] == '\n';
    IndexOfConcat(head, tail, '\n');
    assert text[..|head|] == head && text[|head| + 1..] == rest;
  }

  lemma {:induction false} LinesOfJoined(lines: seq<string>)
    requires lines != [] && forall i :: 0 <= i < |lines| ==> '\n' !in lines[i]
    ensures Lines(JoinLines(lines) + "\n") == lines
  {
    var rest := if |lines| == 1 then "" else JoinLines(lines[1..]) + "\n";
    assert JoinLines(lines) + "\n" == lines[0] + ("\n" + rest);
    FirstLine(lines[0], rest);
    if |lines| > 1 {
      LinesOfJoined(lines[1..]);
    }
    assert lines == [lines[0]] + lines[1..];
  }

  lemma {:induction false} AllScanned(lines: seq<string>)
    requires forall i :: 0 <= i < |lines| ==> Bytes(lines[i]) <= MAX_LINE_BYTES
    ensures Scanned(lines) == lines
  {
    if lines != [] {
      AllScanned(lines[1..]);
      assert lines == [lines[0]] + lines[1..];
    }
  }

  lemma {:induction false} InBag(config: map<string, string>, line: string)
    ensures line in LineBag(config) <==> IsEntry(config, line)
    decreases |config|
  {
    if config != map[] {
      var key := TakenOut(config);
      InBag(config - {key}, line);
      EntryWithout(config, key, line);
    }
  }

  lemma EntryWithout(config: map<string, string>, key: string, line: string)
    requires key in config
    ensures IsEntry(config, line) <==> IsEntry(config - {key}, line) || line == Line(key, config[key])
  {
    if IsEntry(config, line) {
      var k :| Entry(config, k, line);
      assert k != key ==> Entry(config - {key}, k, line);
    }
    if IsEntry(config - {key}, line) {
      var k :| Entry(config - {key}, k, line);
      assert Entry(config, k, line);
    }
    if line == Line(key, config[key]) {
      assert Entry(config, key, line);
    }
  }

  /** Reading entry lines back gives their entries, whatever the order of the lines. */
  lemma {:induction false} LoadedEntries(lines: seq<string>, config: map<string, string>, k: string)
    requires AllStorable(config)
    requires forall i :: 0 <= i < |lines| ==> IsEntry(config, lines[i])
    ensures k in Loaded(lines) <==> k in config && Line(k, config[k]) in lines
    ensures k in Loaded(lines) ==> Loaded(lines)[k] == config[k]
  {
    if lines != [] {
      var n := |lines| - 1;
      LoadedEntries(lines[..n], config, k);
      var j :| Entry(config, j, lines[n]);
      ParseWrittenLine(j, config[j]);
      if k in config {
        ParseWrittenLine(k, config[k]);
      }
      LastLine(lines, config, j, k);
    }
  }

  lemma LastLine(lines: seq<string>, config: map<string, string>, j: string, k: string)
    requires lines != [] && j in config && ParseLine(lines[|lines| - 1]) == Assign(j, config[j])
    ensures var before := Loaded(lines[..|lines| - 1]);
      && (k in Loaded(lines) <==> k in before || k == j)
      && (k in Loaded(lines) ==> Loaded(lines)[k] == if k == j then config[j] else before[k])
  {
  }

  lemma WrittenIsReadBack(text: string, config: map<string, string>)
    requires IsWritten(text, config) && AllStorable(config)
    ensures Load(Text(text)) == config
  {
    var lines :| Ascending(lines, |lines|) && multiset(lines) == LineBag(config) && text == JoinLines(lines) + "\n";
    AllEntriesLoaded(lines, config);
    forall i | 0 <= i < |lines| ensures '\n' !in lines[i] && Bytes(lines[i]) <= MAX_LINE_BYTES {
      assert lines[i] in multiset(lines);
      InBag(config, lines[i]);
      var k :| Entry(config, k, lines[i]);
      assert Storable(k, config[k]);
    }
    AllScanned(lines);
    if lines == [] {
      assert text == "\n";
      EmptyIsReadBack();
    } else {
      LinesOfJoined(lines);
    }
  }

  lemma EmptyIsReadBack()
    ensures Load(Text("\n")) == map[]
  {
    assert Lines("\n") == [""] by {
      assert IndexOf("\n", '\n') == 0;
    }
    assert Scanned([""]) == [""];
    assert Loaded([""]) == Assigned(Loaded([]), ParseLine(""));
  }

  /** What the lines hold, all together, is the map. */
  lemma AllEntriesLoaded(lines: seq<string>, config: map<string, string>)
    requires AllStorable(config) && multiset(lines) == LineBag(config)
    ensures Loaded(lines) == config
  {
    forall i | 0 <= i < |lines| ensures IsEntry(config, lines[i]) {
      assert lines[i] in multiset(lines);
      InBag(config, lines[i]);
    }
    forall k ensures k in Loaded(lines) <==> k in config
             ensures k in Loaded(lines) ==> Loaded(lines)[k] == config[k]
    {
      LoadedEntries(lines, config, k);
      if k in config {
        assert Entry(config, k, Line(k, config[k]));
        InBag(config, Line(k, config[k]));
        assert Line(k, config[k]) in multiset(lines);
      }
    }
  }

  // -------------------------------------------------------- what is ever read

  lemma {:induction false} TrimIsPart(s: string)
    ensures Bytes(TrimSpace(s)) <= Bytes(s)
    ensures forall c :: c in TrimSpace(s) ==> c in s
  {
    TrimLeftIsPart(s);
    TrimRightIsPart(TrimLeft(s));
  }

  lemma {:induction false} BytesConcat(a: string, b: string)
    ensures Bytes(a + b) == Bytes(a) + Bytes(b)
  {
    if b == "" {
      assert a + b == a;
    } else {
      BytesConcat(a, b[..|b| - 1]);
      assert (a + b)[..|a + b| - 1] == a + b[..|b| - 1];
    }
  }

  lemma {:induction false} TrimLeftIsPart(s: string)
    ensures Bytes(TrimLeft(s)) <= Bytes(s)
    ensures forall c :: c in TrimLeft(s) ==> c in s
  {
    if s != "" && IsSpace(s[0]) {
      TrimLeftIsPart(s[1..]);
      assert s == [s[0]] + s[1..];
      BytesConcat([s[0]], s[1..]);
    }
  }

  lemma {:induction false} TrimRightIsPart(s: string)
    ensures Bytes(TrimRight(s)) <= Bytes(s)
    ensures forall c :: c in TrimRight(s) ==> c in s
  {
    if s != "" && IsSpace(s[|s| - 1]) {
      TrimRightIsPart(s[..|s| - 1]);
    }
  }

  /** Whatever a line says can be stored. */
  lemma ParsedIsStorable(text: string)
    requires '\n' !in text && Bytes(text) <= MAX_LINE_BYTES && ParseLine(text).Assign?
    ensures var a := ParseLine(text); Storable(a.key, a.value)
  {
    var line := TrimSpace(text);
    var n := IndexOf(line, '=');
    TrimIsPart(text);
    TrimSpaceTwice(line[..n]);
    TrimSpaceTwice(line[n + 1..]);
    SidesArePart(line, n);
    NoHash(text);
  }

  /** Both sides of the equals sign, trimmed, are no longer than the line and hold nothing that was not in it. */
  lemma SidesArePart(line: string, n: nat)
    requires n < |line| && line[n] == '=' && '=' !in line[..n]
    ensures var key, value := TrimSpace(line[..n]), TrimSpace(line[n + 1..]);
      && Bytes(Line(key, value)) <= Bytes(line) && '=' !in key
      && ('\n' !in line ==> '\n' !in key && '\n' !in value)
  {
    var left, right := line[..n], line[n + 1..];
    TrimIsPart(left);
    TrimIsPart(right);
    LineBytes(left, right);
    LineBytes(TrimSpace(left), TrimSpace(right));
    assert line == Line(left, right);
  }

  lemma LineBytes(key: string, value: string)
    ensures Bytes(Line(key, value)) == Bytes(key) + Bytes("=") + Bytes(value)
  {
    BytesConcat(key, "=");
    BytesConcat(key + "=", value);
  }

  /** The key of a line that is not a comment does not look like one. */
  lemma NoHash(text: string)
    requires ParseLine(text).Assign?
    ensures !HasPrefix(ParseLine(text).key, "#")
  {
    var line := TrimSpace(text);
    var left := line[..IndexOf(line, '=')];
    TrimSpaceTwice(text);
    assert left != "" ==> left[0] == line[0] && !IsSpace(left[0]);
    if left != "" {
      TrimRightKeepsHead(left);
      assert TrimSpace(left)[0] == line[0];
      assert "#" == [line[0]] ==> HasPrefix(line, "#");
    }
  }

  lemma {:induction false} LinesHaveNoNewline(text: string)
    ensures forall i :: 0 <= i < |Lines(text)| ==> '\n' !in Lines(text)[i]
  {
    if text != "" {
      var n := IndexOf(text, '\n');
      if n == |text| {
        assert text[..n] == text;
      } else {
        LinesHaveNoNewline(text[n + 1..]);
      }
    }
  }

  lemma {:induction false} ScannedFits(lines: seq<string>)
    ensures Scanned(lines) <= lines && forall i :: 0 <= i < |Scanned(lines)| ==> Bytes(Scanned(lines)[i]) <= MAX_LINE_BYTES
  {
    if lines != [] && Bytes(lines[0]) <= MAX_LINE_BYTES {
      ScannedFits(lines[1..]);
      assert lines == [lines[0]] + lines[1..];
    }
  }

  lemma {:induction false} LoadedIsStorable(lines: seq<string>)
    requires forall i :: 0 <= i < |lines| ==> '\n' !in lines[i] && Bytes(lines[i]) <= MAX_LINE_BYTES
    ensures AllStorable(Loaded(lines))
  {
    if lines != [] {
      var n := |lines| - 1;
      LoadedIsStorable(lines[..n]);
      if ParseLine(lines[n]).Assign? {
        ParsedIsStorable(lines[n]);
      }
    }
  }

  /** Whatever file it is read from, a configuration can be stored. */
  lemma LoadIsStorable(file: File)
    ensures AllStorable(Load(file))
  {
    if file.Text? {
      LinesHaveNoNewline(file.text);
      ScannedFits(Lines(file.text));
      LoadedIsStorable(Scanned(Lines(file.text)));
    }
  }

  /** Writing and reading gives the same map back exactly when every entry can be stored. */
  lemma RoundTripIff(text: string, config: map<string, string>)
    requires IsWritten(text, config)
    ensures Load(Text(text)) == config <==> AllStorable(config)
  {
    LoadIsStorable(Text(text));
    if AllStorable(config) {
      WrittenIsReadBack(text, config);
    }
  }

  /**
    Setting a value: read back, the file holds the old map with that one change exactly when
    the new entry can be stored. In particular every other key keeps its value.
   */
  method SetConfigValue(file: File, key: string, value: string) returns (written: File)
    ensures Load(written) == Load(file)[key := value] <==> Storable(key, value)
  {
    var config := LoadEnvConfig(file);
    config := config[key := value];
    var text := WriteEnvConfig(config);
    LoadIsStorable(file);
    RoundTripIff(text, config);
    assert AllStorable(config) <==> Storable(key, value) by {
      assert config[key] == value;
    }
    return Text(text);
  }
}
