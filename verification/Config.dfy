/** The config file, from its text to the settings and sections it defines. */
module Config {

  import opened Options

  // ---------- Text ----------

  /** The characters Unicode calls white space. */
  predicate White(c: char) {
    var u := c as int;
    || 9 <= u <= 13 || u == 0x20 || u == 0x85 || u == 0xA0 || u == 0x1680
    || 0x2000 <= u <= 0x200A || u == 0x2028 || u == 0x2029 || u == 0x202F || u == 0x205F || u == 0x3000
  }

  function TrimStart(s: string): string {
    if s != "" && White(s[0]) then TrimStart(s[1..]) else s
  }

  function TrimEnd(s: string): string {
    if s != "" && White(s[|s| - 1]) then TrimEnd(s[..|s| - 1]) else s
  }

  function Trim(s: string): string {
    TrimEnd(TrimStart(s))
  }

  function Find(s: string, c: char): nat {
    if s == "" || s[0] == c then 0 else 1 + Find(s[1..], c)
  }

  lemma {:induction false} FindFinds(s: string, c: char)
    ensures Find(s, c) <= |s|
    ensures c !in s[..Find(s, c)]
    ensures Find(s, c) < |s| ==> s[Find(s, c)] == c
  {
    if s != "" && s[0] != c {
      FindFinds(s[1..], c);
      assert s[..Find(s, c)] == [s[0]] + s[1..][..Find(s[1..], c)];
    }
  }

  /** Lines end in `\n` or `\r\n`; what follows the last one is a line unless it is empty. */
  function Lines(text: string): seq<string> {
    if text == "" then []
    else
      var n := Find(text, '\n');
      if n >= |text| then [text]
      else [if n > 0 && text[n - 1] == '\r' then text[..n - 1] else text[..n]] + Lines(text[n + 1..])
  }

  /** Strip one pair of double quotes. */
  function Unquote(s: string): string {
    if |s| >= 2 && s[0] == '"' && s[|s| - 1] == '"' then s[1..|s| - 1] else s
  }

  datatype Fault =
    | UnterminatedHeader | UnknownSection | NamelessSection | NotKeyValue
    | MisplacedDefault | UnknownKey | InvalidValue | UnknownDefault

  /** What one line says. */
  datatype Line = Blank | Section(name: string) | Entry(key: string, value: string) | Malformed(fault: Fault)

  function ReadHeader(header: string): Line {
    if header == "" || header[|header| - 1] != ']' then Malformed(UnterminatedHeader)
    else
      var name := Trim(header[..|header| - 1]);
      if !("devices." <= name) then Malformed(UnknownSection)
      else
        var device := Unquote(Trim(name[8..]));
        if device == "" then Malformed(NamelessSection) else Section(device)
  }

  function Read(raw: string): Line {
    var line := Trim(raw);
    if line == "" || line[0] == '#' then Blank
    else if line[0] == '[' then ReadHeader(line[1..])
    else
      var n := Find(line, '=');
      if n >= |line| then Malformed(NotKeyValue)
      else Entry(Trim(line[..n]), Unquote(Trim(line[n + 1..])))
  }

  // ---------- Settings ----------

  datatype Key = Index | Interval | Addr | Socket | SocketMode | MetricsListen

  /** A value stands for what it parses to; whether it parses is a parameter of the model. */
  type Validity = (Key, string) -> bool

  datatype Settings = Settings(
    index: Option<string>, addr: Option<string>, interval: Option<string>,
    socket: Option<string>, socketMode: Option<string>, metricsListen: Option<string>)
  {
    function Get(key: Key): Option<string> {
      match key
      case Index => index
      case Interval => interval
      case Addr => addr
      case Socket => socket
      case SocketMode => socketMode
      case MetricsListen => metricsListen
    }

    function Set(key: Key, value: string): Settings {
      match key
      case Index => this.(index := Some(value))
      case Interval => this.(interval := Some(value))
      case Addr => this.(addr := Some(value))
      case Socket => this.(socket := Some(value))
      case SocketMode => this.(socketMode := Some(value))
      case MetricsListen => this.(metricsListen := Some(value))
    }

    /** Overlay this on `fallback`. */
    function Or(fallback: Settings): Settings {
      Settings(Either(index, fallback.index), Either(addr, fallback.addr), Either(interval, fallback.interval),
               Either(socket, fallback.socket), Either(socketMode, fallback.socketMode),
               Either(metricsListen, fallback.metricsListen))
    }
  }

  function Either(o: Option<string>, fallback: Option<string>): Option<string> {
    if o.Some? then o else fallback
  }

  const UNSET := Settings(None, None, None, None, None, None)

  function KeyNamed(name: string): Option<Key> {
    if name == "index" then Some(Index)
    else if name == "interval" then Some(Interval)
    else if name == "addr" then Some(Addr)
    else if name == "socket" then Some(Socket)
    else if name == "socket_mode" then Some(SocketMode)
    else if name == "metrics_listen" then Some(MetricsListen)
    else None
  }

  /** Any path will do for a socket; every other value has to parse. */
  predicate Accepts(valid: Validity, key: Key, value: string) {
    key == Socket || valid(key, value)
  }

  datatype FileConfig = FileConfig(defaults: Settings, devices: map<string, Settings>, defaultDevice: Option<string>)

  datatype Outcome<T> = Parsed(value: T) | Failed(line: nat, fault: Fault)

  // ---------- The parse ----------

  datatype Partial = Partial(config: FileConfig, section: Option<string>)

  const NOTHING := Partial(FileConfig(UNSET, map[], None), None)

  /** What a line is an assignment to, or why it is refused. */
  function Assign(settings: Settings, key: string, value: string, valid: Validity): Outcome<Settings> {
    match KeyNamed(key)
    case None => Failed(0, UnknownKey)
    case Some(k) => if Accepts(valid, k, value) then Parsed(settings.Set(k, value)) else Failed(0, InvalidValue)
  }

  function Entered(devices: map<string, Settings>, name: string): Settings {
    if name in devices then devices[name] else UNSET
  }

  /** Entering a section again adds to it. */
  function Enter(config: FileConfig, name: string): FileConfig {
    if name in config.devices then config else config.(devices := config.devices[name := UNSET])
  }

  function TakeLine(p: Partial, line: Line, valid: Validity): Outcome<Partial> {
    match line
    case Blank => Parsed(p)
    case Malformed(fault) => Failed(0, fault)
    case Section(name) =>
      Parsed(Partial(Enter(p.config, name), Some(name)))
    case Entry(key, value) =>
      if key == "default" then
        if p.section.Some? then Failed(0, MisplacedDefault)
        else Parsed(p.(config := p.config.(defaultDevice := Some(value))))
      else
        match p.section
        case None =>
          (match Assign(p.config.defaults, key, value, valid)
           case Failed(_, fault) => Failed(0, fault)
           case Parsed(s) => Parsed(p.(config := p.config.(defaults := s))))
        case Some(name) =>
          match Assign(Entered(p.config.devices, name), key, value, valid)
          case Failed(_, fault) => Failed(0, fault)
          case Parsed(s) => Parsed(p.(config := p.config.(devices := p.config.devices[name := s])))
  }

  function TakeLines(p: Partial, lines: seq<Line>, valid: Validity): Outcome<Partial> {
    if lines == [] then Parsed(p)
    else
      var n := |lines| - 1;
      match TakeLines(p, lines[..n], valid)
      case Failed(k, fault) => Failed(k, fault)
      case Parsed(p1) =>
        match TakeLine(p1, lines[n], valid)
        case Failed(_, fault) => Failed(n, fault)
        case Parsed(p2) => Parsed(p2)
  }

  predicate DefaultExists(config: FileConfig) {
    config.defaultDevice.Some? ==> config.defaultDevice.value in config.devices
  }

  function Parse(lines: seq<Line>, valid: Validity): Outcome<FileConfig> {
    match TakeLines(NOTHING, lines, valid)
    case Failed(k, fault) => Failed(k, fault)
    case Parsed(p) => if DefaultExists(p.config) then Parsed(p.config) else Failed(|lines|, UnknownDefault)
  }

  function ReadAll(raw: seq<string>): (lines: seq<Line>)
    ensures |lines| == |raw| && forall i :: 0 <= i < |raw| ==> lines[i] == Read(raw[i])
  {
    seq(|raw|, i requires 0 <= i < |raw| => Read(raw[i]))
  }

  method ParseConfig(text: string, valid: Validity) returns (r: Outcome<FileConfig>)
    ensures r == Parse(ReadAll(Lines(text)), valid)
  {
    hide Read;
    hide Lines;
    hide Assign;
    var raw := Lines(text);
    ghost var lines := ReadAll(raw);
    var config := NOTHING.config;
    var section: Option<string> := None;
    for n := 0 to |raw|
      invariant TakeLines(NOTHING, lines[..n], valid) == Parsed(Partial(config, section))
    {
      var line := Read(raw[n]);
      var fault: Option<Fault> := None;
      match line {
        case Blank =>
        case Malformed(f) => fault := Some(f);
        case Section(name) =>
          if name !in config.devices {
            config := config.(devices := config.devices[name := UNSET]);
          }
          section := Some(name);
        case Entry(key, value) =>
          if key == "default" {
            if section.Some? {
              fault := Some(MisplacedDefault);
            } else {
              config := config.(defaultDevice := Some(value));
            }
          } else {
            var profile := if section == None then config.defaults else Entered(config.devices, section.value);
            var updated := Assign(profile, key, value, valid);
            match updated {
              case Failed(_, f) => fault := Some(f);
              case Parsed(s) =>
                if section == None {
                  config := config.(defaults := s);
                } else {
                  config := config.(devices := config.devices[section.value := s]);
                }
            }
          }
      }
      assert lines[..n + 1][..n] == lines[..n];
      if fault.Some? {
        StopsThere(NOTHING, lines, n + 1, valid);
        return Failed(n, fault.value);
      }
    }
    assert lines[..|raw|] == lines;
    if !DefaultExists(config) {
      return Failed(|raw|, UnknownDefault);
    }
    r := Parsed(config);
  }

  /** The first fault is the one reported. */
  lemma {:induction false} StopsThere(p: Partial, lines: seq<Line>, n: nat, valid: Validity)
    requires n <= |lines| && TakeLines(p, lines[..n], valid).Failed?
    ensures TakeLines(p, lines, valid) == TakeLines(p, lines[..n], valid)
    decreases |lines|
  {
    if n == |lines| {
      assert lines[..n] == lines;
    } else {
      assert lines[..|lines| - 1][..n] == lines[..n];
      StopsThere(p, lines[..|lines| - 1], n, valid);
    }
  }

  // ---------- Reading back what was written ----------

  lemma {:induction false} FindPast(a: string, c: char, b: string)
    requires c !in a
    ensures Find(a + [c] + b, c) == |a|
  {
    if a != "" {
      assert (a + [c] + b)[1..] == a[1..] + [c] + b;
      FindPast(a[1..], c, b);
    }
  }

  /** Both line endings end a line. */
  lemma LineEndings(line: string, rest: string)
    requires '\n' !in line
    ensures Lines(line + "\r\n" + rest) == [line] + Lines(rest)
    ensures line == "" || line[|line| - 1] != '\r' ==> Lines(line + "\n" + rest) == [line] + Lines(rest)
  {
    var crlf, lf := line + "\r" + "\n" + rest, line + "\n" + rest;
    FindPast(line + "\r", '\n', rest);
    FindPast(line, '\n', rest);
    assert line + "\r\n" + rest == crlf;
    assert crlf[|line| + 2..] == rest && crlf[..|line|] == line;
    assert lf[|line| + 1..] == rest && lf[..|line|] == line;
  }

  /** Text that neither begins nor ends with white space. */
  predicate Solid(s: string) {
    s != "" && !White(s[0]) && !White(s[|s| - 1])
  }

  predicate Padding(s: string) {
    forall c :: c in s ==> White(c)
  }

  /** The last line needs no line feed, and there is no line after one. */
  lemma LastLine(line: string)
    requires '\n' !in line
    ensures Lines(line) == if line == "" then [] else [line]
  {
    FindFinds(line, '\n');
  }

  lemma {:induction false} TrimPadded(left: string, s: string, right: string)
    requires Padding(left) && Solid(s) && Padding(right)
    ensures Trim(left + s + right) == s
  {
    var text := left + s + right;
    if left != "" {
      assert text[0] == left[0];
      assert text[1..] == left[1..] + s + right;
      TrimPadded(left[1..], s, right);
    } else {
      assert text == s + right && TrimStart(text) == text;
      TrimEndPadded(s, right);
    }
  }

  lemma {:induction false} TrimEndPadded(s: string, right: string)
    requires Solid(s) && Padding(right)
    ensures TrimEnd(s + right) == s
  {
    if right == "" {
      assert s + right == s;
    } else {
      assert (s + right)[|s + right| - 1] == right[|right| - 1];
      assert (s + right)[..|s + right| - 1] == s + right[..|right| - 1];
      TrimEndPadded(s, right[..|right| - 1]);
    }
  }

  lemma TrimSolid(s: string)
    requires Solid(s)
    ensures Trim(s) == s
  {
    TrimPadded("", s, "");
    assert "" + s + "" == s;
  }

  /** Quotes are taken off in pairs only: one pair, from text that has one at both ends. */
  lemma UnquoteMeans(s: string)
    ensures Unquote("\"" + s + "\"") == s
    ensures s == "" || s[0] != '"' ==> Unquote(s) == s
    ensures s == "" || s[|s| - 1] != '"' ==> Unquote(s) == s
    ensures Unquote("\"") == "\""
  {
    assert ("\"" + s + "\"")[1..|s| + 1] == s;
  }

  /** An assignment reads back its key, and its value but for the quotes, however it is padded. */
  lemma EntryReadsBack(key: string, raw: string, pads: seq<string>)
    requires Solid(key) && '=' !in key && key[0] != '#' && key[0] != '[' && Solid(raw)
    requires |pads| == 4 && forall i :: 0 <= i < 4 ==> Padding(pads[i])
    ensures Read(pads[0] + key + pads[1] + "=" + pads[2] + raw + pads[3]) == Entry(key, Unquote(raw))
  {
    hide Trim;
    hide Unquote;
    Punctuation();
    hide White;
    var core := key + pads[1] + "=" + pads[2] + raw;
    assert pads[0] + key + pads[1] + "=" + pads[2] + raw + pads[3] == pads[0] + core + pads[3];
    assert core[0] == key[0] && core[|core| - 1] == raw[|raw| - 1];
    TrimPadded(pads[0], core, pads[3]);
    assert '=' !in pads[1];
    FindPast(key + pads[1], '=', pads[2] + raw);
    assert core == (key + pads[1]) + "=" + (pads[2] + raw);
    assert core[..|key + pads[1]|] == "" + key + pads[1];
    assert core[|key + pads[1]| + 1..] == pads[2] + raw + "";
    TrimPadded("", key, pads[1]);
    TrimPadded(pads[2], raw, "");
  }

  /** A value in quotes is read back as it is, whatever it contains. */
  lemma QuotedReadsBack(key: string, value: string, pads: seq<string>)
    requires Solid(key) && '=' !in key && key[0] != '#' && key[0] != '['
    requires |pads| == 4 && forall i :: 0 <= i < 4 ==> Padding(pads[i])
    ensures Read(pads[0] + key + pads[1] + "=" + pads[2] + "\"" + value + "\"" + pads[3]) == Entry(key, value)
  {
    hide Read;
    hide Unquote;
    var front, raw := pads[0] + key + pads[1] + "=" + pads[2], "\"" + value + "\"";
    Punctuation();
    assert front + "\"" + value + "\"" + pads[3] == front + raw + pads[3];
    EntryReadsBack(key, raw, pads);
    UnquoteMeans(value);
  }

  /** So is a value without quotes that neither begins nor ends with white space. */
  lemma PlainReadsBack(key: string, value: string, pads: seq<string>)
    requires Solid(key) && '=' !in key && key[0] != '#' && key[0] != '['
    requires Solid(value) && value[0] != '"'
    requires |pads| == 4 && forall i :: 0 <= i < 4 ==> Padding(pads[i])
    ensures Read(pads[0] + key + pads[1] + "=" + pads[2] + value + pads[3]) == Entry(key, value)
  {
    hide Read;
    hide Unquote;
    EntryReadsBack(key, value, pads);
    UnquoteMeans(value);
  }

  /** A header reads back the name in it, but for the quotes, however it is padded. */
  lemma SectionReadsBack(raw: string, pads: seq<string>)
    requires Solid(raw) && Unquote(raw) != ""
    requires |pads| == 5 && forall i :: 0 <= i < 5 ==> Padding(pads[i])
    ensures Read(pads[0] + "[" + pads[1] + "devices." + pads[2] + raw + pads[3] + "]" + pads[4])
         == Section(Unquote(raw))
  {
    hide Trim;
    hide Unquote;
    hide Find;
    Punctuation();
    hide White;
    var inner := "devices." + pads[2] + raw;
    var header := pads[1] + inner + pads[3] + "]";
    var line := "[" + header;
    assert pads[0] + "[" + pads[1] + "devices." + pads[2] + raw + pads[3] + "]" + pads[4] == pads[0] + line + pads[4];
    assert line[0] == '[' && line[|line| - 1] == ']' && line[1..] == header;
    TrimPadded(pads[0], line, pads[4]);
    assert header[|header| - 1] == ']' && header[..|header| - 1] == pads[1] + inner + pads[3];
    assert inner[0] == 'd' && inner[|inner| - 1] == raw[|raw| - 1];
    TrimPadded(pads[1], inner, pads[3]);
    assert inner[..8] == "devices." && inner[8..] == pads[2] + raw + "";
    TrimPadded(pads[2], raw, "");
  }

  lemma QuotedSection(name: string, pads: seq<string>)
    requires name != "" && |pads| == 5 && forall i :: 0 <= i < 5 ==> Padding(pads[i])
    ensures Read(pads[0] + "[" + pads[1] + "devices." + pads[2] + "\"" + name + "\"" + pads[3] + "]" + pads[4])
         == Section(name)
  {
    hide Read;
    hide Unquote;
    var front, raw := pads[0] + "[" + pads[1] + "devices." + pads[2], "\"" + name + "\"";
    Punctuation();
    assert front + "\"" + name + "\"" + pads[3] + "]" + pads[4] == front + raw + pads[3] + "]" + pads[4];
    UnquoteMeans(name);
    SectionReadsBack(raw, pads);
  }

  lemma PlainSection(name: string, pads: seq<string>)
    requires Solid(name) && name[0] != '"' && |pads| == 5 && forall i :: 0 <= i < 5 ==> Padding(pads[i])
    ensures Read(pads[0] + "[" + pads[1] + "devices." + pads[2] + name + pads[3] + "]" + pads[4]) == Section(name)
  {
    hide Read;
    hide Unquote;
    UnquoteMeans(name);
    SectionReadsBack(name, pads);
  }

  /** White space, and what follows a number sign, say nothing. */
  lemma BlankLines(pad: string, comment: string)
    requires Padding(pad)
    ensures Read(pad) == Blank
    ensures Read(pad + "#" + comment) == Blank
  {
    Punctuation();
    TrimBlank(pad);
    TrimKeepsFirst(pad, '#', comment);
  }

  lemma {:induction false} TrimBlank(pad: string)
    requires Padding(pad)
    ensures TrimStart(pad) == "" && Trim(pad) == ""
  {
    if pad != "" {
      assert pad[0] in pad && Padding(pad[1..]);
      TrimBlank(pad[1..]);
    }
  }

  lemma {:induction false} TrimKeepsFirst(pad: string, c: char, rest: string)
    requires Padding(pad) && !White(c)
    ensures Trim(pad + [c] + rest) != "" && Trim(pad + [c] + rest)[0] == c
  {
    var text := pad + [c] + rest;
    if pad != "" {
      assert text[0] == pad[0] && text[1..] == pad[1..] + [c] + rest;
      TrimKeepsFirst(pad[1..], c, rest);
    } else {
      assert text == [c] + rest && TrimStart(text) == text;
      TrimEndKeepsFirst(c, rest);
    }
  }

  lemma {:induction false} TrimEndKeepsFirst(c: char, rest: string)
    requires !White(c)
    ensures TrimEnd([c] + rest) != "" && TrimEnd([c] + rest)[0] == c
  {
    var text := [c] + rest;
    if rest != "" {
      assert text[..|text| - 1] == [c] + rest[..|rest| - 1];
      TrimEndKeepsFirst(c, rest[..|rest| - 1]);
    }
  }

  /** Lines that say nothing that is understood, and what is wrong with them. */
  lemma Faults(line: string)
    requires Solid(line) && line[0] != '#'
    ensures line[0] == '[' && line[|line| - 1] != ']' ==> Read(line) == Malformed(UnterminatedHeader)
    ensures line[0] != '[' && '=' !in line ==> Read(line) == Malformed(NotKeyValue)
    ensures line == "[devices.]" || line == "[devices.\"\"]" ==> Read(line) == Malformed(NamelessSection)
  {
    hide Trim;
    hide White;
    TrimSolid(line);
    FindFinds(line, '=');
    if line == "[devices.]" {
      Punctuation();
      var header := line[1..];
      assert header[..|header| - 1] == "devices.";
      TrimSolid("devices.");
      assert "devices."[8..] == "";
      TrimBlank("");
    } else if line == "[devices.\"\"]" {
      Punctuation();
      var header := line[1..];
      assert header[..|header| - 1] == "devices.\"\"";
      TrimSolid("devices.\"\"");
      assert "devices.\"\""[8..] == "\"\"";
      TrimSolid("\"\"");
    }
  }

  lemma UnknownHeader(name: string)
    requires Solid(name) && !("devices." <= name)
    ensures Read("[" + name + "]") == Malformed(UnknownSection)
  {
    hide Trim;
    Punctuation();
    hide White;
    var line := "[" + name + "]";
    assert line[0] == '[' && line[|line| - 1] == ']' && line[1..] == name + "]";
    TrimSolid(line);
    assert (name + "]")[..|name|] == name;
    TrimSolid(name);
  }

  /** The six keys by name, and the field each of them sets. */
  lemma KeysByName(name: string, key: Key, settings: Settings)
    ensures KeyNamed(name) == Some(key) <==>
            name == match key
                    case Index => "index"
                    case Interval => "interval"
                    case Addr => "addr"
                    case Socket => "socket"
                    case SocketMode => "socket_mode"
                    case MetricsListen => "metrics_listen"
    ensures settings.Get(key) == match key
                                 case Index => settings.index
                                 case Interval => settings.interval
                                 case Addr => settings.addr
                                 case Socket => settings.socket
                                 case SocketMode => settings.socketMode
                                 case MetricsListen => settings.metricsListen
  {
    assert |"index"| == 5 && |"interval"| == 8 && |"addr"| == 4;
    assert |"socket"| == 6 && |"socket_mode"| == 11 && |"metrics_listen"| == 14;
  }

  /** The characters that the layout of a file rests on, and the white space of ASCII. */
  lemma Punctuation()
    ensures !White('"') && !White('[') && !White(']') && !White('d') && !White('=') && !White('#')
    ensures forall c: char :: c as int < 0x80 ==> (White(c) <==> c in {' ', '\t', '\n', '\r', 11 as char, 12 as char})
  {
  }
}
