/** What a config file means: each field is the last assignment to it, wherever its section was
    re-entered, and whole blocks of different devices may change places. */
module Profiles {

  import opened Options
  import opened Config

  // ---------- The meaning of a file, read off its lines ----------

  /** The section in effect at line `k`. */
  function SectionAt(lines: seq<Line>, k: nat): Option<string>
    requires k <= |lines|
  {
    if k == 0 then None
    else if lines[k - 1].Section? then Some(lines[k - 1].name)
    else SectionAt(lines, k - 1)
  }

  predicate Assigns(lines: seq<Line>, k: nat, section: Option<string>, key: Key)
    requires k < |lines|
  {
    lines[k].Entry? && KeyNamed(lines[k].key) == Some(key) && SectionAt(lines, k) == section
  }

  /** The last value given to `key` in a section, or at the top level, before line `n`. */
  function LastAssigned(lines: seq<Line>, n: nat, section: Option<string>, key: Key): Option<string>
    requires n <= |lines|
  {
    if n == 0 then None
    else if Assigns(lines, n - 1, section, key) then Some(lines[n - 1].value)
    else LastAssigned(lines, n - 1, section, key)
  }

  function LastDefault(lines: seq<Line>, n: nat): Option<string>
    requires n <= |lines|
  {
    if n == 0 then None
    else if lines[n - 1].Entry? && lines[n - 1].key == "default" then Some(lines[n - 1].value)
    else LastDefault(lines, n - 1)
  }

  predicate LineOk(lines: seq<Line>, k: nat, valid: Validity)
    requires k < |lines|
  {
    match lines[k]
    case Blank => true
    case Section(_) => true
    case Malformed(_) => false
    case Entry(key, value) =>
      if key == "default" then SectionAt(lines, k) == None
      else KeyNamed(key).Some? && (KeyNamed(key) == Some(Socket) || valid(KeyNamed(key).value, value))
  }

  /** What is wrong with a line that is not well formed in its place. */
  function FaultAt(lines: seq<Line>, k: nat, valid: Validity): Fault
    requires k < |lines| && !LineOk(lines, k, valid)
  {
    match lines[k]
    case Malformed(fault) => fault
    case Entry(key, _) =>
      if key == "default" then MisplacedDefault else if KeyNamed(key) == None then UnknownKey else InvalidValue
  }

  /** How `p` stands after the first `n` lines, field by field. */
  ghost predicate Means(p: Partial, lines: seq<Line>, n: nat)
    requires n <= |lines|
  {
    && p.section == SectionAt(lines, n)
    && p.config.defaultDevice == LastDefault(lines, n)
    && (forall name :: name in p.config.devices <==> Section(name) in lines[..n])
    && (p.section.Some? ==> p.section.value in p.config.devices)
    && (forall key :: p.config.defaults.Get(key) == LastAssigned(lines, n, None, key))
    && (forall name, key :: Entered(p.config.devices, name).Get(key) == LastAssigned(lines, n, Some(name), key))
  }

  lemma SetThenGet(settings: Settings, key: Key, value: string, other: Key)
    ensures settings.Set(key, value).Get(other) == if other == key then Some(value) else settings.Get(other)
  {
  }

  /** One line keeps the meaning, and is refused exactly when it is not well formed in its place. */
  lemma {:induction false} LineMeans(p: Partial, lines: seq<Line>, n: nat, valid: Validity)
    requires n < |lines| && Means(p, lines, n)
    ensures TakeLine(p, lines[n], valid).Parsed? <==> LineOk(lines, n, valid)
    ensures TakeLine(p, lines[n], valid).Failed? ==> TakeLine(p, lines[n], valid).fault == FaultAt(lines, n, valid)
    ensures TakeLine(p, lines[n], valid).Parsed? ==> Means(TakeLine(p, lines[n], valid).value, lines, n + 1)
  {
    hide Settings.Get;
    hide Settings.Set;
    assert lines[..n + 1] == lines[..n] + [lines[n]];
    if TakeLine(p, lines[n], valid).Parsed? {
      var q := TakeLine(p, lines[n], valid).value;
      var line := lines[n];
      if line.Entry? && line.key != "default" {
        var named := KeyNamed(line.key).value;
        var target := if p.section == None then p.config.defaults else Entered(p.config.devices, p.section.value);
        forall key
          ensures target.Set(named, line.value).Get(key) == if key == named then Some(line.value) else target.Get(key)
        {
          SetThenGet(target, named, line.value, key);
        }
        assert forall key :: q.config.defaults.Get(key) == LastAssigned(lines, n + 1, None, key);
        assert forall name, key ::
            Entered(q.config.devices, name).Get(key) == LastAssigned(lines, n + 1, Some(name), key);
      } else {
        assert forall name :: Entered(q.config.devices, name) == Entered(p.config.devices, name);
        assert forall name, key ::
            Entered(q.config.devices, name).Get(key) == LastAssigned(lines, n + 1, Some(name), key);
      }
    }
  }

  lemma {:induction false} LinesMean(lines: seq<Line>, n: nat, valid: Validity)
    requires n <= |lines|
    ensures TakeLines(NOTHING, lines[..n], valid).Parsed? <==> forall k :: 0 <= k < n ==> LineOk(lines, k, valid)
    ensures TakeLines(NOTHING, lines[..n], valid).Parsed? ==>
              Means(TakeLines(NOTHING, lines[..n], valid).value, lines, n)
    ensures TakeLines(NOTHING, lines[..n], valid).Failed? ==>
              var k := TakeLines(NOTHING, lines[..n], valid).line;
              && k < n && !LineOk(lines, k, valid) && (forall j :: 0 <= j < k ==> LineOk(lines, j, valid))
              && TakeLines(NOTHING, lines[..n], valid).fault == FaultAt(lines, k, valid)
  {
    if n > 0 {
      LinesMean(lines, n - 1, valid);
      assert lines[..n][..n - 1] == lines[..n - 1];
      var before := TakeLines(NOTHING, lines[..n - 1], valid);
      if before.Parsed? {
        LineMeans(before.value, lines, n - 1, valid);
      }
    }
  }

  /** A file is accepted exactly when each line is well formed in its place, `default` comes
      before the sections, and the last one names a section of the file. A refusal reports the
      first line that is at fault, and what is wrong with it. */
  lemma AcceptedExactlyWhen(lines: seq<Line>, valid: Validity)
    ensures Parse(lines, valid).Parsed? <==>
            && (forall k :: 0 <= k < |lines| ==> LineOk(lines, k, valid))
            && (LastDefault(lines, |lines|).Some? ==> Section(LastDefault(lines, |lines|).value) in lines)
    ensures var r := Parse(lines, valid);
            r.Failed? ==>
              if r.line < |lines| then
                && !LineOk(lines, r.line, valid) && (forall j :: 0 <= j < r.line ==> LineOk(lines, j, valid))
                && r.fault == FaultAt(lines, r.line, valid)
              else r.line == |lines| && r.fault == UnknownDefault
  {
    LinesMean(lines, |lines|, valid);
    assert lines[..|lines|] == lines;
  }

  /** What `LastAssigned` finds: the one assignment no later one follows. */
  lemma {:induction false} LastIsLast(lines: seq<Line>, n: nat, section: Option<string>, key: Key, k: nat)
    requires k < n <= |lines| && Assigns(lines, k, section, key)
    requires forall j :: k < j < n ==> !Assigns(lines, j, section, key)
    ensures LastAssigned(lines, n, section, key) == Some(lines[k].value)
  {
    if k < n - 1 {
      LastIsLast(lines, n - 1, section, key, k);
    }
  }

  // ---------- Profiles ----------

  /** The profile of a name, of the file's default, or else the top-level keys. */
  function Profile(config: FileConfig, name: Option<string>): Option<Settings> {
    match Either(name, config.defaultDevice)
    case None => Some(config.defaults)
    case Some(device) => if device in config.devices then Some(config.devices[device].Or(config.defaults)) else None
  }

  /** What an invocation runs with: the command line over the profile. */
  function Resolve(file: Option<FileConfig>, device: Option<string>, cli: Settings): Option<Settings> {
    match file
    case None => if device.Some? then None else Some(cli.Or(UNSET))
    case Some(config) =>
      match Profile(config, device)
      case None => None
      case Some(profile) => Some(cli.Or(profile))
  }

  lemma OrIsFirst(a: Settings, b: Settings, key: Key)
    ensures a.Or(b).Get(key) == if a.Get(key).Some? then a.Get(key) else b.Get(key)
  {
  }

  /** Overlaying is associative: it does not matter which two layers are merged first. */
  lemma OrIsAssociative(a: Settings, b: Settings, c: Settings)
    ensures a.Or(b).Or(c) == a.Or(b.Or(c))
    ensures a.Or(UNSET) == a == UNSET.Or(a)
  {
  }

  /** For every accepted file, each field is the command line's, else the last assignment in the
      chosen section across all its re-entries, else the last one at the top level. */
  lemma LastWriteWins(lines: seq<Line>, valid: Validity, device: Option<string>, cli: Settings, key: Key)
    requires Parse(lines, valid).Parsed?
    ensures var r := Resolve(Some(Parse(lines, valid).value), device, cli);
            var name := if device.Some? then device else LastDefault(lines, |lines|);
            && (r == None <==> name.Some? && Section(name.value) !in lines)
            && (r == None ==> device.Some?)
            && (r.Some? ==>
                  var inSection := if name.Some? then LastAssigned(lines, |lines|, name, key) else None;
                  r.value.Get(key) ==
                    if cli.Get(key).Some? then cli.Get(key)
                    else if inSection.Some? then inSection
                    else LastAssigned(lines, |lines|, None, key))
  {
    LinesMean(lines, |lines|, valid);
    assert lines[..|lines|] == lines;
    var config := Parse(lines, valid).value;
    var profile := Profile(config, device);
    if profile.Some? {
      OrIsFirst(cli, profile.value, key);
      var name := Either(device, config.defaultDevice);
      if name.Some? {
        OrIsFirst(config.devices[name.value], config.defaults, key);
        assert Entered(config.devices, name.value).Get(key) == LastAssigned(lines, |lines|, name, key);
      }
    }
  }

  /** Without a file the command line is all there is, and naming a device is an error. */
  lemma WithoutAFile(device: Option<string>, cli: Settings)
    ensures Resolve(None, device, cli) == if device.Some? then None else Some(cli)
  {
    OrIsAssociative(cli, UNSET, UNSET);
  }

  // ---------- Moving blocks ----------

  predicate IsBody(lines: seq<Line>) {
    forall k :: 0 <= k < |lines| ==> !lines[k].Section?
  }

  function Block(name: string, body: seq<Line>): seq<Line> {
    [Section(name)] + body
  }

  /** What the lines of a section do to its settings, or `None` when one is refused. */
  function BodyEffect(settings: Settings, body: seq<Line>, valid: Validity): Option<Settings> {
    if body == [] then Some(settings)
    else
      match BodyEffect(settings, body[..|body| - 1], valid)
      case None => None
      case Some(s) =>
        match body[|body| - 1]
        case Blank => Some(s)
        case Entry(key, value) =>
          if key == "default" then None
          else if Assign(s, key, value, valid).Parsed? then Some(Assign(s, key, value, valid).value) else None
        case _ => None
  }

  /** `r` accepts with this result, or refuses. */
  predicate Gives(r: Outcome<Partial>, expected: Option<Partial>) {
    match r
    case Failed(_, _) => expected == None
    case Parsed(p) => expected == Some(p)
  }

  lemma {:induction false} TakeConcat(p: Partial, a: seq<Line>, b: seq<Line>, valid: Validity)
    ensures TakeLines(p, a, valid).Failed? ==> TakeLines(p, a + b, valid).Failed?
    ensures TakeLines(p, a, valid).Parsed? ==>
              var rest := TakeLines(TakeLines(p, a, valid).value, b, valid);
              && (TakeLines(p, a + b, valid).Parsed? <==> rest.Parsed?)
              && (rest.Parsed? ==> TakeLines(p, a + b, valid) == rest)
  {
    hide TakeLine;
    if b == [] {
      assert a + b == a;
    } else {
      var n := |b| - 1;
      assert (a + b)[..|a + b| - 1] == a + b[..n];
      TakeConcat(p, a, b[..n], valid);
    }
  }

  lemma {:induction false} BodyTakes(config: FileConfig, name: string, body: seq<Line>, valid: Validity)
    requires name in config.devices && IsBody(body)
    ensures var e := BodyEffect(config.devices[name], body, valid);
            Gives(TakeLines(Partial(config, Some(name)), body, valid),
                  if e == None then None
                  else Some(Partial(config.(devices := config.devices[name := e.value]), Some(name))))
  {
    hide Assign;
    if body == [] {
      assert config.devices[name := config.devices[name]] == config.devices;
    } else {
      var n := |body| - 1;
      BodyTakes(config, name, body[..n], valid);
      var e := BodyEffect(config.devices[name], body[..n], valid);
      if e.Some? {
        var f := BodyEffect(config.devices[name], body, valid);
        if f.Some? {
          assert config.devices[name := e.value][name := f.value] == config.devices[name := f.value];
        }
      }
    }
  }

  /** A block only touches its own device, whatever came before it. */
  lemma BlockTakes(p: Partial, name: string, body: seq<Line>, valid: Validity)
    requires IsBody(body)
    ensures var e := BodyEffect(Entered(p.config.devices, name), body, valid);
            Gives(TakeLines(p, Block(name, body), valid),
                  if e == None then None
                  else Some(Partial(p.config.(devices := p.config.devices[name := e.value]), Some(name))))
  {
    hide BodyEffect;
    var entered := Enter(p.config, name);
    TakeConcat(p, [Section(name)], body, valid);
    assert [Section(name)][..0] == [];
    assert TakeLines(p, [], valid) == Parsed(p);
    assert TakeLines(p, [Section(name)], valid) == Parsed(Partial(entered, Some(name)));
    BodyTakes(entered, name, body, valid);
    var e := BodyEffect(Entered(p.config.devices, name), body, valid);
    if e.Some? {
      assert entered.devices[name := e.value] == p.config.devices[name := e.value];
    }
  }

  lemma BlocksCommute(p: Partial, a: string, xs: seq<Line>, b: string, ys: seq<Line>, valid: Validity)
    requires a != b && IsBody(xs) && IsBody(ys)
    ensures var r := TakeLines(p, Block(a, xs) + Block(b, ys), valid);
            var s := TakeLines(p, Block(b, ys) + Block(a, xs), valid);
            && (r.Parsed? <==> s.Parsed?)
            && (r.Parsed? ==> r.value.config == s.value.config)
  {
    hide TakeLines;
    hide BodyEffect;
    var devices := p.config.devices;
    var ex := BodyEffect(Entered(devices, a), xs, valid);
    var ey := BodyEffect(Entered(devices, b), ys, valid);
    BlockTakes(p, a, xs, valid);
    BlockTakes(p, b, ys, valid);
    TakeConcat(p, Block(a, xs), Block(b, ys), valid);
    TakeConcat(p, Block(b, ys), Block(a, xs), valid);
    if ex.Some? {
      BlockTakes(TakeLines(p, Block(a, xs), valid).value, b, ys, valid);
    }
    if ey.Some? {
      BlockTakes(TakeLines(p, Block(b, ys), valid).value, a, xs, valid);
    }
    if ex.Some? && ey.Some? {
      assert devices[a := ex.value][b := ey.value] == devices[b := ey.value][a := ex.value];
    }
  }

  /** Which section was open does not matter to lines that open one of their own. */
  lemma {:induction false} OpensItsOwn(config: FileConfig, s: Option<string>, t: Option<string>, lines: seq<Line>,
                                      valid: Validity)
    requires lines != [] ==> lines[0].Section?
    ensures var r := TakeLines(Partial(config, s), lines, valid);
            var q := TakeLines(Partial(config, t), lines, valid);
            if lines == [] then r == Parsed(Partial(config, s)) && q == Parsed(Partial(config, t)) else r == q
  {
    if lines != [] {
      var n := |lines| - 1;
      OpensItsOwn(config, s, t, lines[..n], valid);
    }
  }

  /** Moving the whole blocks of two different devices past each other changes neither whether a
      file is accepted nor anything it configures. */
  lemma BlocksMayChangePlaces(before: seq<Line>, a: string, xs: seq<Line>, b: string, ys: seq<Line>,
                              after: seq<Line>, valid: Validity)
    requires a != b && IsBody(xs) && IsBody(ys)
    requires after != [] ==> after[0].Section?
    ensures var r := Parse(before + (Block(a, xs) + Block(b, ys)) + after, valid);
            var s := Parse(before + (Block(b, ys) + Block(a, xs)) + after, valid);
            && (r.Parsed? <==> s.Parsed?)
            && (r.Parsed? ==> r.value == s.value)
  {
    hide TakeLines;
    hide TakeLine;
    hide Block;
    var ab, ba := Block(a, xs) + Block(b, ys), Block(b, ys) + Block(a, xs);
    TakeConcat(NOTHING, before + ab, after, valid);
    TakeConcat(NOTHING, before + ba, after, valid);
    TakeConcat(NOTHING, before, ab, valid);
    TakeConcat(NOTHING, before, ba, valid);
    var start := TakeLines(NOTHING, before, valid);
    if start.Parsed? {
      BlocksCommute(start.value, a, xs, b, ys, valid);
      var r, s := TakeLines(start.value, ab, valid), TakeLines(start.value, ba, valid);
      if r.Parsed? {
        OpensItsOwn(r.value.config, r.value.section, s.value.section, after, valid);
        assert r.value == Partial(r.value.config, r.value.section);
        assert s.value == Partial(r.value.config, s.value.section);
      }
    }
  }
}
