/** The `[dir/]module[?],func[,cfg]` line of the Python loader, split in place by writing NULs
    into the buffer. */
module ConfigLine {
  import opened CStrings
  import opened Options

  // ----- what the line means -----

  /** The text before the first comma, and what follows it if there is one. */
  function SplitComma(s: string): (r: (string, Option<string>))
    ensures ',' !in r.0 && s == r.0 + if r.1.None? then "" else "," + r.1.value
  {
    if s == "" then ("", None)
    else if s[0] == ',' then ("", Some(s[1..]))
    else var (t, r) := SplitComma(s[1..]); ([s[0]] + t, r)
  }

  /** The position of the last slash. */
  function LastSlash(s: string): (r: Option<nat>)
    ensures r.None? ==> '/' !in s
    ensures r.Some? ==> r.value < |s| && s[r.value] == '/' && '/' !in s[r.value + 1..]
  {
    if s == "" then None
    else if s[|s| - 1] == '/' then Some(|s| - 1)
    else LastSlash(s[..|s| - 1])
  }

  datatype Parts = Parts(dir: Option<string>, mod: string, reload: bool, func: Option<string>, cfg: Option<string>)

  /** `BeforeBuffer`: the code reads the byte before the buffer. */
  datatype Parsed = Ok(parts: Parts) | BeforeBuffer

  /** What the loader makes of a line. */
  function Parse(line: string): Parsed {
    var (field, rest) := SplitComma(line);
    var func := if rest.None? then None else Some(SplitComma(rest.value).0);
    var cfg := if rest.None? then None else SplitComma(rest.value).1;
    var slash := LastSlash(field);
    var dir := if slash.None? then None else Some(field[..slash.value]);
    var mod := if slash.None? then field else field[slash.value + 1..];
    ParseModule(dir, mod, func, cfg)
  }

  /** What it makes of the module behind the last slash: a trailing `?` asks for a reload; the
      test for it reads one byte early when there is no byte. */
  function ParseModule(dir: Option<string>, mod: string, func: Option<string>, cfg: Option<string>): Parsed {
    if mod == "" && dir.None? then BeforeBuffer
    else if mod != "" && mod[|mod| - 1] == '?' then Ok(Parts(dir, mod[..|mod| - 1], true, func, cfg))
    else Ok(Parts(dir, mod, false, func, cfg))
  }

  /** The module and its reload mark. */
  function Tail(p: Parts): string {
    p.mod + if p.reload then "?" else ""
  }

  /** What the printer puts before the first comma. */
  function Field(p: Parts): string {
    (if p.dir.Some? then p.dir.value + "/" else "") + Tail(p)
  }

  /** The line for given parts. */
  function Print(p: Parts): string {
    Field(p) + (if p.func.None? then "" else "," + p.func.value + if p.cfg.None? then "" else "," + p.cfg.value)
  }

  // ----- the round trip -----

  lemma {:induction false} SplitPrinted(t: string, rest: string)
    requires ',' !in t
    ensures SplitComma(t) == (t, None)
    ensures SplitComma(t + "," + rest) == (t, Some(rest))
  {
    if t != "" {
      SplitPrinted(t[1..], rest);
      assert (t + "," + rest)[1..] == t[1..] + "," + rest;
      assert t == [t[0]] + t[1..];
    } else {
      assert (t + "," + rest)[1..] == rest;
    }
  }

  lemma {:induction false} LastSlashIs(s: string, i: nat)
    requires i < |s| && s[i] == '/' && '/' !in s[i + 1..]
    ensures LastSlash(s) == Some(i)
  {
    if s[|s| - 1] != '/' {
      assert s[i + 1..] == s[..|s| - 1][i + 1..] + [s[|s| - 1]];
      LastSlashIs(s[..|s| - 1], i);
    }
  }

  /** Parts that a line can carry. */
  predicate Carried(p: Parts) {
    && (p.dir.Some? ==> ',' !in p.dir.value) && ',' !in p.mod && '/' !in p.mod
    && (p.func.Some? ==> ',' !in p.func.value) && (p.func.None? ==> p.cfg.None?)
    && (!p.reload ==> (p.mod != "" || p.dir.Some?) && !(p.mod != "" && p.mod[|p.mod| - 1] == '?'))
  }

  lemma ParsedIsCarried(line: string)
    ensures Parse(line).Ok? ==> Carried(Parse(line).parts)
  {
    var (field, rest) := SplitComma(line);
    var slash := LastSlash(field);
    if slash.Some? {
      assert ',' !in field[..slash.value] && ',' !in field[slash.value + 1..];
    }
  }

  lemma FieldSplits(p: Parts)
    requires Carried(p)
    ensures ',' !in Field(p)
    ensures p.dir.None? ==> LastSlash(Field(p)) == None && Field(p) == Tail(p)
    ensures p.dir.Some? ==>
              var d := |p.dir.value|;
              LastSlash(Field(p)) == Some(d) && Field(p)[..d] == p.dir.value && Field(p)[d + 1..] == Tail(p)
  {
    hide LastSlash;
    var field, tail := Field(p), Tail(p);
    assert '/' !in tail && ',' !in tail;
    if p.dir.Some? {
      assert field == p.dir.value + "/" + tail;
      SlashBetween(p.dir.value, tail, field);
    } else {
      assert field == tail;
    }
  }

  lemma SlashBetween(dir: string, tail: string, field: string)
    requires field == dir + "/" + tail && '/' !in tail
    ensures LastSlash(field) == Some(|dir|) && field[..|dir|] == dir && field[|dir| + 1..] == tail
    ensures ',' !in dir && ',' !in tail ==> ',' !in field
  {
    assert field[|dir| + 1..] == tail;
    LastSlashIs(field, |dir|);
  }

  lemma ParsePrinted(p: Parts)
    requires Carried(p)
    ensures Parse(Print(p)) == Ok(p)
  {
    hide SplitComma, LastSlash, Print, Field, Tail, ParseModule;
    FieldSplits(p);
    PrintedSplits(p);
    TailParses(p);
    assert Parse(Print(p)) == ParseModule(p.dir, Tail(p), p.func, p.cfg);
  }

  lemma TailParses(p: Parts)
    requires Carried(p)
    ensures ParseModule(p.dir, Tail(p), p.func, p.cfg) == Ok(p)
  {
    assert p.reload ==> Tail(p)[..|Tail(p)| - 1] == p.mod;
    assert !p.reload ==> Tail(p) == p.mod;
  }

  lemma PrintedSplits(p: Parts)
    requires Carried(p) && ',' !in Field(p)
    ensures var (field, rest) := SplitComma(Print(p));
            && field == Field(p) && (rest.None? <==> p.func.None?)
            && (rest.Some? ==> SplitComma(rest.value) == (p.func.value, p.cfg))
  {
    if p.func.None? {
      SplitPrinted(Field(p), "");
      assert Print(p) == Field(p);
    } else {
      var rest := p.func.value + if p.cfg.None? then "" else "," + p.cfg.value;
      assert Print(p) == Field(p) + "," + rest;
      SplitPrinted(Field(p), rest);
      if p.cfg.None? {
        SplitPrinted(p.func.value, "");
        assert rest == p.func.value;
      } else {
        SplitPrinted(p.func.value, p.cfg.value);
        assert rest == p.func.value + "," + p.cfg.value;
      }
    }
  }

  /** Round trip: the loader recovers exactly the parts a line was printed from, an absent
      configuration kept apart from an empty one, if and only if no comma is in the directory,
      module or function, no slash is in the module, a configuration comes with a function, and
      a module without reload flag neither ends in `?` nor is empty without a directory. */
  lemma RoundTripIff(p: Parts)
    ensures Parse(Print(p)) == Ok(p) <==> Carried(p)
  {
    ParsedIsCarried(Print(p));
    if Carried(p) {
      ParsePrinted(p);
    }
  }

  /** The byte before the buffer is read exactly for a line that is empty or begins with a
      comma. */
  lemma BeforeBufferIff(line: string)
    ensures Parse(line).BeforeBuffer? <==> line == "" || line[0] == ','
  {
  }

  /** Nothing of a line is lost: it is the print of its parts. */
  lemma PrintParsed(line: string)
    ensures Parse(line).Ok? ==> Print(Parse(line).parts) == line
  {
    hide LastSlash, ParseModule, Field;
    var (field, rest) := SplitComma(line);
    var p := Parse(line);
    if p.Ok? {
      ModuleKeepsRest(line);
      FieldOfParsed(field, p.parts);
      if rest.Some? {
        hide SplitComma;
        RestIsPrinted(rest.value);
        assert line == field + "," + rest.value;
      }
    }
  }

  lemma ModuleKeepsRest(line: string)
    requires Parse(line).Ok?
    ensures var rest, p := SplitComma(line).1, Parse(line).parts;
            && p.func == (if rest.None? then None else Some(SplitComma(rest.value).0))
            && p.cfg == (if rest.None? then None else SplitComma(rest.value).1)
  {
    hide SplitComma, LastSlash;
  }

  lemma RestIsPrinted(rest: string)
    ensures var (f, c) := SplitComma(rest);
            "," + rest == "," + f + if c.None? then "" else "," + c.value
  {
    hide SplitComma;
    var (f, c) := SplitComma(rest);
    var tail := if c.None? then "" else "," + c.value;
    assert rest == f + tail;
    assert "," + (f + tail) == "," + f + tail;
  }

  lemma FieldOfParsed(field: string, p: Parts)
    requires var slash := LastSlash(field);
             ParseModule(if slash.None? then None else Some(field[..slash.value]),
                         if slash.None? then field else field[slash.value + 1..], p.func, p.cfg) == Ok(p)
    ensures Field(p) == field
  {
    hide LastSlash, ParseModule, Tail;
    var slash := LastSlash(field);
    var dir := if slash.None? then None else Some(field[..slash.value]);
    var mod := if slash.None? then field else field[slash.value + 1..];
    TailOfParsed(dir, mod, p);
    if slash.Some? {
      assert field == field[..slash.value] + "/" + mod;
    }
  }

  lemma TailOfParsed(dir: Option<string>, mod: string, p: Parts)
    requires ParseModule(dir, mod, p.func, p.cfg) == Ok(p)
    ensures p.dir == dir && Tail(p) == mod
  {
    if p.reload {
      assert mod == mod[..|mod| - 1] + "?";
    }
  }

  /** The shapes a line has: `[dir/]module[?][,func[,cfg]]`. */
  lemma LineShapes(dir: string, mod: string, func: string, cfg: string)
    requires ',' !in dir && ',' !in mod && '/' !in mod && ',' !in func && mod != "" && mod[|mod| - 1] != '?'
    ensures Parse(mod) == Ok(Parts(None, mod, false, None, None))
    ensures Parse(mod + "," + func) == Ok(Parts(None, mod, false, Some(func), None))
    ensures Parse(mod + "," + func + "," + cfg) == Ok(Parts(None, mod, false, Some(func), Some(cfg)))
    ensures Parse(mod + "?" + "," + func) == Ok(Parts(None, mod, true, Some(func), None))
    ensures Parse(mod + "?" + "," + func + "," + cfg) == Ok(Parts(None, mod, true, Some(func), Some(cfg)))
    ensures Parse(dir + "/" + mod + "," + func) == Ok(Parts(Some(dir), mod, false, Some(func), None))
    ensures Parse(dir + "/" + mod + "," + func + "," + cfg) == Ok(Parts(Some(dir), mod, false, Some(func), Some(cfg)))
    ensures Parse(dir + "/" + mod + "?" + "," + func) == Ok(Parts(Some(dir), mod, true, Some(func), None))
    ensures Parse(dir + "/" + mod + "?" + "," + func + "," + cfg) == Ok(Parts(Some(dir), mod, true, Some(func), Some(cfg)))
  {
    hide Parse, Print;
    assert dir + "/" + (mod + "?") == dir + "/" + mod + "?";
    ShapesOf(None, mod, false, mod, func, cfg);
    ShapesOf(None, mod, true, mod + "?", func, cfg);
    ShapesOf(Some(dir), mod, false, dir + "/" + mod, func, cfg);
    ShapesOf(Some(dir), mod, true, dir + "/" + mod + "?", func, cfg);
  }

  lemma ShapesOf(dir: Option<string>, mod: string, reload: bool, field: string, func: string, cfg: string)
    requires var p := Parts(dir, mod, reload, None, None); Carried(p) && Field(p) == field
    requires ',' !in func
    ensures Parse(field) == Ok(Parts(dir, mod, reload, None, None))
    ensures Parse(field + "," + func) == Ok(Parts(dir, mod, reload, Some(func), None))
    ensures Parse(field + "," + func + "," + cfg) == Ok(Parts(dir, mod, reload, Some(func), Some(cfg)))
  {
    hide Parse, Field;
    var p, q, r := Parts(dir, mod, reload, None, None), Parts(dir, mod, reload, Some(func), None), Parts(dir, mod, reload, Some(func), Some(cfg));
    FieldIsOfModule(p, q);
    FieldIsOfModule(p, r);
    RoundTripIff(p);
    RoundTripIff(q);
    RoundTripIff(r);
    assert Print(p) == field;
    assert Print(q) == field + "," + func;
    assert Print(r) == field + "," + func + "," + cfg;
  }

  lemma FieldIsOfModule(p: Parts, q: Parts)
    requires p.dir == q.dir && p.mod == q.mod && p.reload == q.reload
    ensures Field(p) == Field(q)
  {
  }

  // ----- in place -----

  /** The buffer holds the C string `s` at `p`. */
  ghost predicate Holds(buf: array<char>, p: nat, s: string)
    reads buf
  {
    && p + |s| < buf.Length && buf[p + |s|] == NUL
    && forall k {:trigger s[k]} :: 0 <= k < |s| ==> s[k] != NUL && buf[p + k] == s[k]
  }

  /** Reading the C string at `p`. */
  method Text(buf: array<char>, p: nat, ghost s: string) returns (r: string)
    requires Holds(buf, p, s)
    ensures r == s
  {
    var n := 0;
    while buf[p + n] != NUL
      invariant n <= |s| && (n < |s| ==> s[n] != NUL)
      decreases |s| - n
    {
      n := n + 1;
    }
    r := buf[p..p + n];
  }

  /** `strsep(&str, ",")`: the token stays at `p`, a NUL replaces the comma behind it, and the
      rest, if there was a comma, begins after that. */
  method StrSep(buf: array<char>, p: nat, ghost s: string) returns (rest: Option<nat>)
    requires Holds(buf, p, s)
    modifies buf
    ensures var (token, r) := SplitComma(s);
            && Holds(buf, p, token)
            && (r.None? ==> rest == None)
            && (r.Some? ==> rest == Some(p + |token| + 1) && Holds(buf, p + |token| + 1, r.value))
            && forall k :: 0 <= k < buf.Length && k != p + |token| ==> buf[k] == old(buf[k])
  {
    hide SplitComma;
    var n := 0;
    while buf[p + n] != NUL && buf[p + n] != ','
      invariant n <= |s| && ',' !in s[..n] && (n < |s| ==> s[n] != NUL)
      decreases |s| - n
    {
      n := n + 1;
    }
    SplitAt(s, n);
    if buf[p + n] == NUL {
      return None;
    }
    buf[p + n] := NUL;
    return Some(p + n + 1);
  }

  lemma SplitAt(s: string, n: nat)
    requires n <= |s| && ',' !in s[..n]
    ensures n == |s| ==> SplitComma(s) == (s, None)
    ensures n < |s| && s[n] == ',' ==> SplitComma(s) == (s[..n], Some(s[n + 1..]))
  {
    hide SplitComma;
    if n == |s| {
      SplitPrinted(s, "");
      assert s[..n] == s;
    } else if s[n] == ',' {
      SplitPrinted(s[..n], s[n + 1..]);
      assert s == s[..n] + "," + s[n + 1..];
    }
  }

  /** `strrchr(str, '/')`. */
  method StrRChr(buf: array<char>, p: nat, ghost s: string) returns (last: Option<nat>)
    requires Holds(buf, p, s)
    ensures LastSlash(s).None? ==> last == None
    ensures LastSlash(s).Some? ==> last == Some(p + LastSlash(s).value)
  {
    last := None;
    var n := 0;
    while buf[p + n] != NUL
      invariant n <= |s| && (n < |s| ==> s[n] != NUL)
      invariant if LastSlash(s[..n]).None? then last == None else last == Some(p + LastSlash(s[..n]).value)
      decreases |s| - n
    {
      if buf[p + n] == '/' {
        last := Some(p + n);
      }
      assert s[..n + 1][..n] == s[..n] && s[..n + 1][n] == s[n];
      n := n + 1;
    }
    assert s[..n] == s;
  }

  /** The two `strsep` calls of `libffi_init`: where the function and the configuration begin. */
  method SplitFields(buf: array<char>, ghost line: string) returns (func: Option<nat>, cfg: Option<nat>)
    requires Holds(buf, 0, line)
    modifies buf
    ensures var (field, rest) := SplitComma(line);
            && Holds(buf, 0, field)
            && (rest.None? ==> func == None && cfg == None)
            && (rest.Some? ==>
                  var (f, c) := SplitComma(rest.value);
                  && func == Some(|field| + 1) && Holds(buf, |field| + 1, f)
                  && (c.None? ==> cfg == None)
                  && (c.Some? ==> cfg == Some(|field| + |f| + 2) && Holds(buf, |field| + |f| + 2, c.value)))
  {
    hide SplitComma;
    ghost var (field, rest) := SplitComma(line);
    func := StrSep(buf, 0, line);
    cfg := func;
    if func.Some? {
      cfg := StrSep(buf, func.value, rest.value);
    }
  }

  /** The top of `init`: the directory is copied out, the module begins after the last slash and
      loses its `?`; nothing behind the field changes. */
  method SplitModule(buf: array<char>, ghost field: string) returns (dir: Option<string>, mod: int, reload: bool)
    requires Holds(buf, 0, field)
    modifies buf
    ensures mod == -1 <==> field == ""
    ensures field != "" ==>
              var slash := LastSlash(field);
              var name := if slash.None? then field else field[slash.value + 1..];
              && dir == (if slash.None? then None else Some(field[..slash.value]))
              && reload == (name != "" && name[|name| - 1] == '?')
              && mod >= 0 && Holds(buf, mod, if reload then name[..|name| - 1] else name)
    ensures forall p: nat, s :: p > |field| && old(Holds(buf, p, s)) ==> Holds(buf, p, s)
  {
    hide LastSlash;
    var last := StrRChr(buf, 0, field);
    dir, mod, reload := None, 0, false;
    ghost var name := field;
    if last.Some? {
      dir := Some(buf[..last.value]);
      mod := last.value + 1;
      name := field[mod..];
      assert buf[..last.value] == field[..last.value];
    }
    var text := Text(buf, mod, name);
    var lastpos := mod + |text| - 1;
    if lastpos < 0 {
      return None, -1, false;
    }
    if buf[lastpos] == '?' {
      buf[lastpos] := NUL;
      reload := true;
    }
  }

  /** `libffi_init` and `init` on a buffer that holds the line: what the C strings in the buffer
      say afterwards is what `Parse` says. */
  method Split(buf: array<char>, ghost line: string) returns (r: Parsed)
    requires Holds(buf, 0, line)
    modifies buf
    ensures r == Parse(line)
  {
    hide SplitComma, LastSlash, Holds, Parse;
    ghost var (field, rest) := SplitComma(line);
    var func, cfg := SplitFields(buf, line);
    var dir, mod, reload := SplitModule(buf, field);
    if mod == -1 {
      ParseOfEmptyField(line);
      return BeforeBuffer;
    }
    ghost var slash := LastSlash(field);
    ghost var name := if slash.None? then field else field[slash.value + 1..];
    var text := Text(buf, mod, if reload then name[..|name| - 1] else name);
    ParseOfParts(line, dir, name, text, reload);
    if func.None? {
      return Ok(Parts(dir, text, reload, None, None));
    }
    ghost var (f, c) := SplitComma(rest.value);
    var funcText := Text(buf, func.value, f);
    if cfg.None? {
      return Ok(Parts(dir, text, reload, Some(funcText), None));
    }
    var cfgText := Text(buf, cfg.value, c.value);
    return Ok(Parts(dir, text, reload, Some(funcText), Some(cfgText)));
  }

  lemma ParseOfParts(line: string, dir: Option<string>, name: string, text: string, reload: bool)
    requires SplitComma(line).0 != ""
    requires var field := SplitComma(line).0;
             var slash := LastSlash(field);
             && dir == (if slash.None? then None else Some(field[..slash.value]))
             && name == if slash.None? then field else field[slash.value + 1..]
    requires reload == (name != "" && name[|name| - 1] == '?') && text == if reload then name[..|name| - 1] else name
    ensures var rest := SplitComma(line).1;
            Parse(line) == Ok(
              if rest.None? then Parts(dir, text, reload, None, None)
              else Parts(dir, text, reload, Some(SplitComma(rest.value).0), SplitComma(rest.value).1))
  {
    hide SplitComma, LastSlash;
  }

  lemma ParseOfEmptyField(line: string)
    requires SplitComma(line).0 == ""
    ensures Parse(line) == BeforeBuffer
  {
  }
}
