/** The agent's configuration file, `cmd/agent/config.go`: printing it, reading it back, and
    exactly which configurations survive the trip. */
module ConfigFile {
  import opened Int64
  import opened Text
  import Seqs

  datatype Config = Config(server: string, token: string, user: string, machine: string, pin: string,
                           interval: int64, graceMin: int64)

  datatype Field = Field(key: string, value: string)

  // ---------- Printing ----------

  const HEADER := "# rewardd agent configuration (managed). " + "Edit and restart the logon task."

  /** The settings in the order they are written. */
  function Fields(c: Config): seq<Field> {
    [Field("server", c.server), Field("token", c.token), Field("user", c.user), Field("machine", c.machine),
     Field("pin", c.pin), Field("interval", Itoa(c.interval)), Field("grace", Itoa(c.graceMin))]
  }

  function FieldLine(f: Field): string {
    f.key + " = " + f.value
  }

  /** One line for each field that is not empty. */
  function FieldLines(fields: seq<Field>): seq<string> {
    if fields == [] then []
    else (if fields[0].value == "" then [] else [FieldLine(fields[0])]) + FieldLines(fields[1..])
  }

  function Printed(header: string, fields: seq<Field>): string {
    Unlines([header] + FieldLines(fields))
  }

  /** `writeConfigFile`: the header, then a line for each setting. */
  method WriteConfigFile(c: Config) returns (b: string)
    ensures b == Printed(HEADER, Fields(c))
  {
    b := WriteFields(HEADER, c);
  }

  method WriteFields(header: string, c: Config) returns (b: string)
    ensures b == Printed(header, Fields(c))
  {
    ghost var done: seq<Field> := [];
    b := header + "\n";
    assert b == Printed(header, done) by {
      PrintedIsHeaderThen(header, []);
    }
    b, done := Write(header, done, b, "server", c.server);
    b, done := Write(header, done, b, "token", c.token);
    b, done := Write(header, done, b, "user", c.user);
    b, done := Write(header, done, b, "machine", c.machine);
    b, done := Write(header, done, b, "pin", c.pin);
    b, done := WriteInt(header, done, b, "interval", c.interval);
    b, done := WriteInt(header, done, b, "grace", c.graceMin);
    assert done == Fields(c);
  }

  /** One call of the `write` closure: nothing for an empty value. */
  method Write(ghost header: string, ghost done: seq<Field>, b: string, key: string, value: string)
    returns (r: string, ghost more: seq<Field>)
    requires b == Printed(header, done)
    ensures more == done + [Field(key, value)] && r == Printed(header, more)
  {
    more := done + [Field(key, value)];
    PrintedSnoc(header, done, Field(key, value));
    r := b;
    if value != "" {
      r := r + (key + " = " + value + "\n");
    }
  }

  method WriteInt(ghost header: string, ghost done: seq<Field>, b: string, key: string, n: int64)
    returns (r: string, ghost more: seq<Field>)
    requires b == Printed(header, done)
    ensures more == done + [Field(key, Itoa(n))] && r == Printed(header, more)
  {
    more := done + [Field(key, Itoa(n))];
    PrintedSnoc(header, done, Field(key, Itoa(n)));
    r := b + (key + " = " + Itoa(n) + "\n");
  }

  function Line(key: string, value: string): string {
    if value != "" then key + " = " + value + "\n" else ""
  }

  lemma PrintedSnoc(header: string, fields: seq<Field>, f: Field)
    ensures Printed(header, fields + [f]) == Printed(header, fields) + Line(f.key, f.value)
  {
    LinesAppend(fields, f);
    UnlinesAppend(FieldLines(fields), FieldLines([f]));
    LineIsUnlines(f);
    PrintedIsHeaderThen(header, fields);
    PrintedIsHeaderThen(header, fields + [f]);
    Seqs.Assoc(header + "\n", Unlines(FieldLines(fields)), Line(f.key, f.value));
  }

  lemma LineIsUnlines(f: Field)
    ensures Unlines(FieldLines([f])) == Line(f.key, f.value)
  {
    assert [f][1..] == [];
    if f.value != "" {
      assert FieldLines([f]) == [FieldLine(f)] && [FieldLine(f)][1..] == [];
    }
  }

  lemma PrintedIsHeaderThen(header: string, fields: seq<Field>)
    ensures Printed(header, fields) == header + "\n" + Unlines(FieldLines(fields))
  {
    assert ([header] + FieldLines(fields))[1..] == FieldLines(fields);
  }

  lemma {:induction false} LinesAppend(fields: seq<Field>, f: Field)
    ensures FieldLines(fields + [f]) == FieldLines(fields) + FieldLines([f])
  {
    if fields == [] {
      assert [] + [f] == [f];
    } else {
      assert (fields + [f])[1..] == fields[1..] + [f];
      LinesAppend(fields[1..], f);
    }
  }

  lemma {:induction false} UnlinesAppend(a: seq<string>, b: seq<string>)
    ensures Unlines(a + b) == Unlines(a) + Unlines(b)
  {
    if a == [] {
      assert a + b == b;
    } else {
      assert (a + b)[1..] == a[1..] + b;
      UnlinesAppend(a[1..], b);
    }
  }

  // ---------- Reading ----------

  /** `unicode.ToLower`, as far as it leads to ASCII: the letters A to Z, the dotted capital
      I and the Kelvin sign. */
  function LowerChar(c: char): char {
    if 'A' <= c <= 'Z' then ((c as int) - ('A' as int) + ('a' as int)) as char
    else if c == '\U{130}' then 'i'
    else if c == '\U{212A}' then 'k'
    else c
  }

  function Lower(s: string): string {
    seq(|s|, i requires 0 <= i < |s| => LowerChar(s[i]))
  }

  function EqualsAt(s: string): (i: nat)
    ensures i <= |s| && (i < |s| ==> s[i] == '=')
    ensures forall j :: 0 <= j < i ==> s[j] != '='
  {
    if s == [] || s[0] == '=' then 0 else 1 + EqualsAt(s[1..])
  }

  /** What one line sets, if anything. */
  function Entry(line: string): Option<Field> {
    var t := TrimSpace(line);
    if t == "" || t[0] == '#' || EqualsAt(t) == |t| then None
    else
      var key := TrimSpace(Lower(t[..EqualsAt(t)]));
      if key == "" then None
      else Some(Field(key, Cleaned(t[EqualsAt(t) + 1..])))
  }

  function Sets(line: string, key: string): Option<string> {
    if Entry(line).Some? && Entry(line).value.key == key then Some(Entry(line).value.value) else None
  }

  /** The value of the last line that sets `key`. */
  function Find(lines: seq<string>, key: string): Option<string> {
    if lines == [] then None
    else
      var later := Find(lines[1..], key);
      if later.Some? then later
      else Sets(lines[0], key)
  }

  lemma {:induction false} FindSnoc(lines: seq<string>, line: string, key: string)
    ensures Find(lines + [line], key) ==
              if Sets(line, key).Some? then Sets(line, key) else Find(lines, key)
  {
    if lines != [] {
      FindSnoc(lines[1..], line, key);
      assert (lines + [line])[1..] == lines[1..] + [line];
    }
  }

  function Lookup(m: map<string, string>, key: string): Option<string> {
    if key in m then Some(m[key]) else None
  }

  /** An absent or unreadable file reads as the empty text. */
  method ReadConfigFile(text: string) returns (out: map<string, string>)
    ensures forall key :: Lookup(out, key) == Find(ScanLines(text), key)
  {
    out := map[];
    var lines := ScanLines(text);
    for i := 0 to |lines|
      invariant forall key :: Lookup(out, key) == Find(lines[..i], key)
    {
      FindNext(lines, i);
      out := ReadLine(out, lines[i]);
    }
    assert lines[..|lines|] == lines;
  }

  /** The body of the scan loop. */
  method ReadLine(before: map<string, string>, line: string) returns (out: map<string, string>)
    ensures forall key :: Lookup(out, key) == if Sets(line, key).Some? then Sets(line, key) else Lookup(before, key)
  {
    out := before;
    var t := TrimSpace(line);
    if t == "" || t[0] == '#' {
      return;
    }
    var cut := EqualsAt(t);
    if cut == |t| {
      return;
    }
    var key := TrimSpace(Lower(t[..cut]));
    var val := TrimSpace(t[cut + 1..]);
    val := Trim(IsQuote, val);
    if key != "" {
      out := out[key := val];
    }
  }

  lemma FindNext(lines: seq<string>, i: nat)
    requires i < |lines|
    ensures forall key :: Find(lines[..i + 1], key) ==
              if Sets(lines[i], key).Some? then Sets(lines[i], key) else Find(lines[..i], key)
  {
    assert lines[..i + 1] == lines[..i] + [lines[i]];
    forall key
      ensures Find(lines[..i + 1], key) ==
                if Sets(lines[i], key).Some? then Sets(lines[i], key) else Find(lines[..i], key)
    {
      FindSnoc(lines[..i], lines[i], key);
    }
  }

  // ---------- Resolving ----------

  function FirstNonEmpty(vals: seq<string>): string {
    if vals == [] then "" else if vals[0] != "" then vals[0] else FirstNonEmpty(vals[1..])
  }

  function PickInt(s: string, def: int64): int64 {
    var n := Atoi(TrimSpace(s));
    if n.Some? then n.value else def
  }

  function Pick(env: string -> string, file: seq<string>, envKey: string, fileKey: string, def: string): string {
    FirstNonEmpty([env(envKey), if Find(file, fileKey).Some? then Find(file, fileKey).value else "", def])
  }

  /** `resolveConfig` with no flag but `-config`, for a file of these lines. */
  function Resolve(env: string -> string, file: seq<string>, host: string): Config {
    var machine := Pick(env, file, "REWARDD_MACHINE", "machine", host);
    Config(Pick(env, file, "REWARDD_SERVER", "server", ""),
           Pick(env, file, "REWARDD_TOKEN", "token", ""),
           Pick(env, file, "REWARDD_USER", "user", ""),
           if machine == "" then host else machine,
           Pick(env, file, "REWARDD_PIN", "pin", ""),
           PickInt(Pick(env, file, "REWARDD_INTERVAL", "interval", ""), 20),
           PickInt(Pick(env, file, "REWARDD_GRACE", "grace", ""), 30))
  }
}
