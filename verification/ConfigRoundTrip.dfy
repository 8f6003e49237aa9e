/** Printing a configuration and resolving it again: the exact domain on which that is the
    identity. */
module ConfigRoundTrip {
  import opened Int64
  import opened Text
  import opened ConfigFile

  // ---------- One line ----------

  /** A key the printer uses: lower-case letters. */
  predicate IsWord(key: string) {
    key != [] && forall i :: 0 <= i < |key| ==> 'a' <= key[i] <= 'z'
  }

  lemma TrimOfFieldLine(f: Field)
    requires IsWord(f.key)
    ensures TrimSpace(DropReturn(FieldLine(f))) == f.key + " =" + TrimRight(IsSpace, " " + f.value)
  {
    var line, shown := FieldLine(f), DropReturn(FieldLine(f));
    var a, b := f.key + " =", " " + f.value;
    assert line == a + b && shown[0] == f.key[0];
    assert TrimLeft(IsSpace, shown) == shown;
    assert TrimRight(IsSpace, shown) == TrimRight(IsSpace, line);
    TrimRightOfConcat(IsSpace, a, b);
    assert a[|a| - 1] == '=' && TrimRight(IsSpace, a) == a == a + [];
  }

  /** A printed line, scanned, sets its key to the cleaned value. */
  lemma EntryOfFieldLine(f: Field)
    requires IsWord(f.key)
    ensures Entry(DropReturn(FieldLine(f))) == Some(Field(f.key, Cleaned(f.value)))
  {
    var t, n := TrimSpace(DropReturn(FieldLine(f))), |f.key| + 1;
    TrimOfFieldLine(f);
    assert t[..n] == f.key + " " && t[n] == '=' && t[n + 1..] == TrimRight(IsSpace, " " + f.value);
    assert forall j :: 0 <= j < n ==> t[j] == (f.key + " ")[j];
    assert EqualsAt(t) == n;
    KeyOfWord(f.key, t[..n]);
    TrimAfterBlank(f.value);
  }

  lemma KeyOfWord(key: string, raw: string)
    requires IsWord(key) && raw == key + " "
    ensures TrimSpace(Lower(raw)) == key
  {
    assert Lower(raw) == key + " ";
    assert TrimLeft(IsSpace, key + " ") == key + " ";
    assert (key + " ")[..|key|] == key;
    assert TrimRight(IsSpace, key) == key;
  }

  lemma TrimAfterBlank(v: string)
    ensures TrimSpace(TrimRight(IsSpace, " " + v)) == TrimSpace(v)
  {
    var b := " " + v;
    TrimsCommute(IsSpace, b);
    TrimsCommute(IsSpace, TrimRight(IsSpace, b));
    TrimRightIdempotent(IsSpace, b);
    TrimRightIdempotent(IsSpace, TrimLeft(IsSpace, b));
    assert b[1..] == v;
    assert TrimLeft(IsSpace, b) == TrimLeft(IsSpace, v);
  }

  predicate IsComment(header: string) {
    header != [] && header[0] == '#' && '\n' !in header && !TooLong(header)
  }

  lemma CommentSetsNothing(header: string, key: string)
    requires IsComment(header)
    ensures Sets(DropReturn(header), key).None?
  {
    var shown := DropReturn(header);
    assert shown == [shown[0]] + shown[1..];
    TrimRightOfConcat(IsSpace, [shown[0]], shown[1..]);
  }

  // ---------- The whole file ----------

  /** What the file gives for a key: the fields written before any line too long to scan. */
  function Reach(fields: seq<Field>, key: string): Option<string> {
    if fields == [] then None
    else if fields[0].value == "" then Reach(fields[1..], key)
    else if TooLong(FieldLine(fields[0])) then None
    else
      var later := Reach(fields[1..], key);
      if later.Some? then later
      else if fields[0].key == key then Some(Cleaned(fields[0].value))
      else None
  }

  lemma {:induction false} FindIsReach(fields: seq<Field>, key: string)
    requires forall i :: 0 <= i < |fields| ==> IsWord(fields[i].key)
    ensures Find(Shown(FieldLines(fields)), key) == Reach(fields, key)
  {
    if fields != [] {
      FindIsReach(fields[1..], key);
      var rest := FieldLines(fields[1..]);
      if fields[0].value == "" {
        assert FieldLines(fields) == rest;
      } else {
        assert FieldLines(fields)[1..] == rest;
        EntryOfFieldLine(fields[0]);
        assert ([DropReturn(FieldLine(fields[0]))] + Shown(rest))[1..] == Shown(rest);
      }
    }
  }

  predicate OneLiners(fields: seq<Field>) {
    forall i :: 0 <= i < |fields| ==> IsWord(fields[i].key) && '\n' !in fields[i].value
  }

  lemma {:induction false} LinesOfOneLiners(fields: seq<Field>)
    requires OneLiners(fields)
    ensures forall i :: 0 <= i < |FieldLines(fields)| ==> '\n' !in FieldLines(fields)[i]
  {
    if fields != [] {
      LinesOfOneLiners(fields[1..]);
      assert '\n' !in fields[0].key;
      assert '\n' !in FieldLine(fields[0]);
    }
  }

  /** Values without newlines are read back from their own lines. */
  lemma ScannedIsReach(header: string, fields: seq<Field>, key: string)
    requires IsComment(header) && OneLiners(fields)
    ensures Find(ScanLines(Printed(header, fields)), key) == Reach(fields, key)
  {
    var lines := [header] + FieldLines(fields);
    LinesOfOneLiners(fields);
    ScanOfUnlines(lines);
    assert lines[1..] == FieldLines(fields);
    var shown := Shown(FieldLines(fields));
    assert Shown(lines) == [DropReturn(header)] + shown && ([DropReturn(header)] + shown)[1..] == shown;
    CommentSetsNothing(header, key);
    FindIsReach(fields, key);
  }

  /** Whatever was printed, a value read back has no newline in it. */
  lemma {:induction false} FoundHasNoNewline(lines: seq<string>, key: string)
    requires forall i :: 0 <= i < |lines| ==> '\n' !in lines[i]
    ensures Find(lines, key).Some? ==> '\n' !in Find(lines, key).value
  {
    if lines != [] {
      FoundHasNoNewline(lines[1..], key);
      var t := TrimSpace(lines[0]);
      TrimLeftKeepsOnly(IsSpace, lines[0]);
      TrimRightKeepsOnly(IsSpace, TrimLeft(IsSpace, lines[0]));
      assert '\n' !in t;
      if EqualsAt(t) < |t| {
        CleanedKeepsOnly(t[EqualsAt(t) + 1..]);
      }
    }
  }

  predicate DistinctKeys(fields: seq<Field>) {
    forall i, j :: 0 <= i < j < |fields| ==> fields[i].key != fields[j].key
  }

  lemma {:induction false} ReachAbsent(fields: seq<Field>, key: string)
    requires forall i :: 0 <= i < |fields| ==> fields[i].key != key
    ensures Reach(fields, key).None?
  {
    if fields != [] {
      ReachAbsent(fields[1..], key);
    }
  }

  predicate Scannable(f: Field) {
    f.value == "" || !TooLong(FieldLine(f))
  }

  /** With every line up to its own short enough, a field comes back cleaned. */
  lemma {:induction false} ReachShort(fields: seq<Field>, i: nat)
    requires i < |fields| && DistinctKeys(fields)
    requires forall j :: 0 <= j <= i ==> Scannable(fields[j])
    ensures Reach(fields, fields[i].key) == if fields[i].value == "" then None else Some(Cleaned(fields[i].value))
  {
    if i == 0 {
      ReachAbsent(fields[1..], fields[0].key);
    } else {
      ReachShort(fields[1..], i - 1);
      assert fields[0].key != fields[i].key;
    }
  }

  /** A field with a line too long at or before its own never comes back. */
  lemma {:induction false} ReachLong(fields: seq<Field>, j: nat, i: nat)
    requires j <= i < |fields| && DistinctKeys(fields) && !Scannable(fields[j])
    ensures Reach(fields, fields[i].key).None?
  {
    if j > 0 {
      ReachLong(fields[1..], j - 1, i - 1);
      assert fields[0].key != fields[i].key;
    }
  }

  // ---------- The round trip ----------

  predicate IsPlain(f: Field) {
    '\n' !in f.value && Cleaned(f.value) == f.value && Scannable(f)
  }

  /** One line each, nothing for trimming to take, short enough for the scanner, and a
      machine name to write. */
  predicate Printable(c: Config) {
    && IsPlain(Fields(c)[0]) && IsPlain(Fields(c)[1]) && IsPlain(Fields(c)[2])
    && IsPlain(Fields(c)[3]) && IsPlain(Fields(c)[4])
    && c.machine != ""
  }

  /** Write the file, then resolve with an empty environment and no flag but `-config`. */
  function Reloaded(c: Config, host: string): Config {
    Resolve(_ => "", ScanLines(Printed(HEADER, Fields(c))), host)
  }

  lemma ShortComment(header: string)
    requires header != [] && header[0] == '#' && '\n' !in header && |header| < 1000
    ensures IsComment(header)
  {
    BytesAtMost(header);
  }

  lemma HeaderIsComment()
    ensures IsComment(HEADER)
  {
    ShortComment(HEADER);
  }

  lemma FieldsAreDistinctWords(c: Config)
    ensures DistinctKeys(Fields(c))
    ensures forall i :: 0 <= i < 7 ==> IsWord(Fields(c)[i].key)
  {
  }

  function OrEmpty(v: Option<string>): string {
    if v.Some? then v.value else ""
  }

  /** What the file gives for the `i`-th setting. */
  function Loaded(c: Config, i: nat): string
    requires i < 7
  {
    OrEmpty(Find(ScanLines(Printed(HEADER, Fields(c))), Fields(c)[i].key))
  }

  lemma FirstOfThree(a: string, b: string, c: string)
    ensures FirstNonEmpty([a, b, c]) == if a != "" then a else if b != "" then b else c
  {
    assert [a, b, c][1..] == [b, c] && [b, c][1..] == [c];
    assert FirstNonEmpty([c]) == c;
    assert FirstNonEmpty([b, c]) == if b != "" then b else c;
  }

  lemma PickFromFile(file: seq<string>, envKey: string, fileKey: string, def: string)
    ensures Pick(_ => "", file, envKey, fileKey, def) ==
              if OrEmpty(Find(file, fileKey)) != "" then OrEmpty(Find(file, fileKey)) else def
  {
    FirstOfThree("", OrEmpty(Find(file, fileKey)), def);
  }

  /** What resolving makes of the values the file gives. */
  function FromLoaded(loaded: seq<string>, host: string, interval: int64, grace: int64): Config
    requires |loaded| == 7
  {
    Config(loaded[0], loaded[1], loaded[2], if loaded[3] != "" then loaded[3] else host, loaded[4], interval, grace)
  }

  lemma ReloadedFromLoaded(c: Config, host: string, loaded: seq<string>)
    requires |loaded| == 7 && forall i :: 0 <= i < 7 ==> loaded[i] == Loaded(c, i)
    ensures Reloaded(c, host) == FromLoaded(loaded, host, PickInt(loaded[5], 20), PickInt(loaded[6], 30))
  {
    var file := ScanLines(Printed(HEADER, Fields(c)));
    PickFromFile(file, "REWARDD_SERVER", "server", "");
    PickFromFile(file, "REWARDD_TOKEN", "token", "");
    PickFromFile(file, "REWARDD_USER", "user", "");
    PickFromFile(file, "REWARDD_MACHINE", "machine", host);
    PickFromFile(file, "REWARDD_PIN", "pin", "");
    PickFromFile(file, "REWARDD_INTERVAL", "interval", "");
    PickFromFile(file, "REWARDD_GRACE", "grace", "");
  }

  lemma NumberIsPlain(key: string, n: int64)
    requires |key| <= 10
    ensures IsPlain(Field(key, Itoa(n))) && Itoa(n) != ""
    ensures forall def :: PickInt(Itoa(n), def) == n
  {
    ItoaIsPlain(n);
    AtoiOfItoa(n);
    BytesAtMost(FieldLine(Field(key, Itoa(n))));
  }

  lemma OneLineFields(c: Config)
    requires forall i :: 0 <= i < 5 ==> '\n' !in Fields(c)[i].value
    ensures OneLiners(Fields(c))
  {
    ItoaIsPlain(c.interval);
    ItoaIsPlain(c.graceMin);
    FieldsAreDistinctWords(c);
  }

  predicate OneLinesOnly(c: Config) {
    forall i :: 0 <= i < 5 ==> '\n' !in Fields(c)[i].value
  }

  /** Without newlines, and with every line up to its own short enough, a setting is loaded
      cleaned; with one that is too long it is not. */
  lemma LoadsClean(c: Config, i: nat)
    requires OneLinesOnly(c) && i < 7
    ensures (forall j :: 0 <= j <= i ==> Scannable(Fields(c)[j])) ==> Loaded(c, i) == Cleaned(Fields(c)[i].value)
    ensures (exists j :: 0 <= j <= i && !Scannable(Fields(c)[j])) ==> Loaded(c, i) == ""
  {
    var fields := Fields(c);
    OneLineFields(c);
    FieldsAreDistinctWords(c);
    HeaderIsComment();
    ScannedIsReach(HEADER, fields, fields[i].key);
    if j :| 0 <= j <= i && !Scannable(fields[j]) {
      ReachLong(fields, j, i);
    } else {
      ReachShort(fields, i);
    }
  }

  /** Whatever is printed, no setting is loaded with a newline in it. */
  lemma LoadsOneLine(c: Config, i: nat)
    requires i < 7
    ensures '\n' !in Loaded(c, i)
  {
    ScannedLinesHaveNoNewline(Printed(HEADER, Fields(c)));
    FoundHasNoNewline(ScanLines(Printed(HEADER, Fields(c))), Fields(c)[i].key);
  }

  lemma AllLoaded(c: Config) returns (loaded: seq<string>)
    ensures |loaded| == 7
    ensures forall i :: 0 <= i < 7 ==> loaded[i] == Loaded(c, i) && '\n' !in loaded[i]
    ensures OneLinesOnly(c) ==> Loads(Fields(c), loaded)
  {
    loaded := seq(7, i requires 0 <= i < 7 => Loaded(c, i));
    forall i | 0 <= i < 7
      ensures '\n' !in loaded[i]
      ensures OneLinesOnly(c) ==> loaded[i] == if Reaches(Fields(c), i) then Cleaned(Fields(c)[i].value) else ""
    {
      LoadsOneLine(c, i);
      if OneLinesOnly(c) {
        LoadsClean(c, i);
      }
    }
  }

  /** No line at or before the field's own is too long. */
  predicate Reaches(fields: seq<Field>, i: nat)
    requires i < |fields|
  {
    forall j :: 0 <= j <= i ==> Scannable(fields[j])
  }

  /** The values a file of single lines gives. */
  ghost predicate Loads(fields: seq<Field>, loaded: seq<string>) {
    |loaded| == |fields| &&
    forall i :: 0 <= i < |fields| ==> loaded[i] == if Reaches(fields, i) then Cleaned(fields[i].value) else ""
  }

  /** The machine is the host's name, and the file gives none: its line cleans to nothing, or
      is too long, and then nothing of what follows may be needed. */
  predicate Defaulted(c: Config) {
    && IsPlain(Fields(c)[0]) && IsPlain(Fields(c)[1]) && IsPlain(Fields(c)[2])
    && '\n' !in c.machine
    && if Scannable(Fields(c)[3]) then Cleaned(c.machine) == "" && IsPlain(Fields(c)[4])
       else c.pin == "" && c.interval == 20 && c.graceMin == 30
  }

  predicate PrintableOn(c: Config, host: string) {
    Printable(c) || (c.machine == host && Defaulted(c))
  }

  lemma PrintableHasOneLines(c: Config, host: string)
    requires PrintableOn(c, host)
    ensures OneLinesOnly(c)
  {
    assert Fields(c)[3].value == c.machine && Fields(c)[4].value == c.pin;
  }

  lemma ReloadedHasOneLines(c: Config, host: string, loaded: seq<string>, interval: int64, grace: int64)
    requires |loaded| == 7 && forall i :: 0 <= i < 7 ==> '\n' !in loaded[i]
    requires FromLoaded(loaded, host, interval, grace) == c && (host == c.machine ==> '\n' !in host)
    ensures OneLinesOnly(c)
  {
    assert Fields(c)[0].value == loaded[0] && Fields(c)[1].value == loaded[1] && Fields(c)[2].value == loaded[2];
    assert Fields(c)[3].value == c.machine && Fields(c)[4].value == loaded[4];
  }

  /** The numbers come back if no line before theirs is too long. */
  predicate NumbersBy(c: Config, interval: int64, grace: int64) {
    if Reaches(Fields(c), 4) then interval == c.interval && grace == c.graceMin else interval == 20 && grace == 30
  }

  lemma NumbersLoad(c: Config, loaded: seq<string>)
    requires Loads(Fields(c), loaded)
    ensures NumbersBy(c, PickInt(loaded[5], 20), PickInt(loaded[6], 30))
  {
    NumberIsPlain("interval", c.interval);
    NumberIsPlain("grace", c.graceMin);
    var fields := Fields(c);
    assert fields[5] == Field("interval", Itoa(c.interval)) && fields[6] == Field("grace", Itoa(c.graceMin));
    if Reaches(fields, 4) {
      assert Reaches(fields, 5) && Reaches(fields, 6);
    } else {
      var j :| 0 <= j <= 4 && !Scannable(fields[j]);
      assert !Reaches(fields, 5) && !Reaches(fields, 6);
      NothingPicked();
    }
  }

  lemma NothingPicked()
    ensures PickInt("", 20) == 20 && PickInt("", 30) == 30
  {
  }

  /** A value loaded as it was written was plain, and the other way, if all lines before it
      are short enough. */
  lemma PlainExactly(fields: seq<Field>, loaded: seq<string>, i: nat)
    requires Loads(fields, loaded) && i < |fields| && '\n' !in fields[i].value
    requires forall j :: 0 <= j < i ==> Scannable(fields[j])
    ensures loaded[i] == fields[i].value <==> IsPlain(fields[i])
    ensures loaded[i] == if Scannable(fields[i]) then Cleaned(fields[i].value) else ""
    ensures Reaches(fields, i) <==> Scannable(fields[i])
    ensures IsPlain(fields[i]) ==> Scannable(fields[i])
  {
  }

  /** What decides the round trip: which settings are plain, whether the machine's line can
      be scanned, and what it cleans to. */
  datatype Parts = Parts(plain: seq<bool>, scans: bool, clean: string)

  function PartsOf(c: Config): (p: Parts)
    ensures |p.plain| == 5
  {
    Parts(seq(5, i requires 0 <= i < 5 => IsPlain(Fields(c)[i])), Scannable(Fields(c)[3]), Cleaned(c.machine))
  }

  predicate PrintableParts(c: Config, host: string, p: Parts)
    requires |p.plain| == 5
  {
    && p.plain[0] && p.plain[1] && p.plain[2]
    && ((p.plain[3] && p.plain[4] && c.machine != "") ||
        (c.machine == host &&
         if p.scans then p.clean == "" && p.plain[4] else c.pin == "" && c.interval == 20 && c.graceMin == 30))
  }

  lemma PrintableIsParts(c: Config)
    ensures var p := PartsOf(c);
            Printable(c) <==> p.plain[0] && p.plain[1] && p.plain[2] && p.plain[3] && p.plain[4] && c.machine != ""
  {
    assert forall i :: 0 <= i < 5 ==> PartsOf(c).plain[i] == IsPlain(Fields(c)[i]);
  }

  lemma DefaultedIsParts(c: Config)
    requires '\n' !in c.machine
    ensures var p := PartsOf(c);
            Defaulted(c) <==>
              && p.plain[0] && p.plain[1] && p.plain[2]
              && if p.scans then p.clean == "" && p.plain[4] else c.pin == "" && c.interval == 20 && c.graceMin == 30
  {
    assert forall i :: 0 <= i < 5 ==> PartsOf(c).plain[i] == IsPlain(Fields(c)[i]);
  }

  /** How what is loaded depends on the parts. */
  predicate LoadedBy(c: Config, loaded: seq<string>, interval: int64, grace: int64, p: Parts)
    requires |loaded| == 7 && |p.plain| == 5
  {
    && (loaded[0] == c.server <==> p.plain[0])
    && (p.plain[0] ==> (loaded[1] == c.token <==> p.plain[1]))
    && (p.plain[0] && p.plain[1] ==> (loaded[2] == c.user <==> p.plain[2]))
    && (p.plain[0] && p.plain[1] && p.plain[2] ==>
         && (loaded[3] == c.machine <==> p.plain[3]) && (p.plain[3] ==> p.scans)
         && loaded[3] == (if p.scans then p.clean else "")
         && (p.scans ==> (loaded[4] == c.pin <==> p.plain[4]))
         && (p.scans && p.plain[4] ==> interval == c.interval && grace == c.graceMin)
         && (!p.scans ==> loaded[4] == "" && interval == 20 && grace == 30))
  }

  lemma ExactByParts(c: Config, host: string, loaded: seq<string>, interval: int64, grace: int64, p: Parts)
    requires |loaded| == 7 && |p.plain| == 5 && LoadedBy(c, loaded, interval, grace, p)
    ensures FromLoaded(loaded, host, interval, grace) == c <==> PrintableParts(c, host, p)
  {
  }

  lemma PartsLoad(c: Config, loaded: seq<string>, interval: int64, grace: int64)
    requires OneLinesOnly(c) && Loads(Fields(c), loaded) && NumbersBy(c, interval, grace)
    ensures LoadedBy(c, loaded, interval, grace, PartsOf(c))
  {
    var fields, plain := Fields(c), PartsOf(c).plain;
    PlainExactly(fields, loaded, 0);
    if plain[0] {
      PlainExactly(fields, loaded, 1);
      if plain[1] {
        PlainExactly(fields, loaded, 2);
        if plain[2] {
          PlainExactly(fields, loaded, 3);
          if Scannable(fields[3]) {
            PlainExactly(fields, loaded, 4);
          } else {
            assert !Reaches(fields, 4);
          }
        }
      }
    }
  }

  /** On a given host, printing and resolving gives a configuration back exactly when it is
      printable or lives on the default for its machine. */
  lemma RoundTripOnHost(c: Config, host: string)
    requires host == c.machine ==> '\n' !in host
    ensures Reloaded(c, host) == c <==> PrintableOn(c, host)
  {
    var loaded := AllLoaded(c);
    ReloadedFromLoaded(c, host, loaded);
    var interval, grace := PickInt(loaded[5], 20), PickInt(loaded[6], 30);
    if OneLinesOnly(c) {
      NumbersLoad(c, loaded);
      PartsLoad(c, loaded, interval, grace);
      ExactByParts(c, host, loaded, interval, grace, PartsOf(c));
      assert '\n' !in Fields(c)[3].value;
      PrintableIsParts(c);
      DefaultedIsParts(c);
    } else if FromLoaded(loaded, host, interval, grace) == c {
      ReloadedHasOneLines(c, host, loaded, interval, grace);
    } else if PrintableOn(c, host) {
      PrintableHasOneLines(c, host);
    }
  }

  ghost predicate AlwaysReloaded(c: Config) {
    forall host :: Reloaded(c, host) == c
  }

  /** It does so on every host exactly when it is printable. */
  lemma RoundTripExactly(c: Config)
    ensures AlwaysReloaded(c) <==> Printable(c)
  {
    if Printable(c) {
      assert '\n' !in Fields(c)[3].value;
      forall host ensures Reloaded(c, host) == c {
        RoundTripOnHost(c, host);
      }
    } else if AlwaysReloaded(c) {
      RoundTripOnHost(c, if c.machine == "" then "host" else "");
    }
  }

  // ---------- Layers ----------

  function OrElse(first: string, second: string): string {
    if first != "" then first else second
  }

  function NumberOr(s: string, def: int64): int64 {
    if Atoi(TrimSpace(s)).Some? then Atoi(TrimSpace(s)).value else def
  }

  /** An environment variable that is not empty wins over the file, and the file over the
      default, for each setting by its names; a number that does not parse is the default. */
  lemma EnvironmentOverFileOverDefault(env: string -> string, file: seq<string>, host: string)
    ensures var r := Resolve(env, file, host);
            && r.server == OrElse(env("REWARDD_SERVER"), OrEmpty(Find(file, "server")))
            && r.token == OrElse(env("REWARDD_TOKEN"), OrEmpty(Find(file, "token")))
            && r.user == OrElse(env("REWARDD_USER"), OrEmpty(Find(file, "user")))
            && r.pin == OrElse(env("REWARDD_PIN"), OrEmpty(Find(file, "pin")))
            && r.machine == OrElse(env("REWARDD_MACHINE"), OrElse(OrEmpty(Find(file, "machine")), host))
            && r.interval == NumberOr(OrElse(env("REWARDD_INTERVAL"), OrEmpty(Find(file, "interval"))), 20)
            && r.graceMin == NumberOr(OrElse(env("REWARDD_GRACE"), OrEmpty(Find(file, "grace"))), 30)
  {
    PickIsLayered(env, file, "REWARDD_SERVER", "server", "");
    PickIsLayered(env, file, "REWARDD_TOKEN", "token", "");
    PickIsLayered(env, file, "REWARDD_USER", "user", "");
    PickIsLayered(env, file, "REWARDD_PIN", "pin", "");
    PickIsLayered(env, file, "REWARDD_MACHINE", "machine", host);
    PickIsLayered(env, file, "REWARDD_INTERVAL", "interval", "");
    PickIsLayered(env, file, "REWARDD_GRACE", "grace", "");
  }

  lemma PickIsLayered(env: string -> string, file: seq<string>, envKey: string, fileKey: string, def: string)
    ensures Pick(env, file, envKey, fileKey, def) == OrElse(env(envKey), OrElse(OrEmpty(Find(file, fileKey)), def))
  {
    FirstOfThree(env(envKey), OrEmpty(Find(file, fileKey)), def);
  }

  // ---------- What the reader forgives ----------

  /** `raised` is `key` with some of its letters in upper case. */
  predicate SameButCase(raised: string, key: string) {
    |raised| == |key| &&
    forall i :: 0 <= i < |key| ==>
      raised[i] == key[i] || ('A' <= raised[i] <= 'Z' && raised[i] as int + 32 == key[i] as int)
  }

  lemma KeysIgnoreCase(raised: string, key: string)
    requires IsWord(key) && SameButCase(raised, key)
    ensures Lower(raised) == key
  {
    forall i | 0 <= i < |key| ensures Lower(raised)[i] == key[i] {
      assert 'a' <= key[i] <= 'z';
    }
  }

  /** A value in quotes is read without them, and keeps the blanks inside. */
  lemma QuotesAreTaken(v: string, q: char)
    requires q == '"' || q == '\''
    requires v == "" || (v[0] != '"' && v[0] != '\'' && v[|v| - 1] != '"' && v[|v| - 1] != '\'')
    ensures Cleaned([q] + v + [q]) == v
  {
    var quoted := [q] + v + [q];
    NothingToTrim(IsSpace, quoted);
    assert quoted[1..] == v + [q];
    if v == "" {
      assert quoted == [q, q];
      assert TrimLeft(IsQuote, [q]) == TrimLeft(IsQuote, [q][1..]);
    } else {
      assert TrimLeft(IsQuote, v + [q]) == v + [q];
      TrimRightOfConcat(IsQuote, v, [q]);
      assert TrimRight(IsQuote, [q]) == TrimRight(IsQuote, [q][..0]) == [];
    }
  }

  predicate AllSpace(s: string) {
    forall i :: 0 <= i < |s| ==> IsSpace(s[i])
  }

  /** Letters of either case. */
  predicate IsName(key: string) {
    key != [] && forall i :: 0 <= i < |key| ==> 'a' <= key[i] <= 'z' || 'A' <= key[i] <= 'Z'
  }

  lemma {:induction false} BlanksBefore(left: string, s: string)
    requires AllSpace(left)
    ensures TrimLeft(IsSpace, left + s) == TrimLeft(IsSpace, s)
  {
    if left == [] {
      assert left + s == s;
    } else {
      BlanksBefore(left[1..], s);
      assert (left + s)[1..] == left[1..] + s;
    }
  }

  lemma {:induction false} BlanksOnly(s: string)
    requires AllSpace(s)
    ensures TrimRight(IsSpace, s) == []
  {
    if s != [] {
      BlanksOnly(s[..|s| - 1]);
    }
  }

  lemma TrimsToEntry(left: string, key: string, mid: string, rest: string)
    requires AllSpace(left) && IsName(key)
    ensures TrimSpace(left + (key + mid + "=" + rest)) == key + mid + "=" + TrimRight(IsSpace, rest)
  {
    var a := key + mid + "=";
    BlanksBefore(left, a + rest);
    assert (a + rest)[0] == key[0];
    TrimRightOfConcat(IsSpace, a, rest);
    assert a[|a| - 1] == '=' && TrimRight(IsSpace, a) == a == a + [];
  }

  lemma NameTrims(key: string, mid: string)
    requires IsName(key) && AllSpace(mid)
    ensures TrimSpace(Lower(key + mid)) == Lower(key)
  {
    var low := Lower(key);
    assert Lower(key + mid) == low + mid;
    assert low[0] != ' ' && !IsSpace(low[0]) && !IsSpace(low[|low| - 1]);
    assert TrimLeft(IsSpace, low + mid) == low + mid;
    TrimRightOfConcat(IsSpace, low, mid);
    BlanksOnly(mid);
  }

  lemma CleanedOfTrimmed(rest: string)
    ensures Cleaned(TrimRight(IsSpace, rest)) == Cleaned(rest)
  {
    TrimsCommute(IsSpace, rest);
    TrimsCommute(IsSpace, TrimRight(IsSpace, rest));
    TrimRightIdempotent(IsSpace, rest);
    TrimRightIdempotent(IsSpace, TrimLeft(IsSpace, rest));
  }

  /** A line may be indented, have blanks about the sign and its key in any case. */
  lemma EntryOfLooseLine(left: string, key: string, mid: string, rest: string)
    requires AllSpace(left) && AllSpace(mid) && IsName(key)
    ensures Entry(left + (key + mid + "=" + rest)) == Some(Field(Lower(key), Cleaned(rest)))
  {
    var t, n := TrimSpace(left + (key + mid + "=" + rest)), |key + mid|;
    TrimsToEntry(left, key, mid, rest);
    assert t[..n] == key + mid && t[n] == '=' && t[n + 1..] == TrimRight(IsSpace, rest);
    forall j | 0 <= j < n ensures t[j] != '=' {
      assert t[j] == (key + mid)[j];
      if j >= |key| {
        assert t[j] == mid[j - |key|];
      }
    }
    assert EqualsAt(t) == n;
    NameTrims(key, mid);
    CleanedOfTrimmed(rest);
  }
}
