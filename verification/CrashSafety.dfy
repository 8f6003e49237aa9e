/** The JSON engine as a process that can fail or crash between any two system calls of
    `flush`, and be started again by `NewJSONStore`. */
module CrashSafety {
  import opened Ledger
  import opened JsonStore

  /** Where the process is. A flush makes the directory, writes the temporary file and
      renames it; `Returning` has renamed but not yet answered its caller. */
  datatype Stage = Down | Idle | MakingDir | WritingTemp | Renaming | Returning

  /** What memory goes through: an operation, or being read back from the file. */
  datatype Event = Did(op: Op) | Reopened

  /** `events` are those the memory reflects, `durable` counts the ones the file reflects,
      and `acked` those up to the latest operation that returned without an error. */
  datatype World = World(stage: Stage, memory: Image, file: Content, tmp: Content,
                         events: seq<Event>, durable: nat, acked: nat)

  function ImageNext(image: Image, event: Event, cap: nat): Image {
    match event
    case Reopened => PlainImage(image)
    case Did(op) =>
      var l := Ledger(image.users, image.grants);
      Image(Next(l, op).users, if Entry(l, op) == [] then l.log else LastN(Next(l, op).log, cap))
  }

  /** What opening a file makes of its content. */
  function Reads(file: Content): Image {
    if file.Holds? then PlainImage(file.image) else Image(map[], [])
  }

  lemma PlainTwice(image: Image)
    ensures PlainImage(PlainImage(image)) == PlainImage(image)
    ensures PlainImage(Image(map[], [])) == Image(map[], [])
  {
  }

  /** The memory of a store that was first opened on `base` and went through `events`. */
  function ImageAfter(base: Image, events: seq<Event>, cap: nat): Image {
    if events == [] then base
    else ImageNext(ImageAfter(base, events[..|events| - 1], cap), events[|events| - 1], cap)
  }

  function LedgerAfter(l: Ledger, events: seq<Event>): Ledger {
    if events == [] then l
    else
      var before := LedgerAfter(l, events[..|events| - 1]);
      match events[|events| - 1]
      case Reopened => Ledger(PlainUsers(before.users), PlainRecords(before.log))
      case Did(op) => Next(before, op)
  }

  function Trimmed(l: Ledger, cap: nat): Image {
    Image(l.users, LastN(l.log, cap))
  }

  /** Trimming at every append keeps what trimming the whole log would. */
  lemma {:induction false} ImageIsTrimmedLedger(l: Ledger, events: seq<Event>, cap: nat)
    ensures ImageAfter(Trimmed(l, cap), events, cap) == Trimmed(LedgerAfter(l, events), cap)
  {
    if events != [] {
      var init := events[..|events| - 1];
      ImageIsTrimmedLedger(l, init, cap);
      match events[|events| - 1]
      case Reopened => TrimmedPlain(LedgerAfter(l, init).log, cap);
      case Did(op) => TrimmedStep(LedgerAfter(l, init), op, cap);
    }
  }

  lemma TrimmedPlain(log: seq<GrantRecord>, cap: nat)
    ensures PlainRecords(LastN(log, cap)) == LastN(PlainRecords(log), cap)
  {
  }

  lemma TrimmedStep(l: Ledger, op: Op, cap: nat)
    ensures ImageNext(Trimmed(l, cap), Did(op), cap) == Trimmed(Next(l, op), cap)
  {
    var kept := Ledger(l.users, LastN(l.log, cap));
    assert Entry(kept, op) == Entry(l, op);
    assert Next(kept, op).users == Next(l, op).users;
    TrimTwice(l.log, Entry(l, op), cap);
  }

  lemma TrimTwice(log: seq<GrantRecord>, entry: seq<GrantRecord>, cap: nat)
    ensures LastN(LastN(log, cap) + entry, cap) == LastN(log + entry, cap)
    ensures LastN(LastN(log, cap), cap) == LastN(log, cap)
  {
    if |log| > cap {
      var kept, all := log[|log| - cap..] + entry, log + entry;
      assert kept == all[|log| - cap..];
      assert kept[|kept| - cap..] == all[|all| - cap..];
    }
  }

  /** Before the first start: any file that opening does not refuse. */
  ghost predicate Init(w: World) {
    w.stage == Down && !w.file.Garbage? && w.events == [] && w.durable == w.acked == 0
  }

  /** A call changes memory first; its flush is what the later steps do. */
  ghost predicate Call(w: World, v: World, op: Op, cap: nat) {
    && w.stage == Idle && Writes(op)
    && v == w.(stage := MakingDir, memory := ImageNext(w.memory, Did(op), cap), events := w.events + [Did(op)])
  }

  ghost predicate MakeDir(w: World, v: World) {
    w.stage == MakingDir && v == w.(stage := WritingTemp)
  }

  /** Part of the temporary file reaches the disk. */
  ghost predicate WritePart(w: World, v: World, part: Content) {
    w.stage == WritingTemp && v == w.(tmp := part)
  }

  ghost predicate WriteTemp(w: World, v: World) {
    w.stage == WritingTemp && v == w.(stage := Renaming, tmp := Holds(PlainImage(w.memory)))
  }

  ghost predicate Rename(w: World, v: World) {
    w.stage == Renaming && v == w.(stage := Returning, file := w.tmp, tmp := Missing, durable := |w.events|)
  }

  ghost predicate Return(w: World, v: World) {
    w.stage == Returning && v == w.(stage := Idle, acked := |w.events|)
  }

  /** A system call or the encoder fails and the caller gets the error; memory keeps the
      change. A process that was still opening its store gives up instead. */
  ghost predicate Fail(w: World, v: World) {
    && (w.stage == MakingDir || w.stage == WritingTemp || w.stage == Renaming)
    && v == w.(stage := if w.file == Missing then Down else Idle)
  }

  ghost predicate Crash(w: World, v: World) {
    v == w.(stage := Down, memory := v.memory)
  }

  /** `NewJSONStore`: an absent file starts empty and flushes, a whole one is loaded. */
  ghost predicate Restart(w: World, v: World) {
    && w.stage == Down
    && match w.file
       case Garbage => false
       case Missing => v == w.(stage := MakingDir, memory := Reads(w.file), events := [])
       case _ => v == w.(stage := Idle, memory := Reads(w.file), events := Kept(w) + [Reopened])
  }

  /** The events the file reflects. */
  function Kept(w: World): seq<Event> {
    if w.durable <= |w.events| then w.events[..w.durable] else []
  }

  ghost predicate Step(w: World, v: World, cap: nat) {
    || (exists op :: Call(w, v, op, cap))
    || MakeDir(w, v)
    || (exists part :: WritePart(w, v, part))
    || WriteTemp(w, v)
    || Rename(w, v)
    || Return(w, v)
    || Fail(w, v)
    || Crash(w, v)
    || Restart(w, v)
  }

  ghost predicate IsRun(run: seq<World>, cap: nat) {
    && run != [] && Init(run[0])
    && forall i :: 0 <= i < |run| - 1 ==> Step(run[i], run[i + 1], cap)
  }

  /** The file is the memory after some prefix of the events, less its clock readings, never
      a torn one, and the prefix covers every operation acknowledged so far. */
  ghost predicate Recoverable(w: World, base: Image, cap: nat) {
    && w.acked <= w.durable <= |w.events|
    && !w.file.Garbage? && Reads(w.file) == PlainImage(ImageAfter(base, w.events[..w.durable], cap))
    && (w.file.Missing? ==> w.events == [])
    && (w.file.Empty? ==> w.durable == 0)
  }

  ghost predicate Inv(w: World, base: Image, cap: nat) {
    && Recoverable(w, base, cap) && PlainImage(base) == base
    && (w.stage != Down ==> w.memory == ImageAfter(base, w.events, cap))
    && (w.stage == Renaming ==> w.tmp == Holds(PlainImage(w.memory)))
    && (w.stage == Idle || w.stage == Returning ==> !w.file.Missing?)
    && (w.stage == Returning ==> w.durable == |w.events| && w.file.Holds?)
  }

  lemma CallKeepsInv(w: World, v: World, op: Op, base: Image, cap: nat)
    requires Inv(w, base, cap) && Call(w, v, op, cap)
    ensures Inv(v, base, cap) && v.acked == w.acked && v.events[..w.acked] == w.events[..w.acked]
  {
    assert v.events[..|w.events|] == w.events;
    assert v.events[..w.durable] == w.events[..w.durable];
    assert v.events[..w.acked] == w.events[..w.acked];
  }

  lemma RestartKeepsInv(w: World, v: World, base: Image, cap: nat)
    requires Inv(w, base, cap) && Restart(w, v)
    ensures Inv(v, base, cap) && v.acked == w.acked && v.events[..w.acked] == w.events[..w.acked]
  {
    assert v.events[..w.acked] == w.events[..w.acked];
    if !w.file.Missing? {
      ReopenedAfterKept(w, base, cap);
      assert v.events[..v.durable] == w.events[..w.durable];
    }
  }

  lemma ReopenedAfterKept(w: World, base: Image, cap: nat)
    requires Recoverable(w, base, cap)
    ensures ImageAfter(base, Kept(w) + [Reopened], cap) == Reads(w.file)
  {
    var events := Kept(w) + [Reopened];
    assert events[..|events| - 1] == w.events[..w.durable];
  }

  lemma StepKeepsInv(w: World, v: World, base: Image, cap: nat)
    requires Inv(w, base, cap) && Step(w, v, cap)
    ensures Inv(v, base, cap)
    ensures w.acked <= v.acked <= |v.events| && v.events[..w.acked] == w.events[..w.acked]
  {
    if op :| Call(w, v, op, cap) {
      CallKeepsInv(w, v, op, base, cap);
    } else if Restart(w, v) {
      RestartKeepsInv(w, v, base, cap);
    } else {
      assert w.events[..|w.events|] == w.events && v.events == w.events;
      PlainTwice(w.memory);
    }
  }

  lemma FirstFileIsPlain(file: Content)
    ensures PlainImage(Reads(file)) == Reads(file)
  {
    if file.Holds? {
      PlainTwice(file.image);
    } else {
      PlainTwice(Reads(file));
    }
  }

  lemma {:induction false} InvHolds(run: seq<World>, cap: nat, j: nat)
    requires IsRun(run, cap) && j < |run|
    ensures Inv(run[j], Reads(run[0].file), cap)
  {
    if j == 0 {
      FirstFileIsPlain(run[0].file);
    } else {
      InvHolds(run, cap, j - 1);
      StepKeepsInv(run[j - 1], run[j], Reads(run[0].file), cap);
    }
  }

  lemma SamePrefix(a: seq<Event>, b: seq<Event>, c: seq<Event>, m: nat, n: nat)
    requires m <= n <= |b| && n <= |c| && m <= |a|
    requires b[..m] == a[..m] && c[..n] == b[..n]
    ensures c[..m] == a[..m]
  {
    assert c[..m] == c[..n][..m] && b[..m] == b[..n][..m];
  }

  lemma AckedSurvivesStep(run: seq<World>, cap: nat, j: nat)
    requires IsRun(run, cap) && j + 1 < |run|
    ensures run[j].acked <= run[j + 1].acked <= |run[j + 1].events| && run[j].acked <= |run[j].events|
    ensures run[j + 1].events[..run[j].acked] == run[j].events[..run[j].acked]
  {
    InvHolds(run, cap, j);
    StepKeepsInv(run[j], run[j + 1], Reads(run[0].file), cap);
  }

  /** An operation once acknowledged stays, at its place, in every later history, whatever
      fails and whenever the process crashes. */
  lemma {:induction false} AcknowledgedIsDurable(run: seq<World>, cap: nat, i: nat, j: nat)
    requires IsRun(run, cap) && i < j < |run|
    ensures run[i].acked <= run[j].acked && run[i].acked <= |run[i].events| && run[j].acked <= |run[j].events|
    ensures run[j].events[..run[i].acked] == run[i].events[..run[i].acked]
    decreases j
  {
    AckedSurvivesStep(run, cap, j - 1);
    if i < j - 1 {
      AcknowledgedIsDurable(run, cap, i, j - 1);
      SamePrefix(run[i].events, run[j - 1].events, run[j].events, run[i].acked, run[j - 1].acked);
    }
  }

  /** What a restart finds is the memory after a prefix of all that happened since the first
      file, every acknowledged operation in it, less the clock readings no file keeps. */
  lemma RestartRecoversPrefix(run: seq<World>, cap: nat, j: nat)
    requires IsRun(run, cap) && j + 1 < |run| && Restart(run[j], run[j + 1])
    ensures exists k :: run[j].acked <= k <= |run[j].events|
              && run[j + 1].memory == PlainImage(ImageAfter(Reads(run[0].file), run[j].events[..k], cap))
  {
    InvHolds(run, cap, j);
  }

  /** The file is never torn, and whole as soon as anything has been acknowledged, so that
      opening it never reports corruption. */
  lemma NeverCorrupt(run: seq<World>, cap: nat, j: nat)
    requires IsRun(run, cap) && j < |run|
    ensures !run[j].file.Garbage? && (run[j].acked > 0 ==> run[j].file.Holds?)
  {
    InvHolds(run, cap, j);
  }

  /** The steps one call makes when its flush meets `fault`. */
  function CallTrace(w: World, op: Op, cap: nat, fault: Fault): (t: seq<World>)
    ensures t != []
  {
    var called := w.(stage := MakingDir, memory := ImageNext(w.memory, Did(op), cap), events := w.events + [Did(op)]);
    var madeDir := called.(stage := WritingTemp);
    var written := madeDir.(stage := Renaming, tmp := Holds(PlainImage(madeDir.memory)));
    var renamed := written.(stage := Returning, file := written.tmp, tmp := Missing, durable := |written.events|);
    match fault
    case MkdirFails => [w, called, called.(stage := Idle)]
    case EncodeFails => [w, called, madeDir, madeDir.(stage := Idle)]
    case WriteFails(partial) => [w, called, madeDir, madeDir.(tmp := partial), madeDir.(tmp := partial, stage := Idle)]
    case RenameFails => [w, called, madeDir, written, written.(stage := Idle)]
    case NoFault => [w, called, madeDir, written, renamed, renamed.(stage := Idle, acked := |renamed.events|)]
  }

  /** A call of the JSON engine is such a run: each state follows by one step, the call is
      acknowledged exactly when it returns no error, and the file and the memory end as
      the contract of every `Store` method has them. */
  lemma CallTraceIsRun(w: World, op: Op, base: Image, cap: nat, fault: Fault)
    requires Inv(w, base, cap) && w.stage == Idle && Writes(op)
    ensures var t := CallTrace(w, op, cap, fault);
            var v := t[|t| - 1];
            && (forall i :: 0 <= i < |t| - 1 ==> Step(t[i], t[i + 1], cap))
            && t[0] == w && v.stage == Idle && v.memory == ImageNext(w.memory, Did(op), cap)
            && (v.acked == |v.events| <==> fault.NoFault?)
            && v.file == if fault.NoFault? then Holds(PlainImage(v.memory)) else w.file
  {
    CallTraceSteps(w, op, cap, fault);
  }

  lemma CallTraceSteps(w: World, op: Op, cap: nat, fault: Fault)
    requires w.stage == Idle && Writes(op) && !w.file.Missing?
    ensures var t := CallTrace(w, op, cap, fault); forall i :: 0 <= i < |t| - 1 ==> Step(t[i], t[i + 1], cap)
  {
    var t := CallTrace(w, op, cap, fault);
    assert Call(t[0], t[1], op, cap);
    if fault.NoFault? {
      SavedCallSteps(w, op, cap);
    } else if fault.MkdirFails? {
      assert Fail(t[1], t[2]);
    } else {
      FailedCallSteps(w, op, cap, fault);
    }
  }

  lemma SavedCallSteps(w: World, op: Op, cap: nat)
    requires w.stage == Idle
    ensures var t := CallTrace(w, op, cap, NoFault); forall i :: 1 <= i < |t| - 1 ==> Step(t[i], t[i + 1], cap)
  {
    var t := CallTrace(w, op, cap, NoFault);
    assert MakeDir(t[1], t[2]) && WriteTemp(t[2], t[3]) && Rename(t[3], t[4]) && Return(t[4], t[5]);
  }

  lemma FailedCallSteps(w: World, op: Op, cap: nat, fault: Fault)
    requires w.stage == Idle && !w.file.Missing? && !fault.NoFault? && !fault.MkdirFails?
    ensures var t := CallTrace(w, op, cap, fault); forall i :: 1 <= i < |t| - 1 ==> Step(t[i], t[i + 1], cap)
  {
    var t := CallTrace(w, op, cap, fault);
    assert MakeDir(t[1], t[2]);
    match fault
    case EncodeFails => assert Fail(t[2], t[3]);
    case WriteFails(partial) => assert WritePart(t[2], t[3], partial) && Fail(t[3], t[4]);
    case RenameFails => assert WriteTemp(t[2], t[3]) && Fail(t[3], t[4]);
  }

  /** Wherever the process is, it can crash and be started again, and then holds what the file
      reflected. */
  lemma CrashesAndRecovers(run: seq<World>, cap: nat) returns (down: World, up: World)
    requires IsRun(run, cap)
    ensures var w := run[|run| - 1];
            && Step(w, down, cap) && down.stage == Down && down.file == w.file
            && Step(down, up, cap) && Restart(down, up) && up.stage != Down
            && w.acked <= w.durable <= |w.events|
            && up.memory == PlainImage(ImageAfter(Reads(run[0].file), w.events[..w.durable], cap))
  {
    var w := run[|run| - 1];
    InvHolds(run, cap, |run| - 1);
    down := w.(stage := Down);
    assert Crash(w, down);
    up := if w.file.Missing? then down.(stage := MakingDir, memory := Reads(w.file), events := [])
          else down.(stage := Idle, memory := Reads(w.file), events := Kept(w) + [Reopened]);
    assert Restart(down, up);
  }
}
