/** PIN attempts over one live pipe: `submitPIN` and `deliverResult` of `face_windows.go`
    against the PIN reader of `serveFaceConn`. Replies carry no id; the face matches them to
    attempts only through the result slot, which attempts can share. */
module PinReplies {

  /** One call of `submitPIN`: installed its channel in the slot, sent its PIN and waits, or
      returned a verdict. */
  datatype Phase = Installed | Sent | Returned(verdict: bool)

  datatype Channel = Empty | Holds(ok: bool)

  /** `own` is the place of its PIN among all PINs sent, once it is sent. */
  datatype Attempt = Attempt(pin: string, phase: Phase, channel: Channel, own: nat)

  /** The slot: no channel, or that of an attempt. */
  datatype Slot = Nil | To(k: nat)

  /** The reader's thread: reading, or about to put a reply into the channel it picked up. */
  datatype Reader = Reads | Delivers(ok: bool, to: nat)

  datatype Item = StateMessage | Result(ok: bool)

  datatype Brain = ReadsPin | Replies(ok: bool)

  /** `sent` and `answers` record the PINs written and what the brain decided on them. */
  datatype World = World(attempts: seq<Attempt>, slot: Slot, reader: Reader, brain: Brain,
                         toBrain: seq<string>, toFace: seq<Item>, sent: seq<string>, answers: seq<bool>)

  datatype Move =
    | Install(pin: string)
    | Send(k: nat)
    | BrainDecides(ok: bool)
    | BrainReplies
    | PushState
    | FaceReads
    | Deliver
    | Return(k: nat)
    | TimeOut(k: nat)

  const CONNECTED := World([], Nil, Reads, ReadsPin, [], [], [], [])

  function Apply(w: World, move: Move): World {
    match move
    case Install(pin) => w.(attempts := w.attempts + [Attempt(pin, Installed, Empty, 0)], slot := To(|w.attempts|))
    case Send(k) =>
      if k < |w.attempts| && w.attempts[k].phase.Installed?
      then
        var pin := w.attempts[k].pin;
        w.(attempts := w.attempts[k := w.attempts[k].(phase := Sent, own := |w.sent|)],
           toBrain := w.toBrain + [pin], sent := w.sent + [pin])
      else w
    case BrainDecides(ok) =>
      if w.brain.ReadsPin? && w.toBrain != []
      then w.(brain := Replies(ok), toBrain := w.toBrain[1..], answers := w.answers + [ok]) else w
    case BrainReplies =>
      if w.brain.Replies? then w.(brain := ReadsPin, toFace := w.toFace + [Result(w.brain.ok)]) else w
    case PushState => w.(toFace := w.toFace + [StateMessage])
    case FaceReads =>
      if !w.reader.Reads? || w.toFace == [] then w
      else
        var read := w.(toFace := w.toFace[1..]);
        if w.toFace[0].Result? && w.slot.To? then read.(reader := Delivers(w.toFace[0].ok, w.slot.k)) else read
    case Deliver => if w.reader.Delivers? then DeliverNext(w) else w
    case Return(k) =>
      if k < |w.attempts| && w.attempts[k].phase.Sent? && w.attempts[k].channel.Holds?
      then Finish(w, k, w.attempts[k].channel.ok) else w
    case TimeOut(k) => if k < |w.attempts| && w.attempts[k].phase.Sent? then Finish(w, k, false) else w
  }

  /** A full channel drops the reply. */
  function DeliverNext(w: World): World
    requires w.reader.Delivers?
  {
    var to := w.reader.to;
    if to < |w.attempts| && w.attempts[to].channel.Empty?
    then w.(reader := Reads, attempts := w.attempts[to := w.attempts[to].(channel := Holds(w.reader.ok))])
    else w.(reader := Reads)
  }

  /** An attempt that returns clears the slot, whoever's channel is in it. */
  function Finish(w: World, k: nat, verdict: bool): World
    requires k < |w.attempts|
  {
    w.(attempts := w.attempts[k := w.attempts[k].(phase := Returned(verdict))], slot := Nil)
  }

  function Run(w: World, moves: seq<Move>): World {
    if moves == [] then w else Apply(Run(w, moves[..|moves| - 1]), moves[|moves| - 1])
  }

  // ---------- What every run keeps ----------

  function Replying(items: seq<Item>): seq<bool> {
    if items == [] then []
    else Replying(items[..|items| - 1]) + (if items[|items| - 1].Result? then [items[|items| - 1].ok] else [])
  }

  lemma {:induction false} ReplyingFront(items: seq<Item>)
    requires items != []
    ensures Replying(items) == (if items[0].Result? then [items[0].ok] else []) + Replying(items[1..])
  {
    var last := |items| - 1;
    if last > 0 {
      ReplyingFront(items[..last]);
      assert items[..last][1..] == items[1..][..last - 1];
    }
  }

  lemma ReplyingSnoc(items: seq<Item>, item: Item)
    ensures Replying(items + [item]) == Replying(items) + (if item.Result? then [item.ok] else [])
  {
    assert (items + [item])[..|items|] == items;
  }

  /** Replies the brain has decided on that the face has not read, nearest first. */
  function Unread(w: World): seq<bool> {
    Replying(w.toFace) + (if w.brain.Replies? then [w.brain.ok] else [])
  }

  /** PINs sent whose reply the face has not read. A reply that it is putting into a channel
      is not among them. */
  function Outstanding(w: World): nat {
    |w.toBrain| + |Unread(w)|
  }

  /** How many replies the face has read. */
  function Read(w: World): int {
    |w.answers| - |Unread(w)|
  }

  /** Replies come in the order of the PINs, and the slot holds the newest channel if any. */
  ghost predicate Kept(w: World) {
    && |w.sent| == |w.answers| + |w.toBrain|
    && Read(w) >= 0 && w.answers == w.answers[..Read(w)] + Unread(w)
    && (w.slot.To? ==> w.slot.k == |w.attempts| - 1)
    && (w.reader.Delivers? ==> w.reader.to < |w.attempts|)
  }

  predicate BrainMove(move: Move) {
    move.BrainDecides? || move.BrainReplies? || move.PushState?
  }

  lemma UnreadBySender(w: World, move: Move)
    requires BrainMove(move)
    ensures var v := Apply(w, move);
            w.answers <= v.answers && Unread(v) == Unread(w) + v.answers[|w.answers|..]
  {
    var r, v := Replying(w.toFace), Apply(w, move);
    match move
    case BrainReplies =>
      if w.brain.Replies? {
        ReplyingSnoc(w.toFace, Result(w.brain.ok));
        assert Unread(v) == (r + [w.brain.ok]) + [];
      }
    case PushState =>
      ReplyingSnoc(w.toFace, StateMessage);
      assert Replying(v.toFace) == r + [] == r;
    case BrainDecides(_) =>
      assert r + [] == r;
    case _ =>
  }

  lemma SenderKeeps(w: World, move: Move)
    requires Kept(w) && BrainMove(move)
    ensures Kept(Apply(w, move)) && Read(Apply(w, move)) == Read(w) && w.answers <= Apply(w, move).answers
  {
    var v := Apply(w, move);
    UnreadBySender(w, move);
    assert Read(v) == Read(w);
    var more := v.answers[|w.answers|..];
    assert v.answers == w.answers + more;
    Longer(w.answers, Read(w), Unread(w), more);
  }

  lemma Longer(answers: seq<bool>, n: nat, unread: seq<bool>, more: seq<bool>)
    requires n <= |answers| && answers == answers[..n] + unread
    ensures answers + more == (answers + more)[..n] + (unread + more)
  {
    assert (answers + more)[..n] == answers[..n];
  }

  /** Reading a reply takes the next answer. */
  lemma ReadingKeeps(w: World)
    requires Kept(w) && w.reader.Reads? && w.toFace != []
    ensures var v := Apply(w, FaceReads);
            && Kept(v) && v.answers == w.answers
            && Read(v) == Read(w) + (if w.toFace[0].Result? then 1 else 0)
            && (w.toFace[0].Result? ==> Read(w) < |w.answers| && w.toFace[0].ok == w.answers[Read(w)])
  {
    var v, n := Apply(w, FaceReads), Read(w);
    UnreadFront(w);
    if w.toFace[0].Result? {
      assert w.answers[n] == Unread(w)[0];
      assert w.answers[..n + 1] == w.answers[..n] + [w.toFace[0].ok];
      assert w.answers == w.answers[..n + 1] + Unread(v);
    }
  }

  lemma UnreadFront(w: World)
    requires w.reader.Reads? && w.toFace != []
    ensures Unread(w) == (if w.toFace[0].Result? then [w.toFace[0].ok] else []) + Unread(Apply(w, FaceReads))
  {
    ReplyingFront(w.toFace);
    var late := if w.brain.Replies? then [w.brain.ok] else [];
    var first := if w.toFace[0].Result? then [w.toFace[0].ok] else [];
    assert (first + Replying(w.toFace[1..])) + late == first + (Replying(w.toFace[1..]) + late);
  }

  lemma {:induction false} KeptAlways(moves: seq<Move>)
    ensures Kept(Run(CONNECTED, moves))
  {
    if moves != [] {
      KeptAlways(moves[..|moves| - 1]);
      KeptByMove(Run(CONNECTED, moves[..|moves| - 1]), moves[|moves| - 1]);
    }
  }

  lemma KeptByMove(w: World, move: Move)
    requires Kept(w)
    ensures Kept(Apply(w, move))
    ensures Read(w) <= Read(Apply(w, move)) && w.answers <= Apply(w, move).answers
  {
    if BrainMove(move) {
      SenderKeeps(w, move);
    } else if move.FaceReads? && w.reader.Reads? && w.toFace != [] {
      ReadingKeeps(w);
    }
  }

  /** Attempt `k` began when `n` replies had been read: the next one is the only reply its
      channel can take. */
  ghost predicate Taking(w: World, k: nat, n: nat) {
    && Kept(w) && k < |w.attempts| && n <= Read(w)
    && (w.attempts[k].channel.Holds? ==> n < Read(w) && w.attempts[k].channel.ok == w.answers[n])
    && (Carries(w, k) ==> n < Read(w) && w.reader.ok == w.answers[n])
    && (w.slot == To(k) && w.attempts[k].channel.Empty? && !Carries(w, k) ==> Read(w) == n)
  }

  /** The reader is about to fill the channel of attempt `k`. */
  predicate Carries(w: World, k: nat)
    requires k < |w.attempts|
  {
    w.reader.Delivers? && w.reader.to == k && w.attempts[k].channel.Empty?
  }

  lemma TakingKeptByBrain(w: World, move: Move, k: nat, n: nat)
    requires Taking(w, k, n) && BrainMove(move)
    ensures Taking(Apply(w, move), k, n)
  {
    SenderKeeps(w, move);
  }

  lemma TakingKeptByReader(w: World, move: Move, k: nat, n: nat)
    requires Taking(w, k, n) && (move.FaceReads? || move.Deliver?)
    ensures Taking(Apply(w, move), k, n)
  {
    if move.FaceReads? && w.reader.Reads? && w.toFace != [] {
      ReadingKeeps(w);
    }
  }

  lemma TakingKeptByAttempts(w: World, move: Move, k: nat, n: nat)
    requires Taking(w, k, n) && (move.Install? || move.Send? || move.Return? || move.TimeOut?)
    ensures Taking(Apply(w, move), k, n)
  {
  }

  lemma TakingKept(w: World, move: Move, k: nat, n: nat)
    requires Taking(w, k, n)
    ensures Taking(Apply(w, move), k, n)
  {
    if BrainMove(move) {
      TakingKeptByBrain(w, move, k, n);
    } else if move.FaceReads? || move.Deliver? {
      TakingKeptByReader(w, move, k, n);
    } else {
      TakingKeptByAttempts(w, move, k, n);
    }
  }

  lemma TakingStarts(w: World, pin: string)
    requires Kept(w)
    ensures Taking(Apply(w, Install(pin)), |w.attempts|, Read(w))
  {
  }

  // ---------- One attempt after another, without time-outs ----------

  predicate AllReturned(w: World) {
    forall k :: 0 <= k < |w.attempts| ==> w.attempts[k].phase.Returned?
  }

  /** No attempt begins before the one before has returned, and none times out. */
  predicate Orderly(moves: seq<Move>) {
    moves == [] ||
    var init, move := moves[..|moves| - 1], moves[|moves| - 1];
    Orderly(init) && !move.TimeOut? && (move.Install? ==> AllReturned(Run(CONNECTED, init)))
  }

  /** Attempt `k` sent the k-th PIN and returned the brain's answer to it. */
  ghost predicate Matched(w: World, k: nat)
    requires k < |w.attempts|
  {
    && w.attempts[k].own == k < |w.answers| && w.attempts[k].phase == Returned(w.answers[k])
    && k < |w.sent| && w.sent[k] == w.attempts[k].pin
  }

  ghost predicate MatchedBelow(w: World, n: nat) {
    n <= |w.attempts| && forall k :: 0 <= k < n ==> Matched(w, k)
  }

  /** Each attempt so far returned its own answer and nothing is left over for the next; or
      the last one is underway. */
  ghost predicate InStep(w: World) {
    Kept(w) &&
    if AllReturned(w) then Read(w) == |w.sent| == |w.attempts| && MatchedBelow(w, |w.attempts|)
    else Underway(w, |w.attempts| - 1)
  }

  ghost predicate Underway(w: World, last: nat) {
    && last == |w.attempts| - 1 && Taking(w, last, last) && MatchedBelow(w, last)
    && !w.attempts[last].phase.Returned?
    && (w.attempts[last].phase.Installed? ==> |w.sent| == last)
    && (w.attempts[last].phase.Sent? ==>
         |w.sent| == last + 1 && w.attempts[last].own == last && w.sent[last] == w.attempts[last].pin)
  }

  lemma MatchedStays(w: World, move: Move, n: nat)
    requires Kept(w) && MatchedBelow(w, n)
    ensures MatchedBelow(Apply(w, move), n)
  {
    KeptByMove(w, move);
    forall k | 0 <= k < n ensures Matched(Apply(w, move), k) {
      assert Matched(w, k);
      ReturnedStays(w, move, k);
    }
  }

  lemma ReturnedStays(w: World, move: Move, k: nat)
    requires k < |w.attempts| && w.attempts[k].phase.Returned?
    ensures k < |Apply(w, move).attempts| && w.sent <= Apply(w, move).sent
    ensures var a := Apply(w, move).attempts[k];
            a.phase == w.attempts[k].phase && a.own == w.attempts[k].own && a.pin == w.attempts[k].pin
  {
  }

  lemma ReturnedStay(w: World, move: Move)
    requires AllReturned(w) && !move.Install?
    ensures |Apply(w, move).attempts| == |w.attempts| && AllReturned(Apply(w, move))
  {
  }

  lemma IdleStaysInStep(w: World, move: Move)
    requires InStep(w) && AllReturned(w) && !move.Install?
    ensures InStep(Apply(w, move))
  {
    KeptByMove(w, move);
    MatchedStays(w, move, |w.attempts|);
    ReturnedStay(w, move);
  }

  lemma NextIsUnderway(w: World, pin: string)
    requires InStep(w) && AllReturned(w)
    ensures Underway(Apply(w, Install(pin)), |w.attempts|)
  {
    MatchedStays(w, Install(pin), |w.attempts|);
    TakingStarts(w, pin);
  }

  lemma UnderwayIsInStep(w: World, last: nat)
    requires Underway(w, last)
    ensures InStep(w) && !AllReturned(w)
  {
    assert !w.attempts[last].phase.Returned?;
  }

  lemma EarlierDoNothing(w: World, move: Move, last: nat)
    requires Underway(w, last) && (move.Send? || move.Return?) && move.k < last
    ensures Apply(w, move) == w
  {
    assert Matched(w, move.k);
  }

  lemma UnderwayMove(w: World, move: Move, last: nat)
    requires Underway(w, last) && !move.Install? && !move.TimeOut?
    requires !(move == Return(last) && w.attempts[last].phase.Sent? && w.attempts[last].channel.Holds?)
    ensures Underway(Apply(w, move), last)
  {
    if (move.Send? || move.Return?) && move.k < last {
      EarlierDoNothing(w, move, last);
    } else {
      TakingKept(w, move, last, last);
      MatchedStays(w, move, last);
      LastGoesOn(w, move, last);
    }
  }

  /** The last attempt is the only one that can send or return. */
  lemma LastGoesOn(w: World, move: Move, last: nat)
    requires Underway(w, last) && !move.Install? && !move.TimeOut? && (move.Send? || move.Return? ==> move.k >= last)
    requires !(move == Return(last) && w.attempts[last].phase.Sent? && w.attempts[last].channel.Holds?)
    ensures var v := Apply(w, move);
            && last == |v.attempts| - 1 && !v.attempts[last].phase.Returned?
            && (v.attempts[last].phase.Installed? ==> |v.sent| == last)
            && (v.attempts[last].phase.Sent? ==>
                 |v.sent| == last + 1 && v.attempts[last].own == last && v.sent[last] == v.attempts[last].pin)
  {
  }

  lemma StaysInStep(w: World, move: Move)
    requires InStep(w) && !move.TimeOut? && (move.Install? ==> AllReturned(w))
    ensures InStep(Apply(w, move))
  {
    var last := |w.attempts| - 1;
    if move.Install? {
      NextIsUnderway(w, move.pin);
      UnderwayIsInStep(Apply(w, move), last + 1);
    } else if AllReturned(w) {
      IdleStaysInStep(w, move);
    } else if move == Return(last) && w.attempts[last].phase.Sent? && w.attempts[last].channel.Holds? {
      LastReturns(w, last);
    } else {
      UnderwayMove(w, move, last);
      UnderwayIsInStep(Apply(w, move), last);
    }
  }

  lemma LastReturns(w: World, last: nat)
    requires Underway(w, last) && w.attempts[last].phase.Sent? && w.attempts[last].channel.Holds?
    ensures InStep(Apply(w, Return(last)))
  {
    var v := Apply(w, Return(last));
    KeptByMove(w, Return(last));
    MatchedStays(w, Return(last), last);
    assert Matched(v, last);
    forall k | 0 <= k <= last ensures Matched(v, k) && v.attempts[k].phase.Returned? {
    }
  }

  lemma {:induction false} OrderlyIsInStep(moves: seq<Move>)
    requires Orderly(moves)
    ensures InStep(Run(CONNECTED, moves))
  {
    if moves != [] {
      OrderlyIsInStep(moves[..|moves| - 1]);
      StaysInStep(Run(CONNECTED, moves[..|moves| - 1]), moves[|moves| - 1]);
    }
  }

  lemma ReturnedMatches(w: World, k: nat)
    requires InStep(w) && k < |w.attempts| && w.attempts[k].phase.Returned?
    ensures Matched(w, k)
  {
    if !AllReturned(w) {
      assert k < |w.attempts| - 1;
    }
  }

  /** Then every verdict is the answer to its own PIN. */
  lemma RepliesMatch(moves: seq<Move>, k: nat)
    requires Orderly(moves)
    requires var w := Run(CONNECTED, moves); k < |w.attempts| && w.attempts[k].phase.Returned?
    ensures Matched(Run(CONNECTED, moves), k)
  {
    OrderlyIsInStep(moves);
    ReturnedMatches(Run(CONNECTED, moves), k);
  }

  /** The first attempt times out after its PIN was sent; the second is still to be decided
      when the late reply to the first arrives, and takes it for its own. */
  const LATE_REPLY: seq<Move> :=
    [Install("1"), Send(0), TimeOut(0), Install("2"), Send(1), BrainDecides(true), BrainReplies, FaceReads, Deliver,
     Return(1)]

  /** A run described world by world. */
  lemma {:induction false} RunThrough(moves: seq<Move>, worlds: seq<World>)
    requires |worlds| == |moves| + 1 && worlds[0] == CONNECTED
    requires forall k :: 0 <= k < |moves| ==> worlds[k + 1] == Apply(worlds[k], moves[k])
    ensures Run(CONNECTED, moves) == worlds[|moves|]
  {
    if moves != [] {
      RunThrough(moves[..|moves| - 1], worlds[..|moves|]);
    }
  }

  lemma LateReplyMismatches()
    ensures var w := Run(CONNECTED, LATE_REPLY);
            && |w.attempts| == 2 && w.attempts[1].phase == Returned(true) && w.attempts[1].own == 1
            && w.sent == ["1", "2"] && w.answers == [true]
  {
    var w1 := Apply(CONNECTED, Install("1"));
    var w2 := Apply(w1, Send(0));
    var w3 := Apply(w2, TimeOut(0));
    var w4 := Apply(w3, Install("2"));
    var w5 := Apply(w4, Send(1));
    assert w5 == World([Attempt("1", Returned(false), Empty, 0), Attempt("2", Sent, Empty, 1)], To(1), Reads, ReadsPin,
                       ["1", "2"], [], ["1", "2"], []);
    var w6 := Apply(w5, BrainDecides(true));
    var w7 := Apply(w6, BrainReplies);
    var w8 := Apply(w7, FaceReads);
    var w9 := Apply(w8, Deliver);
    RunThrough(LATE_REPLY, [CONNECTED, w1, w2, w3, w4, w5, w6, w7, w8, w9, Apply(w9, Return(1))]);
  }

  // ---------- With time-outs, and attempts that overlap ----------

  /** The world once an attempt with `pin` has been installed and `during` has happened. */
  function Attempting(before: seq<Move>, pin: string, during: seq<Move>): World {
    Run(Apply(Run(CONNECTED, before), Install(pin)), during)
  }

  /** That attempt's number. */
  function Number(before: seq<Move>): nat {
    |Run(CONNECTED, before).attempts|
  }

  lemma {:induction false} AttemptTakes(before: seq<Move>, pin: string, during: seq<Move>)
    ensures Kept(Run(CONNECTED, before))
    ensures Taking(Attempting(before, pin, during), Number(before), Read(Run(CONNECTED, before)))
  {
    KeptAlways(before);
    if during == [] {
      TakingStarts(Run(CONNECTED, before), pin);
    } else {
      AttemptTakes(before, pin, during[..|during| - 1]);
      TakingKept(Attempting(before, pin, during[..|during| - 1]), during[|during| - 1], Number(before),
                 Read(Run(CONNECTED, before)));
    }
  }

  /** The attempt has sent its PIN and its channel holds a verdict for it to return. */
  ghost predicate Returns(before: seq<Move>, pin: string, during: seq<Move>) {
    var w, k := Attempting(before, pin, during), Number(before);
    k < |w.attempts| && w.attempts[k].phase.Sent? && w.attempts[k].channel.Holds?
  }

  /** Whatever timed out and whatever overlaps, the verdict is the answer to the first PIN
      whose reply was unread when the attempt was installed. */
  lemma VerdictIsNextAnswer(before: seq<Move>, pin: string, during: seq<Move>)
    requires Returns(before, pin, during)
    ensures var w0, w, k := Run(CONNECTED, before), Attempting(before, pin, during), Number(before);
            var n := |w0.sent| - Outstanding(w0);
            && 0 <= n < |w.answers| && k < |Apply(w, Return(k)).attempts|
            && Apply(w, Return(k)).attempts[k].phase == Returned(w.answers[n])
  {
    AttemptTakes(before, pin, during);
  }

  /** The verdict is the brain's answer to the attempt's own PIN. */
  ghost predicate OwnAnswer(before: seq<Move>, pin: string, during: seq<Move>) {
    var w, k := Attempting(before, pin, during), Number(before);
    && k < |w.attempts| && w.attempts[k].channel.Holds?
    && w.attempts[k].own < |w.answers| && w.attempts[k].channel.ok == w.answers[w.attempts[k].own]
  }

  /** No attempt has its channel installed and its PIN still to send. */
  predicate NoneUnsent(w: World) {
    forall j :: 0 <= j < |w.attempts| ==> !w.attempts[j].phase.Installed?
  }

  /** The attempt's PIN is number `n` for as long as its channel can be filled, and was sent
      when it is. */
  ghost predicate Mine(w: World, k: nat, n: nat, pin: string)
    requires k < |w.attempts|
  {
    && (forall j :: 0 <= j < k ==> !w.attempts[j].phase.Installed?)
    && w.attempts[k].pin == pin
    && (w.slot == To(k) ==> |w.sent| == if w.attempts[k].phase.Installed? then n else n + 1)
    && (w.slot == To(k) || w.attempts[k].channel.Holds? || Carries(w, k) ==>
         !w.attempts[k].phase.Installed? ==> w.attempts[k].own == n < |w.sent| && w.sent[n] == pin)
    && (w.attempts[k].channel.Holds? || Carries(w, k) ==> !w.attempts[k].phase.Installed?)
  }

  ghost predicate Own(w: World, k: nat, n: nat, pin: string) {
    Taking(w, k, n) && Mine(w, k, n, pin)
  }

  lemma MineKeptByAttempts(w: World, move: Move, k: nat, n: nat, pin: string)
    requires Own(w, k, n, pin) && (move.Install? || move.Send? || move.Return? || move.TimeOut?)
    ensures k < |Apply(w, move).attempts| && Mine(Apply(w, move), k, n, pin)
  {
  }

  lemma MineKeptByBrain(w: World, move: Move, k: nat, n: nat, pin: string)
    requires Own(w, k, n, pin) && BrainMove(move)
    ensures k < |Apply(w, move).attempts| && Mine(Apply(w, move), k, n, pin)
  {
  }

  lemma MineKeptByReading(w: World, k: nat, n: nat, pin: string, v: World)
    requires k < |w.attempts| && Mine(w, k, n, pin) && w.reader.Reads?
    requires v == w.(toFace := v.toFace, reader := v.reader)
    requires v.reader.Delivers? ==> w.slot == To(v.reader.to) && n < |w.sent|
    ensures Mine(v, k, n, pin)
  {
  }

  lemma MineKeptByDelivery(w: World, k: nat, n: nat, pin: string)
    requires k < |w.attempts| && Mine(w, k, n, pin)
    ensures k < |Apply(w, Deliver).attempts| && Mine(Apply(w, Deliver), k, n, pin)
  {
  }

  lemma OwnKept(w: World, move: Move, k: nat, n: nat, pin: string)
    requires Own(w, k, n, pin)
    ensures Own(Apply(w, move), k, n, pin)
  {
    TakingKept(w, move, k, n);
    if BrainMove(move) {
      MineKeptByBrain(w, move, k, n, pin);
    } else if move.Deliver? {
      MineKeptByDelivery(w, k, n, pin);
    } else if !move.FaceReads? {
      MineKeptByAttempts(w, move, k, n, pin);
    } else if w.reader.Reads? && w.toFace != [] {
      ReadingKeeps(w);
      MineKeptByReading(w, k, n, pin, Apply(w, move));
    }
  }

  lemma {:induction false} AttemptOwns(before: seq<Move>, pin: string, during: seq<Move>)
    requires Outstanding(Run(CONNECTED, before)) == 0 && NoneUnsent(Run(CONNECTED, before))
    ensures Own(Attempting(before, pin, during), Number(before), |Run(CONNECTED, before).sent|, pin)
  {
    if during == [] {
      KeptAlways(before);
      TakingStarts(Run(CONNECTED, before), pin);
    } else {
      AttemptOwns(before, pin, during[..|during| - 1]);
      OwnKept(Attempting(before, pin, during[..|during| - 1]), during[|during| - 1], Number(before),
              |Run(CONNECTED, before).sent|, pin);
    }
  }

  /** A verdict of true was in the channel. */
  ghost predicate TrueInChannel(w: World) {
    forall k :: 0 <= k < |w.attempts| && w.attempts[k].phase == Returned(true) ==> w.attempts[k].channel == Holds(true)
  }

  lemma {:induction false} TrueStaysInChannel(w: World, moves: seq<Move>)
    requires TrueInChannel(w)
    ensures TrueInChannel(Run(w, moves))
  {
    if moves != [] {
      TrueStaysInChannel(w, moves[..|moves| - 1]);
    }
  }

  lemma TrueVerdictHolds(before: seq<Move>, pin: string, during: seq<Move>, k: nat)
    requires var w := Attempting(before, pin, during); k < |w.attempts| && w.attempts[k].phase == Returned(true)
    ensures Attempting(before, pin, during).attempts[k].channel == Holds(true)
  {
    TrueStaysInChannel(CONNECTED, before);
    TrueStaysInChannel(Apply(Run(CONNECTED, before), Install(pin)), during);
  }

  lemma {:induction false} RunFront(w: World, move: Move, moves: seq<Move>)
    ensures Run(w, [move] + moves) == Run(Apply(w, move), moves)
  {
    var all := [move] + moves;
    if moves == [] {
      assert all == [move] && all[..0] == [];
    } else {
      assert all[..|all| - 1] == [move] + moves[..|moves| - 1];
      RunFront(w, move, moves[..|moves| - 1]);
    }
  }

  /** The next move toward filling the channel in the slot, should the brain decide `ok`. */
  function Onward(w: World, ok: bool): Move {
    if w.reader.Delivers? then Deliver
    else if w.toFace != [] then FaceReads
    else if w.brain.Replies? then BrainReplies
    else BrainDecides(ok)
  }

  /** Attempt `k` waits with its channel in the slot; its PIN is the last one sent. */
  ghost predicate Waits(w: World, k: nat, n: nat) {
    && Taking(w, k, n) && w.slot == To(k) && w.attempts[k].phase.Sent?
    && n <= w.attempts[k].own == |w.sent| - 1
  }

  lemma OnwardProgress(w: World, k: nat, n: nat, ok: bool)
    requires Waits(w, k, n) && w.attempts[k].channel.Empty?
    ensures var v := Apply(w, Onward(w, ok));
            && Waits(v, k, n) && v.sent == w.sent && v.attempts[k].own == w.attempts[k].own
            && (v.answers == w.answers || (|w.answers| == n && v.answers == w.answers + [ok]))
            && (w.reader.Delivers? ==> v.toBrain == w.toBrain && v.brain == w.brain && v.toFace == w.toFace)
            && (w.reader.Delivers? ==> v.reader.Reads?)
            && (w.reader.Reads? && w.toFace != [] ==>
                 v.toBrain == w.toBrain && v.brain == w.brain && |v.toFace| < |w.toFace|)
            && (w.reader.Reads? && w.toFace == [] && w.brain.Replies? ==> v.toBrain == w.toBrain && v.brain.ReadsPin?)
            && (w.reader.Reads? && w.toFace == [] && w.brain.ReadsPin? ==> |v.toBrain| < |w.toBrain|)
  {
    TakingKept(w, Onward(w, ok), k, n);
  }

  /** Nothing begins and nothing times out. */
  predicate Ordinary(moves: seq<Move>) {
    forall i :: 0 <= i < |moves| ==> !moves[i].Install? && !moves[i].TimeOut?
  }

  /** `v` follows `w` with the channel filled; if the brain had yet to decide, it said `ok`. */
  ghost predicate Filled(w: World, v: World, k: nat, n: nat, ok: bool)
    requires k < |w.attempts|
  {
    && Waits(v, k, n) && v.attempts[k].channel.Holds? && v.attempts[k].own == w.attempts[k].own && v.sent == w.sent
    && (if |w.answers| > n then v.answers == w.answers else |w.answers| == n && v.answers == w.answers + [ok])
  }

  lemma FilledFromNext(w: World, v: World, k: nat, n: nat, ok: bool)
    requires Waits(w, k, n) && w.attempts[k].channel.Empty?
    requires k < |Apply(w, Onward(w, ok)).attempts| && Filled(Apply(w, Onward(w, ok)), v, k, n, ok)
    ensures Filled(w, v, k, n, ok)
  {
    OnwardProgress(w, k, n, ok);
  }

  /** It can always be served: the next answer fills its channel, and if the brain has yet to
      give that one, it can be either. */
  lemma {:induction false} ChannelFills(w: World, k: nat, n: nat, ok: bool) returns (moves: seq<Move>)
    requires Waits(w, k, n)
    ensures Ordinary(moves) && Filled(w, Run(w, moves), k, n, ok)
    decreases |w.toBrain|, if w.brain.Replies? then 1 else 0, |w.toFace|, if w.reader.Delivers? then 1 else 0
  {
    if w.attempts[k].channel.Holds? {
      return [];
    }
    var move := Onward(w, ok);
    var next := Apply(w, move);
    OnwardProgress(w, k, n, ok);
    var rest := ChannelFills(next, k, n, ok);
    FilledFromNext(w, Run(next, rest), k, n, ok);
    RunFront(w, move, rest);
    return [move] + rest;
  }

  lemma SendsLast(w: World, k: nat, n: nat)
    requires Taking(w, k, n) && w.slot == To(k) && w.attempts[k].phase.Installed? && n <= |w.sent|
    ensures Waits(Apply(w, Send(k)), k, n) && Apply(w, Send(k)).answers == w.answers
    ensures Apply(w, Send(k)).attempts[k].own == |w.sent|
  {
    TakingKept(w, Send(k), k, n);
  }

  /** With its channel in the slot and its PIN last, behind the reply it will take. */
  lemma SendsAndFills(w: World, k: nat, n: nat, ok: bool) returns (during: seq<Move>)
    requires Taking(w, k, n) && w.slot == To(k) && w.attempts[k].phase.Installed? && n <= |w.sent|
    ensures Ordinary(during)
    ensures var v := Run(w, during);
            && k < |v.attempts| && v.attempts[k].phase.Sent? && v.attempts[k].channel.Holds?
            && v.attempts[k].own == |w.sent| && n < |v.answers| && v.attempts[k].channel.ok == v.answers[n]
            && (if |w.answers| > n then v.answers == w.answers else |w.answers| == n && v.answers == w.answers + [ok])
  {
    SendsLast(w, k, n);
    var rest := ChannelFills(Apply(w, Send(k)), k, n, ok);
    RunFront(w, Send(k), rest);
    during := [Send(k)] + rest;
  }

  lemma StolenAnswer(before: seq<Move>, pin: string) returns (during: seq<Move>)
    requires var w0 := Run(CONNECTED, before); Outstanding(w0) > 0 || !NoneUnsent(w0)
    ensures Returns(before, pin, during) && !OwnAnswer(before, pin, during)
  {
    var w0, k := Run(CONNECTED, before), Number(before);
    var w1 := Apply(w0, Install(pin));
    KeptAlways(before);
    TakingStarts(w0, pin);
    if Outstanding(w0) > 0 {
      during := SendsAndFills(w1, k, Read(w0), true);
    } else {
      var j :| 0 <= j < |w0.attempts| && w0.attempts[j].phase.Installed?;
      assert w1.attempts[j] == w0.attempts[j];
      TakingKept(w1, Send(j), k, Read(w0));
      var rest := SendsAndFills(Apply(w1, Send(j)), k, Read(w0), true);
      RunFront(w1, Send(j), rest);
      during := [Send(j)] + rest;
    }
  }

  /** However attempts time out and overlap, an attempt can only return the answer to its own
      PIN exactly when, as it begins, no reply to an earlier PIN is outstanding and no other
      attempt has still to send. */
  lemma OwnAnswerExactly(before: seq<Move>, pin: string)
    ensures (forall during :: Returns(before, pin, during) ==> OwnAnswer(before, pin, during))
       <==> Outstanding(Run(CONNECTED, before)) == 0 && NoneUnsent(Run(CONNECTED, before))
  {
    if Outstanding(Run(CONNECTED, before)) == 0 && NoneUnsent(Run(CONNECTED, before)) {
      forall during | Returns(before, pin, during) ensures OwnAnswer(before, pin, during) {
        AttemptOwns(before, pin, during);
      }
    } else {
      var during := StolenAnswer(before, pin);
    }
  }

  /** And then it does get the answer, whichever it is. */
  lemma OwnAnswerArrives(before: seq<Move>, pin: string, ok: bool) returns (during: seq<Move>)
    requires Outstanding(Run(CONNECTED, before)) == 0 && NoneUnsent(Run(CONNECTED, before))
    ensures Ordinary(during)
    ensures var w, k := Attempting(before, pin, during), Number(before);
            && k < |w.attempts| && w.attempts[k].phase == Returned(ok)
            && w.attempts[k].own < |w.answers| && w.answers[w.attempts[k].own] == ok
  {
    var w0, k := Run(CONNECTED, before), Number(before);
    var w1 := Apply(w0, Install(pin));
    KeptAlways(before);
    TakingStarts(w0, pin);
    var rest := SendsAndFills(w1, k, Read(w0), ok);
    during := rest + [Return(k)];
    assert during[..|rest|] == rest;
  }

  lemma {:induction false} OrdinaryIsOrderly(moves: seq<Move>, more: seq<Move>)
    requires Orderly(moves) && Ordinary(more)
    ensures Orderly(moves + more)
  {
    if more == [] {
      assert moves + more == moves;
    } else {
      var fewer := more[..|more| - 1];
      OrdinaryIsOrderly(moves, fewer);
      assert (moves + more)[..|moves + more| - 1] == moves + fewer;
    }
  }

  lemma {:induction false} OrdinaryStartsNone(w: World, moves: seq<Move>)
    requires Ordinary(moves)
    ensures |Run(w, moves).attempts| == |w.attempts|
    ensures forall k :: 0 <= k < |w.attempts| && w.attempts[k].phase.Returned? ==>
              Run(w, moves).attempts[k].phase == w.attempts[k].phase
  {
    if moves != [] {
      OrdinaryStartsNone(w, moves[..|moves| - 1]);
    }
  }

  lemma {:induction false} RunAppend(w: World, a: seq<Move>, b: seq<Move>)
    ensures Run(w, a + b) == Run(Run(w, a), b)
  {
    if b == [] {
      assert a + b == a;
    } else {
      assert (a + b)[..|a + b| - 1] == a + b[..|b| - 1];
      RunAppend(w, a, b[..|b| - 1]);
    }
  }

  /** The attempts have returned these verdicts, one each. */
  ghost predicate Verdicts(w: World, oks: seq<bool>) {
    |w.attempts| == |oks| && forall k :: 0 <= k < |oks| ==> w.attempts[k].phase == Returned(oks[k])
  }

  lemma NothingLeftOver(moves: seq<Move>, oks: seq<bool>)
    requires Orderly(moves) && Verdicts(Run(CONNECTED, moves), oks)
    ensures AllReturned(Run(CONNECTED, moves))
    ensures Outstanding(Run(CONNECTED, moves)) == 0 && NoneUnsent(Run(CONNECTED, moves))
  {
    OrderlyIsInStep(moves);
  }

  lemma VerdictsLonger(w: World, oks: seq<bool>, pin: string, during: seq<Move>, ok: bool)
    requires Verdicts(w, oks) && Ordinary(during)
    requires var v := Run(Apply(w, Install(pin)), during);
             |oks| < |v.attempts| && v.attempts[|oks|].phase == Returned(ok)
    ensures Verdicts(Run(Apply(w, Install(pin)), during), oks + [ok])
  {
    OrdinaryStartsNone(Apply(w, Install(pin)), during);
  }

  lemma OrderlyOneMore(before: seq<Move>, oks: seq<bool>, pin: string, ok: bool) returns (moves: seq<Move>)
    requires Orderly(before) && Verdicts(Run(CONNECTED, before), oks)
    ensures Orderly(moves) && Verdicts(Run(CONNECTED, moves), oks + [ok])
  {
    NothingLeftOver(before, oks);
    var during := OwnAnswerArrives(before, pin, ok);
    VerdictsLonger(Run(CONNECTED, before), oks, pin, during, ok);
    var install := before + [Install(pin)];
    assert install[..|before|] == before;
    OrdinaryIsOrderly(install, during);
    RunAppend(CONNECTED, install, during);
    moves := install + during;
  }

  /** Attempt after attempt, any PINs can get any answers. */
  lemma {:induction false} OrderlyRunsExist(pins: seq<string>, oks: seq<bool>) returns (moves: seq<Move>)
    requires |pins| == |oks|
    ensures Orderly(moves) && Verdicts(Run(CONNECTED, moves), oks)
  {
    if pins == [] {
      return [];
    }
    var n := |pins| - 1;
    var before := OrderlyRunsExist(pins[..n], oks[..n]);
    moves := OrderlyOneMore(before, oks[..n], pins[n], oks[n]);
    assert oks[..n] + [oks[n]] == oks;
  }

  // ---------- A channel that has lost the slot ----------

  /** Nothing is on its way into the channel of attempt `k`, and it is not in the slot. */
  predicate Starved(w: World, k: nat) {
    k < |w.attempts| && w.slot != To(k) && w.attempts[k].channel.Empty? && !Carries(w, k)
  }

  /** An attempt that returns takes the slot from whoever has it: one that has nothing coming
      starves, and so does one whose slot a later attempt takes. */
  lemma ReturnStarvesOthers(w: World, move: Move, k: nat)
    requires k < |w.attempts| && w.attempts[k].channel.Empty? && !Carries(w, k)
    requires move.Install? || (move.TimeOut? && move.k < |w.attempts| && w.attempts[move.k].phase.Sent?)
             || (move.Return? && move.k < |w.attempts| && w.attempts[move.k].phase.Sent?
                 && w.attempts[move.k].channel.Holds?)
    ensures Starved(Apply(w, move), k)
  {
  }

  /** From then on it can only time out. */
  lemma {:induction false} StarvedForGood(w: World, moves: seq<Move>, k: nat)
    requires Starved(w, k)
    ensures Starved(Run(w, moves), k)
    ensures Run(w, moves).attempts[k].phase.Returned? && !w.attempts[k].phase.Returned? ==>
              Run(w, moves).attempts[k].phase == Returned(false)
  {
    if moves != [] {
      StarvedForGood(w, moves[..|moves| - 1], k);
    }
  }

  /** State messages share the queue with the replies and reach no channel. */
  lemma StatesReachNoChannel(w: World)
    ensures Apply(w, PushState) == w.(toFace := w.toFace + [StateMessage])
    ensures w.reader.Reads? && w.toFace != [] && w.toFace[0].StateMessage? ==>
              Apply(w, FaceReads) == w.(toFace := w.toFace[1..])
  {
  }
}
