/**
 The threads that write to one TCP client's socket (tcp/client.go): any number in Send, which takes the
 mutex, the heartbeat and Close, which do not. Every write to the socket is a step of its own, and may fail.
*/
module TcpWriters {
  import opened Endian
  import opened TcpFrame
  import Runs

  datatype Who = Sender(t: nat) | Heartbeat | Closer

  /** A WriteFrame under way: opcode, length and payload are written by three separate writes. */
  datatype Writing = Writing(frame: Frame, stage: nat) {
    function Next(): bytes {
      if stage == 0 then Put(frame.opcode % 256, 1)
      else if stage == 1 then Put(|frame.payload| % Pow256(4), 4)
      else frame.payload
    }

    function Written(): bytes {
      if stage == 0 then []
      else if stage == 1 then Put(frame.opcode % 256, 1)
      else if stage == 2 then Put(frame.opcode % 256, 1) + Put(|frame.payload| % Pow256(4), 4)
      else Encode(frame)
    }

    /** All bytes of the frame are out; with an empty payload that is so before the last write. */
    predicate Whole() {
      stage >= 3 || (stage == 2 && frame.payload == [])
    }

    predicate PartlyOut() {
      stage > 0 && !Whole()
    }
  }

  const PING_FRAME := Frame(OP_PING, [])
  const CLOSE_FRAME := Frame(OP_CLOSE, [])

  /**
   The socket and its writers. `stuck` is a frame whose writer failed with only a part of it out. `log` lists
   the frames in the order their last byte went out, `acked` the payloads of the Sends that returned nil.
  */
  datatype State = State(
    holder: Option<nat>, writers: map<Who, Writing>, closing: bool, down: bool, stuck: Option<Frame>,
    wire: bytes, log: seq<Frame>, acked: seq<bytes>)

  const INITIAL := State(None, map[], false, false, None, [], [], [])

  datatype Step =
    | Lock(t: nat, payload: bytes)
    | StartPing
    | StartClose
    | Write(who: Who)
    // the next write puts n bytes out and fails; or, before the first, setting the deadline fails
    | Fail(who: Who, n: nat)
    | Finish(who: Who)
    | Shutdown  // Close closes the socket once its frame is written or has failed

  predicate CanWrite(s: State, who: Who) {
    who in s.writers && s.writers[who].stage < 3
  }

  predicate Enabled(s: State, step: Step) {
    match step
    case Lock(t, _) => s.holder == None && Sender(t) !in s.writers
    case StartPing => Heartbeat !in s.writers
    case StartClose => !s.closing
    case Write(who) => CanWrite(s, who) && !s.down
    case Fail(who, n) =>
      CanWrite(s, who) && n <= |s.writers[who].Next()| && (s.down ==> n == 0) &&
      (n == |s.writers[who].Next()| ==> n == 0)
    case Finish(who) => who in s.writers && s.writers[who].stage == 3
    case Shutdown => s.closing && Closer !in s.writers && !s.down
  }

  function Start(s: State, who: Who, frame: Frame): State {
    s.(writers := s.writers[who := Writing(frame, 0)])
  }

  /** The writer returns; a thread in Send gives the mutex back. */
  function Return(s: State, who: Who): State {
    s.(writers := s.writers - {who}, holder := if who.Sender? then None else s.holder)
  }

  function Logged(w: Writing): seq<Frame> {
    if !w.Whole() && w.(stage := w.stage + 1).Whole() then [w.frame] else []
  }

  /** The state after a step; nothing but Lock looks at who holds the mutex. */
  function Apply(s: State, step: Step): State
    requires Enabled(s, step)
  {
    match step
    case Lock(t, payload) => Start(s, Sender(t), Frame(OP_BINARY, payload)).(holder := Some(t))
    case StartPing => Start(s, Heartbeat, PING_FRAME)
    case StartClose => Start(s, Closer, CLOSE_FRAME).(closing := true)
    case Write(who) =>
      var w := s.writers[who];
      s.(writers := s.writers[who := w.(stage := w.stage + 1)], wire := s.wire + w.Next(), log := s.log + Logged(w))
    case Fail(who, n) =>
      var w := s.writers[who];
      Return(s, who).(wire := s.wire + w.Next()[..n],
                      stuck := if w.PartlyOut() || n > 0 then Some(w.frame) else s.stuck)
    case Finish(who) =>
      Return(s, who).(acked := s.acked + if who.Sender? then [s.writers[who].frame.payload] else [])
    case Shutdown => s.(down := true)
  }

  /** What is sent fits a frame. */
  predicate Fits(step: Step) {
    step.Lock? ==> |step.payload| < 0x1_0000_0000
  }

  ghost predicate Next(s: State, step: Step, s': State) {
    Enabled(s, step) && Fits(step) && s' == Apply(s, step)
  }

  ghost predicate IsRun(states: seq<State>, steps: seq<Step>) {
    Runs.IsRun(INITIAL, Next, states, steps)
  }

  // ----- when the writers keep off each other

  /** The bytes a step puts out. */
  function Emitted(s: State, step: Step): bytes
    requires Enabled(s, step)
  {
    match step
    case Write(who) => s.writers[who].Next()
    case Fail(who, n) => s.writers[who].Next()[..n]
    case _ => []
  }

  /** Nothing is put out while another writer's frame is partly out. */
  predicate Clean(s: State, step: Step)
    requires Enabled(s, step)
  {
    Emitted(s, step) == [] ||
    (s.stuck == None && forall who | who in s.writers && who != step.who :: !Open(s, who))
  }

  ghost predicate Torn(s: State, step: Step) {
    Enabled(s, step) && !Clean(s, step)
  }

  /** What each writer sends, and the mutex: one thread between Lock and its return. */
  ghost predicate WritersInv(s: State) {
    && (forall t: nat :: Sender(t) in s.writers <==> s.holder == Some(t))
    && (forall who | who in s.writers ::
          s.writers[who].stage <= 3 && s.writers[who].frame.FitsWire() && FrameOf(who, s.writers[who].frame))
    && (Closer in s.writers ==> s.closing)
  }

  predicate FrameOf(who: Who, f: Frame) {
    match who
    case Sender(_) => f.opcode == OP_BINARY
    case Heartbeat => f == PING_FRAME
    case Closer => f == CLOSE_FRAME
  }

  predicate Open(s: State, who: Who) {
    who in s.writers && s.writers[who].PartlyOut()
  }

  /** The bytes after the complete frames, which are a part of the one frame that is partly out. */
  ghost predicate Rest(s: State, rest: bytes) {
    && (forall who | Open(s, who) :: s.stuck == None && rest == s.writers[who].Written())
    && (forall who, other | Open(s, who) && Open(s, other) :: who == other)
    && (s.stuck.Some? ==> s.stuck.value.FitsWire() && rest <= Encode(s.stuck.value) && rest != Encode(s.stuck.value))
    && (s.stuck == None && (forall who :: !Open(s, who)) ==> rest == [])
  }

  ghost predicate WireInv(s: State) {
    && AllFit(s.log)
    && EncodeAll(s.log) <= s.wire
    && Rest(s, s.wire[|EncodeAll(s.log)|..])
  }

  lemma WritersStep(s: State, step: Step, s': State)
    requires WritersInv(s) && Next(s, step, s')
    ensures WritersInv(s')
  {
  }

  /** A frame's three writes, one after the other, add up to its encoding. */
  lemma WritesAddUp(w: Writing)
    requires w.stage < 3
    ensures w.Written() + w.Next() == w.(stage := w.stage + 1).Written()
    ensures w.Whole() ==> w.Next() == [] && w.Written() == Encode(w.frame)
  {
    assert w.Whole() ==> w.Written() + [] == Encode(w.frame);
  }

  lemma PartIsProper(w: Writing, n: nat)
    requires w.stage < 3 && n <= |w.Next()| && (n < |w.Next()| || w.PartlyOut()) && (n == |w.Next()| ==> n == 0)
    ensures w.Written() + w.Next()[..n] <= Encode(w.frame) && w.Written() + w.Next()[..n] != Encode(w.frame)
  {
    WritesAddUp(w);
    assert w.Written() + w.Next()[..n] <= w.Written() + w.Next();
    assert w.(stage := w.stage + 1).Written() <= Encode(w.frame);
  }

  lemma EncodeAllOne(log: seq<Frame>, f: Frame)
    ensures EncodeAll(log + [f]) == EncodeAll(log) + Encode(f)
  {
    EncodeAllConcat(log, [f]);
    assert [f][1..] == [];
    assert EncodeAll([f]) == Encode(f) + [];
  }

  /** A writer that puts something out while no other frame is partly out goes on where its own bytes end. */
  lemma RestIsWritten(s: State, who: Who, rest: bytes)
    requires WritersInv(s) && Rest(s, rest) && CanWrite(s, who) && s.writers[who].Next() != []
    requires s.stuck == None && forall other | other in s.writers && other != who :: !Open(s, other)
    ensures rest == s.writers[who].Written()
  {
  }

  lemma SameOpen(s: State, s': State)
    requires WireInv(s) && s'.wire == s.wire && s'.log == s.log && s'.stuck == s.stuck
    requires forall who :: Open(s', who) <==> Open(s, who)
    requires forall who | Open(s, who) && Open(s', who) :: s'.writers[who] == s.writers[who]
    ensures WireInv(s')
  {
  }

  lemma WireIs(s: State, rest: bytes)
    requires AllFit(s.log) && s.wire == EncodeAll(s.log) + rest && Rest(s, rest)
    ensures WireInv(s)
  {
    assert s.wire[|EncodeAll(s.log)|..] == rest;
  }

  lemma WrittenOn(log: seq<Frame>, w: Writing)
    requires w.stage < 3 && !w.Whole()
    ensures var w' := w.(stage := w.stage + 1);
      EncodeAll(log) + w.Written() + w.Next()
        == EncodeAll(log + Logged(w)) + if w'.Whole() then [] else w'.Written()
  {
    var w' := w.(stage := w.stage + 1);
    WritesAddUp(w);
    Reassociate(EncodeAll(log), w.Written(), w.Next());
    if w'.Whole() {
      WholeIsEncoded(w');
      EncodeAllOne(log, w.frame);
      assert EncodeAll(log + [w.frame]) + [] == EncodeAll(log) + w'.Written();
    } else {
      assert log + [] == log;
    }
  }

  lemma WholeIsEncoded(w: Writing)
    requires w.Whole()
    ensures w.Written() == Encode(w.frame)
  {
    if w.stage == 2 {
      WritesAddUp(w);
    }
  }

  lemma EmptyWrite(s: State, who: Who, s': State)
    requires WireInv(s) && Next(s, Write(who), s') && s.writers[who].Next() == []
    ensures WireInv(s')
  {
    assert s.wire + [] == s.wire && s.log + [] == s.log;
    SameOpen(s, s');
  }

  lemma CleanWrite(s: State, who: Who, s': State)
    requires WritersInv(s) && WireInv(s) && Next(s, Write(who), s') && Clean(s, Write(who))
    requires s.writers[who].Next() != []
    ensures WireInv(s')
  {
    var w, rest := s.writers[who], s.wire[|EncodeAll(s.log)|..];
    var w' := w.(stage := w.stage + 1);
    RestIsWritten(s, who, rest);
    assert s.wire == EncodeAll(s.log) + w.Written();
    WrittenOn(s.log, w);
    RestAfterWrite(s, who, s');
    WireIs(s', if w'.Whole() then [] else w'.Written());
  }

  lemma RestAfterWrite(s: State, who: Who, s': State)
    requires Next(s, Write(who), s') && s.stuck == None
    requires forall other | other in s.writers && other != who :: !Open(s, other)
    ensures var w' := s'.writers[who];
      Rest(s', if w'.Whole() then [] else w'.Written())
  {
    OthersStayShut(s, who, s');
    assert s'.writers[who].Whole() || Open(s', who);
  }

  lemma OthersStayShut(s: State, who: Who, s': State)
    requires forall other | other in s.writers && other != who :: !Open(s, other)
    requires forall other | other in s'.writers && other != who ::
      other in s.writers && s'.writers[other] == s.writers[other]
    ensures forall other | other != who :: !Open(s', other)
  {
  }

  lemma CleanFail(s: State, who: Who, n: nat, s': State)
    requires WritersInv(s) && WireInv(s) && Next(s, Fail(who, n), s') && Clean(s, Fail(who, n))
    ensures WireInv(s')
  {
    if s.writers[who].PartlyOut() || n > 0 {
      CleanFailPartWay(s, who, n, s');
    } else {
      assert s.wire + s.writers[who].Next()[..0] == s.wire;
      SameOpen(s, s');
    }
  }

  lemma CleanFailPartWay(s: State, who: Who, n: nat, s': State)
    requires WritersInv(s) && WireInv(s) && Next(s, Fail(who, n), s') && Clean(s, Fail(who, n))
    requires s.writers[who].PartlyOut() || n > 0
    ensures WireInv(s')
  {
    var w, rest := s.writers[who], s.wire[|EncodeAll(s.log)|..];
    if n > 0 {
      RestIsWritten(s, who, rest);
    } else {
      assert Open(s, who);
    }
    assert rest == w.Written() && s.wire == EncodeAll(s.log) + w.Written();
    Reassociate(EncodeAll(s.log), w.Written(), w.Next()[..n]);
    RestAfterFail(s, who, n, s');
    WireIs(s', w.Written() + w.Next()[..n]);
  }

  lemma RestAfterFail(s: State, who: Who, n: nat, s': State)
    requires WritersInv(s) && Next(s, Fail(who, n), s') && (s.writers[who].PartlyOut() || n > 0)
    requires forall other | other in s.writers && other != who :: !Open(s, other)
    ensures Rest(s', s.writers[who].Written() + s.writers[who].Next()[..n])
  {
    OthersStayShut(s, who, s');
    PartIsProper(s.writers[who], n);
  }

  lemma CleanStep(s: State, step: Step, s': State)
    requires WritersInv(s) && WireInv(s) && Next(s, step, s') && Clean(s, step)
    ensures WireInv(s')
  {
    match step
    case Write(who) =>
      if s.writers[who].Next() == [] {
        EmptyWrite(s, who, s');
      } else {
        CleanWrite(s, who, s');
      }
    case Fail(who, n) => CleanFail(s, who, n, s');
    case _ => SameOpen(s, s');
  }

  lemma {:induction false} WritersRun(states: seq<State>, steps: seq<Step>, i: nat)
    requires IsRun(states, steps) && i < |states|
    ensures WritersInv(states[i])
  {
    forall s, step, s' | WritersInv(s) && Next(s, step, s') ensures WritersInv(s') {
      WritersStep(s, step, s');
    }
    Runs.Always(INITIAL, Next, WritersInv, states, steps, i);
  }

  lemma {:induction false} WireRun(states: seq<State>, steps: seq<Step>, i: nat)
    requires IsRun(states, steps) && i < |states|
    requires forall k | 0 <= k < i :: !Torn(states[k], steps[k])
    ensures WireInv(states[i])
  {
    if i == 0 {
    } else {
      WireRun(states, steps, i - 1);
      WritersRun(states, steps, i - 1);
      assert Runs.TakesStep(Next, states, steps, i - 1) && !Torn(states[i - 1], steps[i - 1]);
      CleanStep(states[i - 1], steps[i - 1], states[i]);
    }
  }

  lemma WrittenIsProper(w: Writing)
    requires w.PartlyOut() && w.frame.FitsWire()
    ensures w.Written() <= Encode(w.frame) && w.Written() != Encode(w.frame)
  {
    WritesAddUp(w);
  }

  /** What is left after the complete frames does not decode to another one. */
  lemma RestIsSilent(s: State, rest: bytes)
    requires WritersInv(s) && Rest(s, rest)
    ensures Decode(rest) == []
  {
    if who :| Open(s, who) {
      WrittenIsProper(s.writers[who]);
      PartialFrameIsShort(s.writers[who].frame, rest);
    } else if s.stuck.Some? {
      PartialFrameIsShort(s.stuck.value, rest);
    }
  }

  /**
   As long as nothing is put out while another writer's frame is partly out, the socket holds the complete frames
   and then a part of at most one more, and the peer decodes exactly the complete ones, in the order they were
   completed.
  */
  lemma PeerDecodesWhatWasSent(states: seq<State>, steps: seq<Step>, i: nat)
    requires IsRun(states, steps) && i < |states|
    requires forall k | 0 <= k < i :: !Torn(states[k], steps[k])
    ensures exists rest :: states[i].wire == EncodeAll(states[i].log) + rest && Rest(states[i], rest)
    ensures Decode(states[i].wire) == states[i].log
  {
    var s := states[i];
    WritersRun(states, steps, i);
    WireRun(states, steps, i);
    var rest := s.wire[|EncodeAll(s.log)|..];
    assert s.wire == EncodeAll(s.log) + rest;
    DecodeStream(s.log, rest);
    RestIsSilent(s, rest);
  }

  /** The mutex is enough for the Sends among themselves: alone on the socket and without errors they are never torn. */
  lemma SendsAloneAreNeverTorn(states: seq<State>, steps: seq<Step>, i: nat)
    requires IsRun(states, steps) && i < |steps|
    requires forall k | 0 <= k < i :: !steps[k].StartPing? && !steps[k].StartClose? && !steps[k].Fail?
    ensures !Torn(states[i], steps[i]) && Decode(states[i].wire) == states[i].log
  {
    forall k: nat | k <= i ensures !Torn(states[k], steps[k]) {
      WritersRun(states, steps, k);
      OnlySenders(states, steps, k);
    }
    PeerDecodesWhatWasSent(states, steps, i);
  }

  lemma {:induction false} OnlySenders(states: seq<State>, steps: seq<Step>, i: nat)
    requires IsRun(states, steps) && i < |states|
    requires forall k | 0 <= k < i :: !steps[k].StartPing? && !steps[k].StartClose? && !steps[k].Fail?
    ensures states[i].stuck == None && forall who | who in states[i].writers :: who.Sender?
  {
    if i == 0 {
    } else {
      OnlySenders(states, steps, i - 1);
      assert Runs.TakesStep(Next, states, steps, i - 1);
    }
  }

  // ----- errors and the end

  /** What is on the socket is what the steps put out, and after the shutdown that is nothing. */
  lemma WireIsEmitted(states: seq<State>, steps: seq<Step>, k: nat)
    requires IsRun(states, steps) && k < |steps|
    ensures Enabled(states[k], steps[k])
    ensures states[k + 1].wire == states[k].wire + Emitted(states[k], steps[k])
  {
    assert Runs.TakesStep(Next, states, steps, k);
    assert states[k].wire + [] == states[k].wire;
  }

  lemma {:induction false} NothingAfterShutdown(states: seq<State>, steps: seq<Step>, k: nat, j: nat)
    requires IsRun(states, steps) && k < j < |states| && steps[k] == Shutdown
    ensures states[j].down && states[j].wire == states[k].wire
  {
    assert Runs.TakesStep(Next, states, steps, j - 1);
    if k == j - 1 {
    } else {
      NothingAfterShutdown(states, steps, k, j - 1);
      WireIsEmitted(states, steps, j - 1);
      assert states[j - 1].wire + [] == states[j - 1].wire;
    }
  }

  /** A write may fail at any byte, and a thread in Send gives the mutex back all the same. */
  lemma AnyWriteCanFail(s: State, who: Who, n: nat)
    requires WritersInv(s) && CanWrite(s, who) && !s.down && n <= |s.writers[who].Next()|
    ensures n < |s.writers[who].Next()| || n == 0 ==> Enabled(s, Fail(who, n))
    ensures n < |s.writers[who].Next()| ==>
      var s' := Apply(s, Fail(who, n));
      && who !in s'.writers && s'.wire == s.wire + s.writers[who].Next()[..n] && s'.log == s.log && s'.acked == s.acked
      && (who.Sender? ==> s'.holder == None)
  {
  }

  /** Whatever the others do, a writer can make its next step. */
  lemma WritersGoOn(s: State, who: Who, t: nat)
    requires WritersInv(s)
    ensures s.holder == None ==> Enabled(s, Lock(t, []))
    ensures who in s.writers ==> Enabled(s, Finish(who)) || Enabled(s, Fail(who, 0)) || Enabled(s, Write(who))
    ensures who in s.writers && !s.down ==> Enabled(s, Finish(who)) || Enabled(s, Write(who))
    ensures s.closing && Closer !in s.writers && !s.down ==> Enabled(s, Shutdown)
    ensures s.down && who in s.writers && s.writers[who].stage < 3 ==> Enabled(s, Fail(who, 0))
  {
  }

  // ----- what a Send that returned nil can rely on

  /** The payloads sent, in the order their frames were completed. */
  function Payloads(log: seq<Frame>): seq<bytes> {
    if log == [] then []
    else Payloads(log[..|log| - 1]) +
         (if log[|log| - 1].opcode == OP_BINARY then [log[|log| - 1].payload] else [])
  }

  /** The payload of the Send whose frame is out but which has not returned. */
  function Waiting(s: State): seq<bytes> {
    if s.holder.Some? && Sender(s.holder.value) in s.writers && s.writers[Sender(s.holder.value)].Whole()
    then [s.writers[Sender(s.holder.value)].frame.payload] else []
  }

  /** The last write of an empty payload fails although there is nothing left to put out. */
  predicate FailsLate(s: State, step: Step) {
    step.Fail? && step.who in s.writers && s.writers[step.who].Whole()
  }

  ghost predicate AckInv(s: State) {
    Payloads(s.log) == s.acked + Waiting(s)
  }

  lemma PayloadsAppend(log: seq<Frame>, f: Frame)
    ensures Payloads(log + [f]) == Payloads(log) + if f.opcode == OP_BINARY then [f.payload] else []
  {
    assert (log + [f])[..|log|] == log;
  }

  /** A write that does not complete a Send's frame leaves the waiting Send as it was. */
  lemma WriteWaits(s: State, who: Who, s': State)
    requires WritersInv(s) && Next(s, Write(who), s')
    ensures Waiting(s') == Waiting(s) +
      if who.Sender? && Logged(s.writers[who]) != [] then [s.writers[who].frame.payload] else []
  {
    if who.Sender? {
      assert s.holder == Some(who.t) && s'.writers[who].frame == s.writers[who].frame;
    } else {
      assert s'.holder == s.holder;
      assert forall t: nat | Sender(t) in s.writers :: s'.writers[Sender(t)] == s.writers[Sender(t)];
    }
  }

  lemma PayloadsWrite(log: seq<Frame>, acked: seq<bytes>, waiting: seq<bytes>, w: Writing)
    requires Payloads(log) == acked + waiting
    ensures Payloads(log + Logged(w)) ==
      acked + (waiting + if w.frame.opcode == OP_BINARY && Logged(w) != [] then [w.frame.payload] else [])
  {
    if Logged(w) == [] {
      assert log + [] == log && waiting + [] == waiting;
    } else {
      PayloadsAppend(log, w.frame);
      assert acked + waiting + [] == acked + (waiting + []);
    }
  }

  lemma AckWrite(s: State, who: Who, s': State)
    requires WritersInv(s) && AckInv(s) && Next(s, Write(who), s')
    ensures AckInv(s')
  {
    var w := s.writers[who];
    WriteWaits(s, who, s');
    PayloadsWrite(s.log, s.acked, Waiting(s), w);
    assert FrameOf(who, w.frame);
  }

  lemma SameHolder(s: State, who: Who, s': State)
    requires !who.Sender? && s'.holder == s.holder && s'.writers == s.writers - {who}
    ensures Waiting(s') == Waiting(s)
  {
  }

  /** A thread that leaves Send has been waiting exactly if its whole frame was out. */
  lemma AckReturn(s: State, step: Step, s': State)
    requires WritersInv(s) && AckInv(s) && Next(s, step, s') && (step.Finish? || step.Fail?) && !FailsLate(s, step)
    ensures AckInv(s')
  {
    if step.who.Sender? {
      assert s.holder == Some(step.who.t) && Waiting(s') == [];
    } else {
      assert s'.acked == s.acked;
      SameHolder(s, step.who, s');
    }
  }

  lemma AckStep(s: State, step: Step, s': State)
    requires WritersInv(s) && AckInv(s) && Next(s, step, s') && !FailsLate(s, step)
    ensures AckInv(s')
  {
    match step
    case Write(who) => AckWrite(s, who, s');
    case Finish(_) | Fail(_, _) => AckReturn(s, step, s');
    case _ => assert s'.acked == s.acked && s'.log == s.log;
  }

  /**
   Every Send that returned nil has its payload among the completed frames, in order; at most one more is to return.
  */
  lemma {:induction false} AckedWasWritten(states: seq<State>, steps: seq<Step>, i: nat)
    requires IsRun(states, steps) && i < |states|
    requires forall k | 0 <= k < i :: !FailsLate(states[k], steps[k])
    ensures Payloads(states[i].log) == states[i].acked + Waiting(states[i])
  {
    if i == 0 {
    } else {
      AckedWasWritten(states, steps, i - 1);
      WritersRun(states, steps, i - 1);
      assert Runs.TakesStep(Next, states, steps, i - 1) && !FailsLate(states[i - 1], steps[i - 1]);
      AckStep(states[i - 1], steps[i - 1], states[i]);
    }
  }
}
