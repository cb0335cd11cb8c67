/**
 Runs of the writers of one TCP client's socket (tcp/client.go) in which the heartbeat or Close puts its frame
 out while a Send is under way: what the peer then makes of it.
*/
module TornRuns {
  import opened Endian
  import opened TcpFrame
  import opened TcpWriters
  import opened TornWrites
  import Runs

  function OwnFrame(who: Who): Frame {
    if who == Heartbeat then PING_FRAME else CLOSE_FRAME
  }

  /** Thread 0 has done i writes of f, the other writer j writes of its own frame. */
  function Both(who: Who, f: Frame, i: nat, j: nat, wire: bytes, log: seq<Frame>): State {
    State(Some(0), map[Sender(0) := Writing(f, i), who := Writing(OwnFrame(who), j)], who == Closer, false, None,
          wire, log, [])
  }

  /** Everything has been written and both have returned. */
  function Over(who: Who, payload: bytes, wire: bytes, log: seq<Frame>): State {
    State(None, map[], who == Closer, false, None, wire, log, [payload])
  }

  /** No write fails, and only these payloads are sent. */
  ghost function CalmNext(ps: set<bytes>): (State, Step, State) -> bool {
    (s, step, s') => Next(s, step, s') && !step.Fail? && (step.Lock? ==> step.payload in ps)
  }

  ghost predicate IsCalmRun(ps: set<bytes>, states: seq<State>, steps: seq<Step>) {
    Runs.IsRun(INITIAL, CalmNext(ps), states, steps)
  }

  lemma BothStart(ps: set<bytes>, who: Who, payload: bytes) returns (states: seq<State>, steps: seq<Step>)
    requires payload in ps && !who.Sender? && |payload| < 0x1_0000_0000
    ensures IsCalmRun(ps, states, steps) && states[|states| - 1] == Both(who, Frame(OP_BINARY, payload), 0, 0, [], [])
  {
    var f := Frame(OP_BINARY, payload);
    var alone := State(Some(0), map[Sender(0) := Writing(f, 0)], false, false, None, [], [], []);
    states, steps := Runs.Extend(INITIAL, CalmNext(ps), [INITIAL], [], Lock(0, payload), alone);
    var start := if who == Heartbeat then StartPing else StartClose;
    states, steps := Runs.Extend(INITIAL, CalmNext(ps), states, steps, start, Both(who, f, 0, 0, [], []));
  }

  lemma SenderWrites(
    ps: set<bytes>, states: seq<State>, steps: seq<Step>,
    who: Who, f: Frame, i: nat, j: nat, wire: bytes, log: seq<Frame>)
    returns (states': seq<State>, steps': seq<Step>)
    requires IsCalmRun(ps, states, steps) && !who.Sender? && i < 3
    requires states[|states| - 1] == Both(who, f, i, j, wire, log)
    ensures IsCalmRun(ps, states', steps') && states <= states' && steps <= steps'
    ensures states'[|states'| - 1] == Both(who, f, i + 1, j, wire + Writing(f, i).Next(), log + Logged(Writing(f, i)))
  {
    states', steps' := Runs.Extend(INITIAL, CalmNext(ps), states, steps, Write(Sender(0)),
      Both(who, f, i + 1, j, wire + Writing(f, i).Next(), log + Logged(Writing(f, i))));
  }

  lemma OtherWrites(
    ps: set<bytes>, states: seq<State>, steps: seq<Step>,
    who: Who, f: Frame, i: nat, j: nat, wire: bytes, log: seq<Frame>)
    returns (states': seq<State>, steps': seq<Step>)
    requires IsCalmRun(ps, states, steps) && !who.Sender? && j < 3
    requires states[|states| - 1] == Both(who, f, i, j, wire, log)
    ensures IsCalmRun(ps, states', steps') && states <= states' && steps' == steps + [Write(who)]
    ensures var w := Writing(OwnFrame(who), j);
      states'[|states'| - 1] == Both(who, f, i, j + 1, wire + w.Next(), log + Logged(w))
  {
    var w := Writing(OwnFrame(who), j);
    states', steps' := Runs.Extend(INITIAL, CalmNext(ps), states, steps, Write(who),
      Both(who, f, i, j + 1, wire + w.Next(), log + Logged(w)));
  }

  lemma BothReturn(
    ps: set<bytes>, states: seq<State>, steps: seq<Step>, who: Who, payload: bytes, wire: bytes, log: seq<Frame>)
    returns (states': seq<State>, steps': seq<Step>)
    requires IsCalmRun(ps, states, steps) && !who.Sender?
    requires states[|states| - 1] == Both(who, Frame(OP_BINARY, payload), 3, 3, wire, log)
    ensures IsCalmRun(ps, states', steps') && states <= states' && steps <= steps'
    ensures states'[|states'| - 1] == Over(who, payload, wire, log)
  {
    var left := State(None, map[who := Writing(OwnFrame(who), 3)], who == Closer, false, None, wire, log, [payload]);
    states', steps' := Runs.Extend(INITIAL, CalmNext(ps), states, steps, Finish(Sender(0)), left);
    states', steps' := Runs.Extend(INITIAL, CalmNext(ps), states', steps', Finish(who), Over(who, payload, wire, log));
  }

  /** The other writer, whose opcode is out, writes the rest of its frame. */
  lemma OtherFinishes(
    ps: set<bytes>, states: seq<State>, steps: seq<Step>, who: Who, f: Frame, i: nat, wire: bytes, log: seq<Frame>)
    returns (states': seq<State>, steps': seq<Step>)
    requires IsCalmRun(ps, states, steps) && states[|states| - 1] == Both(who, f, i, 1, wire, log) && !who.Sender?
    ensures IsCalmRun(ps, states', steps') && states <= states' && steps <= steps'
    ensures states'[|states'| - 1] == Both(who, f, i, 3, wire + [0, 0, 0, 0], log + [OwnFrame(who)])
  {
    OwnLayout(who);
    var len, after := [0, 0, 0, 0], log + [OwnFrame(who)];
    states', steps' := OtherWrites(ps, states, steps, who, f, i, 1, wire, log);
    states', steps' := OtherWrites(ps, states', steps', who, f, i, 2, wire + len, after);
    assert wire + len + [] == wire + len && after + [] == after;
  }

  lemma OwnLayout(who: Who)
    requires !who.Sender?
    ensures var g := OwnFrame(who);
      && Writing(g, 0).Next() == [g.opcode as byte] && Writing(g, 1).Next() == [0, 0, 0, 0]
      && Writing(g, 2).Next() == []
      && Encode(g) == [g.opcode as byte, 0, 0, 0, 0]
  {
    PowConstants();
    assert Put(0, 4) == [0, 0, 0, 0];
    assert Put(OwnFrame(who).opcode, 1) == [OwnFrame(who).opcode as byte];
  }

  /** The first two writes of a Send. */
  function Head(payload: bytes): bytes {
    [2] + Put(|payload|, 4)
  }

  lemma SendLayout(f: Frame)
    requires f.opcode == OP_BINARY && |f.payload| < 0x1_0000_0000
    ensures Writing(f, 0).Next() == [2] && Writing(f, 1).Next() == Put(|f.payload|, 4)
    ensures Writing(f, 2).Next() == f.payload
    ensures Encode(f) == Head(f.payload) + f.payload
  {
    PowConstants();
    SmallMod(|f.payload|, Pow256(4));
    assert Put(2, 1) == [2];
  }

  /** The Send writes its opcode. */
  lemma OpcodeRun(ps: set<bytes>, who: Who, f: Frame) returns (states: seq<State>, steps: seq<Step>)
    requires f.payload in ps && !who.Sender? && f.opcode == OP_BINARY && |f.payload| < 0x1_0000_0000
    ensures IsCalmRun(ps, states, steps) && states[|states| - 1] == Both(who, f, 1, 0, [2], [])
  {
    states, steps := BothStart(ps, who, f.payload);
    states, steps := SenderWrites(ps, states, steps, who, f, 0, 0, [], []);
    OpcodeIsOut(f);
  }

  lemma OpcodeIsOut(f: Frame)
    requires f.opcode == OP_BINARY
    ensures [] + Writing(f, 0).Next() == [2] && [] + Logged(Writing(f, 0)) == []
  {
    assert Put(2, 1) == [2];
  }

  /** Then the other writer writes its whole frame. */
  lemma IntrusionRun(ps: set<bytes>, who: Who, f: Frame) returns (states: seq<State>, steps: seq<Step>)
    requires f.payload in ps && !who.Sender? && f.opcode == OP_BINARY && |f.payload| < 0x1_0000_0000
    ensures IsCalmRun(ps, states, steps)
    ensures states[|states| - 1] == Both(who, f, 1, 3, [2, OwnFrame(who).opcode as byte, 0, 0, 0, 0], [OwnFrame(who)])
  {
    var op := OwnFrame(who).opcode as byte;
    OwnLayout(who);
    states, steps := OpcodeRun(ps, who, f);
    states, steps := OtherWrites(ps, states, steps, who, f, 1, 0, [2], []);
    states, steps := OtherFinishes(ps, states, steps, who, f, 1, [2, op], []);
    assert [2, op] + [0, 0, 0, 0] == [2, op, 0, 0, 0, 0];
  }

  /**
   The heartbeat and Close take no mutex. When one of them writes its frame between two writes of a Send, the peer
   gets neither frame, although both writers finish without an error.
  */
  lemma IntruderInsideSendLosesFrames(who: Who) returns (states: seq<State>, steps: seq<Step>)
    requires !who.Sender?
    ensures IsCalmRun({[7]}, states, steps)
    ensures var s := states[|states| - 1];
      && s.writers == map[] && s.acked == [[7]] && s.log == [OwnFrame(who), Frame(OP_BINARY, [7])]
      && Decode(s.wire) == []
  {
    var f, g, op := Frame(OP_BINARY, [7]), OwnFrame(who), OwnFrame(who).opcode as byte;
    SendLayout(f);
    assert Put(1, 4) == [1, 0, 0, 0];
    states, steps := IntrusionRun({[7]}, who, f);
    states, steps := SenderWrites({[7]}, states, steps, who, f, 1, 3, [2, op, 0, 0, 0, 0], [g]);
    states, steps := SenderWrites({[7]}, states, steps, who, f, 2, 3, [2, op, 0, 0, 0, 0, 1, 0, 0, 0], [g]);
    states, steps := BothReturn({[7]}, states, steps, who, [7], [2, op, 0, 0, 0, 0, 1, 0, 0, 0, 7], [g, f]);
    MixedBytesDecodeToNothing(op);
  }

  /** The opcode of one frame followed by the whole of another reads as a payload that never ends. */
  lemma MixedBytesDecodeToNothing(op: byte)
    requires op > 7
    ensures Decode([2, op, 0, 0, 0, 0, 1, 0, 0, 0, 7]) == []
  {
    var b: bytes := [2, op, 0, 0, 0, 0, 1, 0, 0, 0, 7];
    var rest := b[1..];
    assert rest[..4] == [op, 0, 0, 0];
    PowConstants();
    ValueOfPut(op as nat, 4);
    assert Put(op as nat, 4) == [op, 0, 0, 0];
    assert ParseBlock(4, rest) == Short;
  }

  lemma {:induction false} ShiftIsConstant(op: byte, p: bytes, i: nat)
    requires p == ([op] + p)[..|p|] && i < |p|
    ensures p[i] == op
  {
    assert p[i] == ([op] + p)[i];
    if i > 0 {
      ShiftIsConstant(op, p, i - 1);
    }
  }

  lemma ConstantShifts(op: byte, p: bytes)
    requires forall b | b in p :: b == op
    ensures [op] + p == p + [op]
  {
    forall i | 0 <= i <= |p| ensures ([op] + p)[i] == (p + [op])[i] {
      assert i < |p| ==> p[i] in p;
      assert i > 0 ==> p[i - 1] in p;
    }
  }

  /** The bytes of a Send whose payload another writer's opcode goes before and the rest of whose frame goes after. */
  function Overlapped(who: Who, payload: bytes): bytes {
    Head(payload) + [OwnFrame(who).opcode as byte] + payload + [0, 0, 0, 0]
  }

  /** Whatever comes after opcode and length of a Send is taken for its payload. */
  lemma FirstPayload(payload: bytes, p: bytes, tail: bytes)
    requires |p| == |payload| < 0x1_0000_0000
    ensures Decode(Head(payload) + (p + tail)) == [Frame(OP_BINARY, p)] + Decode(tail)
  {
    SendLayout(Frame(OP_BINARY, p));
    Reassociate(Head(p), p, tail);
    DecodeStep(Frame(OP_BINARY, p), tail);
  }

  lemma SplitOverlap(h: bytes, b: bytes, z: bytes, n: nat)
    requires n <= |b|
    ensures h + b + z == h + (b[..n] + (b[n..] + z))
  {
    assert b == b[..n] + b[n..];
    assert b + z == b[..n] + (b[n..] + z);
  }

  lemma HarmlessIsConstant(who: Who, f: Frame)
    requires !who.Sender? && f.opcode == OP_BINARY && 0 < |f.payload| < 0x1_0000_0000
    requires Decode(Overlapped(who, f.payload)) == [f, OwnFrame(who)]
    ensures forall b | b in f.payload :: b == OwnFrame(who).opcode as byte
  {
    var op, p := OwnFrame(who).opcode as byte, f.payload;
    var b := [op] + p;
    Reassociate(Head(p), [op], p);
    SplitOverlap(Head(p), b, [0, 0, 0, 0], |p|);
    FirstPayload(p, b[..|p|], b[|p|..] + [0, 0, 0, 0]);
    var d := [Frame(OP_BINARY, b[..|p|])] + Decode(b[|p|..] + [0, 0, 0, 0]);
    assert d == [f, OwnFrame(who)] && d[0] == f;
    forall i | 0 <= i < |p| ensures p[i] == op {
      ShiftIsConstant(op, p, i);
    }
  }

  lemma ConstantIsHarmless(who: Who, f: Frame)
    requires !who.Sender? && f.opcode == OP_BINARY && |f.payload| < 0x1_0000_0000
    requires forall b | b in f.payload :: b == OwnFrame(who).opcode as byte
    ensures Decode(Overlapped(who, f.payload)) == [f, OwnFrame(who)]
  {
    var g, op, p := OwnFrame(who), OwnFrame(who).opcode as byte, f.payload;
    SendLayout(f);
    OwnLayout(who);
    ConstantShifts(op, p);
    Reassociate(Head(p), [op], p);
    Reassociate(Head(p), p, [op]);
    Reassociate(Encode(f), [op], [0, 0, 0, 0]);
    assert Overlapped(who, p) == Encode(f) + Encode(g);
    assert Encode(g) + [] == Encode(g) && Decode([]) == [];
    DecodeStep(g, []);
    DecodeStep(f, Encode(g));
  }

  lemma HeadRun(ps: set<bytes>, who: Who, f: Frame) returns (states: seq<State>, steps: seq<Step>)
    requires f.payload in ps && !who.Sender? && f.opcode == OP_BINARY && 0 < |f.payload| < 0x1_0000_0000
    ensures IsCalmRun(ps, states, steps) && states[|states| - 1] == Both(who, f, 2, 0, Head(f.payload), [])
  {
    SendLayout(f);
    states, steps := OpcodeRun(ps, who, f);
    states, steps := SenderWrites(ps, states, steps, who, f, 1, 0, [2], []);
  }

  /** The Send writes opcode and length and then the other its opcode. */
  lemma TornRun(ps: set<bytes>, who: Who, f: Frame) returns (states: seq<State>, steps: seq<Step>, k: nat)
    requires f.payload in ps && !who.Sender? && f.opcode == OP_BINARY && 0 < |f.payload| < 0x1_0000_0000
    ensures IsCalmRun(ps, states, steps) && k < |steps| && Torn(states[k], steps[k])
    ensures states[|states| - 1] == Both(who, f, 2, 1, Head(f.payload) + [OwnFrame(who).opcode as byte], [])
  {
    OwnLayout(who);
    states, steps := HeadRun(ps, who, f);
    k := |steps|;
    OpcodeIsTorn(who, f, Head(f.payload));
    states, steps := OtherWrites(ps, states, steps, who, f, 2, 0, Head(f.payload), []);
  }

  lemma OpcodeIsTorn(who: Who, f: Frame, wire: bytes)
    requires !who.Sender? && f.payload != []
    ensures Torn(Both(who, f, 2, 0, wire, []), Write(who))
  {
    assert Open(Both(who, f, 2, 0, wire, []), Sender(0));
    OwnLayout(who);
  }

  /** Then both go on to their ends. */
  lemma OverlapRun(ps: set<bytes>, who: Who, payload: bytes) returns (states: seq<State>, steps: seq<Step>, k: nat)
    requires payload in ps && !who.Sender? && 0 < |payload| < 0x1_0000_0000
    ensures IsCalmRun(ps, states, steps) && k < |steps| && Torn(states[k], steps[k])
    ensures var log := [Frame(OP_BINARY, payload), OwnFrame(who)];
      states[|states| - 1] == Over(who, payload, Overlapped(who, payload), log)
  {
    var f, g, op := Frame(OP_BINARY, payload), OwnFrame(who), OwnFrame(who).opcode as byte;
    OwnLayout(who);
    SendLayout(f);
    states, steps, k := TornRun(ps, who, f);
    states, steps := SenderWrites(ps, states, steps, who, f, 2, 1, Head(payload) + [op], []);
    states, steps := OtherFinishes(ps, states, steps, who, f, 3, Head(payload) + [op] + payload, [f]);
    states, steps := BothReturn(ps, states, steps, who, payload, Overlapped(who, payload), [f, g]);
  }

  /**
   That payloads are telling is needed: when the other writer's opcode comes between length and payload of a Send and
   the rest of its frame after, a torn write does no harm exactly if the payload repeats that opcode and nothing else.
  */
  lemma TornIsHarmlessIff(who: Who, payload: bytes) returns (states: seq<State>, steps: seq<Step>, k: nat)
    requires !who.Sender? && 0 < |payload| < 0x1_0000_0000
    ensures IsCalmRun({payload}, states, steps) && states[|states| - 1].writers == map[]
    ensures k < |steps| && Torn(states[k], steps[k])
    ensures var s := states[|states| - 1];
      Decode(s.wire) == s.log <==> forall b | b in payload :: b == OwnFrame(who).opcode as byte
  {
    var f := Frame(OP_BINARY, payload);
    states, steps, k := OverlapRun({payload}, who, payload);
    if forall b | b in payload :: b == OwnFrame(who).opcode as byte {
      ConstantIsHarmless(who, f);
    }
    if Decode(Overlapped(who, payload)) == [f, OwnFrame(who)] {
      HarmlessIsConstant(who, f);
    }
  }

  lemma CalmIsQuiet(ps: set<bytes>, states: seq<State>, steps: seq<Step>)
    requires IsCalmRun(ps, states, steps) && states[|states| - 1].writers == map[]
    ensures IsQuietRun(states, steps) && forall step | step in steps && step.Lock? :: step.payload in ps
  {
    forall i | 0 <= i < |steps|
      ensures Runs.TakesStep(Next, states, steps, i) && !steps[i].Fail? && (steps[i].Lock? ==> steps[i].payload in ps)
    {
      assert Runs.TakesStep(CalmNext(ps), states, steps, i);
    }
  }

  ghost predicate SendsOnly(steps: seq<Step>, payload: bytes) {
    forall step | step in steps && step.Lock? :: step.payload == payload
  }

  /** Torn writes show in every run that sends a payload exactly if the payload is telling. */
  ghost predicate TornWritesShow(payload: bytes) {
    forall states: seq<State>, steps: seq<Step> | IsQuietRun(states, steps) && SendsOnly(steps, payload) ::
      PeerIsRight(states[|states| - 1]) <==> NeverTorn(states, steps)
  }

  lemma TellingIff(payload: bytes)
    requires |payload| < 0x1_0000_0000
    ensures TornWritesShow(payload) <==> Telling(payload)
  {
    if Telling(payload) {
      forall states: seq<State>, steps: seq<Step> | IsQuietRun(states, steps) && SendsOnly(steps, payload)
        ensures PeerIsRight(states[|states| - 1]) <==> NeverTorn(states, steps)
      {
        PeerIsRightIff(states, steps);
      }
    } else {
      var who := if IsAll(payload, OP_PING) then Heartbeat else Closer;
      var states, steps, k := TornIsHarmlessIff(who, payload);
      CalmIsQuiet({payload}, states, steps);
      assert SendsOnly(steps, payload);
      assert PeerIsRight(states[|states| - 1]) && Torn(states[k], steps[k]);
    }
  }

  // ----- back in step

  /** Thread 0 sends alone. */
  lemma SendRun(ps: set<bytes>, states: seq<State>, steps: seq<Step>, payload: bytes)
    returns (states': seq<State>, steps': seq<Step>)
    requires IsCalmRun(ps, states, steps) && payload in ps && |payload| < 0x1_0000_0000
    requires var s := states[|states| - 1];
      s.writers == map[] && s.holder == None && !s.down
    ensures IsCalmRun(ps, states', steps')
    ensures var s, f := states[|states| - 1], Frame(OP_BINARY, payload);
      states'[|states'| - 1] == s.(wire := s.wire + Encode(f), log := s.log + [f], acked := s.acked + [payload])
  {
    var s, f := states[|states| - 1], Frame(OP_BINARY, payload);
    var locked := s.(holder := Some(0), writers := map[Sender(0) := Writing(f, 0)]);
    states', steps' := Runs.Extend(INITIAL, CalmNext(ps), states, steps, Lock(0, payload), locked);
    states', steps' := WriteAlone(ps, states', steps', locked, f, 0);
    states', steps' := WriteAlone(ps, states', steps', locked, f, 1);
    states', steps' := WriteAlone(ps, states', steps', locked, f, 2);
    WholeIsEncoded(Writing(f, 3));
    states', steps' := Runs.Extend(INITIAL, CalmNext(ps), states', steps', Finish(Sender(0)),
      s.(wire := s.wire + Encode(f), log := s.log + [f], acked := s.acked + [payload]));
  }

  /** The state in which thread 0 alone has done i writes of f. */
  function Later(s: State, f: Frame, i: nat): State {
    var w := Writing(f, i);
    s.(writers := map[Sender(0) := w], wire := s.wire + w.Written(), log := s.log + if w.Whole() then [f] else [])
  }

  lemma WriteAlone(ps: set<bytes>, states: seq<State>, steps: seq<Step>, locked: State, f: Frame, i: nat)
    returns (states': seq<State>, steps': seq<Step>)
    requires IsCalmRun(ps, states, steps) && i < 3
    requires states[|states| - 1] == Later(locked, f, i) && !locked.down && f.opcode == OP_BINARY
    ensures IsCalmRun(ps, states', steps') && states'[|states'| - 1] == Later(locked, f, i + 1)
  {
    WritesAddUp(Writing(f, i));
    Reassociate(locked.wire, Writing(f, i).Written(), Writing(f, i).Next());
    states', steps' := Runs.Extend(INITIAL, CalmNext(ps), states, steps, Write(Sender(0)), Later(locked, f, i + 1));
  }

  /**
   The peer can come back into step: when a ping or close frame goes out inside a Send that is as much longer than it
   as its opcode says, the peer reads one frame nobody sent for the two, and then the next Send as it was sent.
  */
  lemma PeerComesBack(who: Who, payload: bytes, next: bytes) returns (states: seq<State>, steps: seq<Step>)
    requires !who.Sender? && |payload| == OwnFrame(who).opcode - 5 && |next| < 0x1_0000_0000
    ensures IsCalmRun({payload, next}, states, steps)
    ensures var s := states[|states| - 1];
      && s.writers == map[]
      && s.log == [OwnFrame(who), Frame(OP_BINARY, payload), Frame(OP_BINARY, next)]
      && Decode(s.wire) == [Frame(OP_BINARY, [0] + Put(|payload|, 4) + payload), Frame(OP_BINARY, next)]
  {
    var ps, f, g, op := {payload, next}, Frame(OP_BINARY, payload), OwnFrame(who), OwnFrame(who).opcode as byte;
    var wire, len := [2, op, 0, 0, 0, 0], Put(|payload|, 4);
    SendLayout(f);
    states, steps := IntrusionRun(ps, who, f);
    states, steps := SenderWrites(ps, states, steps, who, f, 1, 3, wire, [g]);
    states, steps := SenderWrites(ps, states, steps, who, f, 2, 3, wire + len, [g]);
    states, steps := BothReturn(ps, states, steps, who, payload, wire + len + payload, [g, f]);
    states, steps := SendRun(ps, states, steps, next);
    DecodesBogus(op, payload, next);
    assert [g, f] + [Frame(OP_BINARY, next)] == [g, f, Frame(OP_BINARY, next)];
  }

  lemma Regroup(h: bytes, z: bytes, l: bytes, p: bytes, e: bytes)
    ensures h + z + l + p + e == h + (z + l + p + e)
  {
  }

  lemma HeadOfLength(op: byte, payload: bytes)
    requires |payload| == op as int
    ensures Head(payload) + [0] == [2, op, 0, 0, 0, 0]
  {
    assert Put(0, 3) == [0, 0, 0];
    assert Put(op as nat, 4) == [op] + Put(0, 3);
  }

  lemma DecodesItself(f: Frame)
    requires f.FitsWire()
    ensures Decode(Encode(f)) == [f]
  {
    assert Encode(f) + [] == Encode(f) && Decode([]) == [];
    DecodeStep(f, []);
  }

  lemma DecodesTwo(payload: bytes, f: Frame)
    requires |payload| < 0x1_0000_0000 && f.FitsWire()
    ensures Decode(Head(payload) + (payload + Encode(f))) == [Frame(OP_BINARY, payload), f]
  {
    FirstPayload(payload, payload, Encode(f));
    DecodesItself(f);
  }

  lemma DecodesBogus(op: byte, payload: bytes, next: bytes)
    requires |payload| == op as int - 5 && |next| < 0x1_0000_0000
    ensures var f, bogus := Frame(OP_BINARY, next), [0] + Put(|payload|, 4) + payload;
      Decode([2, op, 0, 0, 0, 0] + Put(|payload|, 4) + payload + Encode(f)) == [Frame(OP_BINARY, bogus), f]
  {
    var f, bogus := Frame(OP_BINARY, next), [0] + Put(|payload|, 4) + payload;
    HeadOfLength(op, bogus);
    Regroup(Head(bogus), [0], Put(|payload|, 4), payload, Encode(f));
    DecodesTwo(bogus, f);
  }
}
