/**
 What it does to the peer of a TCP client's socket when a writer puts something out while another writer's
 frame is partly out (tcp/client.go, tcp/connection.go): the converse of TcpWriters.PeerDecodesWhatWasSent.
*/
module TornWrites {
  import opened Endian
  import opened TcpFrame
  import opened TcpWriters
  import Runs

  predicate IsAll(payload: bytes, opcode: int) {
    payload != [] && forall b | b in payload :: b as int == opcode
  }

  /** Not one opcode, a ping's or a close frame's, over and over: that could be shifted by itself without a trace. */
  predicate Telling(payload: bytes) {
    !IsAll(payload, OP_PING) && !IsAll(payload, OP_CLOSE)
  }

  predicate Tells(step: Step) {
    step.Lock? ==> Telling(step.payload)
  }

  predicate IsMark(b: byte) {
    b as int == OP_PING || b as int == OP_CLOSE
  }

  // ----- what the peer reads

  lemma DecodeOne(op: byte, rest: bytes)
    ensures var d := Decode([op] + rest);
      if |rest| < 4 || |rest[4..]| < Value(rest[..4]) then d == []
      else d == [Frame(op as int, rest[4..][..Value(rest[..4])])] + Decode(rest[4..][Value(rest[..4])..])
  {
    var b := [op] + rest;
    assert b[..1] == [op] && b[1..] == rest;
    assert Value([op]) == op as nat;
  }

  /** An opcode after an opcode is read as the low byte of the length. */
  lemma OpcodeAfterOpcode(code: byte, op: byte, tail: bytes)
    requires op != 0
    ensures var d := Decode([code] + [op] + tail);
      d != [] ==> d[0].opcode == code as int && d[0].payload != []
  {
    var rest := [op] + tail;
    assert [code] + [op] + tail == [code] + rest;
    DecodeOne(code, rest);
    if |rest| >= 4 {
      LowByteOfLength(rest);
    }
  }

  lemma LowByteOfLength(b: bytes)
    requires |b| >= 4
    ensures Value(b[..4]) % 256 == b[0] as nat
  {
    assert b[..4][0] == b[0];
  }

  /** Bytes before a length that leave it as it was are bytes of it. */
  lemma ShiftedLength(a: bytes, len: bytes, rest: bytes)
    requires |len| == 4 && |a| <= 2 && (a + len + rest)[..4] == len
    ensures (a + len + rest)[4..] == a + rest
  {
    var r := a + len + rest;
    assert forall k | 0 <= k < 4 :: r[..4][k] == r[k] == len[k];
    assert r[4..] == (a + len)[4..] + rest;
    if |a| == 1 {
      assert r[0] == a[0] && r[1] == len[0] && r[2] == len[1] && r[3] == len[2];
      assert (a + len)[4..] == [len[3]];
    } else if |a| == 2 {
      assert r[0] == a[0] && r[1] == a[1] && r[2] == len[0] && r[3] == len[1];
      assert (a + len)[4..] == [len[2], len[3]];
    }
  }

  /** A payload that marks before it leave as it was consists of marks, of that one mark if it was one. */
  lemma {:induction false} ShiftedPayload(c: bytes, p: bytes, tail: bytes, i: nat)
    requires c != [] && (forall x | x in c :: IsMark(x)) && p == (c + p + tail)[..|p|] && i < |p|
    ensures IsMark(p[i]) && (|c| == 1 ==> p[i] == c[0])
  {
    assert p[i] == (c + p + tail)[i];
    if i < |c| {
      assert p[i] == c[i] && c[i] in c;
    } else {
      assert p[i] == p[i - |c|];
      ShiftedPayload(c, p, tail, i - |c|);
    }
  }

  lemma OneMarkShowsIn(c: bytes, p: bytes, tail: bytes)
    requires |c| == 1 && IsMark(c[0]) && p != [] && Telling(p)
    ensures p != (c + p + tail)[..|p|]
  {
    if p == (c + p + tail)[..|p|] {
      forall b | b in p ensures b == c[0] {
        var i :| 0 <= i < |p| && p[i] == b;
        ShiftedPayload(c, p, tail, i);
      }
    }
  }

  /** What is left of two marks and the payload they come before, after as many bytes as the payload has. */
  lemma TwoMarksAreLeft(c: bytes, p: bytes, tail: bytes) returns (x: byte, y: byte)
    requires |c| == 2 && (forall x | x in c :: IsMark(x)) && p == (c + p + tail)[..|p|]
    ensures IsMark(x) && IsMark(y) && (c + p + tail)[|p|..] == [x] + [y] + tail
  {
    var s := c + p;
    forall i | 0 <= i < |s| ensures IsMark(s[i]) {
      if i >= 2 {
        ShiftedPayload(c, p, tail, i - 2);
      } else {
        assert c[i] in c;
      }
    }
    x, y := s[|p|], s[|p| + 1];
    assert (c + p + tail)[|p|..] == s[|p|..] + tail;
    assert s[|p|..] == [x] + [y];
  }

  /** The frames decoded are not f and then another frame that somebody sends. */
  predicate Strays(d: seq<Frame>, f: Frame) {
    d == [] || d[0] != f || |d| == 1 || (d[1].opcode in {OP_PING, OP_CLOSE} && d[1].payload != [])
  }

  /** The bytes of a Send with marks, the opcodes of other writers, before its length and before its payload. */
  function Marked(f: Frame, a: bytes, b: bytes): bytes {
    a + Put(|f.payload|, 4) + b + f.payload
  }

  lemma MarkedRest(f: Frame, a: bytes, b: bytes, tail: bytes)
    requires |a| <= 2 && |f.payload| < 0x1_0000_0000
    ensures var r := Marked(f, a, b) + tail;
      |r| >= 4 && (Value(r[..4]) == |f.payload| ==> r[4..] == a + b + f.payload + tail)
  {
    var r, len := Marked(f, a, b) + tail, Put(|f.payload|, 4);
    assert r == a + len + (b + f.payload + tail);
    if Value(r[..4]) == |f.payload| {
      PutOfValue(r[..4]);
      ShiftedLength(a, len, b + f.payload + tail);
    }
  }

  /** However they are spread, one or two marks in a telling Send make the peer stray. */
  lemma MarksLeadAstray(f: Frame, a: bytes, b: bytes, tail: bytes)
    requires f.opcode == OP_BINARY && |f.payload| < 0x1_0000_0000 && Telling(f.payload)
    requires 1 <= |a + b| <= 2 && (forall x | x in a + b :: IsMark(x)) && (f.payload == [] ==> a != [])
    ensures Strays(Decode([2] + (Marked(f, a, b) + tail)), f)
  {
    var r, c, p := Marked(f, a, b) + tail, a + b, f.payload;
    var d := Decode([2] + r);
    DecodeOne(2, r);
    MarkedRest(f, a, b, tail);
    if d != [] && d[0] == f {
      assert r[4..] == c + p + tail && p == (c + p + tail)[..|p|];
      LengthIsNotMarked(f, a, b, tail);
      if |c| == 1 {
        assert c[0] in c;
        OneMarkShowsIn(c, p, tail);
      } else {
        var x, y := TwoMarksAreLeft(c, p, tail);
        OpcodeAfterOpcode(x, y, tail);
        assert d == [f] + Decode([x] + [y] + tail);
      }
    }
  }

  lemma LengthIsNotMarked(f: Frame, a: bytes, b: bytes, tail: bytes)
    requires (forall x | x in a + b :: IsMark(x)) && (f.payload == [] ==> a != [])
    requires |Marked(f, a, b) + tail| >= 4 && Value((Marked(f, a, b) + tail)[..4]) == |f.payload|
    ensures f.payload != []
  {
    if a != [] {
      LowByteOfLength(Marked(f, a, b) + tail);
      assert (Marked(f, a, b) + tail)[0] == a[0] == (a + b)[0];
      assert (a + b)[0] in a + b;
    }
  }

  // ----- what every run keeps

  /** What is sent: Sends, pings and close frames, of which the last two have no payload. */
  predicate IsSent(f: Frame) {
    f.opcode == OP_BINARY || f == PING_FRAME || f == CLOSE_FRAME
  }

  ghost predicate SentInv(s: State) {
    forall f | f in s.log :: IsSent(f)
  }

  lemma {:induction false} SentRun(states: seq<State>, steps: seq<Step>, i: nat)
    requires IsRun(states, steps) && i < |states|
    ensures SentInv(states[i])
  {
    if i == 0 {
    } else {
      SentRun(states, steps, i - 1);
      WritersRun(states, steps, i - 1);
      assert Runs.TakesStep(Next, states, steps, i - 1);
      SentStep(states[i - 1], steps[i - 1], states[i]);
    }
  }

  lemma SentStep(s: State, step: Step, s': State)
    requires WritersInv(s) && SentInv(s) && Next(s, step, s')
    ensures SentInv(s')
  {
    if step.Write? {
      assert FrameOf(step.who, s.writers[step.who].frame);
    }
  }

  ghost predicate TellingInv(s: State) {
    forall t: nat | Sender(t) in s.writers :: Telling(s.writers[Sender(t)].frame.payload)
  }

  /** No write has failed, and what has been sent is telling. */
  ghost predicate IsCalm(steps: seq<Step>, i: nat)
    requires i <= |steps|
  {
    forall k | 0 <= k < i :: !steps[k].Fail? && Tells(steps[k])
  }

  lemma {:induction false} CalmRun(states: seq<State>, steps: seq<Step>, i: nat)
    requires IsRun(states, steps) && i < |states| && IsCalm(steps, i)
    ensures states[i].stuck == None && TellingInv(states[i])
  {
    if i == 0 {
    } else {
      CalmRun(states, steps, i - 1);
      assert Runs.TakesStep(Next, states, steps, i - 1) && Tells(steps[i - 1]);
      CalmStep(states[i - 1], steps[i - 1], states[i]);
    }
  }

  lemma CalmStep(s: State, step: Step, s': State)
    requires s.stuck == None && TellingInv(s) && Next(s, step, s') && !step.Fail? && Tells(step)
    ensures s'.stuck == None && TellingInv(s')
  {
  }

  lemma {:induction false} OnlyGrows(states: seq<State>, steps: seq<Step>, i: nat, j: nat)
    requires IsRun(states, steps) && i <= j < |states|
    ensures states[i].wire <= states[j].wire && states[i].log <= states[j].log
  {
    if i == j {
    } else {
      OnlyGrows(states, steps, i, j - 1);
      assert Runs.TakesStep(Next, states, steps, j - 1);
    }
  }

  // ----- from the torn write to the next completed frame

  lemma OpcodeByte(w: Writing) returns (op: byte)
    requires w.stage == 0 && 0 <= w.frame.opcode < 256
    ensures w.Next() == [op] && op as int == w.frame.opcode
  {
    op := w.frame.opcode as byte;
    SmallMod(w.frame.opcode, 256);
    assert Put(w.frame.opcode, 1) == [op] + Put(w.frame.opcode / 256, 0);
  }

  lemma OthersOpcode(s: State, who: Who, other: Who)
    requires WritersInv(s) && who in s.writers && other in s.writers && who != other
    ensures s.writers[who].frame.opcode in {OP_BINARY, OP_CLOSE, OP_PING}
    ensures s.writers[other].frame.opcode == OP_BINARY ==> s.writers[who].frame.opcode != OP_BINARY
  {
  }

  ghost predicate Marks(s: State, c: bytes) {
    && (forall x | x in c :: IsMark(x))
    && (OP_PING as byte in c ==> Open(s, Heartbeat)) && (OP_CLOSE as byte in c ==> Open(s, Closer))
    && (forall i, j | 0 <= i < j < |c| :: c[i] != c[j])
  }

  lemma AtMostTwo(s: State, c: bytes)
    requires Marks(s, c)
    ensures |c| <= 2
  {
    assert |c| > 2 ==> c[0] != c[1] && c[0] != c[2] && c[1] != c[2];
    forall i | 0 <= i < |c| ensures IsMark(c[i]) {
      assert c[i] in c;
    }
  }

  /** The bytes of a Send up to `stage`, with marks before and after its length. */
  function Inside(f: Frame, stage: nat, a: bytes, b: bytes): bytes {
    if stage <= 1 then [2] + a else [2] + a + Put(|f.payload|, 4) + b
  }

  /** Thread t is inside the frame f of its Send, and the marks a and b stand before and after its length. */
  ghost predicate Overlap(s: State, base: bytes, t: nat, f: Frame, a: bytes, b: bytes) {
    && Open(s, Sender(t)) && s.writers[Sender(t)].frame == f && s.writers[Sender(t)].stage <= 2
    && (s.writers[Sender(t)].stage == 1 ==> b == [])
    && Marks(s, a + b)
    && s.wire == base + Inside(f, s.writers[Sender(t)].stage, a, b)
  }

  lemma SenderGoesOn(s: State, s': State, base: bytes, t: nat, f: Frame, a: bytes, b: bytes)
    requires WritersInv(s) && Next(s, Write(Sender(t)), s') && s'.log == s.log
    requires Overlap(s, base, t, f, a, b)
    ensures Overlap(s', base, t, f, a, b)
  {
    PowConstants();
    var w := s.writers[Sender(t)];
    assert w.stage == 1 && !w.(stage := 2).Whole();
    SmallMod(|f.payload|, Pow256(4));
    assert w.Next() == Put(|f.payload|, 4);
    assert base + ([2] + a) + w.Next() == base + ([2] + a + w.Next() + []);
  }

  lemma MarkIsAdded(s: State, who: Who, s': State, base: bytes, t: nat, f: Frame, a: bytes, b: bytes)
    returns (a': bytes, b': bytes)
    requires WritersInv(s) && Next(s, Write(who), s') && !who.Sender? && s.writers[who].stage == 0
    requires Overlap(s, base, t, f, a, b)
    ensures Overlap(s', base, t, f, a', b') && |a' + b'| == |a + b| + 1
  {
    var op := OpcodeByte(s.writers[who]);
    assert !Open(s, who) && IsMark(op) && op !in a + b;
    if s.writers[Sender(t)].stage == 1 {
      a', b' := a + [op], [];
      assert a' + b' == a + b + [op];
      assert base + ([2] + a) + [op] == base + ([2] + a');
    } else {
      a', b' := a, b + [op];
      assert a' + b' == a + b + [op];
      var head := [2] + a + Put(|f.payload|, 4);
      assert base + (head + b) + [op] == base + (head + b');
    }
    MoreMarks(s, s', a + b, op, who);
  }

  lemma MoreMarks(s: State, s': State, c: bytes, op: byte, who: Who)
    requires Marks(s, c) && op !in c && Open(s', who) && IsMark(op)
    requires who == if op as int == OP_PING then Heartbeat else Closer
    requires forall other | Open(s, other) :: Open(s', other)
    ensures Marks(s', c + [op])
  {
  }

  /** A step that completes no frame leaves the overlap, with perhaps one more mark in it. */
  lemma OverlapStep(s: State, step: Step, s': State, base: bytes, t: nat, f: Frame, a: bytes, b: bytes)
    returns (a': bytes, b': bytes)
    requires WritersInv(s) && Next(s, step, s') && !step.Fail? && s'.log == s.log
    requires Overlap(s, base, t, f, a, b)
    ensures Overlap(s', base, t, f, a', b') && |a' + b'| >= |a + b|
  {
    a', b' := a, b;
    if step == Write(Sender(t)) {
      SenderGoesOn(s, s', base, t, f, a, b);
    } else if step.Write? && s.writers[step.who].stage == 0 {
      a', b' := MarkIsAdded(s, step.who, s', base, t, f, a, b);
    } else if step.Write? {
      NothingIsOut(s, step.who, s');
    }
  }

  /** A ping or close frame is out as soon as its length is. */
  lemma NothingIsOut(s: State, who: Who, s': State)
    requires WritersInv(s) && Next(s, Write(who), s') && s'.log == s.log && !who.Sender? && s.writers[who].stage > 0
    ensures s'.wire == s.wire && (forall other :: Open(s', other) <==> Open(s, other))
    ensures forall other | other in s.writers && other != who :: s'.writers[other] == s.writers[other]
  {
    assert s.writers[who].Whole();
    assert s.wire + [] == s.wire;
  }

  // ----- from the first torn write to the end

  lemma FirstWriteOpens(s: State, who: Who, s': State, open: Who)
    requires Next(s, Write(who), s') && s.writers[who].stage == 0 && Open(s, open) && open != who
    ensures s'.log == s.log && Open(s', open) && Open(s', who)
    ensures s'.wire == s.wire + s.writers[who].Next()
  {
    assert s.log + [] == s.log;
  }

  /** A torn write puts an opcode into the one frame that is partly out. */
  lemma TornIsOpcode(s: State, who: Who, s': State) returns (open: Who, op: byte)
    requires WritersInv(s) && WireInv(s) && s.stuck == None && Next(s, Write(who), s') && Torn(s, Write(who))
    ensures Open(s, open) && open != who && s.writers[who].stage == 0
    ensures op as int == s.writers[who].frame.opcode && op as int in {OP_BINARY, OP_CLOSE, OP_PING}
    ensures s.writers[open].frame.opcode == OP_BINARY ==> op as int != OP_BINARY
    ensures s'.wire == EncodeAll(s.log) + s.writers[open].Written() + [op]
    ensures s'.log == s.log && Open(s', open) && Open(s', who)
    ensures forall other | Open(s, other) :: other == open
  {
    open :| open in s.writers && open != who && Open(s, open);
    assert !Open(s, who);
    assert s.writers[who].stage == 0;
    op := OpcodeByte(s.writers[who]);
    OthersOpcode(s, who, open);
    FirstWriteOpens(s, who, s', open);
    WireUpTo(s, open);
  }

  lemma WireUpTo(s: State, open: Who)
    requires WireInv(s) && Open(s, open)
    ensures s.wire == EncodeAll(s.log) + s.writers[open].Written()
  {
    assert s.wire == EncodeAll(s.log) + s.wire[|EncodeAll(s.log)|..];
  }

  lemma FirstMark(w: Writing, op: byte) returns (a: bytes, b: bytes)
    requires w.PartlyOut() && w.stage <= 2 && w.frame.opcode == OP_BINARY && w.frame.FitsWire()
    ensures w.Written() + [op] == Inside(w.frame, w.stage, a, b)
    ensures a + b == [op] && (w.stage == 1 ==> b == [])
  {
    PowConstants();
    assert Put(2, 1) == [2];
    SmallMod(|w.frame.payload|, Pow256(4));
    a, b := if w.stage == 1 then [op] else [], if w.stage == 1 then [] else [op];
    assert [2] + [] + Put(|w.frame.payload|, 4) == [2] + Put(|w.frame.payload|, 4);
  }

  /** A torn write into a Send is the first mark in it. */
  lemma OverlapBegins(s: State, who: Who, s': State, t: nat) returns (a: bytes, b: bytes)
    requires WritersInv(s) && WireInv(s) && s.stuck == None && Next(s, Write(who), s') && Torn(s, Write(who))
    requires Open(s, Sender(t))
    ensures Overlap(s', EncodeAll(s.log), t, s.writers[Sender(t)].frame, a, b) && a + b != []
  {
    var open, op := TornIsOpcode(s, who, s');
    var w := s.writers[Sender(t)];
    assert open == Sender(t);
    a, b := FirstMark(w, op);
    Reassociate(EncodeAll(s.log), w.Written(), [op]);
    IntruderIsMarked(s, who, s', op);
  }

  lemma IntruderIsMarked(s: State, who: Who, s': State, op: byte)
    requires WritersInv(s) && who in s.writers && !who.Sender? && op as int == s.writers[who].frame.opcode
    requires Open(s', who)
    ensures Marks(s', [op])
  {
    assert FrameOf(who, s.writers[who].frame);
  }

  /** While no frame is completed, the overlap stays. */
  lemma {:induction false} OverlapLasts(
    states: seq<State>, steps: seq<Step>, i: nat, j: nat, base: bytes, t: nat, f: Frame, a: bytes, b: bytes)
    returns (a': bytes, b': bytes)
    requires IsRun(states, steps) && i <= j < |states| && forall k | i <= k < j :: !steps[k].Fail?
    requires Overlap(states[i], base, t, f, a, b) && states[j].log == states[i].log
    ensures Overlap(states[j], base, t, f, a', b') && |a' + b'| >= |a + b|
  {
    if i == j {
      a', b' := a, b;
    } else {
      OnlyGrows(states, steps, i, j - 1);
      OnlyGrows(states, steps, j - 1, j);
      a', b' := OverlapLasts(states, steps, i, j - 1, base, t, f, a, b);
      WritersRun(states, steps, j - 1);
      assert Runs.TakesStep(Next, states, steps, j - 1);
      a', b' := OverlapStep(states[j - 1], steps[j - 1], states[j], base, t, f, a', b');
    }
  }

  /** The step that completes the next frame: the Send goes out with its marks, or another frame comes first. */
  lemma OverlapEnds(s: State, step: Step, s': State, base: bytes, t: nat, f: Frame, a: bytes, b: bytes)
    returns (g: Frame)
    requires WritersInv(s) && Next(s, step, s') && !step.Fail? && s'.log != s.log && Overlap(s, base, t, f, a, b)
    ensures s'.log == s.log + [g] && base + [2] <= s'.wire
    ensures g.opcode == OP_BINARY ==> g == f && s'.wire == base + ([2] + Marked(f, a, b))
    ensures g.opcode == OP_BINARY && f.payload == [] ==> b == []
    ensures g.opcode in {OP_BINARY, OP_PING, OP_CLOSE}
  {
    var w := s.writers[step.who];
    g := w.frame;
    assert step.Write? && Logged(w) == [g] && FrameOf(step.who, g);
    assert base + [2] <= s.wire;
    if step.who.Sender? {
      assert step.who == Sender(t) && g == f;
      LastPart(w, base, a, b);
    }
  }

  lemma LastPart(w: Writing, base: bytes, a: bytes, b: bytes)
    requires Logged(w) == [w.frame] && w.frame.opcode == OP_BINARY && w.frame.FitsWire() && w.PartlyOut()
    requires w.stage == 1 ==> b == []
    ensures base + Inside(w.frame, w.stage, a, b) + w.Next() == base + ([2] + Marked(w.frame, a, b))
    ensures w.frame.payload == [] ==> b == []
  {
    PowConstants();
    SmallMod(|w.frame.payload|, Pow256(4));
    var len, p := Put(|w.frame.payload|, 4), w.frame.payload;
    if w.stage == 1 {
      assert [2] + a + len == [2] + (a + len + [] + []);
    } else {
      assert [2] + a + len + b + p == [2] + (a + len + b + p);
    }
  }

  // ----- the converse

  /** The step that completes the next frame. */
  lemma {:induction false} NextLogged(states: seq<State>, steps: seq<Step>, i: nat, j: nat) returns (m: nat)
    requires IsRun(states, steps) && i <= j < |states| && states[j].log != states[i].log
    ensures i <= m < j && states[m].log == states[i].log && states[m + 1].log != states[i].log
  {
    if states[j - 1].log == states[i].log {
      m := j - 1;
    } else {
      m := NextLogged(states, steps, i, j - 1);
    }
  }

  lemma StraysIsNotLog(log: seq<Frame>, before: seq<Frame>, d: seq<Frame>, f: Frame)
    requires |log| >= |before| + 2 && log[|before|] == f && forall g | g in log :: IsSent(g)
    requires Strays(d, f)
    ensures before + d != log
  {
    assert log[|before| + 1] in log;
    assert d != [] ==> (before + d)[|before|] == d[0];
    assert |d| > 1 ==> (before + d)[|before| + 1] == d[1];
  }

  lemma OtherIsNotLog(log: seq<Frame>, before: seq<Frame>, d: seq<Frame>)
    requires |log| > |before| && (d != [] ==> d[0] != log[|before|])
    ensures before + d != log
  {
    assert d != [] ==> (before + d)[|before|] == d[0];
  }

  lemma DecodeAfter(before: seq<Frame>, head: bytes, tail: bytes)
    requires AllFit(before)
    ensures Decode(EncodeAll(before) + head + tail) == before + Decode(head + tail)
  {
    Reassociate(EncodeAll(before), head, tail);
    DecodeStream(before, head + tail);
  }

  /** A Send with marks in it is out, and more has been written since. */
  lemma MarkedSendMisleads(s: State, before: seq<Frame>, f: Frame, a: bytes, b: bytes, tail: bytes)
    requires AllFit(before) && SentInv(s) && |s.log| >= |before| + 2 && s.log[|before|] == f
    requires s.wire == EncodeAll(before) + ([2] + Marked(f, a, b)) + tail
    requires f.opcode == OP_BINARY && |f.payload| < 0x1_0000_0000 && Telling(f.payload)
    requires 1 <= |a + b| <= 2 && (forall x | x in a + b :: IsMark(x)) && (f.payload == [] ==> a != [])
    ensures Decode(s.wire) != s.log
  {
    var m := Marked(f, a, b);
    DecodeAfter(before, [2] + m, tail);
    Reassociate([2], m, tail);
    MarksLeadAstray(f, a, b, tail);
    StraysIsNotLog(s.log, before, Decode([2] + (m + tail)), f);
  }

  /** A frame of another kind has been completed where the peer reads a Send. */
  lemma OtherFrameMisleads(s: State, before: seq<Frame>, op: byte, tail: bytes)
    requires AllFit(before) && |s.log| > |before| && s.log[|before|].opcode != op as int
    requires s.wire == EncodeAll(before) + [op] + tail
    ensures Decode(s.wire) != s.log
  {
    DecodeAfter(before, [op], tail);
    DecodeOne(op, tail);
    OtherIsNotLog(s.log, before, Decode([op] + tail));
  }

  /** Inside a ping or close frame the torn write turns that frame's length into a number above zero. */
  lemma TornControlMisleads(s: State, before: seq<Frame>, code: byte, op: byte, tail: bytes)
    requires AllFit(before) && SentInv(s) && |s.log| > |before|
    requires IsMark(code) && op != 0 && s.wire == EncodeAll(before) + ([code] + [op]) + tail
    ensures Decode(s.wire) != s.log
  {
    DecodeAfter(before, [code] + [op], tail);
    OpcodeAfterOpcode(code, op, tail);
    assert s.log[|before|] in s.log;
    OtherIsNotLog(s.log, before, Decode([code] + [op] + tail));
  }

  /** The first torn write of a run without errors. */
  ghost predicate IsFirstTorn(states: seq<State>, steps: seq<Step>, i: nat) {
    && IsRun(states, steps) && i < |steps| && IsCalm(steps, i + 1)
    && Torn(states[i], steps[i]) && forall k | 0 <= k < i :: !Torn(states[k], steps[k])
  }

  lemma AtFirstTorn(states: seq<State>, steps: seq<Step>, i: nat)
    requires IsFirstTorn(states, steps, i)
    ensures WritersInv(states[i]) && WireInv(states[i]) && states[i].stuck == None && TellingInv(states[i])
    ensures steps[i].Write? && Next(states[i], Write(steps[i].who), states[i + 1])
  {
    WritersRun(states, steps, i);
    WireRun(states, steps, i);
    CalmRun(states, steps, i);
    assert Runs.TakesStep(Next, states, steps, i) && !steps[i].Fail?;
  }

  /** Into a Send: how the next frame is completed. */
  lemma TornSendEnds(states: seq<State>, steps: seq<Step>, i: nat, j: nat, t: nat)
    returns (m: nat, f: Frame, a: bytes, b: bytes, g: Frame)
    requires IsFirstTorn(states, steps, i) && i < j < |states| && IsCalm(steps, j)
    requires Open(states[i], Sender(t)) && states[j].log != states[i].log
    ensures f.opcode == OP_BINARY && |f.payload| < 0x1_0000_0000 && Telling(f.payload)
    ensures 1 <= |a + b| <= 2 && (forall x | x in a + b :: IsMark(x))
    ensures i < m < j && states[m + 1].log == states[i].log + [g]
    ensures EncodeAll(states[i].log) + [2] <= states[m + 1].wire
    ensures g.opcode == OP_BINARY ==>
      g == f && states[m + 1].wire == EncodeAll(states[i].log) + ([2] + Marked(f, a, b))
    ensures g.opcode == OP_BINARY && f.payload == [] ==> b == []
  {
    var base := EncodeAll(states[i].log);
    f := states[i].writers[Sender(t)].frame;
    AtFirstTorn(states, steps, i);
    assert FrameOf(Sender(t), f);
    var _, _ := TornIsOpcode(states[i], steps[i].who, states[i + 1]);
    a, b := OverlapBegins(states[i], steps[i].who, states[i + 1], t);
    m := NextLogged(states, steps, i + 1, j);
    a, b := OverlapLasts(states, steps, i + 1, m, base, t, f, a, b);
    AtMostTwo(states[m], a + b);
    WritersRun(states, steps, m);
    assert Runs.TakesStep(Next, states, steps, m) && !steps[m].Fail?;
    g := OverlapEnds(states[m], steps[m], states[m + 1], base, t, f, a, b);
  }

  lemma TornSendMisleads(states: seq<State>, steps: seq<Step>, i: nat, j: nat, t: nat)
    requires IsFirstTorn(states, steps, i) && i < j < |states| && IsCalm(steps, j)
    requires Open(states[i], Sender(t)) && |states[j].log| >= |states[i].log| + 2
    ensures Decode(states[j].wire) != states[j].log
  {
    var before := states[i].log;
    var base := EncodeAll(before);
    AtFirstTorn(states, steps, i);
    var m, f, a, b, g := TornSendEnds(states, steps, i, j, t);
    OnlyGrows(states, steps, m + 1, j);
    SentRun(states, steps, j);
    assert states[j].log[|before|] == states[m + 1].log[|before|] == g;
    if g.opcode == OP_BINARY {
      MarkedSendMisleads(states[j], before, f, a, b, states[j].wire[|states[m + 1].wire|..]);
    } else {
      OtherFrameMisleads(states[j], before, 2, states[j].wire[|base + [2]|..]);
    }
  }

  /** Into a ping or a close frame. */
  lemma TornOwnFrameMisleads(states: seq<State>, steps: seq<Step>, i: nat, j: nat, open: Who)
    requires IsFirstTorn(states, steps, i) && i < j < |states|
    requires !open.Sender? && Open(states[i], open) && |states[j].log| > |states[i].log|
    ensures Decode(states[j].wire) != states[j].log
  {
    AtFirstTorn(states, steps, i);
    var w := states[i].writers[open];
    var _, op := TornIsOpcode(states[i], steps[i].who, states[i + 1]);
    assert FrameOf(open, w.frame) && w.stage == 1;
    var code := OpcodeByte(w.(stage := 0));
    Reassociate(EncodeAll(states[i].log), [code], [op]);
    OwnFrameTorn(states, steps, i, j, code, op);
  }

  lemma OwnFrameTorn(states: seq<State>, steps: seq<Step>, i: nat, j: nat, code: byte, op: byte)
    requires IsRun(states, steps) && i < j < |states| && AllFit(states[i].log) && IsMark(code) && op != 0
    requires states[i + 1].wire == EncodeAll(states[i].log) + ([code] + [op]) && |states[j].log| > |states[i].log|
    ensures Decode(states[j].wire) != states[j].log
  {
    OnlyGrows(states, steps, i + 1, j);
    SentRun(states, steps, j);
    TornControlMisleads(states[j], states[i].log, code, op, states[j].wire[|states[i + 1].wire|..]);
  }

  /**
   Once a write has been torn, the peer is wrong as soon as two more frames have been completed: what it has decoded
   is not what was sent.
  */
  lemma TornWriteMisleads(states: seq<State>, steps: seq<Step>, i: nat, j: nat)
    requires IsFirstTorn(states, steps, i) && i < j < |states| && IsCalm(steps, j)
    requires |states[j].log| >= |states[i].log| + 2
    ensures Decode(states[j].wire) != states[j].log
  {
    AtFirstTorn(states, steps, i);
    var open, _ := TornIsOpcode(states[i], steps[i].who, states[i + 1]);
    match open
    case Sender(t) => TornSendMisleads(states, steps, i, j, t);
    case _ => TornOwnFrameMisleads(states, steps, i, j, open);
  }

  function OpenCount(s: State, who: Who): nat {
    if Open(s, who) then 1 else 0
  }

  /** Two frames that are partly out stay so until their last bytes are out. */
  lemma {:induction false} OpenUntilLogged(
    states: seq<State>, steps: seq<Step>, i: nat, j: nat, one: Who, two: Who)
    requires IsRun(states, steps) && i <= j < |states| && (forall k | i <= k < j :: !steps[k].Fail?) && one != two
    requires Open(states[i], one) && Open(states[i], two)
    ensures |states[j].log| + OpenCount(states[j], one) + OpenCount(states[j], two) >= |states[i].log| + 2
  {
    if i == j {
    } else {
      OpenUntilLogged(states, steps, i, j - 1, one, two);
      WritersRun(states, steps, j - 1);
      assert Runs.TakesStep(Next, states, steps, j - 1);
      OpenStep(states[j - 1], steps[j - 1], states[j], one, two);
    }
  }

  lemma OpenStep(s: State, step: Step, s': State, one: Who, two: Who)
    requires WritersInv(s) && Next(s, step, s') && !step.Fail? && one != two
    ensures |s'.log| + OpenCount(s', one) + OpenCount(s', two) >= |s.log| + OpenCount(s, one) + OpenCount(s, two)
  {
  }

  /** No write fails, and in the end nothing is under way. */
  ghost predicate IsQuietRun(states: seq<State>, steps: seq<Step>) {
    IsRun(states, steps) && (forall step | step in steps :: !step.Fail?) && states[|states| - 1].writers == map[]
  }

  /** The peer has decoded exactly the frames sent. */
  predicate PeerIsRight(s: State) {
    Decode(s.wire) == s.log
  }

  ghost predicate NeverTorn(states: seq<State>, steps: seq<Step>)
    requires |states| == |steps| + 1
  {
    forall i | 0 <= i < |steps| :: !Torn(states[i], steps[i])
  }

  lemma BothAreOpen(states: seq<State>, steps: seq<Step>, i: nat) returns (one: Who, two: Who)
    requires IsFirstTorn(states, steps, i)
    ensures one != two && Open(states[i + 1], one) && Open(states[i + 1], two)
    ensures states[i + 1].log == states[i].log
  {
    AtFirstTorn(states, steps, i);
    two := steps[i].who;
    var open, _ := TornIsOpcode(states[i], two, states[i + 1]);
    one := open;
  }

  /** In the end the frames of a torn write are both out. */
  lemma TornRunIsWrong(states: seq<State>, steps: seq<Step>, i: nat)
    requires IsFirstTorn(states, steps, i) && IsCalm(steps, |steps|) && states[|steps|].writers == map[]
    ensures !PeerIsRight(states[|steps|])
  {
    var one, two := BothAreOpen(states, steps, i);
    OpenUntilLogged(states, steps, i + 1, |steps|, one, two);
    TornWriteMisleads(states, steps, i, |steps|);
  }

  /** When nothing is under way and no write has failed, the peer is right if and only if no write was torn. */
  lemma PeerIsRightIff(states: seq<State>, steps: seq<Step>)
    requires IsQuietRun(states, steps) && forall step | step in steps :: Tells(step)
    ensures PeerIsRight(states[|states| - 1]) <==> NeverTorn(states, steps)
  {
    if NeverTorn(states, steps) {
      PeerDecodesWhatWasSent(states, steps, |steps|);
    } else {
      var i := FirstTorn(states, steps, |steps|);
      TornRunIsWrong(states, steps, i);
    }
  }

  lemma {:induction false} FirstTorn(states: seq<State>, steps: seq<Step>, n: nat) returns (i: nat)
    requires |states| == |steps| + 1 && n <= |steps| && exists k :: 0 <= k < n && Torn(states[k], steps[k])
    ensures i < n && Torn(states[i], steps[i]) && forall k | 0 <= k < i :: !Torn(states[k], steps[k])
  {
    if exists k :: 0 <= k < n - 1 && Torn(states[k], steps[k]) {
      i := FirstTorn(states, steps, n - 1);
    } else {
      i := n - 1;
    }
  }
}
