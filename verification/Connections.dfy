/**
 A server's connections (tcp/server.go, websocket/server.go, core/channel_manager.go): the life of one
 as its goroutine runs it, and any number of them interleaved.
*/
module Connections {
  import opened Endian
  import opened TcpFrame
  import Channels
  import Runs

  /** What Server.Push can come to; the TCP server asks a nil channel for its id when there is none. */
  datatype PushResult = Written | WriteFailed | NotFound | Panics

  /** What Acceptor.Accept came back with. */
  datatype Handshake = Failed(error: bytes) | As(id: bytes)

  function Ascii(s: string): (b: bytes)
    ensures |b| == |s| && forall i | 0 <= i < |s| && s[i] < '\U{80}' :: b[i] as int == s[i] as int
  {
    seq(|s|, i requires 0 <= i < |s| => if s[i] < '\U{80}' then s[i] as int as byte else 63)
  }

  class ChannelManager {
    var channels: map<bytes, Channels.Channel>

    constructor ()
      ensures channels == map[]
    {
      channels := map[];
    }

    method Add(id: bytes, ch: Channels.Channel)
      modifies this
      ensures channels == old(channels)[id := ch]
    {
      channels := channels[id := ch];
    }

    method Remove(id: bytes)
      modifies this
      ensures channels == old(channels) - {id}
    {
      channels := channels - {id};
    }

    method Get(id: bytes) returns (r: Option<Channels.Channel>)
      ensures r == if id in channels then Some(channels[id]) else None
    {
      r := if id in channels then Some(channels[id]) else None;
    }

    /** Every registered channel once per id. */
    method All() returns (arr: seq<Channels.Channel>)
      ensures |arr| == |channels| && forall id | id in channels :: channels[id] in arr
      ensures forall ch | ch in arr :: exists id :: id in channels && channels[id] == ch
    {
      arr := [];
      var todo := channels.Keys;
      while todo != {}
        invariant todo <= channels.Keys && |arr| + |todo| == |channels.Keys|
        invariant forall id | id in channels && id !in todo :: channels[id] in arr
        invariant forall ch | ch in arr :: exists id :: id in channels && channels[id] == ch
        decreases |todo|
      {
        var id :| id in todo;
        todo := todo - {id};
        arr := arr + [channels[id]];
      }
    }
  }

  class Server {
    const manager: ChannelManager
    const websocket: bool
    var disconnects: seq<bytes>

    constructor (websocket: bool)
      ensures fresh(manager) && manager.channels == map[] && disconnects == [] && this.websocket == websocket
    {
      this.websocket := websocket;
      manager := new ChannelManager();
      disconnects := [];
    }

    method Push(id: bytes, payload: bytes) returns (r: PushResult)
      modifies set ch | ch in manager.channels.Values :: ch.out
      ensures id !in manager.channels <==> r == NotFound || r == Panics
      ensures id !in manager.channels ==> r == if websocket then NotFound else Panics
      ensures id in manager.channels && manager.channels[id].out.reliable ==> r == Written
      ensures r == Written && payload != [] ==>
        manager.channels[id].out.out == old(manager.channels[id].out.out) + Encode(Frame(OP_BINARY, payload))
      ensures id in manager.channels ==>
        old(manager.channels[id].out.out) <= manager.channels[id].out.out <=
        old(manager.channels[id].out.out) + Encode(Frame(OP_BINARY, payload))
      ensures forall ch | ch in manager.channels.Values
        && (id !in manager.channels || payload == [] || ch.out != manager.channels[id].out) ::
        ch.out.out == old(ch.out.out)
    {
      var channel := manager.Get(id);
      if channel.None? {
        return if websocket then NotFound else Panics;
      }
      assert manager.channels[id] in manager.channels.Values;
      var ok := channel.value.Push(payload);
      r := if ok then Written else WriteFailed;
    }

    /** What a connection is told when its id is taken. */
    function DuplicateNotice(): bytes {
      if websocket then Ascii("channelId is repeated") else Ascii("channel id is connected")
    }

    /**
     One connection from handshake to end, with nothing else going on: what Acceptor.Accept came back with
     decides; an admitted connection is registered while it is read and reported once when it ends.
    */
    method Handle(accepted: Handshake, conn: Stream, out: Writer)
      returns (admitted: bool, received: seq<bytes>, ghost during: set<bytes>, ghost pongs: seq<bytes>)
      modifies this, manager, conn, out
      ensures admitted <==> accepted.As? && accepted.id !in old(manager.channels)
      ensures during == old(manager.channels.Keys) + if admitted then {accepted.id} else {}
      ensures manager.channels == old(manager.channels)
      ensures disconnects == old(disconnects) + if admitted then [accepted.id] else []
      ensures !admitted && out.reliable ==>
        var reason :=
          if accepted.Failed? then accepted.error
          else Ascii(if websocket then "channelId is repeated" else "channel id is connected");
        out.out == old(out.out) + Encode(Frame(OP_CLOSE, reason))
      ensures admitted ==>
        && out.out == old(out.out) + Flatten(pongs) && Channels.ArePongs(pongs, out.reliable)
        && |pongs| == Channels.Pings(Channels.BeforeClose(Decode(old(conn.Rest()))))
      ensures received == if admitted then Channels.Messages(Channels.BeforeClose(Decode(old(conn.Rest())))) else []
    {
      received, during, pongs := [], manager.channels.Keys, [];
      if accepted.Failed? {
        var _ := WriteFrame(out, OP_CLOSE, accepted.error);
        assert disconnects + [] == disconnects;
        return false, received, during, pongs;
      }
      var id := accepted.id;
      var present := manager.Get(id);
      if present.Some? {
        var _ := WriteFrame(out, OP_CLOSE, DuplicateNotice());
        assert disconnects + [] == disconnects;
        return false, received, during, pongs;
      }
      var channel := new Channels.Channel(conn, out);
      manager.Add(id, channel);
      var _, parts := channel.Readloop();
      pongs := parts;
      during := manager.channels.Keys;
      received := channel.received;
      manager.Remove(id);
      assert manager.channels == old(manager.channels);
      disconnects := disconnects + [id];
      channel.Close();
      admitted := true;
    }
  }

  // ----- any number of connections at once

  type ConnId = nat

  /** Where a connection's goroutine is: Checked before Add, Reading until Remove, Ended before Disconnect. */
  datatype Pc = Accepting | Rejected | Checked | Reading | Ended | Reported | Closed

  datatype Conn = Conn(id: bytes, pc: Pc)

  datatype State = State(registry: map<bytes, ConnId>, conns: map<ConnId, Conn>, disconnects: seq<ConnId>)

  datatype Step =
    | Arrive(c: ConnId)
    | AcceptFails(c: ConnId)
    | Check(c: ConnId, id: bytes)  // Accept came back with id
    | Add(c: ConnId)
    | Remove(c: ConnId)            // Readloop has returned, always with an error
    | Disconnect(c: ConnId)
    | Close(c: ConnId)

  predicate ConnAt(s: State, c: ConnId, pc: Pc) {
    c in s.conns && s.conns[c].pc == pc
  }

  predicate Enabled(s: State, step: Step) {
    match step
    case Arrive(c) => c !in s.conns
    case AcceptFails(c) => ConnAt(s, c, Accepting)
    case Check(c, _) => ConnAt(s, c, Accepting)
    case Add(c) => ConnAt(s, c, Checked)
    case Remove(c) => ConnAt(s, c, Reading)
    case Disconnect(c) => ConnAt(s, c, Ended)
    case Close(c) => ConnAt(s, c, Reported)
  }

  function To(s: State, c: ConnId, pc: Pc): State
    requires c in s.conns
  {
    s.(conns := s.conns[c := s.conns[c].(pc := pc)])
  }

  function Apply(s: State, step: Step): State
    requires Enabled(s, step)
  {
    match step
    case Arrive(c) => s.(conns := s.conns[c := Conn([], Accepting)])
    case AcceptFails(c) => To(s, c, Rejected)
    case Check(c, id) => s.(conns := s.conns[c := Conn(id, if id in s.registry then Rejected else Checked)])
    case Add(c) => To(s, c, Reading).(registry := s.registry[s.conns[c].id := c])
    case Remove(c) => To(s, c, Ended).(registry := s.registry - {s.conns[c].id})
    case Disconnect(c) => To(s, c, Reported).(disconnects := s.disconnects + [c])
    case Close(c) => To(s, c, Closed)
  }

  const INITIAL := State(map[], map[], [])

  ghost predicate Next(s: State, step: Step, s': State) {
    Enabled(s, step) && s' == Apply(s, step)
  }

  ghost predicate IsRun(states: seq<State>, steps: seq<Step>) {
    Runs.IsRun(INITIAL, Next, states, steps)
  }

  /** Get(id) finds c exactly when c's goroutine is between its Add and its Remove. */
  ghost predicate Faithful(s: State) {
    forall c, id :: (id in s.registry && s.registry[id] == c) <==> (ConnAt(s, c, Reading) && s.conns[c].id == id)
  }

  /** No connection is added under an id that is registered at that moment. */
  ghost predicate AddsAreFree(states: seq<State>, steps: seq<Step>)
    requires IsRun(states, steps)
  {
    forall i | 0 <= i < |steps| ::
      steps[i].Add? && steps[i].c in states[i].conns ==> states[i].conns[steps[i].c].id !in states[i].registry
  }

  lemma FaithfulStep(s: State, step: Step)
    requires Faithful(s) && Enabled(s, step)
    requires step.Add? ==> s.conns[step.c].id !in s.registry
    ensures Faithful(Apply(s, step))
  {
    var s' := Apply(s, step);
    forall c, id ensures (id in s'.registry && s'.registry[id] == c) <==>
      (ConnAt(s', c, Reading) && s'.conns[c].id == id) {
      assert (id in s.registry && s.registry[id] == c) <==> (ConnAt(s, c, Reading) && s.conns[c].id == id);
      if step.Remove? {
        assert ConnAt(s, step.c, Reading) ==> s.registry[s.conns[step.c].id] == step.c;
      }
    }
  }

  lemma {:induction false} FreeAddsStayFaithful(states: seq<State>, steps: seq<Step>, i: nat)
    requires IsRun(states, steps) && AddsAreFree(states, steps) && i < |states|
    ensures Faithful(states[i])
  {
    if i == 0 {
    } else {
      FreeAddsStayFaithful(states, steps, i - 1);
      assert Runs.TakesStep(Next, states, steps, i - 1);
      FaithfulStep(states[i - 1], steps[i - 1]);
    }
  }

  /** In a run the registry is right at all times exactly when no Add ever meets a registered id. */
  lemma RegistryIsRightIff(states: seq<State>, steps: seq<Step>)
    requires IsRun(states, steps)
    ensures (forall i | 0 <= i < |states| :: Faithful(states[i])) <==> AddsAreFree(states, steps)
  {
    if AddsAreFree(states, steps) {
      forall i | 0 <= i < |states| ensures Faithful(states[i]) {
        FreeAddsStayFaithful(states, steps, i);
      }
    } else {
      var i :| 0 <= i < |steps| && steps[i].Add? && steps[i].c in states[i].conns
        && states[i].conns[steps[i].c].id in states[i].registry;
      assert Runs.TakesStep(Next, states, steps, i);
      TakenIdBreaksRegistry(states[i], steps[i].c);
    }
  }

  /** The connection that was registered is still read, and no longer found. */
  lemma TakenIdBreaksRegistry(s: State, c: ConnId)
    requires Enabled(s, Add(c)) && s.conns[c].id in s.registry
    ensures !(Faithful(s) && Faithful(Apply(s, Add(c))))
  {
    var id := s.conns[c].id;
    var former := s.registry[id];
    var s' := Apply(s, Add(c));
    if Faithful(s) {
      assert ConnAt(s, former, Reading) && s.conns[former].id == id;
      assert ConnAt(s', former, Reading) && s'.conns[former].id == id && s'.registry[id] != former;
    }
  }

  /** No two connections of one id are between check and Add at the same time. */
  ghost predicate OneAtATime(s: State) {
    forall c, d | ConnAt(s, c, Checked) && ConnAt(s, d, Checked) && c != d :: s.conns[c].id != s.conns[d].id
  }

  ghost predicate CheckedAreFree(s: State) {
    forall c | ConnAt(s, c, Checked) :: s.conns[c].id !in s.registry
  }

  lemma {:induction false} OneAtATimeKeepsFree(states: seq<State>, steps: seq<Step>, i: nat)
    requires IsRun(states, steps) && i < |states|
    requires forall j | 0 <= j < |states| :: OneAtATime(states[j])
    ensures CheckedAreFree(states[i])
  {
    if i == 0 {
    } else {
      OneAtATimeKeepsFree(states, steps, i - 1);
      var s, s', step := states[i - 1], states[i], steps[i - 1];
      assert Runs.TakesStep(Next, states, steps, i - 1);
      assert OneAtATime(s);
      forall c | ConnAt(s', c, Checked) ensures s'.conns[c].id !in s'.registry {
        if step.Add? {
          assert ConnAt(s, c, Checked) && ConnAt(s, step.c, Checked);
        }
      }
    }
  }

  /**
   It is enough that no two connections of one id overlap between check and Add, as with ids that are never reused.
  */
  lemma OneAtATimeSuffices(states: seq<State>, steps: seq<Step>)
    requires IsRun(states, steps)
    requires forall j | 0 <= j < |states| :: OneAtATime(states[j])
    ensures forall i | 0 <= i < |states| :: Faithful(states[i])
  {
    forall i | 0 <= i < |steps| ensures
      steps[i].Add? && steps[i].c in states[i].conns ==> states[i].conns[steps[i].c].id !in states[i].registry
    {
      OneAtATimeKeepsFree(states, steps, i);
      assert Runs.TakesStep(Next, states, steps, i);
    }
    RegistryIsRightIff(states, steps);
  }

  // ----- disconnect reports

  ghost predicate ReportInv(s: State) {
    forall c :: multiset(s.disconnects)[c] == if ConnAt(s, c, Reported) || ConnAt(s, c, Closed) then 1 else 0
  }

  lemma ReportStep(s: State, step: Step)
    requires ReportInv(s) && Enabled(s, step)
    ensures ReportInv(Apply(s, step))
  {
    var s' := Apply(s, step);
    forall c ensures multiset(s'.disconnects)[c] == if ConnAt(s', c, Reported) || ConnAt(s', c, Closed) then 1 else 0 {
      assert multiset(s.disconnects)[c] == if ConnAt(s, c, Reported) || ConnAt(s, c, Closed) then 1 else 0;
    }
  }

  lemma {:induction false} ReportsAreRight(states: seq<State>, steps: seq<Step>, i: nat)
    requires IsRun(states, steps) && i < |states|
    ensures ReportInv(states[i])
  {
    if i == 0 {
    } else {
      ReportsAreRight(states, steps, i - 1);
      assert Runs.TakesStep(Next, states, steps, i - 1);
      ReportStep(states[i - 1], steps[i - 1]);
    }
  }

  /**
   In every run, whatever ids collide, a connection has been reported at most once: exactly once when it has
   come to its end, never while it is read, and never when it was rejected.
  */
  lemma ReportedOnce(states: seq<State>, steps: seq<Step>, i: nat, c: ConnId)
    requires IsRun(states, steps) && i < |states|
    ensures ConnAt(states[i], c, Reported) || ConnAt(states[i], c, Closed) ==> multiset(states[i].disconnects)[c] == 1
    ensures c in states[i].disconnects ==> ConnAt(states[i], c, Reported) || ConnAt(states[i], c, Closed)
  {
    ReportsAreRight(states, steps, i);
    assert c in states[i].disconnects <==> multiset(states[i].disconnects)[c] > 0;
  }

  /** A connection is rejected exactly when its Accept failed or its id was registered when it was checked. */
  lemma {:induction false} RejectedIff(states: seq<State>, steps: seq<Step>, i: nat, c: ConnId)
    requires IsRun(states, steps) && i < |states|
    ensures ConnAt(states[i], c, Rejected) <==> exists k: nat | k < i :: IsRejection(states[k], steps[k], c)
  {
    if i == 0 {
    } else {
      RejectedIff(states, steps, i - 1, c);
      assert Runs.TakesStep(Next, states, steps, i - 1);
      RejectionStep(states[i - 1], steps[i - 1], c);
      if ConnAt(states[i - 1], c, Rejected) {
        var k: nat :| k < i - 1 && IsRejection(states[k], steps[k], c);
        assert k < i;
      }
    }
  }

  predicate IsRejection(s: State, step: Step, c: ConnId) {
    step == AcceptFails(c) || (step.Check? && step.c == c && step.id in s.registry)
  }

  lemma RejectionStep(s: State, step: Step, c: ConnId)
    requires Enabled(s, step)
    ensures ConnAt(Apply(s, step), c, Rejected) <==> ConnAt(s, c, Rejected) || IsRejection(s, step, c)
  {
  }

  /** It is closed exactly when it has come to its end. */
  lemma {:induction false} ClosedIff(states: seq<State>, steps: seq<Step>, i: nat, c: ConnId)
    requires IsRun(states, steps) && i < |states|
    ensures ConnAt(states[i], c, Closed) <==> exists k: nat | k < i :: steps[k] == Step.Close(c)
  {
    if i == 0 {
    } else {
      ClosedIff(states, steps, i - 1, c);
      assert Runs.TakesStep(Next, states, steps, i - 1);
      CloseStep(states[i - 1], steps[i - 1], c);
      if ConnAt(states[i - 1], c, Closed) {
        var k: nat :| k < i - 1 && steps[k] == Step.Close(c);
        assert k < i;
      }
    }
  }

  lemma CloseStep(s: State, step: Step, c: ConnId)
    requires Enabled(s, step)
    ensures ConnAt(Apply(s, step), c, Closed) <==> ConnAt(s, c, Closed) || step == Step.Close(c)
  {
  }

  /** Whatever the others do, a connection that is neither rejected nor closed can make its next step. */
  lemma ConnectionsGoOn(s: State, c: ConnId, id: bytes)
    ensures c !in s.conns ==> Enabled(s, Arrive(c))
    ensures c in s.conns ==>
      match s.conns[c].pc
      case Accepting => Enabled(s, AcceptFails(c)) && Enabled(s, Check(c, id))
      case Checked => Enabled(s, Add(c))
      case Reading => Enabled(s, Remove(c))
      case Ended => Enabled(s, Disconnect(c))
      case Reported => Enabled(s, Step.Close(c))
      case Rejected | Closed => true
  {
  }

  /** Rejected for good: a rejected connection makes no further step. */
  lemma {:induction false} RejectedStays(states: seq<State>, steps: seq<Step>, i: nat, j: nat, c: ConnId)
    requires IsRun(states, steps) && i <= j < |states| && ConnAt(states[i], c, Rejected)
    ensures ConnAt(states[j], c, Rejected) && c !in states[j].disconnects
    decreases j - i
  {
    ReportedOnce(states, steps, j, c);
    if i < j {
      RejectedStays(states, steps, i, j - 1, c);
      assert Runs.TakesStep(Next, states, steps, j - 1);
    }
  }

  lemma Extend(states: seq<State>, steps: seq<Step>, step: Step)
    returns (states': seq<State>, steps': seq<Step>)
    requires IsRun(states, steps) && Enabled(states[|states| - 1], step)
    ensures IsRun(states', steps')
    ensures states'[|states'| - 1] == Apply(states[|states| - 1], step)
  {
    states', steps' := Runs.Extend(INITIAL, Next, states, steps, step, Apply(states[|states| - 1], step));
  }

  /**
   Two connections of one id that are both checked before either is added: one is lost, and ends the other's entry.
  */
  lemma OverlapLosesAConnection(id: bytes) returns (states: seq<State>, steps: seq<Step>)
    ensures IsRun(states, steps)
    ensures var s := states[|states| - 1];
      ConnAt(s, 1, Reading) && s.conns[1].id == id && id !in s.registry
  {
    states, steps := [INITIAL], [];
    states, steps := Extend(states, steps, Arrive(0));
    states, steps := Extend(states, steps, Arrive(1));
    states, steps := Extend(states, steps, Check(0, id));
    states, steps := Extend(states, steps, Check(1, id));
    states, steps := Extend(states, steps, Add(0));
    states, steps := Extend(states, steps, Add(1));
    states, steps := Extend(states, steps, Remove(0));
  }
}
